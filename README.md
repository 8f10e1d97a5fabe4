# GetResponse WooCommerce Sync — a Dafny model

This project models the logic inside the GetResponse WooCommerce Sync
plugin for WordPress. When an order is completed, the plugin subscribes the
buyer to the GetResponse campaigns (mailing lists) that an administrator
mapped to the purchased products.

The model covers four pieces:

- **Mapping store** (`mapping_store.dfy`, module `MappingStore`): the settings
  sanitiser `grwc_options_sanitize`. It keeps the API key when it is not
  PHP-empty. It drops mapping rows whose product or campaign is PHP-empty,
  normalises each remaining row to `(intval(product), sanitize_text_field(campaign))`,
  and keeps the first occurrence of each `product|campaign` key in input order.
  `SanitizeMapping` is the loop with its `$seen` set, proved equal to the
  specification `FirstOccurrences`. Lemmas then prove that function sound,
  complete and duplicate-free. They also show when a second pass changes
  nothing and when it does.
- **Order subscription** (`order_subscription.dfy`, module `OrderSubscription`):
  the handler `gr_subscribe_on_order`. It returns without a call when there is
  no order, the trimmed key is PHP-falsy, or the mapping is empty. Otherwise it
  emits one `grwc_create_contact` call per (item, mapping row) pair whose
  product ids match: items in order, rows in order. The calls are returned as a
  log. Lemmas state where each call sits, how many calls there are, that a
  campaign repeated across items is called once per item, and how the buyer
  name is built.
- **Contact API outcome** (`contact_api.dfy`, module `ContactApi`): the
  logged/silent decision in `grwc_create_contact`. It is related to the
  outcome taxonomy (transport failure, already subscribed, rejection, accepted)
  and to the status classes of section 15 of RFC 9110.
- **Settings editor** (`settings_editor.dfy`, module `SettingsEditor`): the
  number of rows `grwc_mapping_render` draws, and the browser script's
  add/remove/renumber rules, as functions on the list of table rows.

`php_values.dfy` (module `PhpValues`) gives the PHP semantics these rely on:
`empty()`, `intval()` (leading whitespace, sign and digits, saturating at the
64-bit bounds), integer-to-string conversion, and `trim()`. It proves that
`intval` reads back an integer's decimal text and that decimal text is
injective. With that, the sanitiser's string key `intval . '|' . campaign`
identifies the stored row. `wrappers.dfy` holds `Option`.

`sanitize_text_field` is a function parameter (`TextSanitizer`) with no
assumed properties, except where a lemma states that it is idempotent.
Network replies, the stored option array and the WooCommerce order are
parameters.

### Where the code and its design description differ

The model follows the code:

- The design says a blank API key such as `"  "` is not kept. The code tests
  `empty()`, which is false for `"  "`, so it stores `sanitize_text_field("  ")`
  (`MappingStore.Sanitized`).
- The design says sanitising twice gives the same result. The code does not
  guarantee this. A non-numeric product is stored as 0 and dropped on a second
  pass (`MappingStore.NonNumericProductNotIdempotent`). A mapping whose rows
  were all dropped is stored as an empty array and disappears on a second pass.
  `MappingStore.SanitizeIdempotent` proves idempotence when no stored value is
  PHP-empty.
- The design says product ids are positive. The code accepts any non-zero
  `intval`, including negative ones, and any non-empty product string,
  including non-numeric text, which becomes 0.
- The handler's key test is PHP truthiness. A trimmed key of `"0"` makes the
  handler idle, just like an empty key.

## Model

| member | source | states |
|---|---|---|
| PhpValues.IntValOfDecimalString | getresponse-woocommerce-sync.php:232 | `intval` of the decimal text of any 64-bit integer is that integer, so a stored product id survives a re-save |
| PhpValues.DecimalStringInjective | getresponse-woocommerce-sync.php:226 | different integers have different decimal text, so different products give different `$seen` key prefixes |
| PhpValues.TrimStart | getresponse-woocommerce-sync.php:255 | result is a suffix of the input, everything dropped is a trim character, and the result does not start with one |
| PhpValues.TrimEnd | getresponse-woocommerce-sync.php:255 | result is a prefix of the input, everything dropped is a trim character, and the result does not end with one |
| PhpValues.Trim | getresponse-woocommerce-sync.php:255 | the trimmed key or name neither starts nor ends with a trim character and is no longer than the input |
| PhpValues.TrimUnique | getresponse-woocommerce-sync.php:262 | for any string without surrounding trim characters, `trim` returns it whatever trim characters surround it |
| MappingStore.KeyInjective | getresponse-woocommerce-sync.php:226-227 | two stored rows with the same `intval . '\|' . campaign` key are the same row |
| MappingStore.SeenMeansRepeated | getresponse-woocommerce-sync.php:226-230 | a complete row's key is already in `$seen` exactly when an earlier complete row normalises to the same stored row |
| MappingStore.FirstOccurrences | getresponse-woocommerce-sync.php:220-235 | the stored mapping is never longer than the submitted one |
| MappingStore.SanitizeMapping | getresponse-woocommerce-sync.php:220-236 | the `$seen`/`$uniq` loop produces exactly the normalised first occurrences of the complete rows, in input order |
| MappingStore.Sanitized | getresponse-woocommerce-sync.php:210-240 | `grwc_api_key` is present iff the input key is non-empty, and is then its sanitised text; `grwc_mapping` is present iff a non-empty array was submitted, and has at most as many rows |
| MappingStore.Sanitize | getresponse-woocommerce-sync.php:210-240 | the sanitiser returns exactly `Sanitized(input)` |
| MappingStore.FirstOccurrencesSound | getresponse-woocommerce-sync.php:223-234 | every stored row is `(intval(product), sanitize(campaign))` of an input row with both fields non-empty and no earlier equal row; rows with an empty field are never emitted |
| MappingStore.FirstOccurrencesComplete | getresponse-woocommerce-sync.php:222-234 | the normalised form of every complete input row is in the stored mapping |
| MappingStore.FirstOccurrencesDistinct | getresponse-woocommerce-sync.php:226-230 | no two stored rows are equal and no two share a `$seen` key |
| MappingStore.SanitizeKeepsSettled | getresponse-woocommerce-sync.php:210-240 | settings whose values are non-empty, distinct and unchanged by `sanitize_text_field` come back unchanged from the sanitiser |
| MappingStore.SanitizeIdempotent | getresponse-woocommerce-sync.php:210-240 | sanitising the stored result again gives the same result when `sanitize_text_field` is idempotent and the first pass stored nothing PHP-empty |
| MappingStore.NonNumericProductNotIdempotent | getresponse-woocommerce-sync.php:223-232 | product `"abc"` is stored as 0 by one pass, and a second pass drops that row |
| ContactApi.Classify | getresponse-woocommerce-sync.php:290-297 | logged iff transport error, or a status code that is at least 400 and not 409; a missing code is silent |
| ContactApi.LoggedIffFailure | getresponse-woocommerce-sync.php:290-297 | logged exactly for transport failures and rejections; "already subscribed" (409) and accepted replies are silent |
| ContactApi.LoggedByStatusClass | getresponse-woocommerce-sync.php:294 | for RFC 9110 status codes, logged iff client or server error other than 409 Conflict |
| OrderSubscription.RowCalls | getresponse-woocommerce-sync.php:266-270 | one item gets at most one call per mapping row, all with the order's key, email and name |
| OrderSubscription.ItemCalls | getresponse-woocommerce-sync.php:264-271 | every call carries the order's key, email and name |
| OrderSubscription.SubscribeOnOrder | getresponse-woocommerce-sync.php:247-272 | no call when idle; otherwise the nested loops emit exactly `ItemCalls`: for each item in order, the matching mapping rows in order |
| OrderSubscription.IdleIssuesNothing | getresponse-woocommerce-sync.php:252-259 | no order, a trimmed key of "" or "0", or an empty mapping gives zero calls |
| OrderSubscription.CallsAreMatches | getresponse-woocommerce-sync.php:264-271 | every call is for a mapping row whose product equals some item's product id, with that row's campaign |
| OrderSubscription.RowCallsAreMatches | getresponse-woocommerce-sync.php:266-270 | every call for one item is for a mapping row whose product equals that item's id |
| OrderSubscription.RowCallAt | getresponse-woocommerce-sync.php:266-270 | each matching mapping row has its call at its own position among the item's calls |
| OrderSubscription.ItemCallsPrefix | getresponse-woocommerce-sync.php:264-271 | calls for earlier items come before calls for later items |
| OrderSubscription.PairCalled | getresponse-woocommerce-sync.php:264-271 | every matching (item, mapping row) pair yields a call with that row's campaign, at a fixed position |
| OrderSubscription.PositionsIncrease | getresponse-woocommerce-sync.php:264-271 | calls follow item order first, then mapping order |
| OrderSubscription.RepeatedCampaignCalledTwice | getresponse-woocommerce-sync.php:264-271 | two items mapped to the same campaign give two identical calls: no deduplication |
| OrderSubscription.RowCallsCount | getresponse-woocommerce-sync.php:266-270 | one item gets exactly as many calls as there are mapping rows with its product id |
| OrderSubscription.CallCount | getresponse-woocommerce-sync.php:264-271 | the number of calls equals the number of matching (item, mapping row) pairs |
| OrderSubscription.CallsCarryBuyer | getresponse-woocommerce-sync.php:261-268 | every call carries the billing email, `trim(first . ' ' . last)` and the trimmed key |
| OrderSubscription.BuyerNameJoins | getresponse-woocommerce-sync.php:262 | names without surrounding whitespace are joined by exactly one space |
| OrderSubscription.BuyerNameFirstOnly | getresponse-woocommerce-sync.php:262 | an empty last name leaves no trailing space |
| OrderSubscription.BuyerNameLastOnly | getresponse-woocommerce-sync.php:262 | an empty first name leaves no leading space |
| SettingsEditor.InitialRows | getresponse-woocommerce-sync.php:112-119 | one row per stored mapping row in stored order, or a single unselected row when the mapping is missing or empty; never zero rows |
| SettingsEditor.AddRow | getresponse-woocommerce-sync.php:140-145 | corrected "Add row": the table grows by one unselected row and existing rows are untouched |
| SettingsEditor.RemoveRow | getresponse-woocommerce-sync.php:147-150 | the clicked row disappears and the other rows keep their order |
| SettingsEditor.AddRowAsWrittenStuckWhenEmpty | getresponse-woocommerce-sync.php:140-145 | after removing the only row, the written "Add row" leaves the table empty |
| SettingsEditor.AddRowAsWrittenAgrees | getresponse-woocommerce-sync.php:140-145 | on a non-empty table the written "Add row" equals the corrected one |
| SettingsEditor.AddRowWorksAfterRender | getresponse-woocommerce-sync.php:112-145 | on the table as first drawn, the written "Add row" behaves as intended |
| SettingsEditor.RemoveUndoesAdd | getresponse-woocommerce-sync.php:140-150 | removing the row just added restores the table |
| SettingsEditor.FieldNamesDistinct | getresponse-woocommerce-sync.php:128-135 | after renumbering no two selects share a form field name, so each row is submitted under its own index |

## Left out

- HTTP calls (`wp_remote_get`, `wp_remote_post`), the JSON request body, the `X-Auth-Token` header and the 20-second timeout are network I/O. A reply is a `ContactApi.Response` value. The handler's loop never reads it, so outcomes cannot change which calls are made.
- The campaign list fetched when the editor is drawn (lines 92-104) is network I/O and is not modelled.
- WordPress settings registration, `get_option` and the admin page are host-framework calls. The stored option array is a `Settings` parameter, and a never-saved option is `Settings(None, None)`.
- `class_exists('WC_Order')` and `wc_get_order` are host lookups. Both are folded into the `Option<Order>` parameter: a missing class or order is `None`.
- WooCommerce accessors are taken as given: billing fields and the product id of each item.
- HTML output, escaping and the `selected` pre-selection of `<option>`s are UI output. Each editor row holds the stored ids it is drawn for.
- The `error_log` message text is log output. Only the logged/silent decision is modelled.
- `sanitize_text_field` is not modelled. It is a parameter of the sanitiser.
- `PhpValues.IntVal` reads only leading whitespace, a sign and decimal digits. PHP also reads exponent and fraction notation, so `intval("1e3")` is 1000, and very long digit strings pass through a float. Neither changes the properties proved here, which hold for any integer the conversion returns.
- Non-scalar field values, such as a nested array submitted as `product`, are not modelled. A row that is not an array reads as both fields missing, as `empty()` does on its offsets.
- The browser's DOM itself is not modelled. The editor script is modelled as list functions on the sequence of table rows.

## Findings

| source | as written | input that shows it | evidently intended | confidence | as-written member | corrected member |
|---|---|---|---|---|---|---|
| getresponse-woocommerce-sync.php:140-145 | "Add row" clones the jQuery selection `tr:first`, which is empty once every row has been removed, so nothing is appended | draw the editor with one row, click its remove button, then click "Add row" | an unselected row is appended whatever the table holds | medium, not executed | SettingsEditor.AddRowAsWrittenStuckWhenEmpty | SettingsEditor.AddRow |
