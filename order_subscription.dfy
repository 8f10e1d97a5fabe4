/**
 * The completed-order handler `gr_subscribe_on_order`: which contact-creation
 * calls it issues, in which order, for an order and the stored settings.
 */
module OrderSubscription {
  import opened Wrappers
  import opened PhpValues
  import opened MappingStore

  /**
   * The parts of a WooCommerce order the handler reads: billing email, first
   * and last name, and the product id of each line item in item order.
   */
  datatype Order = Order(billingEmail: string, billingFirstName: string, billingLastName: string, items: seq<int>)

  /** The fixed arguments of every call for one order: API key, email, buyer name. */
  datatype Recipient = Recipient(apiKey: string, email: string, name: string)

  /** One `grwc_create_contact($apikey, $email, $name, $campaign)` call. */
  datatype ContactCall = ContactCall(to: Recipient, campaign: string)

  /** `trim($first . ' ' . $last)`. */
  function BuyerName(first: string, last: string): string {
    Trim(first + " " + last)
  }

  /** `trim($opts['grwc_api_key'] ?? '')`. */
  function ConfiguredKey(s: Settings): string {
    Trim(s.apiKey.GetOr(""))
  }

  /** `$opts['grwc_mapping'] ?? []`. */
  function ConfiguredMapping(s: Settings): seq<MappingRow> {
    s.mapping.GetOr([])
  }

  /** `!$order || !$apikey || empty($map)`: the handler returns without a call. */
  predicate Idle(order: Option<Order>, s: Settings) {
    order.None? || Empty(Str(ConfiguredKey(s))) || ConfiguredMapping(s) == []
  }

  function RecipientOf(o: Order, s: Settings): Recipient {
    Recipient(ConfiguredKey(s), o.billingEmail, BuyerName(o.billingFirstName, o.billingLastName))
  }

  /** The calls for the first `n` mapping rows against one item's product id, in mapping order. */
  function RowCalls(rows: seq<MappingRow>, n: nat, pid: int, to: Recipient): (calls: seq<ContactCall>)
    requires n <= |rows|
    ensures |calls| <= n
    ensures forall c :: c in calls ==> c.to == to
  {
    if n == 0 then []
    else RowCalls(rows, n - 1, pid, to) + (if rows[n - 1].product == pid then [ContactCall(to, rows[n - 1].campaign)] else [])
  }

  /** The calls for the first `n` items, each followed by the next: items in order, rows in order. */
  function ItemCalls(items: seq<int>, n: nat, rows: seq<MappingRow>, to: Recipient): (calls: seq<ContactCall>)
    requires n <= |items|
    ensures forall c :: c in calls ==> c.to == to
  {
    if n == 0 then []
    else ItemCalls(items, n - 1, rows, to) + RowCalls(rows, |rows|, items[n - 1], to)
  }

  /** The calls the handler issues for an order and the stored settings. */
  function PlannedCalls(order: Option<Order>, s: Settings): seq<ContactCall> {
    if Idle(order, s) then []
    else
      var o := order.value;
      ItemCalls(o.items, |o.items|, ConfiguredMapping(s), RecipientOf(o, s))
  }

  /**
   * `gr_subscribe_on_order`: for each item in order, for each mapping row in
   * order, one call when `intval($m['product']) === $pid`. `calls` is the log of
   * the `grwc_create_contact` calls issued; their outcomes do not affect the loop.
   */
  method SubscribeOnOrder(order: Option<Order>, settings: Settings) returns (calls: seq<ContactCall>)
    ensures Idle(order, settings) ==> calls == []
    ensures !Idle(order, settings) ==>
      calls == ItemCalls(order.value.items, |order.value.items|, ConfiguredMapping(settings), RecipientOf(order.value, settings))
  {
    calls := [];
    var mapping := settings.mapping.GetOr([]);
    var apiKey := Trim(settings.apiKey.GetOr(""));
    if order.None? || Empty(Str(apiKey)) || mapping == [] {
      return;
    }
    var o := order.value;
    var to := Recipient(apiKey, o.billingEmail, BuyerName(o.billingFirstName, o.billingLastName));
    for i := 0 to |o.items|
      invariant calls == ItemCalls(o.items, i, mapping, to)
    {
      var pid := o.items[i];
      for k := 0 to |mapping|
        invariant calls == ItemCalls(o.items, i, mapping, to) + RowCalls(mapping, k, pid, to)
      {
        if mapping[k].product == pid {
          calls := calls + [ContactCall(to, mapping[k].campaign)];
        }
      }
    }
  }

  /** When the handler is idle it issues no call at all. */
  lemma IdleIssuesNothing(order: Option<Order>, s: Settings)
    requires order.None? || Trim(s.apiKey.GetOr("")) in {"", "0"} || s.mapping.GetOr([]) == []
    ensures PlannedCalls(order, s) == []
  {
  }

  /**
   * Every call goes to a campaign of a mapping row whose product is the product
   * of some item, with the order's fixed key, email and name.
   */
  lemma {:induction false} CallsAreMatches(items: seq<int>, n: nat, rows: seq<MappingRow>, to: Recipient)
    requires n <= |items|
    ensures forall c :: c in ItemCalls(items, n, rows, to) ==>
      exists i, k :: 0 <= i < n && 0 <= k < |rows| && rows[k].product == items[i] && c == ContactCall(to, rows[k].campaign)
  {
    if n > 0 {
      CallsAreMatches(items, n - 1, rows, to);
      RowCallsAreMatches(rows, |rows|, items[n - 1], to);
    }
  }

  lemma {:induction false} RowCallsAreMatches(rows: seq<MappingRow>, m: nat, pid: int, to: Recipient)
    requires m <= |rows|
    ensures forall c :: c in RowCalls(rows, m, pid, to) ==>
      exists k :: 0 <= k < m && rows[k].product == pid && c == ContactCall(to, rows[k].campaign)
  {
    if m > 0 {
      RowCallsAreMatches(rows, m - 1, pid, to);
    }
  }

  /** Position of the call for mapping row `k` among one item's calls. */
  lemma {:induction false} RowCallAt(rows: seq<MappingRow>, m: nat, pid: int, to: Recipient, k: nat)
    requires k < m <= |rows| && rows[k].product == pid
    ensures var p := |RowCalls(rows, k, pid, to)|;
      p < |RowCalls(rows, m, pid, to)| && RowCalls(rows, m, pid, to)[p] == ContactCall(to, rows[k].campaign)
  {
    if m - 1 > k {
      RowCallAt(rows, m - 1, pid, to, k);
    }
  }

  /** The calls for fewer items are a prefix of the calls for more. */
  lemma {:induction false} ItemCallsPrefix(items: seq<int>, i: nat, n: nat, rows: seq<MappingRow>, to: Recipient)
    requires i <= n <= |items|
    ensures ItemCalls(items, i, rows, to) <= ItemCalls(items, n, rows, to)
  {
    if i < n {
      ItemCallsPrefix(items, i, n - 1, rows, to);
      var shorter := ItemCalls(items, i, rows, to);
      var middle := ItemCalls(items, n - 1, rows, to);
      var longer := ItemCalls(items, n, rows, to);
      assert longer == middle + RowCalls(rows, |rows|, items[n - 1], to);
      assert longer[..|middle|] == middle;
      assert longer[..|shorter|] == middle[..|shorter|] == shorter;
    }
  }

  /** The offset at which the call for item `i` and mapping row `k` sits. */
  function CallPosition(items: seq<int>, rows: seq<MappingRow>, to: Recipient, i: nat, k: nat): nat
    requires i < |items| && k <= |rows|
  {
    |ItemCalls(items, i, rows, to)| + |RowCalls(rows, k, items[i], to)|
  }

  /**
   * Every matching (item, mapping row) pair yields its own call, at a fixed
   * position: nothing is skipped and nothing is merged.
   */
  lemma PairCalled(items: seq<int>, rows: seq<MappingRow>, to: Recipient, i: nat, k: nat)
    requires i < |items| && k < |rows| && rows[k].product == items[i]
    ensures var calls := ItemCalls(items, |items|, rows, to);
      var p := CallPosition(items, rows, to, i, k);
      p < |calls| && calls[p] == ContactCall(to, rows[k].campaign)
  {
    var calls := ItemCalls(items, |items|, rows, to);
    var before := ItemCalls(items, i, rows, to);
    var own := RowCalls(rows, |rows|, items[i], to);
    var p := CallPosition(items, rows, to, i, k);
    RowCallAt(rows, |rows|, items[i], to, k);
    ItemCallsPrefix(items, i + 1, |items|, rows, to);
    assert ItemCalls(items, i + 1, rows, to) == before + own;
    assert (before + own)[p] == own[p - |before|];
    assert calls[p] == (before + own)[p];
  }

  /** Matching pairs in (item, row) order sit at strictly increasing positions. */
  lemma PositionsIncrease(items: seq<int>, rows: seq<MappingRow>, to: Recipient, i1: nat, k1: nat, i2: nat, k2: nat)
    requires i1 < |items| && k1 < |rows| && rows[k1].product == items[i1]
    requires i2 < |items| && k2 < |rows| && rows[k2].product == items[i2]
    requires i1 < i2 || (i1 == i2 && k1 < k2)
    ensures CallPosition(items, rows, to, i1, k1) < CallPosition(items, rows, to, i2, k2)
  {
    if i1 < i2 {
      RowCallAt(rows, |rows|, items[i1], to, k1);
      ItemCallsPrefix(items, i1 + 1, i2, rows, to);
      assert |ItemCalls(items, i1 + 1, rows, to)| ==
        |ItemCalls(items, i1, rows, to)| + |RowCalls(rows, |rows|, items[i1], to)|;
    } else {
      RowCallAt(rows, k2, items[i1], to, k1);
    }
  }

  /**
   * Two items that map to the same campaign (through different product rows,
   * or the same one) give two calls for that campaign: there is no local
   * deduplication.
   */
  lemma RepeatedCampaignCalledTwice(items: seq<int>, rows: seq<MappingRow>, to: Recipient, i1: nat, k1: nat, i2: nat, k2: nat)
    requires i1 < i2 < |items| && k1 < |rows| && k2 < |rows|
    requires rows[k1].product == items[i1] && rows[k2].product == items[i2]
    requires rows[k1].campaign == rows[k2].campaign
    ensures var calls := ItemCalls(items, |items|, rows, to);
      exists p1, p2 :: 0 <= p1 < p2 < |calls| && calls[p1] == calls[p2] == ContactCall(to, rows[k1].campaign)
  {
    PairCalled(items, rows, to, i1, k1);
    PairCalled(items, rows, to, i2, k2);
    PositionsIncrease(items, rows, to, i1, k1, i2, k2);
    var calls := ItemCalls(items, |items|, rows, to);
    var p1 := CallPosition(items, rows, to, i1, k1);
    var p2 := CallPosition(items, rows, to, i2, k2);
    assert calls[p1] == calls[p2];
  }

  /** The matching (row) indices among the first `m` rows, paired with item index `i`. */
  function RowPairs(i: nat, rows: seq<MappingRow>, m: nat, pid: int): set<(nat, nat)>
    requires m <= |rows|
  {
    set k: nat | k < m && rows[k].product == pid :: (i, k)
  }

  /** All matching (item, row) index pairs among the first `n` items. */
  function MatchingPairs(items: seq<int>, n: nat, rows: seq<MappingRow>): set<(nat, nat)>
    requires n <= |items|
  {
    set i: nat, k: nat | i < n && k < |rows| && rows[k].product == items[i] :: (i, k)
  }

  lemma {:induction false} RowCallsCount(i: nat, rows: seq<MappingRow>, m: nat, pid: int, to: Recipient)
    requires m <= |rows|
    ensures |RowCalls(rows, m, pid, to)| == |RowPairs(i, rows, m, pid)|
  {
    if m > 0 {
      RowCallsCount(i, rows, m - 1, pid, to);
      var prev := RowPairs(i, rows, m - 1, pid);
      if rows[m - 1].product == pid {
        assert RowPairs(i, rows, m, pid) == prev + {(i, m - 1)};
        assert (i, m - 1) !in prev;
      } else {
        assert RowPairs(i, rows, m, pid) == prev;
      }
    }
  }

  /** The handler issues exactly one call per matching (item, mapping row) pair. */
  lemma {:induction false} CallCount(items: seq<int>, n: nat, rows: seq<MappingRow>, to: Recipient)
    requires n <= |items|
    ensures |ItemCalls(items, n, rows, to)| == |MatchingPairs(items, n, rows)|
  {
    if n > 0 {
      CallCount(items, n - 1, rows, to);
      RowCallsCount(n - 1, rows, |rows|, items[n - 1], to);
      var prev := MatchingPairs(items, n - 1, rows);
      var last := RowPairs(n - 1, rows, |rows|, items[n - 1]);
      assert MatchingPairs(items, n, rows) == prev + last;
      assert prev * last == {};
    }
  }

  /** Every call carries the order's billing email and the trimmed full name. */
  lemma CallsCarryBuyer(o: Order, s: Settings)
    requires !Idle(Some(o), s)
    ensures forall c :: c in PlannedCalls(Some(o), s) ==>
      c.to.email == o.billingEmail && c.to.name == Trim(o.billingFirstName + " " + o.billingLastName) &&
      c.to.apiKey == Trim(s.apiKey.value)
  {
  }

  /** Names without surrounding whitespace are joined with one space. */
  lemma BuyerNameJoins(first: string, last: string)
    requires first != [] && !IsTrimChar(first[0]) && !IsTrimChar(first[|first| - 1])
    requires last != [] && !IsTrimChar(last[0]) && !IsTrimChar(last[|last| - 1])
    ensures BuyerName(first, last) == first + " " + last
  {
    TrimUnique([], first + " " + last, []);
    assert [] + (first + " " + last) + [] == first + " " + last;
  }

  /** A missing last name leaves no trailing space. */
  lemma BuyerNameFirstOnly(first: string)
    requires first == [] || (!IsTrimChar(first[0]) && !IsTrimChar(first[|first| - 1]))
    ensures BuyerName(first, "") == first
  {
    var joined := first + " " + "";
    assert joined == [] + first + " ";
    TrimUnique([], first, " ");
  }

  /** A missing first name leaves no leading space. */
  lemma BuyerNameLastOnly(last: string)
    requires last == [] || (!IsTrimChar(last[0]) && !IsTrimChar(last[|last| - 1]))
    ensures BuyerName("", last) == last
  {
    var joined := "" + " " + last;
    assert joined == " " + last + [];
    TrimUnique(" ", last, []);
  }
}
