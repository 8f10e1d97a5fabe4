/**
 * The settings sanitiser `grwc_options_sanitize`: the only path by which the
 * stored `grwc_options` array (API key and product-to-campaign mapping) changes.
 */
module MappingStore {
  import opened Wrappers
  import opened PhpValues

  /** One submitted mapping row: `$row['product']` and `$row['campaign']`, Null when missing. */
  datatype RawRow = RawRow(product: Scalar, campaign: Scalar)

  /** `$input['grwc_mapping']`: an array of rows, or any other value (Null when missing). */
  datatype RawMapping = Rows(rows: seq<RawRow>) | NotRows(value: Scalar)

  /** The unsanitised settings array handed to the sanitiser. */
  datatype RawInput = RawInput(apiKey: Scalar, mapping: RawMapping)

  /** A stored mapping row: `['product' => int, 'campaign' => string]`. */
  datatype MappingRow = MappingRow(product: int, campaign: string)

  /** The stored `grwc_options` array; each key is present or missing. */
  datatype Settings = Settings(apiKey: Option<string>, mapping: Option<seq<MappingRow>>)

  /** WordPress `sanitize_text_field`, taken as given. */
  type TextSanitizer = string -> string

  /** `!empty($m) && is_array($m)`. */
  predicate MappingGiven(m: RawMapping) {
    m.Rows? && m.rows != []
  }

  /** A row with both fields non-empty survives the first filter. */
  predicate Complete(r: RawRow) {
    !Empty(r.product) && !Empty(r.campaign)
  }

  /** The stored form of a row: `intval` of the product, the sanitised campaign. */
  function Normalise(r: RawRow, clean: TextSanitizer): MappingRow {
    MappingRow(IntVal(r.product), clean(ToText(r.campaign)))
  }

  /** The `$seen` key: `intval(product) . '|' . campaign`. */
  function Key(m: MappingRow): string {
    DecimalString(m.product) + "|" + m.campaign
  }

  /** Row `i` is complete and no earlier complete row normalises to the same stored row. */
  predicate IsFirst(rows: seq<RawRow>, i: int, clean: TextSanitizer)
    requires 0 <= i < |rows|
  {
    Complete(rows[i]) &&
    forall j :: 0 <= j < i && Complete(rows[j]) ==> Normalise(rows[j], clean) != Normalise(rows[i], clean)
  }

  /** The normalised first occurrences among the first `n` rows, in input order. */
  function FirstOccurrences(rows: seq<RawRow>, n: nat, clean: TextSanitizer): (out: seq<MappingRow>)
    requires n <= |rows|
    ensures |out| <= n
  {
    if n == 0 then []
    else
      FirstOccurrences(rows, n - 1, clean)
      + (if IsFirst(rows, n - 1, clean) then [Normalise(rows[n - 1], clean)] else [])
  }

  /** The keys of all complete rows among the first `n`: the contents of `$seen`. */
  function SeenKeys(rows: seq<RawRow>, n: nat, clean: TextSanitizer): set<string>
    requires n <= |rows|
  {
    set j | 0 <= j < n && Complete(rows[j]) :: Key(Normalise(rows[j], clean))
  }

  /** The string key determines the stored row: the product's decimal text never contains '|'. */
  lemma KeyInjective(x: MappingRow, y: MappingRow)
    requires Key(x) == Key(y)
    ensures x == y
  {
    DecimalStringAvoids(x.product, '|');
    DecimalStringAvoids(y.product, '|');
    SplitAtSeparator(DecimalString(x.product), x.campaign, DecimalString(y.product), y.campaign, '|');
    DecimalStringInjective(x.product, y.product);
  }

  /** A complete row's key is already in `$seen` exactly when the row is not a first occurrence. */
  lemma SeenMeansRepeated(rows: seq<RawRow>, i: nat, clean: TextSanitizer)
    requires i < |rows| && Complete(rows[i])
    ensures Key(Normalise(rows[i], clean)) in SeenKeys(rows, i, clean) <==> !IsFirst(rows, i, clean)
  {
    var key := Key(Normalise(rows[i], clean));
    if key in SeenKeys(rows, i, clean) {
      var j :| 0 <= j < i && Complete(rows[j]) && Key(Normalise(rows[j], clean)) == key;
      KeyInjective(Normalise(rows[j], clean), Normalise(rows[i], clean));
    } else {
      forall j | 0 <= j < i && Complete(rows[j])
        ensures Normalise(rows[j], clean) != Normalise(rows[i], clean)
      {
        assert Key(Normalise(rows[j], clean)) in SeenKeys(rows, i, clean);
      }
    }
  }

  /** `$seen` grows by the key of each complete row. */
  lemma SeenKeysStep(rows: seq<RawRow>, i: nat, clean: TextSanitizer)
    requires i < |rows|
    ensures SeenKeys(rows, i + 1, clean) ==
      SeenKeys(rows, i, clean) + (if Complete(rows[i]) then {Key(Normalise(rows[i], clean))} else {})
  {
  }

  /**
   * The loop of `grwc_options_sanitize`: skip incomplete rows, skip rows whose
   * key is in `$seen`, otherwise record the key and append the normalised row.
   */
  method SanitizeMapping(rows: seq<RawRow>, clean: TextSanitizer) returns (uniq: seq<MappingRow>)
    ensures uniq == FirstOccurrences(rows, |rows|, clean)
  {
    var seen: set<string> := {};
    uniq := [];
    for i := 0 to |rows|
      invariant seen == SeenKeys(rows, i, clean)
      invariant uniq == FirstOccurrences(rows, i, clean)
    {
      var row := rows[i];
      SeenKeysStep(rows, i, clean);
      if Empty(row.product) || Empty(row.campaign) {
        continue;
      }
      var key := DecimalString(IntVal(row.product)) + "|" + clean(ToText(row.campaign));
      assert key == Key(Normalise(row, clean));
      SeenMeansRepeated(rows, i, clean);
      if key in seen {
        continue;
      }
      seen := seen + {key};
      uniq := uniq + [MappingRow(IntVal(row.product), clean(ToText(row.campaign)))];
    }
  }

  /**
   * What `grwc_options_sanitize` returns for `input`: the API key when it is
   * non-empty, and the deduplicated mapping when a non-empty array was given.
   */
  function Sanitized(input: RawInput, clean: TextSanitizer): (out: Settings)
    ensures out.apiKey.Some? <==> !Empty(input.apiKey)
    ensures out.apiKey.Some? ==> out.apiKey.value == clean(ToText(input.apiKey))
    ensures out.mapping.Some? <==> MappingGiven(input.mapping)
    ensures out.mapping.Some? ==> |out.mapping.value| <= |input.mapping.rows|
  {
    Settings(
      if Empty(input.apiKey) then None else Some(clean(ToText(input.apiKey))),
      if MappingGiven(input.mapping)
      then Some(FirstOccurrences(input.mapping.rows, |input.mapping.rows|, clean))
      else None)
  }

  /** `grwc_options_sanitize($input)`. */
  method Sanitize(input: RawInput, clean: TextSanitizer) returns (output: Settings)
    ensures output == Sanitized(input, clean)
  {
    var apiKey: Option<string> := None;
    if !Empty(input.apiKey) {
      apiKey := Some(clean(ToText(input.apiKey)));
    }
    var mapping: Option<seq<MappingRow>> := None;
    if MappingGiven(input.mapping) {
      var uniq := SanitizeMapping(input.mapping.rows, clean);
      mapping := Some(uniq);
    }
    output := Settings(apiKey, mapping);
  }

  /** `m` is the normalised form of a first occurrence among the first `n` rows. */
  ghost predicate FromFirstOccurrence(rows: seq<RawRow>, n: nat, clean: TextSanitizer, m: MappingRow)
    requires n <= |rows|
  {
    exists i :: 0 <= i < n && IsFirst(rows, i, clean) && m == Normalise(rows[i], clean)
  }

  /**
   * Every stored row is the normalised form of a complete input row that is
   * the first of its kind: incomplete rows are never emitted.
   */
  lemma {:induction false} FirstOccurrencesSound(rows: seq<RawRow>, n: nat, clean: TextSanitizer)
    requires n <= |rows|
    ensures forall k :: 0 <= k < |FirstOccurrences(rows, n, clean)| ==>
      FromFirstOccurrence(rows, n, clean, FirstOccurrences(rows, n, clean)[k])
  {
    if n > 0 {
      var prev := FirstOccurrences(rows, n - 1, clean);
      var out := FirstOccurrences(rows, n, clean);
      FirstOccurrencesSound(rows, n - 1, clean);
      forall k | 0 <= k < |out|
        ensures FromFirstOccurrence(rows, n, clean, out[k])
      {
        if k < |prev| {
          assert FromFirstOccurrence(rows, n - 1, clean, prev[k]);
          var i :| 0 <= i < n - 1 && IsFirst(rows, i, clean) && prev[k] == Normalise(rows[i], clean);
          assert out[k] == prev[k];
        } else {
          assert IsFirst(rows, n - 1, clean) && out[k] == Normalise(rows[n - 1], clean);
        }
      }
    }
  }

  /** Every complete input row is represented: its normalised form is stored. */
  lemma {:induction false} FirstOccurrencesComplete(rows: seq<RawRow>, n: nat, clean: TextSanitizer)
    requires n <= |rows|
    ensures forall i :: 0 <= i < n && Complete(rows[i]) ==>
      Normalise(rows[i], clean) in FirstOccurrences(rows, n, clean)
  {
    if n > 0 {
      FirstOccurrencesComplete(rows, n - 1, clean);
      var last := n - 1;
      if Complete(rows[last]) && !IsFirst(rows, last, clean) {
        var j :| 0 <= j < last && Complete(rows[j]) && Normalise(rows[j], clean) == Normalise(rows[last], clean);
        assert Normalise(rows[j], clean) in FirstOccurrences(rows, last, clean);
      }
    }
  }

  /** No two rows are equal and no two share a `$seen` key. */
  predicate Distinct(m: seq<MappingRow>) {
    forall a, b :: 0 <= a < b < |m| ==> m[a] != m[b] && Key(m[a]) != Key(m[b])
  }

  /** No two stored rows are equal, and no two share a `$seen` key. */
  lemma {:induction false} FirstOccurrencesDistinct(rows: seq<RawRow>, n: nat, clean: TextSanitizer)
    requires n <= |rows|
    ensures Distinct(FirstOccurrences(rows, n, clean))
  {
    var out := FirstOccurrences(rows, n, clean);
    if n > 0 {
      var prev := FirstOccurrences(rows, n - 1, clean);
      FirstOccurrencesDistinct(rows, n - 1, clean);
      assert Distinct(prev);
      FirstOccurrencesSound(rows, n - 1, clean);
      forall a, b | 0 <= a < b < |out|
        ensures out[a] != out[b] && Key(out[a]) != Key(out[b])
      {
        if b == |prev| {
          assert FromFirstOccurrence(rows, n - 1, clean, prev[a]);
          var i :| 0 <= i < n - 1 && IsFirst(rows, i, clean) && prev[a] == Normalise(rows[i], clean);
          assert out[b] == Normalise(rows[n - 1], clean);
        } else {
          assert out[a] == prev[a] && out[b] == prev[b];
        }
        if Key(out[a]) == Key(out[b]) {
          KeyInjective(out[a], out[b]);
        }
      }
    }
  }

  /** The settings array as stored, fed back into the sanitiser on a later save. */
  function Stored(s: Settings): RawInput {
    RawInput(
      if s.apiKey.Some? then Str(s.apiKey.value) else Null,
      if s.mapping.Some?
      then Rows(seq(|s.mapping.value|, k requires 0 <= k < |s.mapping.value| =>
                    RawRow(Int(s.mapping.value[k].product), Str(s.mapping.value[k].campaign))))
      else NotRows(Null))
  }

  /**
   * Stored settings a second pass leaves alone: no value PHP counts as empty,
   * no empty mapping, no repeated row, and text the sanitiser keeps as it is.
   */
  predicate Settled(s: Settings, clean: TextSanitizer) {
    (s.apiKey.Some? ==> !Empty(Str(s.apiKey.value)) && clean(s.apiKey.value) == s.apiKey.value) &&
    (s.mapping.Some? ==>
      var m := s.mapping.value;
      m != [] &&
      (forall k :: 0 <= k < |m| ==>
        m[k].product != 0 && !Empty(Str(m[k].campaign)) && clean(m[k].campaign) == m[k].campaign) &&
      (forall a, b :: 0 <= a < b < |m| ==> m[a] != m[b]))
  }

  lemma {:induction false} FirstOccurrencesOfSettled(m: seq<MappingRow>, n: nat, clean: TextSanitizer)
    requires n <= |m|
    requires forall k :: 0 <= k < |m| ==>
      m[k].product != 0 && !Empty(Str(m[k].campaign)) && clean(m[k].campaign) == m[k].campaign
    requires forall a, b :: 0 <= a < b < |m| ==> m[a] != m[b]
    ensures var rows := Stored(Settings(None, Some(m))).mapping.rows;
      FirstOccurrences(rows, n, clean) == m[..n]
  {
    var rows := Stored(Settings(None, Some(m))).mapping.rows;
    if n > 0 {
      FirstOccurrencesOfSettled(m, n - 1, clean);
      assert Normalise(rows[n - 1], clean) == m[n - 1];
      assert IsFirst(rows, n - 1, clean) by {
        forall j | 0 <= j < n - 1 && Complete(rows[j])
          ensures Normalise(rows[j], clean) != Normalise(rows[n - 1], clean)
        {
          assert Normalise(rows[j], clean) == m[j];
        }
      }
      assert m[..n] == m[..n - 1] + [m[n - 1]];
    }
  }

  /** Sanitising settled stored settings again changes nothing. */
  lemma SanitizeKeepsSettled(s: Settings, clean: TextSanitizer)
    requires Settled(s, clean)
    ensures Sanitized(Stored(s), clean) == s
  {
    if s.mapping.Some? {
      var m := s.mapping.value;
      FirstOccurrencesOfSettled(m, |m|, clean);
      assert m[..|m|] == m;
    }
  }

  /**
   * Sanitising twice equals sanitising once, when `sanitize_text_field` is
   * idempotent and the first pass stored nothing that PHP counts as empty.
   */
  lemma SanitizeIdempotent(input: RawInput, clean: TextSanitizer)
    requires forall t :: clean(clean(t)) == clean(t)
    requires var once := Sanitized(input, clean);
      (once.apiKey.Some? ==> !Empty(Str(once.apiKey.value))) &&
      (once.mapping.Some? ==>
        once.mapping.value != [] &&
        forall k :: 0 <= k < |once.mapping.value| ==>
          once.mapping.value[k].product != 0 && !Empty(Str(once.mapping.value[k].campaign)))
    ensures Sanitized(Stored(Sanitized(input, clean)), clean) == Sanitized(input, clean)
  {
    var once := Sanitized(input, clean);
    if once.mapping.Some? {
      var rows := input.mapping.rows;
      var m := once.mapping.value;
      FirstOccurrencesDistinct(rows, |rows|, clean);
      FirstOccurrencesSound(rows, |rows|, clean);
      forall k | 0 <= k < |m|
        ensures clean(m[k].campaign) == m[k].campaign
      {
        assert FromFirstOccurrence(rows, |rows|, clean, m[k]);
        var i :| 0 <= i < |rows| && IsFirst(rows, i, clean) && m[k] == Normalise(rows[i], clean);
      }
    }
    if once.apiKey.Some? {
      assert clean(once.apiKey.value) == once.apiKey.value;
    }
    SanitizeKeepsSettled(once, clean);
  }

  /**
   * Without that precondition a second pass differs: a non-numeric product is
   * stored as 0 by the first pass and dropped as empty by the second.
   */
  lemma NonNumericProductNotIdempotent(clean: TextSanitizer)
    requires clean("C1") == "C1"
    ensures var input := RawInput(Null, Rows([RawRow(Str("abc"), Str("C1"))]));
      Sanitized(input, clean).mapping == Some([MappingRow(0, "C1")]) &&
      Sanitized(Stored(Sanitized(input, clean)), clean).mapping == Some([])
  {
    var rows := [RawRow(Str("abc"), Str("C1"))];
    assert SkipSpace("abc") == "abc";
    assert LeadingDigits("abc") == [];
    assert IntVal(Str("abc")) == 0;
    var once := [MappingRow(0, "C1")];
    assert Normalise(rows[0], clean) == once[0];
    assert FirstOccurrences(rows, 1, clean) == once;
    var again := Stored(Settings(None, Some(once))).mapping.rows;
    assert again == [RawRow(Int(0), Str("C1"))];
    assert !IsFirst(again, 0, clean);
    assert FirstOccurrences(again, 1, clean) == [];
  }
}
