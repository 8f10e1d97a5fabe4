/**
 * The list rules of the mapping editor: how many rows `grwc_mapping_render`
 * draws, and the row add/remove/renumber script that runs in the browser.
 * Rows are the table's `<tr>` elements in document order.
 */
module SettingsEditor {
  import opened Wrappers
  import opened PhpValues
  import opened MappingStore

  /** The selections of one table row: a product id and a campaign id, or unset. */
  datatype EditorRow = EditorRow(product: Option<int>, campaign: Option<string>)

  /** A row with both selections on their placeholder option. */
  const Unselected: EditorRow := EditorRow(None, None)

  function RowFor(m: MappingRow): EditorRow {
    EditorRow(Some(m.product), Some(m.campaign))
  }

  /**
   * The rows drawn for the stored mapping (`$opts['grwc_mapping'] ?? []`): one
   * per stored row in stored order, or a single empty row when there are none.
   */
  function InitialRows(stored: Option<seq<MappingRow>>): (rows: seq<EditorRow>)
    ensures |rows| >= 1
    ensures stored.GetOr([]) == [] ==> rows == [Unselected]
    ensures stored.GetOr([]) != [] ==>
      |rows| == |stored.value| && forall k :: 0 <= k < |rows| ==> rows[k] == RowFor(stored.value[k])
  {
    var m := stored.GetOr([]);
    if m == [] then [Unselected] else seq(|m|, k requires 0 <= k < |m| => RowFor(m[k]))
  }

  /**
   * "Add row" as written: clone the jQuery selection `tr:first` (the first row,
   * or nothing when the table is empty), clear its selects, append it.
   */
  function AddRowAsWritten(rows: seq<EditorRow>): seq<EditorRow> {
    var template := if rows == [] then [] else rows[..1];
    var cleared := seq(|template|, _ => Unselected);
    rows + cleared
  }

  /** "Add row" as intended: append one row with both selections unset. */
  function AddRow(rows: seq<EditorRow>): (r: seq<EditorRow>)
    ensures |r| == |rows| + 1 && r[..|rows|] == rows && r[|rows|] == Unselected
  {
    rows + [Unselected]
  }

  /** "Remove row": the clicked row `k` leaves the table; the others keep their order. */
  function RemoveRow(rows: seq<EditorRow>, k: nat): (r: seq<EditorRow>)
    requires k < |rows|
    ensures |r| == |rows| - 1
    ensures forall j :: 0 <= j < |r| ==> r[j] == (if j < k then rows[j] else rows[j + 1])
  {
    rows[..k] + rows[k + 1..]
  }

  /** Once every row is removed, the written "Add row" adds nothing. */
  lemma AddRowAsWrittenStuckWhenEmpty(rows: seq<EditorRow>)
    requires |rows| == 1
    ensures RemoveRow(rows, 0) == []
    ensures AddRowAsWritten(RemoveRow(rows, 0)) == []
  {
  }

  /** On a non-empty table the written "Add row" does what was intended. */
  lemma AddRowAsWrittenAgrees(rows: seq<EditorRow>)
    requires rows != []
    ensures AddRowAsWritten(rows) == AddRow(rows)
  {
    var cleared := seq(|rows[..1]|, _ => Unselected);
    assert cleared == [Unselected];
  }

  /** The table as first drawn always has a row, so the written "Add row" works there. */
  lemma AddRowWorksAfterRender(stored: Option<seq<MappingRow>>)
    ensures AddRowAsWritten(InitialRows(stored)) == AddRow(InitialRows(stored))
  {
    AddRowAsWrittenAgrees(InitialRows(stored));
  }

  /** Adding a row and removing it again restores the table. */
  lemma RemoveUndoesAdd(rows: seq<EditorRow>)
    ensures RemoveRow(AddRow(rows), |rows|) == rows
  {
    var added := AddRow(rows);
    assert added[..|rows|] == rows;
    assert added[|rows| + 1..] == [];
  }

  /** `updateNames`: the form field name of row `i`'s product select. */
  function ProductFieldName(i: nat): string {
    "grwc_options[grwc_mapping][" + DecimalString(i) + "][product]"
  }

  /** `updateNames`: the form field name of row `i`'s campaign select. */
  function CampaignFieldName(i: nat): string {
    "grwc_options[grwc_mapping][" + DecimalString(i) + "][campaign]"
  }

  lemma {:induction false} DropCommonPrefix(p: string, x: string, y: string)
    requires p + x == p + y
    ensures x == y
  {
    assert x == (p + x)[|p|..];
    assert y == (p + y)[|p|..];
  }

  /** Both field names of row `i` split into the common head, `i`'s digits, ']' and the field part. */
  lemma FieldNameShape(i: nat, field: string)
    ensures "grwc_options[grwc_mapping][" + DecimalString(i) + "][" + field + "]" ==
      "grwc_options[grwc_mapping][" + (DecimalString(i) + [']'] + ("[" + field + "]"))
  {
  }

  lemma {:induction false} FieldNamesSplit(i: nat, j: nat, f: string, g: string)
    requires "grwc_options[grwc_mapping][" + DecimalString(i) + "][" + f + "]" ==
      "grwc_options[grwc_mapping][" + DecimalString(j) + "][" + g + "]"
    ensures i == j && f == g
  {
    FieldNameShape(i, f);
    FieldNameShape(j, g);
    DropCommonPrefix("grwc_options[grwc_mapping][",
      DecimalString(i) + [']'] + ("[" + f + "]"), DecimalString(j) + [']'] + ("[" + g + "]"));
    DecimalStringAvoids(i, ']');
    DecimalStringAvoids(j, ']');
    SplitAtSeparator(DecimalString(i), "[" + f + "]", DecimalString(j), "[" + g + "]", ']');
    DecimalStringInjective(i, j);
    assert f == ("[" + f + "]")[1..|f| + 1];
    assert g == ("[" + g + "]")[1..|g| + 1];
  }

  /**
   * After renumbering, no two selects of the table share a form field name, so
   * every row's values reach the submitted mapping under their own index.
   */
  lemma FieldNamesDistinct(i: nat, j: nat)
    ensures i != j ==> ProductFieldName(i) != ProductFieldName(j) && CampaignFieldName(i) != CampaignFieldName(j)
    ensures ProductFieldName(i) != CampaignFieldName(j)
  {
    assert ProductFieldName(i) == "grwc_options[grwc_mapping][" + DecimalString(i) + "][" + "product" + "]";
    assert ProductFieldName(j) == "grwc_options[grwc_mapping][" + DecimalString(j) + "][" + "product" + "]";
    assert CampaignFieldName(i) == "grwc_options[grwc_mapping][" + DecimalString(i) + "][" + "campaign" + "]";
    assert CampaignFieldName(j) == "grwc_options[grwc_mapping][" + DecimalString(j) + "][" + "campaign" + "]";
    if ProductFieldName(i) == ProductFieldName(j) {
      FieldNamesSplit(i, j, "product", "product");
    }
    if CampaignFieldName(i) == CampaignFieldName(j) {
      FieldNamesSplit(i, j, "campaign", "campaign");
    }
    if ProductFieldName(i) == CampaignFieldName(j) {
      FieldNamesSplit(i, j, "product", "campaign");
    }
  }
}
