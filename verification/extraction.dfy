/** Marker-based row extraction from a workbook (`extract_info_from_excel`).

    Each sheet is scanned in a two-state machine, seeking then capturing. The scan switches
    to capturing on the first row that has a string cell whose lower-cased text contains
    "additional notes:". That row is not emitted. Every later row is emitted with its `None`
    cells removed, unless nothing is left. */
module Extraction {
  import opened Wrappers
  import opened Text

  /** A cell value as openpyxl returns it: `None`, a `str`, or any other scalar (number,
      boolean, date, ...) carried by its `str()` rendering. */
  datatype Cell = Null | Str(s: string) | Other(rendered: string)

  type Row = seq<Cell>

  datatype Worksheet = Worksheet(name: string, rows: seq<Row>)

  /** The sheets are listed in `wb.sheetnames` order. */
  datatype Workbook = Workbook(sheets: seq<Worksheet>)

  type Dataset = seq<Row>

  const Marker: string := "additional notes:"

  /** `cell and isinstance(cell, str) and "additional notes:" in cell.lower()` */
  predicate IsMarkerCell(c: Cell) {
    c.Str? && c.s != "" && Contains(Lower(c.s), Marker)
  }

  predicate IsMarkerRow(row: Row) {
    exists i :: 0 <= i < |row| && IsMarkerCell(row[i])
  }

  predicate HasMarker(rows: seq<Row>) {
    exists j :: 0 <= j < |rows| && IsMarkerRow(rows[j])
  }

  /** `[cell for cell in row if cell is not None]` */
  function DropNulls(row: Row): (r: Row)
    ensures forall i :: 0 <= i < |r| ==> !r[i].Null?
    ensures |r| <= |row|
  {
    if |row| == 0 then []
    else (if row[0].Null? then [] else [row[0]]) + DropNulls(row[1..])
  }

  /** What one captured row contributes: its non-null cells, or nothing when none are left. */
  function Keep(row: Row): (r: Dataset)
    ensures |r| <= 1
  {
    var f := DropNulls(row);
    if f == [] then [] else [f]
  }

  /** The rows emitted once the scan is capturing. */
  function Captured(rows: seq<Row>): Dataset {
    if |rows| == 0 then [] else Keep(rows[0]) + Captured(rows[1..])
  }

  /** Index of the first marker row. */
  function FirstMarker(rows: seq<Row>): (r: Option<nat>)
    ensures r.None? <==> !HasMarker(rows)
    ensures r.Some? ==> r.value < |rows| && IsMarkerRow(rows[r.value])
    ensures r.Some? ==> forall j :: 0 <= j < r.value ==> !IsMarkerRow(rows[j])
  {
    if |rows| == 0 then None
    else if IsMarkerRow(rows[0]) then Some(0)
    else
      var t := FirstMarker(rows[1..]);
      assert HasMarker(rows) ==> HasMarker(rows[1..]) by {
        if HasMarker(rows) {
          var j :| 0 <= j < |rows| && IsMarkerRow(rows[j]);
          assert rows[1..][j - 1] == rows[j];
        }
      }
      if t.None? then None else Some(t.value + 1)
  }

  /** What one sheet contributes: the captured rows after its first marker row, or nothing. */
  function SheetData(rows: seq<Row>): Dataset {
    match FirstMarker(rows)
    case None => []
    case Some(k) => Captured(rows[k + 1..])
  }

  /** Sheet contributions concatenated in sheet order. */
  function Extract(sheets: seq<Worksheet>): Dataset {
    if |sheets| == 0 then [] else SheetData(sheets[0].rows) + Extract(sheets[1..])
  }

  lemma {:induction false} CapturedSnoc(rows: seq<Row>, row: Row)
    ensures Captured(rows + [row]) == Captured(rows) + Keep(row)
  {
    if |rows| == 0 {
      assert Captured([row][1..]) == [];
    } else {
      assert (rows + [row])[1..] == rows[1..] + [row];
      CapturedSnoc(rows[1..], row);
    }
  }

  lemma {:induction false} FirstMarkerAt(rows: seq<Row>, k: nat)
    requires k < |rows| && IsMarkerRow(rows[k])
    requires forall j :: 0 <= j < k ==> !IsMarkerRow(rows[j])
    ensures FirstMarker(rows) == Some(k)
  {
    if k > 0 {
      FirstMarkerAt(rows[1..], k - 1);
    }
  }

  /** One step of the scan, as a property of the reference definition. */
  lemma SheetDataSnoc(rows: seq<Row>, row: Row)
    ensures HasMarker(rows) ==> SheetData(rows + [row]) == SheetData(rows) + Keep(row)
    ensures !HasMarker(rows) ==> SheetData(rows + [row]) == []
    ensures HasMarker(rows + [row]) <==> HasMarker(rows) || IsMarkerRow(row)
  {
    var all := rows + [row];
    assert forall j :: 0 <= j < |rows| ==> all[j] == rows[j];
    assert all[|rows|] == row;
    if HasMarker(rows) {
      var k := FirstMarker(rows).value;
      FirstMarkerAt(all, k);
      assert all[k + 1..] == rows[k + 1..] + [row];
      CapturedSnoc(rows[k + 1..], row);
    } else if IsMarkerRow(row) {
      FirstMarkerAt(all, |rows|);
      assert all[|rows| + 1..] == [];
    } else {
      assert forall j :: 0 <= j < |all| ==> !IsMarkerRow(all[j]);
    }
  }

  /** The inner loop of `extract_info_from_excel`: one sheet's scan with the `found` flag,
      reset to false at the start of the sheet. */
  method ScanSheet(rows: seq<Row>) returns (data: Dataset)
    ensures data == SheetData(rows)
  {
    data := [];
    var found := false;
    var j := 0;
    while j < |rows|
      invariant 0 <= j <= |rows|
      invariant found <==> HasMarker(rows[..j])
      invariant data == SheetData(rows[..j])
    {
      var row := rows[j];
      SheetDataSnoc(rows[..j], row);
      assert rows[..j + 1] == rows[..j] + [row];
      if found {
        var filtered := DropNulls(row);
        if filtered != [] {
          data := data + [filtered];
        }
      } else {
        if IsMarkerRow(row) {
          found := true;
        }
      }
      j := j + 1;
    }
    assert rows[..j] == rows;
  }

  /** `extract_info_from_excel`: the sheets in `wb.sheetnames` order, each scanned afresh. */
  method ExtractInfoFromExcel(wb: Workbook) returns (extracted: Dataset)
    ensures extracted == Extract(wb.sheets)
  {
    extracted := [];
    var s := 0;
    while s < |wb.sheets|
      invariant 0 <= s <= |wb.sheets|
      invariant extracted == Extract(wb.sheets[..s])
    {
      var sheet := wb.sheets[s];
      var data := ScanSheet(sheet.rows);
      ExtractSingle(sheet);
      ExtractConcat(wb.sheets[..s], [sheet]);
      assert wb.sheets[..s + 1] == wb.sheets[..s] + [sheet];
      extracted := extracted + data;
      s := s + 1;
    }
    assert wb.sheets[..s] == wb.sheets;
  }

  lemma ExtractSingle(sheet: Worksheet)
    ensures Extract([sheet]) == SheetData(sheet.rows)
  {
    assert [sheet][1..] == [];
  }

  /** Sheets are scanned independently and their outputs concatenated in sheet order. */
  lemma {:induction false} ExtractConcat(a: seq<Worksheet>, b: seq<Worksheet>)
    ensures Extract(a + b) == Extract(a) + Extract(b)
  {
    if |a| == 0 {
      assert a + b == b;
    } else {
      assert (a + b)[1..] == a[1..] + b;
      ExtractConcat(a[1..], b);
    }
  }

  /** A sheet's rows up to and including its first marker row are never emitted; every row
      after it is, through `Captured`, whether or not it is itself a marker row. */
  lemma SheetDataAfterFirstMarker(pre: seq<Row>, marker: Row, post: seq<Row>)
    requires forall j :: 0 <= j < |pre| ==> !IsMarkerRow(pre[j])
    requires IsMarkerRow(marker)
    ensures SheetData(pre + [marker] + post) == Captured(post)
  {
    var rows := pre + [marker] + post;
    assert rows[|pre|] == marker;
    assert forall j :: 0 <= j < |pre| ==> rows[j] == pre[j];
    FirstMarkerAt(rows, |pre|);
    assert rows[|pre| + 1..] == post;
  }

  /** A workbook without any marker row yields no data. */
  lemma {:induction false} NoMarkerNoData(sheets: seq<Worksheet>)
    requires forall s :: 0 <= s < |sheets| ==> !HasMarker(sheets[s].rows)
    ensures Extract(sheets) == []
    decreases |sheets|
  {
    if |sheets| > 0 {
      NoMarkerNoData(sheets[1..]);
    }
  }

  /** An emitted row: non-empty and free of `None`. */
  predicate DataRow(r: Row) {
    r != [] && forall j :: 0 <= j < |r| ==> !r[j].Null?
  }

  /** Every emitted row is non-empty and null-free. */
  lemma {:induction false} CapturedRowsWellFormed(rows: seq<Row>)
    ensures forall i :: 0 <= i < |Captured(rows)| ==> DataRow(Captured(rows)[i])
  {
    if |rows| > 0 {
      CapturedRowsWellFormed(rows[1..]);
    }
  }

  lemma {:induction false} ExtractedRowsWellFormed(sheets: seq<Worksheet>)
    ensures forall i :: 0 <= i < |Extract(sheets)| ==> DataRow(Extract(sheets)[i])
    decreases |sheets|
  {
    if |sheets| > 0 {
      ExtractedRowsWellFormed(sheets[1..]);
      var rows := sheets[0].rows;
      match FirstMarker(rows)
      case None =>
      case Some(k) => CapturedRowsWellFormed(rows[k + 1..]);
    }
  }

  /** Removing nulls is a filter: it distributes over concatenation and keeps exactly the
      non-null cells, in order. */
  lemma {:induction false} DropNullsAppend(a: Row, b: Row)
    ensures DropNulls(a + b) == DropNulls(a) + DropNulls(b)
  {
    if |a| == 0 {
      assert a + b == b;
    } else {
      assert (a + b)[1..] == a[1..] + b;
      DropNullsAppend(a[1..], b);
    }
  }

  lemma DropNullsSingle(c: Cell)
    ensures DropNulls([c]) == if c.Null? then [] else [c]
  {
    assert [c][1..] == [];
  }

  lemma {:induction false} DropNullsAllNull(row: Row)
    requires forall i :: 0 <= i < |row| ==> row[i].Null?
    ensures DropNulls(row) == []
  {
    if |row| > 0 {
      DropNullsAllNull(row[1..]);
    }
  }

  lemma {:induction false} DropNullsKeepsNonNull(row: Row, i: nat)
    requires i < |row| && !row[i].Null?
    ensures DropNulls(row) != []
  {
    if i > 0 && row[0].Null? {
      DropNullsKeepsNonNull(row[1..], i - 1);
    }
  }

  lemma {:induction false} CapturedAppend(a: seq<Row>, b: seq<Row>)
    ensures Captured(a + b) == Captured(a) + Captured(b)
  {
    if |a| == 0 {
      assert a + b == b;
    } else {
      assert (a + b)[1..] == a[1..] + b;
      CapturedAppend(a[1..], b);
    }
  }

  /** After the marker, a row that is entirely `None` vanishes from the output. */
  lemma CapturedNullRow(a: seq<Row>, row: Row, b: seq<Row>)
    requires forall i :: 0 <= i < |row| ==> row[i].Null?
    ensures Captured(a + [row] + b) == Captured(a) + Captured(b)
  {
    DropNullsAllNull(row);
    assert Keep(row) == [];
    CapturedSnoc(a, row);
    assert Captured(a + [row]) == Captured(a);
    CapturedAppend(a + [row], b);
    assert Captured(a + [row] + b) == Captured(a + [row]) + Captured(b);
  }

  /** After the marker, a row with some non-null cell appears exactly once, nulls stripped,
      between its neighbours' contributions. */
  lemma CapturedDataRow(a: seq<Row>, row: Row, b: seq<Row>, i: nat)
    requires i < |row| && !row[i].Null?
    ensures Captured(a + [row] + b) == Captured(a) + [DropNulls(row)] + Captured(b)
  {
    DropNullsKeepsNonNull(row, i);
    assert Keep(row) == [DropNulls(row)];
    CapturedSnoc(a, row);
    CapturedAppend(a + [row], b);
    assert Captured(a + [row] + b) == Captured(a) + [DropNulls(row)] + Captured(b);
  }

  lemma LowerMarkerText()
    ensures Lower("Additional Notes:") == Marker
  {
    var s := "Additional Notes:";
    assert forall i :: 0 <= i < |s| ==> Lower(s)[i] == Marker[i];
  }

  /** Matching is case-insensitive, and only string cells can trigger capture. */
  lemma MarkerCaseInsensitive(text: string)
    ensures IsMarkerCell(Str("Additional Notes:"))
    ensures !IsMarkerCell(Other(text))
    ensures !IsMarkerCell(Null)
  {
    LowerMarkerText();
    assert StartsWith(Lower("Additional Notes:"), Marker);
  }

  /** Only `None` is removed: a row without `None` cells, falsy ones such as `0`, `""` or
      `False` included, passes the filter unchanged. */
  lemma {:induction false} DropNullsKeepsFalsyCells(row: Row)
    requires forall i :: 0 <= i < |row| ==> !row[i].Null?
    ensures DropNulls(row) == row
  {
    if |row| > 0 {
      DropNullsKeepsFalsyCells(row[1..]);
      assert row == [row[0]] + row[1..];
    }
  }
}
