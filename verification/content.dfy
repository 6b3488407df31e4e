/** Turning extracted rows into text (`convert_extracted_data_to_content`) and choosing a
    splitter configuration from that text (`get_smart_text_splitter`). The splitter
    algorithm itself is library code; only the configuration chosen is modelled. */
module Content {
  import opened Text
  import opened Extraction

  /** `str(cell)` */
  function Render(c: Cell): string {
    match c
    case Null => "None"
    case Str(s) => s
    case Other(r) => r
  }

  function RenderRow(row: Row): (r: seq<string>)
    ensures |r| == |row|
    ensures forall i :: 0 <= i < |row| ==> r[i] == Render(row[i])
  {
    seq(|row|, i requires 0 <= i < |row| => Render(row[i]))
  }

  const FieldSeparator: string := " | "

  /** `" | ".join(map(str, row))` */
  function RowText(row: Row): string {
    Join(FieldSeparator, RenderRow(row))
  }

  function RowTexts(data: Dataset): (r: seq<string>)
    ensures |r| == |data|
    ensures forall i :: 0 <= i < |data| ==> r[i] == RowText(data[i])
  {
    seq(|data|, i requires 0 <= i < |data| => RowText(data[i]))
  }

  /** `convert_extracted_data_to_content`: one line per row, cells separated by " | ". */
  function ConvertToContent(data: Dataset): string {
    Join("\n", RowTexts(data))
  }

  /** A cell whose text has no line break. */
  predicate SingleLine(c: Cell) {
    forall k :: 0 <= k < |Render(c)| ==> Render(c)[k] != '\n'
  }

  lemma {:induction false} JoinFree(sep: string, parts: seq<string>, c: char)
    requires forall k :: 0 <= k < |sep| ==> sep[k] != c
    requires forall j, k :: 0 <= j < |parts| && 0 <= k < |parts[j]| ==> parts[j][k] != c
    ensures forall k :: 0 <= k < |Join(sep, parts)| ==> Join(sep, parts)[k] != c
    decreases |parts|
  {
    if |parts| > 1 {
      JoinFree(sep, parts[1..], c);
      var rest := Join(sep, parts[1..]);
      var whole := parts[0] + sep + rest;
      assert forall k :: 0 <= k < |whole| ==> whole[k] != c by {
        forall k | 0 <= k < |whole|
          ensures whole[k] != c
        {
          if k < |parts[0]| {
            assert whole[k] == parts[0][k];
          } else if k < |parts[0]| + |sep| {
            assert whole[k] == sep[k - |parts[0]|];
          } else {
            assert whole[k] == rest[k - |parts[0]| - |sep|];
          }
        }
      }
    }
  }

  /** The serialised text is empty for an empty dataset, and, as long as no cell contains a
      line break, splitting it on "\n" gives back exactly one line per row, in row order. */
  lemma ContentLines(data: Dataset)
    requires forall i, j :: 0 <= i < |data| && 0 <= j < |data[i]| ==> SingleLine(data[i][j])
    ensures data == [] ==> ConvertToContent(data) == ""
    ensures data != [] ==> Split(ConvertToContent(data), '\n') == RowTexts(data)
    ensures data != [] ==> |Split(ConvertToContent(data), '\n')| == |data|
  {
    if data != [] {
      var lines := RowTexts(data);
      forall i | 0 <= i < |lines|
        ensures forall k :: 0 <= k < |lines[i]| ==> lines[i][k] != '\n'
      {
        var cells := RenderRow(data[i]);
        assert forall j, k :: 0 <= j < |cells| && 0 <= k < |cells[j]| ==> cells[j][k] != '\n' by {
          forall j, k | 0 <= j < |cells| && 0 <= k < |cells[j]|
            ensures cells[j][k] != '\n'
          {
            assert SingleLine(data[i][j]);
          }
        }
        JoinFree(FieldSeparator, cells, '\n');
      }
      assert "\n" == ['\n'];
      SplitJoin(lines, '\n');
    }
  }

  /** A `RecursiveCharacterTextSplitter` configuration. */
  datatype SplitterConfig = SplitterConfig(chunkSize: nat, chunkOverlap: nat, separators: seq<string>)

  const Separators: seq<string> := ["\n\n", "\n", " | ", " ", ""]

  /** `get_default_text_splitter()` */
  const DefaultSplitter: SplitterConfig := SplitterConfig(1000, 200, Separators)

  /** `get_entry_based_text_splitter()` */
  const EntrySplitter: SplitterConfig := SplitterConfig(600, 50, Separators)

  /** `get_smart_text_splitter(content)`: the entry splitter for more than five lines whose
      mean length is under 150 characters. The mean is compared without division:
      `total / n < 150` is `total < 150 * n` for the (always positive) line count `n`. */
  function SmartSplitter(content: string): SplitterConfig {
    var lines := Split(content, '\n');
    if |lines| > 5 && TotalLength(lines) < 150 * |lines| then EntrySplitter else DefaultSplitter
  }

  /** The choice stated directly on the text: with `n` line breaks there are `n + 1` lines
      holding `|content| - n` characters, so the entry splitter is chosen exactly when the
      text has at least five line breaks and `|content| - n < 150 * (n + 1)`. */
  lemma SmartSplitterChoice(content: string)
    ensures var n := Count(content, '\n');
            SmartSplitter(content) == (if n >= 5 && |content| - n < 150 * (n + 1) then EntrySplitter else DefaultSplitter)
    ensures SmartSplitter(content) == EntrySplitter || SmartSplitter(content) == DefaultSplitter
  {
    SplitCount(content, '\n');
  }

  /** Text with fewer than five line breaks — the empty text in particular — always gets the
      default splitter. */
  lemma FewLinesUseDefault(content: string)
    requires Count(content, '\n') < 5
    ensures SmartSplitter(content) == DefaultSplitter
  {
    SplitCount(content, '\n');
  }

  /** Both configurations share one separator list, and overlap stays below chunk size. */
  lemma SplitterConfigsAgree()
    ensures DefaultSplitter.separators == EntrySplitter.separators == ["\n\n", "\n", " | ", " ", ""]
    ensures EntrySplitter.chunkOverlap < EntrySplitter.chunkSize < DefaultSplitter.chunkSize
    ensures DefaultSplitter.chunkOverlap < DefaultSplitter.chunkSize
  {
  }

  /** Six rows of short single-line cells choose the entry splitter; the row count alone
      decides, because each line is short. */
  lemma ShortRowsUseEntrySplitter(data: Dataset)
    requires |data| >= 6
    requires forall i, j :: 0 <= i < |data| && 0 <= j < |data[i]| ==> SingleLine(data[i][j])
    requires forall i :: 0 <= i < |data| ==> |RowText(data[i])| < 150
    ensures SmartSplitter(ConvertToContent(data)) == EntrySplitter
  {
    ContentLines(data);
    var lines := RowTexts(data);
    ShortLinesTotal(lines);
  }

  lemma {:induction false} ShortLinesTotal(lines: seq<string>)
    requires forall i :: 0 <= i < |lines| ==> |lines[i]| < 150
    ensures TotalLength(lines) <= 150 * |lines| - (if |lines| > 0 then 1 else 0)
  {
    if |lines| > 0 {
      ShortLinesTotal(lines[1..]);
    }
  }
}
