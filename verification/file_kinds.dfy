/** File-level helpers of the document utilities: extension-based classification
    (`get_supported_file_extensions`, `is_supported_file`, `get_file_type`), the capped walk
    that collects supported files (`collect_files_from_directory`), sheet-name sanitising
    (`safe_filename_for_excel_sheet`) and the processing counters (`FileProcessingStats`). */
module FileKinds {
  import opened Wrappers
  import opened Text
  import opened Paths

  datatype FileType = Pdf | Excel

  /** `get_supported_file_extensions().get(key, [])` */
  function ExtensionsFor(key: string): seq<string> {
    if key == "pdf" then [".pdf"]
    else if key == "excel" then [".xlsx", ".xls"]
    else if key == "all_supported" then [".pdf", ".xlsx", ".xls"]
    else []
  }

  /** `s.endswith(tuple(suffixes))` */
  predicate EndsWithAny(s: string, suffixes: seq<string>) {
    exists i :: 0 <= i < |suffixes| && EndsWith(s, suffixes[i])
  }

  /** `is_supported_file(filename, file_type)`: an absent or empty `file_type` means every
      supported extension; an unknown one matches nothing. */
  predicate IsSupportedFile(filename: string, fileType: Option<string>) {
    var key := if fileType.Some? && fileType.value != "" then fileType.value else "all_supported";
    EndsWithAny(Lower(filename), ExtensionsFor(key))
  }

  /** `get_file_type(filename)` */
  function GetFileType(filename: string): Option<FileType> {
    if EndsWithAny(Lower(filename), ExtensionsFor("pdf")) then Some(Pdf)
    else if EndsWithAny(Lower(filename), ExtensionsFor("excel")) then Some(Excel)
    else None
  }

  lemma EndsWithLast(s: string, suffix: string)
    requires EndsWith(s, suffix) && |suffix| > 0
    ensures s[|s| - 1] == suffix[|suffix| - 1]
  {
    assert s[|s| - |suffix|..][|suffix| - 1] == s[|s| - 1];
  }

  /** Classification, stated on the lower-cased name: ".pdf" gives `Pdf`, ".xlsx" or ".xls"
      gives `Excel`, anything else is unsupported; `is_supported_file` with no filter holds
      exactly for the classified names, and with the "pdf" or "excel" filter exactly for the
      names of that type. */
  lemma FileTypeClassification(filename: string)
    ensures var l := Lower(filename);
            GetFileType(filename) == (if EndsWith(l, ".pdf") then Some(Pdf)
                                      else if EndsWith(l, ".xlsx") || EndsWith(l, ".xls") then Some(Excel)
                                      else None)
    ensures IsSupportedFile(filename, None) <==> GetFileType(filename).Some?
    ensures IsSupportedFile(filename, Some("")) <==> GetFileType(filename).Some?
    ensures IsSupportedFile(filename, Some("pdf")) <==> GetFileType(filename) == Some(Pdf)
    ensures IsSupportedFile(filename, Some("excel")) <==> GetFileType(filename) == Some(Excel)
  {
    var l := Lower(filename);
    assert ExtensionsFor("pdf") == [".pdf"];
    assert ExtensionsFor("excel") == [".xlsx", ".xls"];
    assert ExtensionsFor("all_supported") == [".pdf", ".xlsx", ".xls"];
    assert EndsWithAny(l, [".pdf"]) <==> EndsWith(l, ".pdf") by {
      if EndsWith(l, ".pdf") {
        assert [".pdf"][0] == ".pdf";
      }
    }
    assert EndsWithAny(l, [".xlsx", ".xls"]) <==> EndsWith(l, ".xlsx") || EndsWith(l, ".xls") by {
      if EndsWith(l, ".xlsx") {
        assert [".xlsx", ".xls"][0] == ".xlsx";
      }
      if EndsWith(l, ".xls") {
        assert [".xlsx", ".xls"][1] == ".xls";
      }
    }
    assert EndsWithAny(l, [".pdf", ".xlsx", ".xls"]) <==>
           EndsWith(l, ".pdf") || EndsWith(l, ".xlsx") || EndsWith(l, ".xls") by {
      var all := [".pdf", ".xlsx", ".xls"];
      if EndsWith(l, ".pdf") {
        assert all[0] == ".pdf";
      }
      if EndsWith(l, ".xlsx") {
        assert all[1] == ".xlsx";
      }
      if EndsWith(l, ".xls") {
        assert all[2] == ".xls";
      }
    }
    if EndsWith(l, ".pdf") {
      EndsWithLast(l, ".pdf");
      if EndsWith(l, ".xlsx") {
        EndsWithLast(l, ".xlsx");
      }
      if EndsWith(l, ".xls") {
        EndsWithLast(l, ".xls");
      }
    }
  }

  /** A filter key that names no extension list admits no file at all. */
  lemma UnknownFilterAdmitsNothing(filename: string, key: string)
    requires key != "" && key != "pdf" && key != "excel" && key != "all_supported"
    ensures !IsSupportedFile(filename, Some(key))
  {
  }

  /** One `os.walk` step: a directory and the file names listed in it. */
  datatype WalkDir = WalkDir(root: string, files: seq<string>)

  /** The supported files of one directory, as joined paths, in listing order. */
  function InDir(root: string, files: seq<string>, fileType: Option<string>): seq<string> {
    if |files| == 0 then []
    else (if IsSupportedFile(files[0], fileType) then [PathJoin(root, files[0])] else [])
         + InDir(root, files[1..], fileType)
  }

  /** Every supported file of the walk, in walk order. */
  function Candidates(walk: seq<WalkDir>, fileType: Option<string>): seq<string> {
    if |walk| == 0 then [] else InDir(walk[0].root, walk[0].files, fileType) + Candidates(walk[1..], fileType)
  }

  /** How many files `collect_files_from_directory` returns out of `n` candidates: all of
      them without a cap; at most `m` for a positive cap `m`; and, since the count is tested
      only after a file is appended, at most one for a negative cap. */
  function CollectLimit(maxFiles: Option<int>, n: nat): (r: nat)
    ensures r <= n
  {
    if !Truthy(maxFiles) then n
    else if maxFiles.value > 0 then (if maxFiles.value < n then maxFiles.value else n)
    else (if n < 1 then n else 1)
  }

  lemma {:induction false} InDirAppend(root: string, a: seq<string>, b: seq<string>, fileType: Option<string>)
    ensures InDir(root, a + b, fileType) == InDir(root, a, fileType) + InDir(root, b, fileType)
  {
    if |a| == 0 {
      assert a + b == b;
    } else {
      var head := if IsSupportedFile(a[0], fileType) then [PathJoin(root, a[0])] else [];
      var x, y := InDir(root, a[1..], fileType), InDir(root, b, fileType);
      assert (a + b)[0] == a[0] && (a + b)[1..] == a[1..] + b;
      InDirAppend(root, a[1..], b, fileType);
      assert InDir(root, a + b, fileType) == head + (x + y);
      Associate(head, x, y);
    }
  }

  lemma {:induction false} CandidatesAppend(a: seq<WalkDir>, b: seq<WalkDir>, fileType: Option<string>)
    ensures Candidates(a + b, fileType) == Candidates(a, fileType) + Candidates(b, fileType)
  {
    if |a| == 0 {
      assert a + b == b;
    } else {
      assert (a + b)[1..] == a[1..] + b;
      CandidatesAppend(a[1..], b, fileType);
    }
  }

  lemma InDirSingle(root: string, f: string, fileType: Option<string>)
    ensures InDir(root, [f], fileType) == if IsSupportedFile(f, fileType) then [PathJoin(root, f)] else []
  {
    assert [f][1..] == [];
  }

  /** The walk is split around its directory `d`. */
  lemma CandidatesAt(walk: seq<WalkDir>, d: nat, fileType: Option<string>)
    requires d < |walk|
    ensures Candidates(walk, fileType) ==
              Candidates(walk[..d], fileType) + (InDir(walk[d].root, walk[d].files, fileType) + Candidates(walk[d + 1..], fileType))
  {
    var rest := [walk[d]] + walk[d + 1..];
    assert walk == walk[..d] + rest;
    CandidatesAppend(walk[..d], rest, fileType);
    assert rest[1..] == walk[d + 1..];
  }

  /** The walk is split as `walk[..d]`, the files of `walk[d]` up to `j`, and the rest. */
  lemma CandidatesSplit(walk: seq<WalkDir>, d: nat, j: nat, fileType: Option<string>)
    requires d < |walk| && j <= |walk[d].files|
    ensures Candidates(walk, fileType) ==
              Candidates(walk[..d], fileType) + InDir(walk[d].root, walk[d].files[..j], fileType)
              + (InDir(walk[d].root, walk[d].files[j..], fileType) + Candidates(walk[d + 1..], fileType))
  {
    var w := walk[d];
    var a, b, c, e := Candidates(walk[..d], fileType), InDir(w.root, w.files[..j], fileType),
                      InDir(w.root, w.files[j..], fileType), Candidates(walk[d + 1..], fileType);
    CandidatesAt(walk, d, fileType);
    assert InDir(w.root, w.files, fileType) == b + c by {
      assert w.files == w.files[..j] + w.files[j..];
      InDirAppend(w.root, w.files[..j], w.files[j..], fileType);
    }
    Regroup(a, b, c, e);
  }

  lemma Associate<T>(a: seq<T>, b: seq<T>, c: seq<T>)
    ensures a + (b + c) == (a + b) + c
  {
  }

  lemma Regroup<T>(a: seq<T>, b: seq<T>, c: seq<T>, e: seq<T>)
    ensures a + ((b + c) + e) == a + b + (c + e)
  {
  }

  /** The bound the loops keep while the cap has not been reached. */
  predicate BelowCap(maxFiles: Option<int>, count: nat) {
    Truthy(maxFiles) ==> count < maxFiles.value || (maxFiles.value < 0 && count == 0)
  }

  lemma PrefixOfLimit(all: seq<string>, collected: seq<string>, maxFiles: Option<int>)
    requires collected <= all
    requires |collected| == CollectLimit(maxFiles, |all|)
    ensures collected == all[..CollectLimit(maxFiles, |all|)]
  {
  }

  /** The early `return`: the file just appended reached the cap. */
  lemma CapReached(walk: seq<WalkDir>, d: nat, j: nat, fileType: Option<string>, maxFiles: Option<int>,
                   collected: seq<string>)
    requires d < |walk| && j < |walk[d].files|
    requires collected == Candidates(walk[..d], fileType) + InDir(walk[d].root, walk[d].files[..j + 1], fileType)
    requires |collected| > 0 && BelowCap(maxFiles, |collected| - 1)
    requires Truthy(maxFiles) && |collected| >= maxFiles.value
    ensures collected == Candidates(walk, fileType)[..CollectLimit(maxFiles, |Candidates(walk, fileType)|)]
  {
    CandidatesSplit(walk, d, j + 1, fileType);
    var all := Candidates(walk, fileType);
    assert collected <= all;
    PrefixOfLimit(all, collected, maxFiles);
  }

  /** The walk ran out before the cap was reached. */
  lemma WalkExhausted(all: seq<string>, maxFiles: Option<int>)
    requires BelowCap(maxFiles, |all|)
    ensures all == all[..CollectLimit(maxFiles, |all|)]
  {
  }

  lemma InDirStep(root: string, files: seq<string>, j: nat, fileType: Option<string>)
    requires j < |files|
    ensures InDir(root, files[..j + 1], fileType) ==
            InDir(root, files[..j], fileType) + (if IsSupportedFile(files[j], fileType) then [PathJoin(root, files[j])] else [])
  {
    assert files[..j + 1] == files[..j] + [files[j]];
    InDirAppend(root, files[..j], [files[j]], fileType);
    InDirSingle(root, files[j], fileType);
  }

  /** The inner loop of `collect_files_from_directory` over one directory's files, appending
      to `before`. It stops right after the file that reaches a truthy cap: then `stop` is
      the index of that file; otherwise `stop == |files|` and the whole directory was taken. */
  method CollectInDir(root: string, files: seq<string>, fileType: Option<string>, maxFiles: Option<int>,
                      before: seq<string>)
    returns (collected: seq<string>, stop: nat)
    requires BelowCap(maxFiles, |before|)
    ensures stop <= |files|
    ensures stop == |files| ==> collected == before + InDir(root, files, fileType) && BelowCap(maxFiles, |collected|)
    ensures stop < |files| ==> && collected == before + InDir(root, files[..stop + 1], fileType)
                               && |collected| > 0 && BelowCap(maxFiles, |collected| - 1)
                               && Truthy(maxFiles) && |collected| >= maxFiles.value
  {
    collected := before;
    var j := 0;
    while j < |files|
      invariant 0 <= j <= |files|
      invariant collected == before + InDir(root, files[..j], fileType)
      invariant BelowCap(maxFiles, |collected|)
    {
      if IsSupportedFile(files[j], fileType) {
        assert before + InDir(root, files[..j + 1], fileType) == collected + [PathJoin(root, files[j])] by {
          InDirStep(root, files, j, fileType);
        }
        collected := collected + [PathJoin(root, files[j])];
        if Truthy(maxFiles) && |collected| >= maxFiles.value {
          return collected, j;
        }
      } else {
        assert before + InDir(root, files[..j + 1], fileType) == collected by {
          InDirStep(root, files, j, fileType);
        }
      }
      j := j + 1;
    }
    assert files[..j] == files;
    stop := |files|;
  }

  /** `collect_files_from_directory`: the walk's nested loops, returning as soon as a truthy
      cap is reached. The result is the first `CollectLimit` candidates in walk order. */
  method CollectFilesFromDirectory(walk: seq<WalkDir>, maxFiles: Option<int>, fileType: Option<string>)
    returns (collected: seq<string>)
    ensures collected == Candidates(walk, fileType)[..CollectLimit(maxFiles, |Candidates(walk, fileType)|)]
    ensures Truthy(maxFiles) && maxFiles.value > 0 ==> |collected| <= maxFiles.value
  {
    collected := [];
    var d := 0;
    while d < |walk|
      invariant 0 <= d <= |walk|
      invariant collected == Candidates(walk[..d], fileType)
      invariant BelowCap(maxFiles, |collected|)
    {
      var stop;
      collected, stop := CollectInDir(walk[d].root, walk[d].files, fileType, maxFiles, collected);
      if stop < |walk[d].files| {
        CapReached(walk, d, stop, fileType, maxFiles, collected);
        return;
      }
      assert walk[..d + 1] == walk[..d] + [walk[d]];
      CandidatesAppend(walk[..d], [walk[d]], fileType);
      assert Candidates([walk[d]], fileType) == InDir(walk[d].root, walk[d].files, fileType) by {
        assert [walk[d]][1..] == [];
      }
      d := d + 1;
    }
    assert walk[..d] == walk;
    WalkExhausted(collected, maxFiles);
  }

  /** Characters Excel refuses in a sheet name. */
  const InvalidSheetChars: seq<char> := ['\\', '/', '*', '[', ']', ':', '?']

  const SheetNameMax: int := 31

  /** The replacement loop: each invalid character in turn replaced by '_'. */
  function ReplaceEach(s: string, chars: seq<char>): (r: string)
    ensures |r| == |s|
    decreases |chars|
  {
    if |chars| == 0 then s else ReplaceEach(ReplaceChar(s, chars[0], '_'), chars[1..])
  }

  lemma {:induction false} ReplaceEachPointwise(s: string, chars: seq<char>)
    requires '_' !in chars
    ensures forall i :: 0 <= i < |s| ==> ReplaceEach(s, chars)[i] == if s[i] in chars then '_' else s[i]
    decreases |chars|
  {
    if |chars| > 0 {
      var s' := ReplaceChar(s, chars[0], '_');
      ReplaceEachPointwise(s', chars[1..]);
      forall i | 0 <= i < |s|
        ensures ReplaceEach(s, chars)[i] == if s[i] in chars then '_' else s[i]
      {
        assert chars == [chars[0]] + chars[1..];
      }
    }
  }

  /** `safe_filename_for_excel_sheet(filename, max_length)`: drop the extension, replace each
      invalid character by '_', keep the first `max_length` characters (Python's `[:n]`, so a
      negative length drops characters from the end). */
  function SafeSheetName(filename: string, maxLength: int): (r: string)
    ensures |r| == SliceLength(|Splitext(filename).root|, maxLength)
    ensures maxLength >= 0 ==> |r| <= maxLength
    ensures |r| <= |Splitext(filename).root|
    ensures forall i :: 0 <= i < |r| ==> r[i] !in InvalidSheetChars
    ensures forall i :: 0 <= i < |r| ==> r[i] == if filename[i] in InvalidSheetChars then '_' else filename[i]
  {
    var root := Splitext(filename).root;
    SheetNameFacts(filename, root, maxLength);
    Take(ReplaceEach(root, InvalidSheetChars), maxLength)
  }

  lemma SheetNameFacts(filename: string, root: string, maxLength: int)
    requires root <= filename
    ensures var r := Take(ReplaceEach(root, InvalidSheetChars), maxLength);
            (forall i :: 0 <= i < |r| ==> r[i] !in InvalidSheetChars) &&
            (forall i :: 0 <= i < |r| ==> r[i] == if filename[i] in InvalidSheetChars then '_' else filename[i])
  {
    var replaced := ReplaceEach(root, InvalidSheetChars);
    ReplaceEachPointwise(root, InvalidSheetChars);
    var r := Take(replaced, maxLength);
    forall i | 0 <= i < |r|
      ensures r[i] == if filename[i] in InvalidSheetChars then '_' else filename[i]
    {
      assert r[i] == replaced[i] && root[i] == filename[i];
    }
  }

  /** A name Excel accepts for a sheet: at most 31 characters, none of them invalid. */
  predicate ValidSheetName(s: string) {
    |s| <= SheetNameMax && forall i :: 0 <= i < |s| ==> s[i] !in InvalidSheetChars
  }

  /** With the default `max_length=31` the result is a valid sheet name of exactly
      `min(31, len(root))` characters, so it is empty only when the extension-less name is. */
  lemma DefaultSheetName(filename: string)
    ensures ValidSheetName(SafeSheetName(filename, SheetNameMax))
    ensures var root := Splitext(filename).root;
            |SafeSheetName(filename, SheetNameMax)| == if |root| < SheetNameMax then |root| else SheetNameMax
    ensures SafeSheetName(filename, SheetNameMax) == [] <==> Splitext(filename).root == []
  {
  }

  /** `FileProcessingStats`, as an immutable record; `summary` is the `processing_summary`
      dictionary. */
  datatype Stats = Stats(totalFiles: int, successfulFiles: nat, failedFiles: nat,
                         totalDocuments: int, summary: map<string, int>)

  const NewStats: Stats := Stats(0, 0, 0, 0, map["pdf" := 0, "excel" := 0])

  /** `dict.get(key, 0)` */
  function Get(m: map<string, int>, key: string): int {
    if key in m then m[key] else 0
  }

  /** `add_success(file_type, documents_count)` */
  function AddSuccess(st: Stats, fileType: string, documentsCount: int): Stats {
    st.(successfulFiles := st.successfulFiles + 1,
        totalDocuments := st.totalDocuments + documentsCount,
        summary := st.summary[fileType := Get(st.summary, fileType) + 1])
  }

  /** `add_failure()` */
  function AddFailure(st: Stats): Stats {
    st.(failedFiles := st.failedFiles + 1)
  }

  /** `set_total_files(count)` */
  function SetTotalFiles(st: Stats, count: int): Stats {
    st.(totalFiles := count)
  }

  /** `"Processed {n} files: {s} successful, {f} failed"` */
  function ProcessedMessage(total: int, successful: int, failed: int): string {
    "Processed " + IntToString(total) + " files: " + IntToString(successful) + " successful, "
    + IntToString(failed) + " failed"
  }

  /** `get_summary_message()` */
  function SummaryMessage(st: Stats): string {
    ProcessedMessage(st.totalFiles, st.successfulFiles, st.failedFiles)
  }

  /** One recorded outcome. */
  datatype Outcome = Succeeded(fileType: string, documents: int) | Failed

  function Record(st: Stats, o: Outcome): Stats {
    match o
    case Succeeded(t, n) => AddSuccess(st, t, n)
    case Failed => AddFailure(st)
  }

  /** The counters after recording a sequence of outcomes in order. */
  function Replay(st: Stats, outcomes: seq<Outcome>): Stats
    decreases |outcomes|
  {
    if |outcomes| == 0 then st else Replay(Record(st, outcomes[0]), outcomes[1..])
  }

  function Successes(outcomes: seq<Outcome>): nat {
    if |outcomes| == 0 then 0 else (if outcomes[0].Succeeded? then 1 else 0) + Successes(outcomes[1..])
  }

  function Documents(outcomes: seq<Outcome>): int {
    if |outcomes| == 0 then 0
    else (if outcomes[0].Succeeded? then outcomes[0].documents else 0) + Documents(outcomes[1..])
  }

  function SuccessesOfType(outcomes: seq<Outcome>, t: string): nat {
    if |outcomes| == 0 then 0
    else (if outcomes[0].Succeeded? && outcomes[0].fileType == t then 1 else 0) + SuccessesOfType(outcomes[1..], t)
  }

  /** The counters agree with the outcomes recorded: successes and failures add up to the
      number of outcomes, the document total is the sum over successes, and every summary
      entry counts the successes of its type, on top of what the counters held before.
      The total-files counter is left to `set_total_files`. */
  lemma {:induction false} ReplayCounts(st: Stats, outcomes: seq<Outcome>)
    ensures var r := Replay(st, outcomes);
            && r.successfulFiles == st.successfulFiles + Successes(outcomes)
            && r.successfulFiles + r.failedFiles == st.successfulFiles + st.failedFiles + |outcomes|
            && r.totalDocuments == st.totalDocuments + Documents(outcomes)
            && r.totalFiles == st.totalFiles
            && (forall t :: Get(r.summary, t) == Get(st.summary, t) + SuccessesOfType(outcomes, t))
    decreases |outcomes|
  {
    if |outcomes| > 0 {
      ReplayCounts(Record(st, outcomes[0]), outcomes[1..]);
    }
  }

  /** Starting fresh, `pdf` and `excel` successes are counted under their own keys, and the
      message reports the totals. */
  lemma FreshStatsCounts(outcomes: seq<Outcome>)
    ensures var r := SetTotalFiles(Replay(NewStats, outcomes), |outcomes|);
            && r.successfulFiles + r.failedFiles == r.totalFiles == |outcomes|
            && r.successfulFiles == Successes(outcomes)
            && r.totalDocuments == Documents(outcomes)
            && Get(r.summary, "pdf") == SuccessesOfType(outcomes, "pdf")
            && Get(r.summary, "excel") == SuccessesOfType(outcomes, "excel")
  {
    ReplayCounts(NewStats, outcomes);
    var r0 := Replay(NewStats, outcomes);
    assert Get(NewStats.summary, "pdf") == 0 && Get(NewStats.summary, "excel") == 0;
    assert Get(r0.summary, "pdf") == SuccessesOfType(outcomes, "pdf");
    assert Get(r0.summary, "excel") == SuccessesOfType(outcomes, "excel");
    assert r0.failedFiles == |outcomes| - Successes(outcomes);
  }

  lemma FreshStatsFields(outcomes: seq<Outcome>)
    ensures var r := SetTotalFiles(Replay(NewStats, outcomes), |outcomes|);
            r.totalFiles == |outcomes| && r.successfulFiles == Successes(outcomes)
            && r.failedFiles == |outcomes| - Successes(outcomes)
  {
    FreshStatsCounts(outcomes);
  }

  /** The summary message reports the number of outcomes, the successes and the failures. */
  lemma FreshStatsMessage(outcomes: seq<Outcome>)
    ensures SummaryMessage(SetTotalFiles(Replay(NewStats, outcomes), |outcomes|))
            == ProcessedMessage(|outcomes|, Successes(outcomes), |outcomes| - Successes(outcomes))
  {
    var r := SetTotalFiles(Replay(NewStats, outcomes), |outcomes|);
    FreshStatsFields(outcomes);
    var n, k, f := r.totalFiles, r.successfulFiles, r.failedFiles;
    assert n == |outcomes| && k == Successes(outcomes) && f == |outcomes| - Successes(outcomes);
    MessageArgs(r, n, k, f);
  }

  lemma MessageArgs(st: Stats, total: int, successful: int, failed: int)
    requires st.totalFiles == total && st.successfulFiles == successful && st.failedFiles == failed
    ensures SummaryMessage(st) == ProcessedMessage(total, successful, failed)
  {
  }
}
