/** The Excel-side document pipeline: `extract_info`, `process_excel_to_documents`,
    `process_pdf_folder_to_documents` and the two-phase `process_mixed_folder_to_documents`.
    Workbook loading and PDF conversion are the oracles of `PdfProcessor.Backend`; the text
    splitter is a `Documents.Chunker`. */
module ExcelProcessor {
  import opened Wrappers
  import opened Text
  import opened Paths
  import opened Extraction
  import Content
  import opened Documents
  import opened PdfProcessor

  /** `extract_info(wb)`: the shared extraction; every row it returns is non-empty and free
      of `None` cells. */
  method ExtractInfo(wb: Workbook) returns (rows: Dataset)
    ensures rows == Extract(wb.sheets)
    ensures forall i :: 0 <= i < |rows| ==> DataRow(rows[i])
  {
    rows := ExtractInfoFromExcel(wb);
    ExtractedRowsWellFormed(wb.sheets);
  }

  /** `process_excel_to_documents(file_path)`: a loading failure propagates as the
      exception; otherwise the extracted rows become Excel documents named after the file. */
  function ProcessExcelToDocuments(filePath: string, load: string -> Result<Workbook>, chunker: Chunker): Result<seq<Document>> {
    match load(filePath)
    case Failure(e) => Failure(e)
    case Success(wb) => Success(CreateDocumentsFromExcelSheets(Extract(wb.sheets), Basename(filePath), chunker))
  }

  /** The call fails exactly when loading does, with the same message; on success every
      document is tagged with the file's base name and the "excel_extraction" source, and a
      workbook without captured rows gives no documents. */
  lemma ExcelToDocumentsFacts(filePath: string, load: string -> Result<Workbook>, chunker: Chunker)
    ensures ProcessExcelToDocuments(filePath, load, chunker).Failure? <==> load(filePath).Failure?
    ensures load(filePath).Failure? ==> ProcessExcelToDocuments(filePath, load, chunker).error == load(filePath).error
    ensures ProcessExcelToDocuments(filePath, load, chunker).Success? ==>
              forall d :: d in ProcessExcelToDocuments(filePath, load, chunker).value ==>
                d.metadata == map["filename" := Basename(filePath), "source" := "excel_extraction"]
    ensures load(filePath).Success? && Extract(load(filePath).value.sheets) == [] ==>
              ProcessExcelToDocuments(filePath, load, chunker) == Success([])
    ensures load(filePath).Success? && Extract(load(filePath).value.sheets) != [] ==>
              var content := Content.ConvertToContent(Extract(load(filePath).value.sheets));
              var chunks := chunker(Content.DefaultSplitter, content);
              var docs := ProcessExcelToDocuments(filePath, load, chunker).value;
              |docs| == |chunks| && forall i :: 0 <= i < |docs| ==> docs[i].content == chunks[i]
  {
    if load(filePath).Success? {
      ExcelSheetsDocuments(Extract(load(filePath).value.sheets), Basename(filePath), chunker);
    }
  }

  const PdfSource: string := "pdf_extraction"

  /** The documents of one `(filename, extracted_data)` entry. */
  function PdfEntryDocuments(e: FolderEntry, chunker: Chunker): seq<Document> {
    if e.data != [] then CreateDocumentsFromExtractedData(e.data, e.filename, PdfSource, map["original_format" := "pdf"], chunker)
    else []
  }

  /** The documents of a sequence of entries, concatenated in entry order. */
  function EntriesDocuments(entries: seq<FolderEntry>, chunker: Chunker): seq<Document> {
    if |entries| == 0 then []
    else EntriesDocuments(entries[..|entries| - 1], chunker) + PdfEntryDocuments(entries[|entries| - 1], chunker)
  }

  /** `process_pdf_folder_to_documents(folder_path, max_files)` as a reference definition. */
  function PdfFolderDocuments(folder: string, listing: Option<seq<string>>, maxFiles: Option<int>,
                              backend: Backend, chunker: Chunker): seq<Document> {
    EntriesDocuments(FolderResults(folder, listing, maxFiles, None, backend), chunker)
  }

  lemma EntriesStep(entries: seq<FolderEntry>, i: nat, chunker: Chunker)
    requires i < |entries|
    ensures EntriesDocuments(entries[..i + 1], chunker) == EntriesDocuments(entries[..i], chunker) + PdfEntryDocuments(entries[i], chunker)
  {
    assert entries[..i + 1][..i] == entries[..i];
  }

  /** The loop of `process_pdf_folder_to_documents`: one `extend` per entry with data. */
  method DocumentsOfEntries(results: seq<FolderEntry>, chunker: Chunker) returns (allDocuments: seq<Document>)
    ensures allDocuments == EntriesDocuments(results, chunker)
  {
    allDocuments := [];
    var i := 0;
    while i < |results|
      invariant 0 <= i <= |results|
      invariant allDocuments == EntriesDocuments(results[..i], chunker)
    {
      EntriesStep(results, i, chunker);
      allDocuments := allDocuments + PdfEntryDocuments(results[i], chunker);
      i := i + 1;
    }
    assert results[..i] == results;
  }

  /** `process_pdf_folder_to_documents`: the folder result, then the documents of each entry. */
  method ProcessPdfFolderToDocuments(folder: string, listing: Option<seq<string>>, maxFiles: Option<int>,
                                     backend: Backend, chunker: Chunker)
    returns (allDocuments: seq<Document>)
    ensures allDocuments == PdfFolderDocuments(folder, listing, maxFiles, backend, chunker)
  {
    var results := ProcessPdfFolder(folder, listing, maxFiles, None, backend);
    allDocuments := DocumentsOfEntries(results, chunker);
  }

  /** Every document of an entry carries the entry's filename, the "pdf_extraction" source and
      `original_format` "pdf". */
  lemma EntryDocumentsTagged(e: FolderEntry, chunker: Chunker)
    ensures forall d :: d in PdfEntryDocuments(e, chunker) ==>
              && MetaGet(d.metadata, "source") == Some("pdf_extraction")
              && MetaGet(d.metadata, "original_format") == Some("pdf")
              && MetaGet(d.metadata, "filename") == Some(e.filename)
  {
    ExtractedDataDocuments(e.data, e.filename, PdfSource, map["original_format" := "pdf"], chunker);
    var m := Metadata(e.filename, PdfSource, map["original_format" := "pdf"]);
    assert "source" !in map["original_format" := "pdf"];
    assert "filename" !in map["original_format" := "pdf"];
    assert m["original_format"] == "pdf";
    forall d | d in PdfEntryDocuments(e, chunker)
      ensures d.metadata == m
    {
      var docs := PdfEntryDocuments(e, chunker);
      var i :| 0 <= i < |docs| && docs[i] == d;
    }
  }

  /** The number of documents whose `source` metadata is `source`. */
  function CountSource(docs: seq<Document>, source: string): nat {
    if |docs| == 0 then 0
    else CountSource(docs[..|docs| - 1], source) + (if MetaGet(docs[|docs| - 1].metadata, "source") == Some(source) then 1 else 0)
  }

  lemma CountSourceAppend(a: seq<Document>, b: seq<Document>, source: string)
    ensures CountSource(a + b, source) == CountSource(a, source) + CountSource(b, source)
    decreases |b|
  {
    if |b| == 0 {
      assert a + b == a;
    } else {
      CountSourceAppend(a, b[..|b| - 1], source);
      assert (a + b)[..|a + b| - 1] == a + b[..|b| - 1];
    }
  }

  lemma {:induction false} CountSourceAll(docs: seq<Document>, source: string)
    requires forall d :: d in docs ==> MetaGet(d.metadata, "source") == Some(source)
    ensures CountSource(docs, source) == |docs|
    decreases |docs|
  {
    if |docs| > 0 {
      CountSourceAll(docs[..|docs| - 1], source);
      assert docs[|docs| - 1] in docs;
    }
  }

  /** The PDF phase's documents come from the folder result: each is tagged as a PDF
      extraction of one of its entries. So counting the "pdf_extraction" documents counts
      every PDF chunk. */
  lemma {:induction false} PdfDocumentsTagged(entries: seq<FolderEntry>, chunker: Chunker)
    ensures forall d :: d in EntriesDocuments(entries, chunker) ==>
              && MetaGet(d.metadata, "source") == Some("pdf_extraction")
              && MetaGet(d.metadata, "original_format") == Some("pdf")
              && exists e :: e in entries && MetaGet(d.metadata, "filename") == Some(e.filename)
    ensures CountSource(EntriesDocuments(entries, chunker), "pdf_extraction") == |EntriesDocuments(entries, chunker)|
    decreases |entries|
  {
    if |entries| > 0 {
      var init := entries[..|entries| - 1];
      var last := entries[|entries| - 1];
      PdfDocumentsTagged(init, chunker);
      EntryDocumentsTagged(last, chunker);
      forall d | d in EntriesDocuments(entries, chunker)
        ensures exists e :: e in entries && MetaGet(d.metadata, "filename") == Some(e.filename)
      {
        if d in EntriesDocuments(init, chunker) {
          var e :| e in init && MetaGet(d.metadata, "filename") == Some(e.filename);
          assert e in entries;
        } else {
          assert last in entries;
        }
      }
    }
    CountSourceAll(EntriesDocuments(entries, chunker), "pdf_extraction");
  }

  /** `filename.lower().endswith('.xlsx') or filename.lower().endswith('.xls')` */
  predicate IsExcelName(name: string) {
    EndsWith(Lower(name), ".xlsx") || EndsWith(Lower(name), ".xls")
  }

  /** The Excel names of a listing that process without raising, in listing order; these are
      the files the Excel phase counts. */
  function LoadedExcel(folder: string, names: seq<string>, backend: Backend): (r: seq<string>)
    ensures forall i :: 0 <= i < |r| ==> IsExcelName(r[i]) && r[i] in names
    ensures forall i :: 0 <= i < |r| ==> backend.load(PathJoin(folder, r[i])).Success?
  {
    if |names| == 0 then []
    else
      var last := names[|names| - 1];
      LoadedExcel(folder, names[..|names| - 1], backend)
      + (if IsExcelName(last) && backend.load(PathJoin(folder, last)).Success? then [last] else [])
  }

  /** The documents of an Excel file, or none when processing it raised. */
  function ExcelFileDocuments(folder: string, name: string, backend: Backend, chunker: Chunker): seq<Document> {
    match ProcessExcelToDocuments(PathJoin(folder, name), backend.load, chunker)
    case Success(docs) => docs
    case Failure(_) => []
  }

  function ExcelDocumentsOf(folder: string, names: seq<string>, backend: Backend, chunker: Chunker): seq<Document> {
    if |names| == 0 then []
    else ExcelDocumentsOf(folder, names[..|names| - 1], backend, chunker) + ExcelFileDocuments(folder, names[|names| - 1], backend, chunker)
  }

  /** The Excel files the mixed loop processes successfully: the first `remaining` loaded
      ones, the cap being tested before each name. */
  function ExcelProcessed(folder: string, names: seq<string>, remaining: Option<int>, backend: Backend): seq<string> {
    var loaded := LoadedExcel(folder, names, backend);
    loaded[..BreakLimit(remaining, |loaded|)]
  }

  /** The exception `os.listdir` raises for a missing folder. */
  function ListdirError(folder: string): string {
    "[Errno 2] No such file or directory: '" + folder + "'"
  }

  /** Whether the Excel phase runs: `not max_files or processed_count < max_files`. */
  predicate ExcelPhaseRuns(maxFiles: Option<int>, processedCount: int) {
    !(Truthy(maxFiles) && processedCount >= maxFiles.value)
  }

  /** The Excel files whose documents the mixed result holds, given the PDF phase's count and
      the second listing of the folder: none when the phase is skipped or the folder cannot
      be listed, otherwise the first `max_files - processed_count` (all, without a cap)
      that load. */
  function ExcelPhaseFiles(folder: string, relisting: Option<seq<string>>, maxFiles: Option<int>, backend: Backend,
                           processedCount: int): seq<string> {
    if !ExcelPhaseRuns(maxFiles, processedCount) || relisting.None? then []
    else
      var remaining := if Truthy(maxFiles) then Some(maxFiles.value - processedCount) else None;
      ExcelProcessed(folder, relisting.value, remaining, backend)
  }

  /** The mixed pipeline given the count the PDF phase is charged with: the Excel phase is
      skipped when a truthy cap is already reached, fails when the folder cannot be listed
      again, and otherwise appends the documents of the processed Excel files. */
  function MixedWith(folder: string, relisting: Option<seq<string>>, maxFiles: Option<int>, backend: Backend,
                     chunker: Chunker, pdfDocs: seq<Document>, processedCount: int): Result<seq<Document>> {
    if !ExcelPhaseRuns(maxFiles, processedCount) then Success(pdfDocs)
    else if relisting.None? then Failure(ListdirError(folder))
    else Success(pdfDocs + ExcelDocumentsOf(folder, ExcelPhaseFiles(folder, relisting, maxFiles, backend, processedCount), backend, chunker))
  }

  /** `process_mixed_folder_to_documents(folder_path, max_files)` as written: the PDF phase is
      charged with the number of "pdf_extraction" documents, that is, with chunks. The folder
      is listed twice: `listing` is what the PDF phase iterates, and `relisting` is what
      `os.listdir` returns when the Excel phase starts, after the PDF phase has written its
      workbooks into the folder. */
  function MixedFolderDocuments(folder: string, listing: Option<seq<string>>, relisting: Option<seq<string>>,
                                maxFiles: Option<int>, backend: Backend, chunker: Chunker): Result<seq<Document>> {
    var pdfDocs := PdfFolderDocuments(folder, listing, maxFiles, backend, chunker);
    MixedWith(folder, relisting, maxFiles, backend, chunker, pdfDocs, CountSource(pdfDocs, PdfSource))
  }

  /** The PDF phase's count is its number of documents, and a missing folder has none. */
  lemma PdfPhaseCount(folder: string, listing: Option<seq<string>>, maxFiles: Option<int>,
                      backend: Backend, chunker: Chunker)
    ensures var pdfDocs := PdfFolderDocuments(folder, listing, maxFiles, backend, chunker);
            CountSource(pdfDocs, PdfSource) == |pdfDocs| && (listing.None? ==> pdfDocs == [])
  {
    PdfDocumentsTagged(FolderResults(folder, listing, maxFiles, None, backend), chunker);
  }

  /** Whatever count the PDF phase is charged with, the PDF documents come first and only
      Excel documents follow, and a count at or over a truthy cap skips the Excel phase. */
  lemma MixedWithShape(folder: string, relisting: Option<seq<string>>, maxFiles: Option<int>, backend: Backend,
                       chunker: Chunker, pdfDocs: seq<Document>, processedCount: int)
    ensures var r := MixedWith(folder, relisting, maxFiles, backend, chunker, pdfDocs, processedCount);
            && (r.Success? ==> pdfDocs <= r.value)
            && (r.Success? ==> forall d :: d in r.value[|pdfDocs|..] ==> MetaGet(d.metadata, "source") == Some("excel_extraction"))
            && (Truthy(maxFiles) && processedCount >= maxFiles.value ==> r == Success(pdfDocs))
  {
    var r := MixedWith(folder, relisting, maxFiles, backend, chunker, pdfDocs, processedCount);
    if r.Success? && ExcelPhaseRuns(maxFiles, processedCount) {
      var processed := ExcelPhaseFiles(folder, relisting, maxFiles, backend, processedCount);
      var excelDocs := ExcelDocumentsOf(folder, processed, backend, chunker);
      ExcelDocumentsTagged(folder, processed, backend, chunker);
      assert r.value == pdfDocs + excelDocs;
      assert r.value[|pdfDocs|..] == excelDocs;
    }
  }

  /** The mixed result starts with all PDF documents, followed only by Excel documents; the
      Excel phase is skipped exactly when a truthy cap is at most the number of PDF chunks. */
  lemma MixedFolderOrder(folder: string, listing: Option<seq<string>>, relisting: Option<seq<string>>,
                         maxFiles: Option<int>, backend: Backend, chunker: Chunker)
    ensures var pdfDocs := PdfFolderDocuments(folder, listing, maxFiles, backend, chunker);
            var r := MixedFolderDocuments(folder, listing, relisting, maxFiles, backend, chunker);
            && (r.Success? ==> pdfDocs <= r.value)
            && (r.Success? ==> forall d :: d in r.value[|pdfDocs|..] ==> MetaGet(d.metadata, "source") == Some("excel_extraction"))
            && (Truthy(maxFiles) && |pdfDocs| >= maxFiles.value ==> r == Success(pdfDocs))
  {
    var pdfDocs := PdfFolderDocuments(folder, listing, maxFiles, backend, chunker);
    PdfPhaseCount(folder, listing, maxFiles, backend, chunker);
    MixedWithShape(folder, relisting, maxFiles, backend, chunker, pdfDocs, |pdfDocs|);
  }

  /** The only failure is the second listing of a missing folder: it happens exactly when the
      Excel phase runs and the folder cannot be listed. A folder missing from the start has
      no PDF documents, so then only a negative cap avoids the failure. */
  lemma MixedFolderFailure(folder: string, listing: Option<seq<string>>, relisting: Option<seq<string>>,
                           maxFiles: Option<int>, backend: Backend, chunker: Chunker)
    ensures var pdfDocs := PdfFolderDocuments(folder, listing, maxFiles, backend, chunker);
            MixedFolderDocuments(folder, listing, relisting, maxFiles, backend, chunker).Failure? <==>
              relisting.None? && !(Truthy(maxFiles) && |pdfDocs| >= maxFiles.value)
    ensures listing.None? && relisting.None? ==>
              (MixedFolderDocuments(folder, listing, relisting, maxFiles, backend, chunker).Failure? <==>
                 !(Truthy(maxFiles) && maxFiles.value < 0))
    ensures MixedFolderDocuments(folder, listing, relisting, maxFiles, backend, chunker).Failure? ==>
              MixedFolderDocuments(folder, listing, relisting, maxFiles, backend, chunker).error == ListdirError(folder)
  {
    PdfPhaseCount(folder, listing, maxFiles, backend, chunker);
  }

  lemma {:induction false} ExcelDocumentsTagged(folder: string, names: seq<string>, backend: Backend, chunker: Chunker)
    ensures forall d :: d in ExcelDocumentsOf(folder, names, backend, chunker) ==>
              MetaGet(d.metadata, "source") == Some("excel_extraction")
    decreases |names|
  {
    if |names| > 0 {
      var last := names[|names| - 1];
      ExcelDocumentsTagged(folder, names[..|names| - 1], backend, chunker);
      ExcelToDocumentsFacts(PathJoin(folder, last), backend.load, chunker);
    }
  }

  /** One step of the Excel loop: a name that is an Excel file and loads joins the processed
      files and contributes its documents; any other name changes nothing. */
  lemma ExcelStep(folder: string, names: seq<string>, i: nat, backend: Backend, chunker: Chunker)
    requires i < |names|
    ensures var loaded := IsExcelName(names[i]) && backend.load(PathJoin(folder, names[i])).Success?;
            && (loaded ==>
                  && LoadedExcel(folder, names[..i + 1], backend) == LoadedExcel(folder, names[..i], backend) + [names[i]]
                  && ProcessExcelToDocuments(PathJoin(folder, names[i]), backend.load, chunker)
                     == Success(ExcelFileDocuments(folder, names[i], backend, chunker))
                  && ExcelDocumentsOf(folder, LoadedExcel(folder, names[..i], backend) + [names[i]], backend, chunker)
                     == ExcelDocumentsOf(folder, LoadedExcel(folder, names[..i], backend), backend, chunker)
                        + ExcelFileDocuments(folder, names[i], backend, chunker))
            && (IsExcelName(names[i]) && !loaded ==>
                  && LoadedExcel(folder, names[..i + 1], backend) == LoadedExcel(folder, names[..i], backend)
                  && ProcessExcelToDocuments(PathJoin(folder, names[i]), backend.load, chunker).Failure?)
            && (!IsExcelName(names[i]) ==>
                  LoadedExcel(folder, names[..i + 1], backend) == LoadedExcel(folder, names[..i], backend))
  {
    assert names[..i + 1][..i] == names[..i];
    var seen := LoadedExcel(folder, names[..i], backend);
    assert (seen + [names[i]])[..|seen|] == seen;
  }

  lemma LoadedExcelSnoc(folder: string, names: seq<string>, n: string, backend: Backend)
    ensures LoadedExcel(folder, names + [n], backend) ==
            LoadedExcel(folder, names, backend) + (if IsExcelName(n) && backend.load(PathJoin(folder, n)).Success? then [n] else [])
  {
    assert (names + [n])[..|names|] == names;
  }

  /** Conversely to `LoadedExcel`'s contract, every listed Excel name whose load succeeds is kept. */
  lemma {:induction false} LoadedExcelMember(folder: string, names: seq<string>, x: string, backend: Backend)
    requires x in names && IsExcelName(x) && backend.load(PathJoin(folder, x)).Success?
    ensures x in LoadedExcel(folder, names, backend)
    decreases |names|
  {
    var init := names[..|names| - 1];
    if x != names[|names| - 1] {
      assert names == init + [names[|names| - 1]];
      LoadedExcelMember(folder, init, x, backend);
    }
  }

  lemma {:induction false} LoadedExcelPrefix(folder: string, names: seq<string>, i: nat, backend: Backend)
    requires i <= |names|
    ensures LoadedExcel(folder, names[..i], backend) <= LoadedExcel(folder, names, backend)
    decreases |names| - i
  {
    if i < |names| {
      LoadedExcelPrefix(folder, names, i + 1, backend);
      assert names[..i + 1][..i] == names[..i];
    } else {
      assert names[..i] == names;
    }
  }

  /** The Excel loop of `process_mixed_folder_to_documents`: stop once `remaining` files have
      been processed, try every Excel name, count a file only when it raised nothing. */
  method ExcelPhase(folder: string, names: seq<string>, remaining: Option<int>, backend: Backend, chunker: Chunker)
    returns (docs: seq<Document>)
    ensures docs == ExcelDocumentsOf(folder, ExcelProcessed(folder, names, remaining, backend), backend, chunker)
  {
    docs := [];
    var excelCount := 0;
    ghost var seen: seq<string> := [];
    var i := 0;
    while i < |names| && !(Truthy(remaining) && excelCount >= remaining.value)
      invariant 0 <= i <= |names|
      invariant seen == LoadedExcel(folder, names[..i], backend)
      invariant excelCount == |seen|
      invariant docs == ExcelDocumentsOf(folder, seen, backend, chunker)
      invariant Truthy(remaining) ==> if remaining.value > 0 then excelCount <= remaining.value else i == 0
    {
      var filename := names[i];
      if IsExcelName(filename) {
        var result := ProcessExcelToDocuments(PathJoin(folder, filename), backend.load, chunker);
        if result.Success? {
          assert LoadedExcel(folder, names[..i + 1], backend) == seen + [filename]
                 && ExcelDocumentsOf(folder, seen + [filename], backend, chunker) == docs + result.value by {
            ExcelStep(folder, names, i, backend, chunker);
          }
          docs := docs + result.value;
          excelCount := excelCount + 1;
          seen := seen + [filename];
        } else {
          assert LoadedExcel(folder, names[..i + 1], backend) == seen by {
            ExcelStep(folder, names, i, backend, chunker);
          }
        }
      } else {
        assert LoadedExcel(folder, names[..i + 1], backend) == seen by {
          ExcelStep(folder, names, i, backend, chunker);
        }
      }
      i := i + 1;
    }
    LoadedExcelPrefix(folder, names, i, backend);
    if i == |names| {
      assert names[..i] == names;
    }
    BreakLimitPrefix(seen, LoadedExcel(folder, names, backend), remaining, i == |names|);
  }

  /** The three outcomes of the Excel phase, given the PDF phase's documents and count. */
  lemma MixedWithCases(folder: string, relisting: Option<seq<string>>, maxFiles: Option<int>, backend: Backend,
                       chunker: Chunker, pdfDocs: seq<Document>, count: int)
    ensures var r := MixedWith(folder, relisting, maxFiles, backend, chunker, pdfDocs, count);
            && (!ExcelPhaseRuns(maxFiles, count) ==> r == Success(pdfDocs))
            && (ExcelPhaseRuns(maxFiles, count) && relisting.None? ==> r == Failure(ListdirError(folder)))
            && (ExcelPhaseRuns(maxFiles, count) && relisting.Some? ==>
                  var remaining := if Truthy(maxFiles) then Some(maxFiles.value - count) else None;
                  r == Success(pdfDocs + ExcelDocumentsOf(folder, ExcelProcessed(folder, relisting.value, remaining, backend), backend, chunker)))
  {
    if ExcelPhaseRuns(maxFiles, count) && relisting.Some? {
      var remaining := if Truthy(maxFiles) then Some(maxFiles.value - count) else None;
      assert ExcelPhaseFiles(folder, relisting, maxFiles, backend, count) == ExcelProcessed(folder, relisting.value, remaining, backend);
    }
  }

  /** `process_mixed_folder_to_documents`: the PDF phase over `listing`, its count of
      "pdf_extraction" documents, then, unless a truthy cap is reached, the Excel phase over
      the folder as `relisting` shows it once the PDF phase has run. */
  method ProcessMixedFolderToDocuments(folder: string, listing: Option<seq<string>>, relisting: Option<seq<string>>,
                                       maxFiles: Option<int>, backend: Backend, chunker: Chunker)
    returns (r: Result<seq<Document>>)
    ensures r == MixedFolderDocuments(folder, listing, relisting, maxFiles, backend, chunker)
  {
    var pdfDocs := ProcessPdfFolderToDocuments(folder, listing, maxFiles, backend, chunker);
    var processedCount := CountSource(pdfDocs, PdfSource);
    assert MixedFolderDocuments(folder, listing, relisting, maxFiles, backend, chunker)
           == MixedWith(folder, relisting, maxFiles, backend, chunker, pdfDocs, processedCount);
    MixedWithCases(folder, relisting, maxFiles, backend, chunker, pdfDocs, processedCount);
    if !Truthy(maxFiles) || processedCount < maxFiles.value {
      if relisting.None? {
        return Failure(ListdirError(folder));
      }
      var remaining := if Truthy(maxFiles) then Some(maxFiles.value - processedCount) else None;
      var excelDocs := ExcelPhase(folder, relisting.value, remaining, backend, chunker);
      return Success(pdfDocs + excelDocs);
    }
    return Success(pdfDocs);
  }

  /** The workbook the PDF phase writes for the listed PDF `name`: with no output directory,
      `process_pdf_folder` converts into the folder itself. */
  function WrittenWorkbook(folder: string, name: string): string {
    ExcelName(PathJoin(folder, name))
  }

  /** A written workbook has an Excel name, which the second listing's filter accepts. */
  lemma WrittenWorkbookIsExcel(folder: string, name: string)
    ensures IsExcelName(WrittenWorkbook(folder, name))
  {
    ExcelNameShape(PathJoin(folder, name));
    LowerKeepsSuffix(WrittenWorkbook(folder, name), ".xlsx");
  }

  /** Joined back onto the folder, a written workbook's name is the very path the conversion
      wrote, and that path's base name is the name again. */
  lemma WrittenWorkbookPath(folder: string, name: string)
    ensures ExcelOutputPath(PathJoin(folder, name), Some(folder)) == PathJoin(folder, WrittenWorkbook(folder, name))
    ensures Basename(PathJoin(folder, WrittenWorkbook(folder, name))) == WrittenWorkbook(folder, name)
  {
    ExcelNameShape(PathJoin(folder, name));
    BasenameOfJoin(folder, WrittenWorkbook(folder, name));
  }

  lemma {:induction false} ExcelDocumentsOfMember(folder: string, files: seq<string>, x: string, backend: Backend,
                                                  chunker: Chunker)
    requires x in files
    ensures forall d :: d in ExcelFileDocuments(folder, x, backend, chunker) ==> d in ExcelDocumentsOf(folder, files, backend, chunker)
    decreases |files|
  {
    var init := files[..|files| - 1];
    if x != files[|files| - 1] {
      assert files == init + [files[|files| - 1]];
      ExcelDocumentsOfMember(folder, init, x, backend, chunker);
    }
  }

  /** Without a cap the Excel phase processes every Excel name of the second listing that
      loads. */
  lemma UncappedExcelPhase(folder: string, relisting: seq<string>, maxFiles: Option<int>, backend: Backend,
                           count: int, x: string)
    requires !Truthy(maxFiles)
    requires x in relisting && IsExcelName(x) && backend.load(PathJoin(folder, x)).Success?
    ensures x in ExcelPhaseFiles(folder, Some(relisting), maxFiles, backend, count)
  {
    LoadedExcelMember(folder, relisting, x, backend);
    var loaded := LoadedExcel(folder, relisting, backend);
    assert loaded[..|loaded|] == loaded;
  }

  /** The Excel documents of a written workbook are the default-splitter documents of the
      rows the PDF phase extracted from it, under the workbook's own name. */
  lemma WrittenWorkbookDocuments(folder: string, name: string, backend: Backend, chunker: Chunker)
    requires ProcessSinglePdf(PathJoin(folder, name), Some(folder), backend).success
    ensures var w := WrittenWorkbook(folder, name);
            && backend.load(PathJoin(folder, w)).Success?
            && ExcelFileDocuments(folder, w, backend, chunker) ==
               CreateDocumentsFromExcelSheets(ProcessSinglePdf(PathJoin(folder, name), Some(folder), backend).data.value, w, chunker)
  {
    WrittenWorkbookPath(folder, name);
  }

  /** Without a cap, a listed PDF that converts and loads is attempted by the PDF phase, and
      the workbook its conversion wrote, once the second listing shows it, is read again by
      the Excel phase: its documents, built from the very rows the PDF phase extracted, are
      part of the result under the "excel_extraction" source. */
  lemma ConvertedWorkbookReingested(folder: string, listing: seq<string>, relisting: seq<string>,
                                    maxFiles: Option<int>, backend: Backend, chunker: Chunker, name: string)
    requires !Truthy(maxFiles)
    requires name in listing && IsPdfName(name)
    requires ProcessSinglePdf(PathJoin(folder, name), Some(folder), backend).success
    requires WrittenWorkbook(folder, name) in relisting
    ensures name in AttemptedPdfs(listing, maxFiles)
    ensures ProcessSinglePdf(PathJoin(folder, name), Some(folder), backend).excelPath == PathJoin(folder, WrittenWorkbook(folder, name))
    ensures var w := WrittenWorkbook(folder, name);
            var pdfDocs := PdfFolderDocuments(folder, Some(listing), maxFiles, backend, chunker);
            var files := ExcelPhaseFiles(folder, Some(relisting), maxFiles, backend, CountSource(pdfDocs, PdfSource));
            && w in files
            && ExcelFileDocuments(folder, w, backend, chunker) ==
               CreateDocumentsFromExcelSheets(ProcessSinglePdf(PathJoin(folder, name), Some(folder), backend).data.value, w, chunker)
            && MixedFolderDocuments(folder, Some(listing), Some(relisting), maxFiles, backend, chunker) ==
               Success(pdfDocs + ExcelDocumentsOf(folder, files, backend, chunker))
            && forall d :: d in ExcelFileDocuments(folder, w, backend, chunker) ==>
                 d in MixedFolderDocuments(folder, Some(listing), Some(relisting), maxFiles, backend, chunker).value
  {
    var w := WrittenWorkbook(folder, name);
    assert name in AttemptedPdfs(listing, maxFiles) by {
      PdfNamesMember(listing, name);
      assert PdfNames(listing)[..|PdfNames(listing)|] == PdfNames(listing);
    }
    WrittenWorkbookPath(folder, name);
    WrittenWorkbookIsExcel(folder, name);
    WrittenWorkbookDocuments(folder, name, backend, chunker);
    var pdfDocs := PdfFolderDocuments(folder, Some(listing), maxFiles, backend, chunker);
    var files := ExcelPhaseFiles(folder, Some(relisting), maxFiles, backend, CountSource(pdfDocs, PdfSource));
    UncappedExcelPhase(folder, relisting, maxFiles, backend, CountSource(pdfDocs, PdfSource), w);
    var excelDocs := ExcelDocumentsOf(folder, files, backend, chunker);
    assert MixedFolderDocuments(folder, Some(listing), Some(relisting), maxFiles, backend, chunker) == Success(pdfDocs + excelDocs);
    ExcelDocumentsOfMember(folder, files, w, backend, chunker);
    forall d | d in ExcelFileDocuments(folder, w, backend, chunker)
      ensures d in pdfDocs + excelDocs
    {
      assert d in excelDocs;
    }
  }

  /** The mixed pipeline charging the PDF phase with the number of PDF files that yielded
      data, so that `max_files` bounds files as its documentation says. */
  function MixedFolderDocumentsByFiles(folder: string, listing: Option<seq<string>>, relisting: Option<seq<string>>,
                                       maxFiles: Option<int>, backend: Backend, chunker: Chunker): Result<seq<Document>> {
    var pdfDocs := PdfFolderDocuments(folder, listing, maxFiles, backend, chunker);
    MixedWith(folder, relisting, maxFiles, backend, chunker, pdfDocs, |FolderResults(folder, listing, maxFiles, None, backend)|)
  }

  /** Counting files, a positive cap bounds the PDF files with data plus the Excel files
      processed, and the Excel phase runs whenever fewer PDF files than the cap yielded data. */
  lemma ByFilesRespectsCap(folder: string, listing: Option<seq<string>>, relisting: Option<seq<string>>,
                           maxFiles: Option<int>, backend: Backend, chunker: Chunker)
    ensures var pdfFiles := |FolderResults(folder, listing, maxFiles, None, backend)|;
            var excelFiles := ExcelPhaseFiles(folder, relisting, maxFiles, backend, pdfFiles);
            && (Truthy(maxFiles) && maxFiles.value > 0 ==> pdfFiles + |excelFiles| <= maxFiles.value)
            && (relisting.Some? && (!Truthy(maxFiles) || pdfFiles < maxFiles.value) ==>
                  MixedFolderDocumentsByFiles(folder, listing, relisting, maxFiles, backend, chunker) ==
                  Success(PdfFolderDocuments(folder, listing, maxFiles, backend, chunker)
                          + ExcelDocumentsOf(folder, excelFiles, backend, chunker)))
  {
    var pdfFiles := |FolderResults(folder, listing, maxFiles, None, backend)|;
    FolderResultsFacts(folder, listing, maxFiles, None, backend);
    assert MixedFolderDocumentsByFiles(folder, listing, relisting, maxFiles, backend, chunker)
           == MixedWith(folder, relisting, maxFiles, backend, chunker, PdfFolderDocuments(folder, listing, maxFiles, backend, chunker), pdfFiles);
    if Truthy(maxFiles) && maxFiles.value > 0 && ExcelPhaseRuns(maxFiles, pdfFiles) && relisting.Some? {
      var loaded := LoadedExcel(folder, relisting.value, backend);
      assert |ExcelPhaseFiles(folder, relisting, maxFiles, backend, pdfFiles)| == BreakLimit(Some(maxFiles.value - pdfFiles), |loaded|);
    }
  }

  /** A workbook whose single sheet holds the notes marker and one data row `v`. */
  function NotesWorkbook(v: string): Workbook {
    Workbook([Worksheet("Sheet1", [[Str("Additional Notes:")], [Str(v)]])])
  }

  /** Every conversion succeeds and every file loads as `NotesWorkbook(v)`. */
  function NotesBackend(v: string): Backend {
    Backend((p: string, x: string) => true, (p: string) => Success(NotesWorkbook(v)))
  }

  /** A splitter that cuts every text into two chunks. */
  const TwoChunks: Chunker := (c: Content.SplitterConfig, t: string) => [t, t]

  lemma NotesWorkbookData(v: string)
    ensures Extract(NotesWorkbook(v).sheets) == [[Str(v)]]
  {
    var rows := NotesWorkbook(v).sheets[0].rows;
    ExtractSingle(NotesWorkbook(v).sheets[0]);
    MarkerCaseInsensitive("");
    assert IsMarkerCell(rows[0][0]);
    assert rows == [] + [rows[0]] + [rows[1]];
    SheetDataAfterFirstMarker([], rows[0], [rows[1]]);
    CapturedDataRow([], rows[1], [], 0);
    assert [] + [rows[1]] + [] == [rows[1]];
    DropNullsKeepsFalsyCells(rows[1]);
  }

  lemma ExampleNames()
    ensures IsPdfName("a.pdf") && !IsExcelName("a.pdf")
    ensures IsExcelName("b.xlsx") && !IsPdfName("b.xlsx")
    ensures IsExcelName("a.xlsx")
  {
    assert Lower("a.pdf") == "a.pdf";
    assert Lower("b.xlsx") == "b.xlsx";
    assert Lower("a.xlsx") == "a.xlsx";
    assert "a.pdf"[|"a.pdf"| - 4..] == ".pdf";
    assert "b.xlsx"[|"b.xlsx"| - 5..] == ".xlsx";
    assert "a.xlsx"[|"a.xlsx"| - 5..] == ".xlsx";
  }

  lemma ExamplePdfNames()
    ensures PdfNames(["a.pdf", "b.xlsx"]) == ["a.pdf"]
  {
    ExampleNames();
    assert ["a.pdf", "b.xlsx"] == ["a.pdf"] + ["b.xlsx"];
    assert ["a.pdf"] == [] + ["a.pdf"];
    PdfNamesSnoc([], "a.pdf");
    PdfNamesSnoc(["a.pdf"], "b.xlsx");
  }

  lemma ExampleLoadedExcel(folder: string, v: string)
    ensures LoadedExcel(folder, ["a.pdf", "b.xlsx"], NotesBackend(v)) == ["b.xlsx"]
  {
    ExampleNames();
    var names := ["a.pdf", "b.xlsx"];
    assert names[..1] == ["a.pdf"];
    assert ["a.pdf"][..0] == [];
    assert LoadedExcel(folder, ["a.pdf"], NotesBackend(v)) == [];
    assert NotesBackend(v).load(PathJoin(folder, "b.xlsx")).Success?;
  }

  const ExampleListing: Option<seq<string>> := Some(["a.pdf", "b.xlsx"])

  /** The same folder listed again after "a.pdf" was converted into "a.xlsx". */
  const ExampleRelisting: Option<seq<string>> := Some(["a.pdf", "b.xlsx", "a.xlsx"])

  lemma ExampleRelistedExcel(folder: string, v: string)
    ensures LoadedExcel(folder, ExampleRelisting.value, NotesBackend(v)) == ["b.xlsx", "a.xlsx"]
  {
    ExampleLoadedExcel(folder, v);
    ExampleNames();
    assert ExampleRelisting.value == ["a.pdf", "b.xlsx"] + ["a.xlsx"];
    LoadedExcelSnoc(folder, ["a.pdf", "b.xlsx"], "a.xlsx", NotesBackend(v));
  }

  /** The example's PDF phase: "a.pdf" converts and yields the notes row. */
  lemma ExampleFolderResults(folder: string, v: string)
    ensures FolderResults(folder, ExampleListing, Some(2), None, NotesBackend(v)) == [FolderEntry("a.pdf", [[Str(v)]])]
  {
    NotesWorkbookData(v);
    ExamplePdfNames();
    assert AttemptedPdfs(ExampleListing.value, Some(2)) == ["a.pdf"];
    var entry := FolderEntry("a.pdf", [[Str(v)]]);
    assert Entry(folder, folder, "a.pdf", NotesBackend(v)) == [entry];
    assert ["a.pdf"][..0] == [];
  }

  /** The splitter cuts the PDF's notes row into two documents. */
  lemma ExamplePdfDocuments(folder: string, v: string)
    ensures |PdfFolderDocuments(folder, ExampleListing, Some(2), NotesBackend(v), TwoChunks)| == 2
  {
    var entry := FolderEntry("a.pdf", [[Str(v)]]);
    ExampleFolderResults(folder, v);
    EntriesSingle(entry, TwoChunks);
    ExampleEntryDocuments(v);
  }

  lemma EntriesSingle(e: FolderEntry, chunker: Chunker)
    ensures EntriesDocuments([e], chunker) == PdfEntryDocuments(e, chunker)
  {
    assert [e][..0] == [];
  }

  lemma ExampleEntryDocuments(v: string)
    ensures |PdfEntryDocuments(FolderEntry("a.pdf", [[Str(v)]]), TwoChunks)| == 2
  {
    ExtractedDataDocuments([[Str(v)]], "a.pdf", PdfSource, map["original_format" := "pdf"], TwoChunks);
  }

  /** Charged with one file, the Excel phase processes "b.xlsx", the first Excel name of the
      second listing. */
  lemma ExampleExcelFiles(folder: string, v: string)
    ensures ExcelPhaseFiles(folder, ExampleRelisting, Some(2), NotesBackend(v), 1) == ["b.xlsx"]
  {
    ExampleProcessed(folder, v);
  }

  lemma ExampleProcessed(folder: string, v: string)
    ensures ExcelProcessed(folder, ExampleRelisting.value, Some(1), NotesBackend(v)) == ["b.xlsx"]
  {
    ExampleRelistedExcel(folder, v);
    assert ["b.xlsx", "a.xlsx"][..1] == ["b.xlsx"];
  }

  /** "b.xlsx" gives two documents. */
  lemma ExampleExcelDocuments(folder: string, v: string)
    ensures |ExcelDocumentsOf(folder, ["b.xlsx"], NotesBackend(v), TwoChunks)| == 2
  {
    NotesWorkbookData(v);
    assert ["b.xlsx"][..0] == [];
    assert ExcelDocumentsOf(folder, ["b.xlsx"], NotesBackend(v), TwoChunks) == ExcelFileDocuments(folder, "b.xlsx", NotesBackend(v), TwoChunks);
    ExcelSheetsDocuments(Extract(NotesWorkbook(v).sheets), Basename(PathJoin(folder, "b.xlsx")), TwoChunks);
  }

  /** A folder with one PDF and one Excel file under `max_files = 2`: the PDF's two chunks are
      counted as two processed files, so no Excel file is read although only one file was
      processed; counting files instead, the first Excel name listed, "b.xlsx", is processed
      and its two documents follow the PDF's. */
  lemma ChunkCountSkipsExcel(folder: string, v: string)
    ensures var pdfDocs := PdfFolderDocuments(folder, ExampleListing, Some(2), NotesBackend(v), TwoChunks);
            && |FolderResults(folder, ExampleListing, Some(2), None, NotesBackend(v))| == 1
            && LoadedExcel(folder, ExampleRelisting.value, NotesBackend(v)) == ["b.xlsx", "a.xlsx"]
            && MixedFolderDocuments(folder, ExampleListing, ExampleRelisting, Some(2), NotesBackend(v), TwoChunks) == Success(pdfDocs)
            && |pdfDocs| == 2
            && MixedFolderDocumentsByFiles(folder, ExampleListing, ExampleRelisting, Some(2), NotesBackend(v), TwoChunks).Success?
            && |MixedFolderDocumentsByFiles(folder, ExampleListing, ExampleRelisting, Some(2), NotesBackend(v), TwoChunks).value| == 4
  {
    ExampleFolderResults(folder, v);
    ExamplePdfDocuments(folder, v);
    ExampleExcelFiles(folder, v);
    ExampleExcelDocuments(folder, v);
    ExampleRelistedExcel(folder, v);
    MixedFolderOrder(folder, ExampleListing, ExampleRelisting, Some(2), NotesBackend(v), TwoChunks);
  }
}
