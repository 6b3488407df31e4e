/** `process_folder_files`: every supported file of a folder walk, cut to `all_files[:max_files]`
    when the cap is truthy, is processed in order; each file becomes one `FileProcessingResult`,
    the successes are handed to the vector store, and the response counts what happened. The
    vector store is threaded through as a `VectorStore.Service` value. */
module Upload {
  import opened Wrappers
  import opened Text
  import opened Paths
  import Content
  import opened Documents
  import opened PdfProcessor
  import opened ExcelProcessor
  import opened FileKinds
  import opened VectorStore

  /** One entry of `file_results`. */
  datatype FileProcessingResult = FileProcessingResult(filename: string, success: bool, documentsProcessed: int,
                                                       errorMessage: Option<string>, fileType: string)

  /** The `FolderUploadResponse` the endpoint returns. */
  datatype FolderUploadResponse = FolderUploadResponse(message: string, totalFilesProcessed: int,
                                                       successfulFiles: int, failedFiles: int,
                                                       totalDocumentsProcessed: int,
                                                       fileResults: seq<FileProcessingResult>,
                                                       processingSummary: map<string, int>)

  const PdfFailureMessage: string := "Failed to extract data from PDF"

  /** The extra metadata PDF documents carry. */
  const PdfExtra: map<string, string> := map["original_format" := "pdf"]

  /** The files processed: the supported files of the walk, and only `all_files[:max_files]`
      of them when the cap is truthy (a negative cap drops files from the end). */
  function AllFiles(walk: seq<WalkDir>, maxFiles: Option<int>): (r: seq<string>)
    ensures r <= Candidates(walk, None)
    ensures !Truthy(maxFiles) ==> r == Candidates(walk, None)
    ensures Truthy(maxFiles) && maxFiles.value > 0 ==>
              |r| == (if maxFiles.value < |Candidates(walk, None)| then maxFiles.value else |Candidates(walk, None)|)
    ensures Truthy(maxFiles) && maxFiles.value < 0 ==>
              |r| == (if |Candidates(walk, None)| + maxFiles.value > 0 then |Candidates(walk, None)| + maxFiles.value else 0)
  {
    var all := Candidates(walk, None);
    if Truthy(maxFiles) then Take(all, maxFiles.value) else all
  }

  /** `'pdf' if filename.lower().endswith('.pdf') else 'excel'` */
  function FileTypeOf(filename: string): string {
    if EndsWith(Lower(filename), ".pdf") then "pdf" else "excel"
  }

  /** The endpoint's two-way split agrees with `get_file_type` on every supported name: "pdf"
      for a PDF, "excel" for a workbook. */
  lemma FileTypeAgrees(filename: string)
    ensures FileTypeOf(filename) == "pdf" <==> GetFileType(filename) == Some(Pdf)
    ensures IsSupportedFile(filename, None) ==> (FileTypeOf(filename) == "excel" <==> GetFileType(filename) == Some(Excel))
  {
    FileTypeClassification(filename);
  }

  /** A failed entry: no documents, the error text. */
  function FailedEntry(filename: string, fileType: string, message: string): FileProcessingResult {
    FileProcessingResult(filename, false, 0, Some(message), fileType)
  }

  /** What one file does: its entry, the vector store afterwards, and the documents the
      store was given (none when the file failed). */
  datatype Step = Step(result: FileProcessingResult, service: Service, documents: seq<Document>)

  /** The `try` block up to the store: a PDF's documents, or "Failed to extract data from
      PDF" when conversion or loading failed or no row was captured; an Excel file's
      documents, or the loader's exception text. */
  function FileDocuments(path: string, fileType: string, backend: Backend, chunker: Chunker): (r: Result<seq<Document>>)
    ensures fileType == "pdf" && r.Failure? ==> r.error == PdfFailureMessage
    ensures fileType == "pdf" ==>
              (r.Success? <==> ProcessSinglePdf(path, None, backend).success && ProcessSinglePdf(path, None, backend).data.value != [])
    ensures fileType == "pdf" && r.Success? ==>
              var content := Content.ConvertToContent(ProcessSinglePdf(path, None, backend).data.value);
              var chunks := chunker(Content.SmartSplitter(content), content);
              && |r.value| == |chunks|
              && forall i :: 0 <= i < |r.value| ==>
                   r.value[i].content == chunks[i] && r.value[i].metadata == Metadata(Basename(path), PdfSource, PdfExtra)
    ensures fileType != "pdf" ==> r == ProcessExcelToDocuments(path, backend.load, chunker)
  {
    if fileType == "pdf" then
      var single := ProcessSinglePdf(path, None, backend);
      if single.success && single.data.Some? && single.data.value != [] then
        ExtractedDataDocuments(single.data.value, Basename(path), PdfSource, PdfExtra, chunker);
        Success(CreateDocumentsFromExtractedData(single.data.value, Basename(path), PdfSource, PdfExtra, chunker))
      else Failure(PdfFailureMessage)
    else ProcessExcelToDocuments(path, backend.load, chunker)
  }

  /** `vector_store_service.add_documents(documents)` and the entry that follows: a success
      counting the documents, or a failure carrying the text of whichever exception came
      first. */
  function Store(filename: string, fileType: string, docs: Result<seq<Document>>, s: Service,
                 upsert: seq<Document> -> Option<string>): (st: Step)
    ensures st.result.filename == filename && st.result.fileType == fileType
    ensures st.result.success <==> docs.Success? && AddDocuments(s, docs.value, upsert).Success?
    ensures st.result.success <==> st.result.errorMessage.None?
    ensures st.result.success ==> st.documents == docs.value && st.result.documentsProcessed == |docs.value|
    ensures docs.Failure? ==> st.result.errorMessage == Some(docs.error)
    ensures docs.Success? && AddDocuments(s, docs.value, upsert).Failure? ==>
              st.result.errorMessage == Some(AddDocuments(s, docs.value, upsert).error)
    ensures !st.result.success ==> st.result.documentsProcessed == 0 && st.documents == [] && st.service == s
    ensures st.service.ready == s.ready
    ensures st.service.stored == s.stored + (if s.ready then st.documents else [])
  {
    match docs
    case Failure(e) => Step(FailedEntry(filename, fileType, e), s, [])
    case Success(ds) =>
      match AddDocuments(s, ds, upsert)
      case Failure(e) => Step(FailedEntry(filename, fileType, e), s, [])
      case Success(s') => Step(FileProcessingResult(filename, true, |ds|, None, fileType), s', ds)
  }

  /** The body of the loop for one path, with its `try`/`except`. */
  function FileStep(path: string, s: Service, backend: Backend, chunker: Chunker,
                    upsert: seq<Document> -> Option<string>): (st: Step)
    ensures st.result.filename == Basename(path)
    ensures st.result.fileType == FileTypeOf(Basename(path))
    ensures st.result.success <==> st.result.errorMessage.None?
    ensures !st.result.success ==> st.result.documentsProcessed == 0
    ensures |st.documents| == if st.result.success then st.result.documentsProcessed else 0
    ensures st.service.ready == s.ready
    ensures st.service.stored == s.stored + (if s.ready then st.documents else [])
  {
    var filename := Basename(path);
    var fileType := FileTypeOf(filename);
    Store(filename, fileType, FileDocuments(path, fileType, backend, chunker), s, upsert)
  }

  /** The loop so far: the entries, the store, and every document handed to it, in order. */
  datatype Run = Run(results: seq<FileProcessingResult>, service: Service, documents: seq<Document>)

  /** The loop over `paths`, one step per path, each step seeing the store the previous one
      left. */
  function RunFiles(paths: seq<string>, s: Service, backend: Backend, chunker: Chunker,
                    upsert: seq<Document> -> Option<string>): (r: Run)
    ensures |r.results| == |paths|
    decreases |paths|
  {
    if |paths| == 0 then Run([], s, [])
    else
      var prev := RunFiles(paths[..|paths| - 1], s, backend, chunker, upsert);
      var st := FileStep(paths[|paths| - 1], prev.service, backend, chunker, upsert);
      Run(prev.results + [st.result], st.service, prev.documents + st.documents)
  }

  /** Entry `i` is the file `paths[i]`: named after its base name and typed by its extension;
      it is a success without an error message, or a failure with one and no documents. */
  predicate EntryOf(e: FileProcessingResult, path: string) {
    && e.filename == Basename(path) && e.fileType == FileTypeOf(Basename(path))
    && (e.success <==> e.errorMessage.None?)
    && (!e.success ==> e.documentsProcessed == 0)
  }

  lemma {:induction false} RunEntries(paths: seq<string>, s: Service, backend: Backend, chunker: Chunker,
                                      upsert: seq<Document> -> Option<string>)
    ensures var r := RunFiles(paths, s, backend, chunker, upsert);
            forall i :: 0 <= i < |paths| ==> EntryOf(r.results[i], paths[i])
    decreases |paths|
  {
    if |paths| > 0 {
      var n := |paths| - 1;
      var init := paths[..n];
      RunEntries(init, s, backend, chunker, upsert);
      var prev := RunFiles(init, s, backend, chunker, upsert);
      var r := RunFiles(paths, s, backend, chunker, upsert);
      forall i | 0 <= i < |paths|
        ensures EntryOf(r.results[i], paths[i])
      {
        if i < n {
          assert r.results[i] == prev.results[i];
          assert init[i] == paths[i];
        }
      }
    }
  }

  /** An entry as a `FileProcessingStats` outcome. */
  function OutcomeOf(r: FileProcessingResult): Outcome {
    if r.success then Succeeded(r.fileType, r.documentsProcessed) else Outcome.Failed
  }

  function Outcomes(rs: seq<FileProcessingResult>): (os: seq<Outcome>)
    ensures |os| == |rs|
    ensures forall i :: 0 <= i < |rs| ==> os[i] == OutcomeOf(rs[i])
  {
    seq(|rs|, i requires 0 <= i < |rs| => OutcomeOf(rs[i]))
  }

  /** Failed outcomes. */
  function Failures(os: seq<Outcome>): nat {
    if |os| == 0 then 0 else (if os[0].Failed? then 1 else 0) + Failures(os[1..])
  }

  /** The response for a list of entries, with the counters the loop keeps. */
  function Report(rs: seq<FileProcessingResult>): FolderUploadResponse {
    var os := Outcomes(rs);
    FolderUploadResponse(ProcessedMessage(|rs|, Successes(os), Failures(os)), |rs|, Successes(os), Failures(os),
                         FileKinds.Documents(os), rs,
                         map["pdf" := SuccessesOfType(os, "pdf"), "excel" := SuccessesOfType(os, "excel")])
  }

  /** The whole call: the response and the vector store afterwards. */
  datatype UploadOutcome = UploadOutcome(response: FolderUploadResponse, service: Service)

  function FolderUpload(walk: seq<WalkDir>, maxFiles: Option<int>, s: Service, backend: Backend, chunker: Chunker,
                        upsert: seq<Document> -> Option<string>): UploadOutcome {
    var run := RunFiles(AllFiles(walk, maxFiles), s, backend, chunker, upsert);
    UploadOutcome(Report(run.results), run.service)
  }

  lemma {:induction false} OutcomeCountsSnoc(os: seq<Outcome>, o: Outcome)
    ensures Successes(os + [o]) == Successes(os) + (if o.Succeeded? then 1 else 0)
    ensures Failures(os + [o]) == Failures(os) + (if o.Failed? then 1 else 0)
    ensures FileKinds.Documents(os + [o]) == FileKinds.Documents(os) + (if o.Succeeded? then o.documents else 0)
    ensures forall t :: SuccessesOfType(os + [o], t) == SuccessesOfType(os, t) + (if o.Succeeded? && o.fileType == t then 1 else 0)
    decreases |os|
  {
    if |os| == 0 {
      assert os + [o] == [o];
      assert [o][1..] == [];
    } else {
      assert (os + [o])[0] == os[0];
      assert (os + [o])[1..] == os[1..] + [o];
      OutcomeCountsSnoc(os[1..], o);
    }
  }

  lemma OutcomesSnoc(rs: seq<FileProcessingResult>, r: FileProcessingResult)
    ensures Outcomes(rs + [r]) == Outcomes(rs) + [OutcomeOf(r)]
  {
  }

  lemma {:induction false} SuccessesPlusFailures(os: seq<Outcome>)
    ensures Successes(os) + Failures(os) == |os|
    decreases |os|
  {
    if |os| > 0 {
      SuccessesPlusFailures(os[1..]);
    }
  }

  lemma {:induction false} TypesSplitSuccesses(os: seq<Outcome>)
    requires forall i :: 0 <= i < |os| ==> os[i].Succeeded? ==> os[i].fileType == "pdf" || os[i].fileType == "excel"
    ensures SuccessesOfType(os, "pdf") + SuccessesOfType(os, "excel") == Successes(os)
    decreases |os|
  {
    if |os| > 0 {
      TypesSplitSuccesses(os[1..]);
    }
  }

  /** `documents_processed` summed over every entry, failures included. */
  function EntryDocuments(rs: seq<FileProcessingResult>): int {
    if |rs| == 0 then 0 else rs[0].documentsProcessed + EntryDocuments(rs[1..])
  }

  lemma {:induction false} DocumentsOverEntries(rs: seq<FileProcessingResult>)
    requires forall i :: 0 <= i < |rs| ==> !rs[i].success ==> rs[i].documentsProcessed == 0
    ensures FileKinds.Documents(Outcomes(rs)) == EntryDocuments(rs)
    decreases |rs|
  {
    if |rs| > 0 {
      DocumentsOverEntries(rs[1..]);
      assert Outcomes(rs)[1..] == Outcomes(rs[1..]);
    }
  }

  /** The counts of a report: successes and failures add up to the number of entries; the
      "pdf" and "excel" counts split the successes; the document total is the sum of the
      entries' counts; the message states the three numbers. */
  lemma ReportCounts(rs: seq<FileProcessingResult>)
    requires forall i :: 0 <= i < |rs| ==> rs[i].fileType == "pdf" || rs[i].fileType == "excel"
    requires forall i :: 0 <= i < |rs| ==> !rs[i].success ==> rs[i].documentsProcessed == 0
    ensures var resp := Report(rs);
            && resp.successfulFiles + resp.failedFiles == resp.totalFilesProcessed == |resp.fileResults| == |rs|
            && resp.processingSummary.Keys == {"pdf", "excel"}
            && resp.processingSummary["pdf"] + resp.processingSummary["excel"] == resp.successfulFiles
            && resp.totalDocumentsProcessed == EntryDocuments(rs)
            && resp.message == ProcessedMessage(|rs|, resp.successfulFiles, resp.failedFiles)
  {
    var os := Outcomes(rs);
    SuccessesPlusFailures(os);
    TypesSplitSuccesses(os);
    DocumentsOverEntries(rs);
  }

  /** The endpoint's hand-kept counters are exactly what `FileProcessingStats` records for the
      same outcomes, message included. */
  lemma ReportMatchesStats(rs: seq<FileProcessingResult>)
    ensures var resp := Report(rs);
            var st := SetTotalFiles(Replay(NewStats, Outcomes(rs)), |rs|);
            && resp.totalFilesProcessed == st.totalFiles
            && resp.successfulFiles == st.successfulFiles
            && resp.failedFiles == st.failedFiles
            && resp.totalDocumentsProcessed == st.totalDocuments
            && resp.processingSummary["pdf"] == Get(st.summary, "pdf")
            && resp.processingSummary["excel"] == Get(st.summary, "excel")
            && resp.message == SummaryMessage(st)
  {
    var os := Outcomes(rs);
    FreshStatsCounts(os);
    FreshStatsMessage(os);
    SuccessesPlusFailures(os);
  }

  /** Over any run the store keeps its readiness and, when ready, holds exactly the documents
      the successes handed over, in order. */
  lemma {:induction false} RunStores(paths: seq<string>, s: Service, backend: Backend, chunker: Chunker,
                                     upsert: seq<Document> -> Option<string>)
    ensures var r := RunFiles(paths, s, backend, chunker, upsert);
            && r.service.ready == s.ready
            && r.service.stored == s.stored + (if s.ready then r.documents else [])
    decreases |paths|
  {
    if |paths| > 0 {
      var init := paths[..|paths| - 1];
      RunStores(init, s, backend, chunker, upsert);
      var prev := RunFiles(init, s, backend, chunker, upsert);
      var st := FileStep(paths[|paths| - 1], prev.service, backend, chunker, upsert);
      if s.ready {
        assert st.service.stored == s.stored + prev.documents + st.documents;
      }
    }
  }

  /** The documents handed over are as many as the successes report. */
  lemma {:induction false} RunDocumentCount(paths: seq<string>, s: Service, backend: Backend, chunker: Chunker,
                                            upsert: seq<Document> -> Option<string>)
    ensures var r := RunFiles(paths, s, backend, chunker, upsert);
            |r.documents| == FileKinds.Documents(Outcomes(r.results))
    decreases |paths|
  {
    if |paths| > 0 {
      var init := paths[..|paths| - 1];
      RunDocumentCount(init, s, backend, chunker, upsert);
      var prev := RunFiles(init, s, backend, chunker, upsert);
      var st := FileStep(paths[|paths| - 1], prev.service, backend, chunker, upsert);
      OutcomesSnoc(prev.results, st.result);
      OutcomeCountsSnoc(Outcomes(prev.results), OutcomeOf(st.result));
    }
  }

  /** A store that is not ready is never asked to embed anything: the run does not depend on
      `upsert`, and the store ends as it began, although the successes still count their
      documents. */
  lemma {:induction false} UnreadyStoreIgnored(paths: seq<string>, s: Service, backend: Backend, chunker: Chunker,
                                               upsert: seq<Document> -> Option<string>,
                                               upsert': seq<Document> -> Option<string>)
    requires !s.ready
    ensures RunFiles(paths, s, backend, chunker, upsert) == RunFiles(paths, s, backend, chunker, upsert')
    ensures RunFiles(paths, s, backend, chunker, upsert).service == s
    decreases |paths|
  {
    if |paths| > 0 {
      UnreadyStoreIgnored(paths[..|paths| - 1], s, backend, chunker, upsert, upsert');
    }
  }

  lemma RunStep(paths: seq<string>, i: nat, s: Service, backend: Backend, chunker: Chunker,
                upsert: seq<Document> -> Option<string>)
    requires i < |paths|
    ensures var prev := RunFiles(paths[..i], s, backend, chunker, upsert);
            var st := FileStep(paths[i], prev.service, backend, chunker, upsert);
            RunFiles(paths[..i + 1], s, backend, chunker, upsert).results == prev.results + [st.result]
            && RunFiles(paths[..i + 1], s, backend, chunker, upsert).service == st.service
  {
    assert paths[..i + 1][..i] == paths[..i];
  }

  /** The counters after one more entry of either type. */
  lemma TallyStep(rs: seq<FileProcessingResult>, e: FileProcessingResult)
    requires e.fileType == "pdf" || e.fileType == "excel"
    ensures var os, os' := Outcomes(rs), Outcomes(rs + [e]);
            && Successes(os') == Successes(os) + (if e.success then 1 else 0)
            && Failures(os') == Failures(os) + (if e.success then 0 else 1)
            && FileKinds.Documents(os') == FileKinds.Documents(os) + (if e.success then e.documentsProcessed else 0)
            && SuccessesOfType(os', "pdf") == SuccessesOfType(os, "pdf") + (if e.success && e.fileType == "pdf" then 1 else 0)
            && SuccessesOfType(os', "excel") == SuccessesOfType(os, "excel") + (if e.success && e.fileType != "pdf" then 1 else 0)
  {
    OutcomesSnoc(rs, e);
    OutcomeCountsSnoc(Outcomes(rs), OutcomeOf(e));
  }

  /** The `for file_path in all_files` loop, keeping `file_results`, `total_documents`,
      `successful_files`, `failed_files` and the two `processing_summary` counts as it goes. */
  method ProcessFiles(allFiles: seq<string>, service: Service, backend: Backend, chunker: Chunker,
                      upsert: seq<Document> -> Option<string>)
    returns (fileResults: seq<FileProcessingResult>, after: Service, totalDocuments: int,
             successfulFiles: int, failedFiles: int, pdfCount: int, excelCount: int)
    ensures fileResults == RunFiles(allFiles, service, backend, chunker, upsert).results
    ensures after == RunFiles(allFiles, service, backend, chunker, upsert).service
    ensures successfulFiles == Successes(Outcomes(fileResults))
    ensures failedFiles == Failures(Outcomes(fileResults))
    ensures totalDocuments == FileKinds.Documents(Outcomes(fileResults))
    ensures pdfCount == SuccessesOfType(Outcomes(fileResults), "pdf")
    ensures excelCount == SuccessesOfType(Outcomes(fileResults), "excel")
  {
    fileResults, after := [], service;
    totalDocuments, successfulFiles, failedFiles, pdfCount, excelCount := 0, 0, 0, 0, 0;
    var i := 0;
    while i < |allFiles|
      invariant 0 <= i <= |allFiles|
      invariant fileResults == RunFiles(allFiles[..i], service, backend, chunker, upsert).results
      invariant after == RunFiles(allFiles[..i], service, backend, chunker, upsert).service
      invariant successfulFiles == Successes(Outcomes(fileResults))
      invariant failedFiles == Failures(Outcomes(fileResults))
      invariant totalDocuments == FileKinds.Documents(Outcomes(fileResults))
      invariant pdfCount == SuccessesOfType(Outcomes(fileResults), "pdf")
      invariant excelCount == SuccessesOfType(Outcomes(fileResults), "excel")
    {
      var st := FileStep(allFiles[i], after, backend, chunker, upsert);
      ghost var next := RunFiles(allFiles[..i + 1], service, backend, chunker, upsert);
      assert next.results == fileResults + [st.result] && next.service == st.service by {
        RunStep(allFiles, i, service, backend, chunker, upsert);
      }
      ghost var e := st.result;
      ghost var os, os' := Outcomes(fileResults), Outcomes(fileResults + [e]);
      assert && Successes(os') == Successes(os) + (if e.success then 1 else 0)
             && Failures(os') == Failures(os) + (if e.success then 0 else 1)
             && FileKinds.Documents(os') == FileKinds.Documents(os) + (if e.success then e.documentsProcessed else 0)
             && SuccessesOfType(os', "pdf") == SuccessesOfType(os, "pdf") + (if e.success && e.fileType == "pdf" then 1 else 0)
             && SuccessesOfType(os', "excel") == SuccessesOfType(os, "excel") + (if e.success && e.fileType != "pdf" then 1 else 0)
      by {
        assert e.fileType == "pdf" || e.fileType == "excel";
        TallyStep(fileResults, e);
      }
      fileResults := fileResults + [st.result];
      after := st.service;
      if st.result.success {
        totalDocuments := totalDocuments + st.result.documentsProcessed;
        successfulFiles := successfulFiles + 1;
        if st.result.fileType == "pdf" {
          pdfCount := pdfCount + 1;
        } else {
          excelCount := excelCount + 1;
        }
      } else {
        failedFiles := failedFiles + 1;
      }
      i := i + 1;
    }
    assert allFiles[..i] == allFiles;
  }

  /** `process_folder_files(folder_path, max_files)`: the walk, the cap, the loop, and the
      response built from the counters. */
  method ProcessFolderFiles(walk: seq<WalkDir>, maxFiles: Option<int>, service: Service, backend: Backend,
                            chunker: Chunker, upsert: seq<Document> -> Option<string>)
    returns (response: FolderUploadResponse, after: Service)
    ensures UploadOutcome(response, after) == FolderUpload(walk, maxFiles, service, backend, chunker, upsert)
  {
    var allFiles := CollectFilesFromDirectory(walk, None, None);
    if Truthy(maxFiles) {
      allFiles := Take(allFiles, maxFiles.value);
    }
    assert allFiles == AllFiles(walk, maxFiles);
    var fileResults, totalDocuments, successfulFiles, failedFiles, pdfCount, excelCount;
    fileResults, after, totalDocuments, successfulFiles, failedFiles, pdfCount, excelCount :=
      ProcessFiles(allFiles, service, backend, chunker, upsert);
    response := FolderUploadResponse(ProcessedMessage(|allFiles|, successfulFiles, failedFiles), |allFiles|,
                                     successfulFiles, failedFiles, totalDocuments, fileResults,
                                     map["pdf" := pdfCount, "excel" := excelCount]);
  }

  /** What the call promises as a whole: one entry per processed file, named after it and
      typed by its extension; the counters add up; a positive cap bounds the number of files;
      and a ready store ends up holding the documents of the successful files. */
  lemma FolderUploadFacts(walk: seq<WalkDir>, maxFiles: Option<int>, s: Service, backend: Backend, chunker: Chunker,
                          upsert: seq<Document> -> Option<string>)
    ensures var files := AllFiles(walk, maxFiles);
            var out := FolderUpload(walk, maxFiles, s, backend, chunker, upsert);
            var resp := out.response;
            && resp.totalFilesProcessed == |files| == |resp.fileResults|
            && (Truthy(maxFiles) && maxFiles.value > 0 ==> resp.totalFilesProcessed <= maxFiles.value)
            && (forall i :: 0 <= i < |files| ==> EntryOf(resp.fileResults[i], files[i]))
            && resp.successfulFiles + resp.failedFiles == resp.totalFilesProcessed
            && resp.processingSummary["pdf"] + resp.processingSummary["excel"] == resp.successfulFiles
            && resp.totalDocumentsProcessed == EntryDocuments(resp.fileResults)
            && out.service.ready == s.ready
            && |out.service.stored| == |s.stored| + (if s.ready then resp.totalDocumentsProcessed else 0)
  {
    var files := AllFiles(walk, maxFiles);
    var run := RunFiles(files, s, backend, chunker, upsert);
    RunStores(files, s, backend, chunker, upsert);
    RunDocumentCount(files, s, backend, chunker, upsert);
    RunEntries(files, s, backend, chunker, upsert);
    forall i | 0 <= i < |run.results|
      ensures run.results[i].fileType == "pdf" || run.results[i].fileType == "excel"
      ensures !run.results[i].success ==> run.results[i].documentsProcessed == 0
    {
      assert EntryOf(run.results[i], files[i]);
    }
    ReportCounts(run.results);
  }
}
