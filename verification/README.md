# BM-AI ingestion and question answering, modelled in Dafny

BM-AI is a backend that turns building-log PDFs and Excel workbooks into text chunks,
stores them in a Qdrant collection, and answers questions over them. This project models
its core decisions as pure Dafny functions, loop methods and lemmas:

- **Row extraction.** Each sheet of a workbook is scanned until the first row holding an
  "additional notes:" cell. Every later row that keeps a non-`None` cell is then emitted,
  with its `None` cells removed; a row of `None` cells only is dropped.
  (`Extraction`)
- **Text preparation.** Rows are serialised as `" | "`-joined cells, one row per line. The
  text then picks one of two splitter configurations. (`Content`, `Documents`)
- **File handling.** Files are classified by extension and collected from a walk under a
  `max_files` cap. Sheet names are sanitised, and a statistics record is kept.
  (`FileKinds`)
- **PDF pipeline.** One PDF is converted to Excel and loaded. A folder of PDFs is processed
  under a cap. (`PdfProcessor`)
- **Document pipelines.** A folder becomes documents in two phases: PDFs, then Excel
  files. (`ExcelProcessor`)
- **Vector store.** A state machine provisions the "building_logs" collection and guards
  `add_documents` and `get_retriever` by readiness. (`VectorStore`)
- **Chat.** An answer is assembled from the QA chain's result. (`ChatService`)
- **Folder upload.** The upload endpoint's per-file loop aggregates results into a
  `FolderUploadResponse`. (`Upload`)
- **File download.** The download endpoint makes its access-check, status and header
  decisions. (`FileAccess`)

Foreign code becomes a parameter:

| Foreign code | Modelled as |
|---|---|
| PDF-to-Excel conversion | `Backend.convert`, a yes/no oracle |
| workbook loading | `Backend.load`, returning sheets of cells or an error message |
| the text splitter's chunking | a `Chunker` |
| embedding and upserting | a failure oracle |
| the QA chain | an `Invoke` oracle |
| `os.walk` / `os.listdir` | the listings, given as sequences; the mixed-folder pipeline lists its folder twice and takes both listings |
| the `QdrantVectorStore` wrapper's construction | a `Construct` oracle: the error it raises for a given collection, or none |
| file existence | a predicate |
| the working directory for `abspath` | a string |

Most loops of the source are methods whose `ensures` equate them with a declarative
reference function, and lemmas then state the promised properties about that reference.
Two loops are modelled by functions instead: the `for char in invalid_chars` replacement
loop of `safe_filename_for_excel_sheet` (`FileKinds.ReplaceEach`, proved pointwise by
`FileKinds.ReplaceEachPointwise`), and the `os.walk` collection loop of
`process_folder_files` (`Upload.AllFiles`).

The mixed-folder pipeline writes into the folder it later lists again. Converting a PDF
writes its workbook next to it, and the Excel phase then reads that workbook a second
time as an Excel file (`ExcelProcessor.ConvertedWorkbookReingested`).

Helper modules:
- `Wrappers`: `Option`/`Result`, Python truthiness and slicing with negative bounds.
- `Text`: ASCII lower-casing, split, join, prefix and suffix tests, integer rendering.
- `Paths`: posixpath `join`, `basename`, `dirname`, `splitext`, `normpath`/`abspath`.

## Model

| member | source | states |
|---|---|---|
| Extraction.DropNulls | backend/services/document_utils.py:35 | the filtered row holds no `None` cell and is never longer than the row |
| Extraction.FirstMarker | backend/services/document_utils.py:38-41 | absent exactly when no row has a marker cell; otherwise it points at a marker row with no marker row before it |
| Extraction.ScanSheet | backend/services/document_utils.py:29-41 | the two-state scan with the `found` flag computes the sheet's contribution: the captured rows after the first marker row, or nothing |
| Extraction.ExtractInfoFromExcel | backend/services/document_utils.py:13-43 | the sheet loop, with the flag reset per sheet, yields the sheets' contributions concatenated in sheet order |
| Extraction.SheetDataSnoc | backend/services/document_utils.py:33-41 | one more row adds its filtered cells once a marker has been seen, and nothing before; a marker is seen once any row so far is a marker row |
| Extraction.ExtractSingle | backend/services/document_utils.py:27-41 | a one-sheet workbook yields exactly that sheet's contribution |
| Extraction.ExtractConcat | backend/services/document_utils.py:27-28 | sheets are independent: the extraction of two sheet lists is the concatenation of their extractions |
| Extraction.SheetDataAfterFirstMarker | backend/services/document_utils.py:33-41 | rows up to and including the first marker row are never emitted; every later row is, later marker rows included |
| Extraction.NoMarkerNoData | backend/services/document_utils.py:38-41 | a workbook with no marker row yields no data |
| Extraction.CapturedRowsWellFormed | backend/services/document_utils.py:35-37 | every captured row is non-empty and free of `None` |
| Extraction.ExtractedRowsWellFormed | backend/services/document_utils.py:35-37 | every extracted row is non-empty and free of `None` |
| Extraction.CapturedNullRow | backend/services/document_utils.py:35-36 | after the marker, a row made only of `None` cells disappears |
| Extraction.CapturedDataRow | backend/services/document_utils.py:35-37 | after the marker, a row with a non-`None` cell appears exactly once, stripped of `None`, in place |
| Extraction.MarkerCaseInsensitive | backend/services/document_utils.py:40 | "Additional Notes:" triggers capture; a non-string cell or `None` never does |
| Extraction.DropNullsKeepsFalsyCells | backend/services/document_utils.py:35 | only `None` is removed: falsy cells such as `0` or `""` survive |
| Extraction.DropNullsAppend | backend/services/document_utils.py:35 | the filter distributes over concatenation of cells |
| Extraction.CapturedAppend | backend/services/document_utils.py:33-37 | captured rows of a concatenation are the concatenation of captured rows, order preserved |
| Content.ContentLines | backend/services/document_utils.py:75-85 | the empty dataset gives ""; with no line break inside a cell, splitting the text at newlines gives back one line per row, its cells joined by a space, a bar and a space |
| Content.SmartSplitterChoice | backend/services/document_utils.py:113-131 | with `n` line breaks the entry splitter is chosen exactly when `n >= 5` and the `n + 1` lines average under 150 characters, else the default one |
| Content.FewLinesUseDefault | backend/services/document_utils.py:124-131 | fewer than five line breaks, the empty text included, always selects the default splitter |
| Content.SplitterConfigsAgree | backend/services/document_utils.py:46-72 | both configurations share one separator list (paragraph break, line break, the cell separator, space, nothing); the entry chunks are smaller, and overlap is below chunk size |
| Content.ShortRowsUseEntrySplitter | backend/services/document_utils.py:113-131 | six or more rows of short single-line cells select the entry splitter |
| Content.ShortLinesTotal | backend/services/document_utils.py:125-129 | lines each under 150 characters have total length under 150 per line |
| Documents.Metadata | backend/services/document_utils.py:102-108 | the keys are filename, source and the extra keys; extra values override the two defaults |
| Documents.ExtractedDataDocuments | backend/services/document_utils.py:134-159 | empty data gives no documents; otherwise the documents are the chunks of the serialised rows under the smart splitter, all carrying the same metadata |
| Documents.ExcelSheetsDocuments | backend/services/document_utils.py:162-191 | empty data gives no documents; otherwise the chunks use the default splitter whatever the text, tagged with the filename and "excel_extraction" only; they equal the generic builder's output whenever the smart choice is the default splitter too |
| FileKinds.FileTypeClassification | backend/services/document_utils.py:194-244 | on the lower-cased name, ".pdf" gives pdf and ".xlsx"/".xls" give excel; a name is supported, with no filter or an empty one, exactly when it has a type, and the "pdf"/"excel" filters admit exactly that type |
| FileKinds.UnknownFilterAdmitsNothing | backend/services/document_utils.py:220-222 | a filter key without an extension list admits no file |
| FileKinds.CandidatesAppend | backend/services/document_utils.py:260-266 | the candidates of a walk split at any directory boundary are the two parts' candidates in order |
| FileKinds.CollectInDir | backend/services/document_utils.py:263-268 | the inner loop appends the directory's supported files in order and stops right after the file that reaches a truthy cap |
| FileKinds.CollectFilesFromDirectory | backend/services/document_utils.py:247-270 | the result is the prefix of the supported files in walk order: all of them without a truthy cap, at most `max_files` with a positive one |
| FileKinds.SafeSheetName | backend/services/document_utils.py:273-293 | exactly as long as Python's `root[:max_length]` on the extension-less name: `min(max_length, len(root))` for a non-negative cap, `len(root) + max_length` clamped at 0 for a negative one; no invalid sheet character; each position is the name's character or '_' in place of an invalid one |
| FileKinds.DefaultSheetName | backend/services/document_utils.py:273-293 | with the default `max_length=31` the result is a valid sheet name (at most 31 characters, none invalid) of exactly `min(31, len(root))` characters, empty exactly when the extension-less name is |
| FileKinds.ReplaceEachPointwise | backend/services/document_utils.py:289-291 | replacing each invalid character in turn maps every position independently |
| FileKinds.ReplayCounts | backend/services/document_utils.py:296-316 | after recording outcomes, successes plus failures equal their number, added documents equal the successes' documents, and per-type counts add up |
| FileKinds.FreshStatsCounts | backend/services/document_utils.py:301-320 | from fresh counters the summary keeps pdf and excel successes under their keys and the total is the number of outcomes |
| FileKinds.FreshStatsMessage | backend/services/document_utils.py:322-324 | the summary message names the outcome count, the successes and the failures |
| PdfProcessor.ExcelNameShape | backend/services/pdf_processor.py:93-94 | the Excel name is non-empty, has no '/', and ends in ".xlsx" |
| PdfProcessor.ExcelOutputPathShape | backend/services/pdf_processor.py:89-95 | the Excel path lies in the output directory, or in the PDF's own one by default, and its base name is the PDF's stem plus ".xlsx" |
| PdfProcessor.ProcessSinglePdf | backend/services/pdf_processor.py:78-113 | success exactly when conversion and loading both succeed; data is present exactly on success and is the workbook's extraction; the path is always the derived one |
| PdfProcessor.FailedConversionSkipsLoading | backend/services/pdf_processor.py:98-101 | a failed conversion gives `(False, None, path)` whatever the loader would do |
| PdfProcessor.PdfNames | backend/services/pdf_processor.py:153 | the PDF names picked from a listing are names of the listing with a case-insensitive ".pdf" suffix; with `PdfNamesMember` this is an if-and-only-if |
| PdfProcessor.PdfNamesMember | backend/services/pdf_processor.py:153 | conversely, every listed name with a case-insensitive ".pdf" suffix is picked |
| PdfProcessor.Harvest | backend/services/pdf_processor.py:156-159 | at most one entry per attempted PDF, each with non-empty data and an attempted name |
| PdfProcessor.FolderResultsFacts | backend/services/pdf_processor.py:115-169 | a missing folder or a negative cap gives []; a positive cap bounds the entries; each entry is a listed PDF name with non-empty data |
| PdfProcessor.FolderStep | backend/services/pdf_processor.py:144-164 | one iteration attempts and counts a PDF name, and leaves everything unchanged for any other name |
| PdfProcessor.LoopStopsAtAttempted | backend/services/pdf_processor.py:144-148 | where the loop stops, the PDFs seen are exactly the first `max_files` PDFs, or all of them without a truthy cap |
| PdfProcessor.ProcessPdfFolder | backend/services/pdf_processor.py:115-169 | the folder loop equals the reference result: the successful non-empty entries of the first capped PDFs, in listing order |
| PdfProcessor.PdfCountMatchesAttempts | backend/services/pdf_processor.py:171-186 | the count is the number of PDF names, it equals the number attempted without a cap, and it bounds the number attempted with one |
| PdfProcessor.ProcessPdfsAndExtractData | backend/services/pdf_processor.py:222-237 | the data of the folder result, same length and same order |
| PdfProcessor.ExtractedDataNonEmpty | backend/services/pdf_processor.py:222-237 | every dataset returned is non-empty, and a missing folder gives none |
| ExcelProcessor.ExtractInfo | backend/services/excel_processer.py:15-17 | the same extraction as the shared one, so every row is non-empty and free of `None` |
| ExcelProcessor.ExcelToDocumentsFacts | backend/services/excel_processer.py:19-26 | fails exactly when loading fails, with its message; otherwise one document per chunk the default splitter cuts from the serialised rows, each tagged with the base name and "excel_extraction", none for empty data |
| ExcelProcessor.EntriesStep | backend/services/excel_processer.py:44-53 | each folder entry appends its own chunks after those of the earlier entries |
| ExcelProcessor.DocumentsOfEntries | backend/services/excel_processer.py:44-53 | the loop concatenates the per-entry chunk lists in entry order |
| ExcelProcessor.ProcessPdfFolderToDocuments | backend/services/excel_processer.py:28-55 | the documents are the chunks of the folder result's entries, in the order the folder returns them |
| ExcelProcessor.EntryDocumentsTagged | backend/services/excel_processer.py:45-52 | each chunk of an entry carries its filename, "pdf_extraction" and `original_format` "pdf" |
| ExcelProcessor.PdfDocumentsTagged | backend/services/excel_processer.py:42-55 | every PDF-phase chunk is tagged "pdf_extraction" with the filename of an entry, so counting that source counts all of them |
| ExcelProcessor.CountSourceAppend | backend/services/excel_processer.py:74 | the per-source count adds over concatenation |
| ExcelProcessor.LoadedExcel | backend/services/excel_processer.py:85-92 | the files the Excel loop counts are listed names with an ".xlsx" or ".xls" suffix in any case whose processing did not raise; with `LoadedExcelMember` this is an if-and-only-if |
| ExcelProcessor.LoadedExcelMember | backend/services/excel_processer.py:85-92 | conversely, every listed Excel name whose processing does not raise is counted |
| ExcelProcessor.PdfPhaseCount | backend/services/excel_processer.py:72-74 | the PDF phase's counter equals its number of documents, and a missing folder has none |
| ExcelProcessor.MixedWithShape | backend/services/excel_processer.py:76-94 | the PDF documents come first and everything after them is Excel-derived; a reached truthy cap returns the PDF documents alone |
| ExcelProcessor.MixedFolderOrder | backend/services/excel_processer.py:57-94 | all PDF-derived documents precede all Excel-derived ones, and the Excel phase is skipped once the chunk count reaches a truthy cap |
| ExcelProcessor.MixedFolderFailure | backend/services/excel_processer.py:77-81 | the call raises exactly when the Excel phase runs and the second listing finds no folder, with the `listdir` error; a folder missing from the start raises unless the cap is negative |
| ExcelProcessor.ExcelDocumentsTagged | backend/services/excel_processer.py:85-90 | every Excel-phase chunk is tagged "excel_extraction" |
| ExcelProcessor.ExcelStep | backend/services/excel_processer.py:81-92 | one iteration: an Excel file that loads is counted and appends its chunks; one that raises, or any other name, changes nothing |
| ExcelProcessor.LoadedExcelPrefix | backend/services/excel_processer.py:81-92 | the files loaded from a listing prefix are a prefix of those loaded from the whole listing |
| ExcelProcessor.ExcelPhase | backend/services/excel_processer.py:78-92 | the loop yields the chunks of the first `remaining` loaded Excel files, the cap tested before each name |
| ExcelProcessor.ProcessMixedFolderToDocuments | backend/services/excel_processer.py:57-94 | both phases together equal the reference result: the PDF phase over the first listing, then the Excel phase over the folder as listed again after the conversions, a listing failure included |
| ExcelProcessor.UncappedExcelPhase | backend/services/excel_processer.py:77-90 | without a truthy cap, every Excel name of the second listing that loads is processed |
| ExcelProcessor.WrittenWorkbookPath | backend/services/pdf_processor.py:89-98 | the workbook written for a PDF in a folder with no output directory is the folder joined with the PDF's stem plus ".xlsx", and that name is the path's base name |
| ExcelProcessor.ConvertedWorkbookReingested | backend/services/excel_processer.py:72-90 | without a cap, a listed PDF that converts and loads is attempted, and once the second listing shows its written workbook, that workbook is processed again as an Excel file: its default-splitter documents of the same extracted rows are in the result |
| ExcelProcessor.ByFilesRespectsCap | backend/services/excel_processer.py:74-78 | counting files, a positive cap bounds PDF files with data plus Excel files processed, and the Excel phase runs while fewer PDF files than the cap yielded data |
| ExcelProcessor.ChunkCountSkipsExcel | backend/services/excel_processer.py:72-78 | one PDF yielding two chunks and one Excel file under `max_files=2`, listed again with the converted workbook after the Excel file: as written no Excel file is read; counting files, the Excel file's documents follow the PDF's |
| VectorStore.CheckConnection | backend/services/vector_store.py:61-68 | no error exactly when listing succeeds; otherwise a `ConnectionError` naming the listing error and ending with host:port |
| VectorStore.EnsureCollectionExists | backend/services/vector_store.py:70-94 | raises a `RuntimeError` exactly when listing fails or creation of the absent collection fails; otherwise "building_logs" exists, is created with 768 dimensions and cosine distance only when absent, and nothing else changes |
| VectorStore.ProvisioningIdempotent | backend/services/vector_store.py:77-91 | provisioning again after success changes nothing and creates nothing |
| VectorStore.Initialize | backend/services/vector_store.py:39-59 | ready exactly when no error was logged, exactly when the connection and provisioning succeed and the wrapper accepts the provisioned collection; a connection or provisioning failure leaves the server untouched, a wrapper failure keeps the provisioned collection, and nothing is raised |
| VectorStore.RestartCreatesNothing | backend/services/vector_store.py:39-94 | a second start over the provisioned server is ready and creates nothing |
| VectorStore.MismatchIsFatal | backend/services/vector_store.py:41-53 | when the wrapper refuses collections of the wrong size or distance, an existing mismatched "building_logs" leaves the service unready, with the wrapper's error once the server is reachable, and a restart fails the same way |
| VectorStore.AddDocuments | backend/services/vector_store.py:96-99 | a no-op when not ready or for no documents; otherwise the documents are stored after the earlier ones, or the upsert error surfaces |
| VectorStore.GetRetriever | backend/services/vector_store.py:101-105 | a retriever exactly when ready, over "building_logs", with the given `k` or 3 |
| VectorStore.AddKeepsRetriever | backend/services/vector_store.py:96-105 | adding documents keeps the retriever on offer, and two additions store both lists in order |
| ChatService.SetupQaChain | backend/services/chat_service.py:36-46 | a chain exactly when the store is ready, over the default retriever |
| ChatService.ChatReadyAfterStartup | backend/services/chat_service.py:36-46 | over a fresh store, a chain exists exactly when the server was reachable, the collection existed or could be created, and the wrapper accepted it; a mismatched collection gives the not-ready reply to every question |
| ChatService.Sources | backend/services/chat_service.py:60 | one name per chunk in retrieval order, "Unknown" without a filename |
| ChatService.GetAnswer | backend/services/chat_service.py:48-66 | the fixed apology with no sources when not ready; the error text with no sources on failure; otherwise the chain's answer with one source per chunk |
| ChatService.SourcesComeFromChunks | backend/services/chat_service.py:56-61 | every source is "Unknown" or the filename of a retrieved chunk, and sources only come from a ready chain's success |
| ChatService.SourcesKeepDuplicates | backend/services/chat_service.py:60 | two chunks of one file name it twice, and a chunk without a filename gives "Unknown" |
| FileAccess.Respond | backend/routers/files.py:16-35 | 403 exactly when the check fails; 404 exactly when it passes and the file is missing; otherwise the joined path with the derived headers |
| FileAccess.Headers | backend/routers/files.py:24-28 | the media type is "application/pdf" exactly for a ".pdf" extension in any case, else octet-stream; the disposition is inline exactly then, attachment otherwise, and ends with the filename |
| FileAccess.DispositionShape | backend/routers/files.py:28 | inline or attachment as asked, followed by the filename |
| FileAccess.GetFile | backend/routers/files.py:9-35 | 403 exactly when the absolute path does not start with the absolute directory as a string; 404 only after that check passes |
| FileAccess.SiblingDirectoryServed | backend/routers/files.py:13-21 | `get_file`'s decision, given directory "/u" and a name "../ux/f" containing '/', passes the access check and answers with the file in the sibling "/ux", although the directory's components are not a prefix of the file's |
| FileAccess.GetFileContained | backend/routers/files.py:13-17 | what it serves lies below the directory component-wise, and it refuses exactly what the containment check rejects |
| FileAccess.CorrectedIsStricter | backend/routers/files.py:13-17 | the containment check serves only what the prefix check serves, and refuses all it refuses |
| FileAccess.InsideIsBelow | backend/routers/files.py:13-17 | a normalised path equal to the directory or starting with it plus '/' lies below it component-wise |
| FileAccess.BelowIsInside | backend/routers/files.py:13-17 | conversely, a path below the directory component-wise passes the containment check |
| Upload.AllFiles | backend/routers/upload.py:153-161 | a prefix of the supported files in walk order: all of them without a truthy cap, `min(max_files, n)` with a positive cap, `n + max_files` floored at 0 with a negative one |
| Upload.FileTypeAgrees | backend/routers/upload.py:165-166 | the endpoint's type is "pdf" exactly when classification says pdf, and "excel" exactly when it says excel for a supported file |
| Upload.FileDocuments | backend/routers/upload.py:169-217 | a PDF that fails or yields no data gives "Failed to extract data from PDF"; otherwise one document per chunk of the smart splitter over the PDF's serialised rows, each carrying the base name, "pdf_extraction" and `original_format` "pdf"; an Excel file gives the Excel pipeline's result |
| Upload.Store | backend/routers/upload.py:181-227 | success exactly when documents were made and stored; a failure records 0 documents and an unchanged store, with `str(e)` of whichever step raised: the document build's message, or else the upsert's error from `add_documents`; readiness is kept |
| Upload.FileStep | backend/routers/upload.py:164-227 | one file's entry carries its base name and type; it succeeds exactly when it has no error, and a failure records 0 documents |
| Upload.RunFiles | backend/routers/upload.py:164-227 | exactly one result per file, whatever fails |
| Upload.RunEntries | backend/routers/upload.py:164-227 | the i-th result belongs to the i-th file, with its name and type, and a failure records 0 documents |
| Upload.ReportCounts | backend/routers/upload.py:229-237 | successes plus failures equal the total, which is the number of results; the summary has pdf and excel keys summing to the successes; the document total is the sum over the results; and the message |
| Upload.ReportMatchesStats | backend/routers/upload.py:146-150 | the response agrees with a fresh statistics record replayed over the results |
| Upload.RunStores | backend/routers/upload.py:181-217 | readiness is kept, and a ready store ends up holding every successful file's documents in order |
| Upload.RunDocumentCount | backend/routers/upload.py:186-215 | the documents stored during the run number exactly the successes' documents |
| Upload.UnreadyStoreIgnored | backend/routers/upload.py:181-206 | without a ready store the run does not depend on the upsert, and the store is unchanged |
| Upload.ProcessFiles | backend/routers/upload.py:164-227 | the loop's results and counters equal the reference run's results and their tallies |
| Upload.ProcessFolderFiles | backend/routers/upload.py:141-237 | the endpoint's response and final store equal the reference upload |
| Upload.FolderUploadFacts | backend/routers/upload.py:141-237 | total = files = results; a positive cap bounds the total; entries match files; counts add up; the document total sums the entries; ready stores keep every document |

## Left out

- PDF table extraction (tabula), workbook loading (openpyxl) and Excel writing (pandas) are foreign libraries. Conversion and loading are oracles. `convert_pdf_to_excel`'s internals and `save_extracted_data_to_excel` are not modelled.
- `PdfProcessor.extract_info_from_excel` (backend/services/pdf_processor.py:65-76) only delegates to the shared extraction. `PdfProcessor.ProcessSinglePdf` uses that shared extraction directly.
- The splitter's chunk boundaries and overlap are library code. Only the chosen configuration is modelled, and the chunks come from a `Chunker` parameter.
- Embeddings, the Gemini model, `RetrievalQA`, the prompt template and the Qdrant client are external services. The QA chain is the `Invoke` oracle, and upserting is a failure oracle.
- The Qdrant server is reduced to its collection parameters. The stored documents live in the service record.
- The `QDRANT_URL` cloud branch of the client construction is not modelled. The connection is described by its outcome only.
- Logging and `print` calls are left out, since they do not change any result.
- `os.walk`, `os.listdir` and `os.path.exists` are inputs: listings as sequences and existence as a predicate. The working directory `abspath` uses is a parameter.
- ExcelProcessor.MixedFolderDocuments takes its two listings as independent inputs. The file system relates them: the second holds the first's names plus the workbooks the PDF phase wrote. That relation is not modelled, and `ExcelProcessor.ConvertedWorkbookReingested` takes the written workbook's presence as a premise.
- Upload.FileDocuments reads workbooks through `Backend.load`, one fixed function of the path. A conversion that overwrites an existing workbook is not modelled. If a walk holds both `a.pdf` and `a.xlsx`, the source reads the original `a.xlsx` when it comes first and the converted one when it comes after `a.pdf`. The model gives both reads the same workbook.
- VectorStore.Initialize treats the `QdrantVectorStore` wrapper's check of the collection against the embedding model as an oracle. The wrapper refusing collections of the wrong size or distance is the premise `VectorStore.RejectsMismatch` of `VectorStore.MismatchIsFatal`. It is not derived from the wrapper's code, which is not part of this model.
- The download router reads `settings.UPLOADS_DIR`, which backend/config.py does not define. The directory is a parameter of `FileAccess.GetFile`. `FileResponse` construction is I/O.
- Routing of the download endpoint is not modelled; `FileAccess.GetFile` takes the filename as given. In the application as written no request reaches the sibling-directory case. The route `/files/{filename}` matches a single path segment, and a `%2F` is decoded before routing, so `filename` never contains '/'. Also, backend/main.py:15-16 mounts only the upload and chat routers, not the files router.
- Creating the PDF output directory (`os.makedirs`) is a side effect and is not modelled.
- The `upload_file`, `upload_folder` and `upload_zip_folder` endpoints are not modelled. Their temp files, zip extraction and `HTTPException` wrapping are I/O plumbing.
- backend/config.py, backend/main.py, backend/routers/chat.py, backend/models/schemas.py and backend/example_pdf_processing.py are not part of this model. The two response records are mirrored as datatypes.
- Text.Lower lower-cases ASCII letters only. Python's `str.lower` also folds non-ASCII letters, so extension and marker tests on such names are not modelled exactly.
- ExcelProcessor.MixedFolderFailure states the `listdir` error in the "[Errno 2] …" form only and does not model Python's `repr` escaping of unusual folder names.
- The comment at backend/services/document_utils.py:39 calls the marker test case-sensitive, but the code lower-cases the cell. The model follows the code (`Extraction.MarkerCaseInsensitive`).
- The mean-line-length test divides floats. It is modelled as the equivalent integer comparison `total < 150 * lines`, since the line count is at least 1.
- `process_folder_files` is `async`, but it runs sequentially and is modelled as a plain loop.

## Findings

| source | as written | input that shows it | evidently intended | confidence | as-written member | corrected member |
|---|---|---|---|---|---|---|
| backend/routers/files.py:16 | the access check is a plain string-prefix test of `abspath(file)` against `abspath(UPLOADS_DIR)` | `UPLOADS_DIR = "/u"`, filename `"../ux/f"`: the path `/ux/f` starts with `/u`, so `get_file` would answer with the file of the sibling directory `/ux`. This is a flaw in the function's decision logic only; see "## Left out" for why no request reaches it | only files below the uploads directory, component-wise, are served | not executed | FileAccess.SiblingDirectoryServed | FileAccess.GetFileContained |
| backend/services/excel_processer.py:74-78 | the PDF phase is charged with its number of "pdf_extraction" chunks, so `max_files` bounds chunks, not files | one PDF yielding two chunks and one loadable Excel file, `max_files = 2`, the folder listed again as the PDF, the Excel file and the converted workbook: the count reaches 2 and no Excel file is processed | one PDF file counts once, so the Excel file is processed too | not executed | ExcelProcessor.ChunkCountSkipsExcel | ExcelProcessor.ByFilesRespectsCap |
