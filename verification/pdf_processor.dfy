/** `PDFProcessor`: deriving the Excel path for a PDF, converting and extracting one PDF, and
    the capped loop over a folder listing. The tabula conversion and the openpyxl loading are
    oracles; a missing folder is a listing of `None`. */
module PdfProcessor {
  import opened Wrappers
  import opened Text
  import opened Paths
  import opened Extraction

  /** The two library steps a PDF goes through: `convert(pdf, xlsx)` is
      `convert_pdf_to_excel` (false when tabula finds no table or raises), and `load(xlsx)`
      is `openpyxl.load_workbook`, failing with the exception text. */
  datatype Backend = Backend(convert: (string, string) -> bool, load: string -> Result<Workbook>)

  const OutputExtension: string := ".xlsx"

  /** `filename.lower().endswith('.pdf')` */
  predicate IsPdfName(name: string) {
    EndsWith(Lower(name), ".pdf")
  }

  /** The Excel file name: the PDF's base name without its extension, plus ".xlsx". */
  function ExcelName(pdfPath: string): string {
    Splitext(Basename(pdfPath)).root + OutputExtension
  }

  /** `join(output_dir, splitext(basename(pdf_path))[0] + ".xlsx")`, where an absent
      `output_dir` means the PDF's own directory. */
  function ExcelOutputPath(pdfPath: string, outputDir: Option<string>): string {
    var dir := if outputDir.Some? then outputDir.value else Dirname(pdfPath);
    PathJoin(dir, ExcelName(pdfPath))
  }

  lemma ExcelNameShape(pdfPath: string)
    ensures |ExcelName(pdfPath)| > 0
    ensures forall k :: 0 <= k < |ExcelName(pdfPath)| ==> ExcelName(pdfPath)[k] != '/'
    ensures EndsWith(ExcelName(pdfPath), ".xlsx")
  {
    var base := Basename(pdfPath);
    var stem := Splitext(base).root;
    var name := stem + OutputExtension;
    assert stem <= base;
    forall k | 0 <= k < |name|
      ensures name[k] != '/'
    {
      if k < |stem| {
        assert name[k] == base[k];
      } else {
        assert name[k] == OutputExtension[k - |stem|];
      }
    }
    assert name[|name| - 5..] == OutputExtension;
  }

  /** The Excel path lies in the chosen directory, ends in ".xlsx", and its base name is the
      PDF's stem plus ".xlsx". */
  lemma ExcelOutputPathShape(pdfPath: string, outputDir: Option<string>)
    ensures var dir := if outputDir.Some? then outputDir.value else Dirname(pdfPath);
            StartsWith(ExcelOutputPath(pdfPath, outputDir), dir)
    ensures EndsWith(ExcelOutputPath(pdfPath, outputDir), ".xlsx")
    ensures Basename(ExcelOutputPath(pdfPath, outputDir)) == Splitext(Basename(pdfPath)).root + ".xlsx"
  {
    var dir := if outputDir.Some? then outputDir.value else Dirname(pdfPath);
    var name := ExcelName(pdfPath);
    ExcelNameShape(pdfPath);
    BasenameOfJoin(dir, name);
    JoinShape(dir, name);
    EndsWithTrans(PathJoin(dir, name), name, ".xlsx");
  }

  /** The tuple `(success, extracted_data, excel_output_path)`. */
  datatype SingleResult = SingleResult(success: bool, data: Option<Dataset>, excelPath: string)

  /** `process_single_pdf(pdf_path, output_dir)` */
  function ProcessSinglePdf(pdfPath: string, outputDir: Option<string>, backend: Backend): (r: SingleResult)
    ensures r.excelPath == ExcelOutputPath(pdfPath, outputDir)
    ensures r.success <==> backend.convert(pdfPath, r.excelPath) && backend.load(r.excelPath).Success?
    ensures r.success <==> r.data.Some?
    ensures r.success ==> r.data.value == Extract(backend.load(r.excelPath).value.sheets)
  {
    var path := ExcelOutputPath(pdfPath, outputDir);
    if !backend.convert(pdfPath, path) then SingleResult(false, None, path)
    else
      match backend.load(path)
      case Failure(_) => SingleResult(false, None, path)
      case Success(wb) => SingleResult(true, Some(Extract(wb.sheets)), path)
  }

  /** A failed conversion decides the result before any loading: whatever the loader would
      have done, the result is `(False, None, path)`. */
  lemma FailedConversionSkipsLoading(pdfPath: string, outputDir: Option<string>, backend: Backend,
                                     load': string -> Result<Workbook>)
    requires !backend.convert(pdfPath, ExcelOutputPath(pdfPath, outputDir))
    ensures ProcessSinglePdf(pdfPath, outputDir, backend) == ProcessSinglePdf(pdfPath, outputDir, backend.(load := load'))
    ensures ProcessSinglePdf(pdfPath, outputDir, backend) == SingleResult(false, None, ExcelOutputPath(pdfPath, outputDir))
  {
  }

  /** The PDF names of a listing, in listing order. */
  function PdfNames(names: seq<string>): (r: seq<string>)
    ensures |r| <= |names|
    ensures forall i :: 0 <= i < |r| ==> IsPdfName(r[i]) && r[i] in names
  {
    if |names| == 0 then []
    else
      var last := names[|names| - 1];
      PdfNames(names[..|names| - 1]) + (if IsPdfName(last) then [last] else [])
  }

  lemma PdfNamesSnoc(names: seq<string>, n: string)
    ensures PdfNames(names + [n]) == PdfNames(names) + (if IsPdfName(n) then [n] else [])
  {
    assert (names + [n])[..|names|] == names;
  }

  /** Conversely to `PdfNames`' contract, every listed name with a ".pdf" suffix is picked. */
  lemma {:induction false} PdfNamesMember(names: seq<string>, x: string)
    requires x in names && IsPdfName(x)
    ensures x in PdfNames(names)
    decreases |names|
  {
    var init := names[..|names| - 1];
    if x != names[|names| - 1] {
      assert names == init + [names[|names| - 1]];
      PdfNamesMember(init, x);
    }
  }

  lemma {:induction false} PdfNamesPrefix(names: seq<string>, i: nat)
    requires i <= |names|
    ensures PdfNames(names[..i]) <= PdfNames(names)
    decreases |names| - i
  {
    if i < |names| {
      PdfNamesPrefix(names, i + 1);
      assert names[..i + 1] == names[..i] + [names[i]];
      PdfNamesSnoc(names[..i], names[i]);
    } else {
      assert names[..i] == names;
    }
  }

  /** The PDFs `process_pdf_folder` hands to `process_single_pdf`, in listing order: the cap
      is tested before the name is, so non-PDF names never advance the count. */
  function AttemptedPdfs(names: seq<string>, maxFiles: Option<int>): seq<string> {
    PdfNames(names)[..BreakLimit(maxFiles, |PdfNames(names)|)]
  }

  /** One `(filename, extracted_data)` entry of the folder result. */
  datatype FolderEntry = FolderEntry(filename: string, data: Dataset)

  /** The entry a PDF contributes: only a success with non-empty data is kept. */
  function Entry(folder: string, outputDir: string, name: string, backend: Backend): seq<FolderEntry> {
    var res := ProcessSinglePdf(PathJoin(folder, name), Some(outputDir), backend);
    if res.success && res.data.value != [] then [FolderEntry(name, res.data.value)] else []
  }

  /** The entries of a sequence of attempted PDFs, in order. */
  function Harvest(folder: string, outputDir: string, names: seq<string>, backend: Backend): (r: seq<FolderEntry>)
    ensures |r| <= |names|
    ensures forall i :: 0 <= i < |r| ==> r[i].data != [] && r[i].filename in names
  {
    if |names| == 0 then []
    else
      var last := names[|names| - 1];
      Harvest(folder, outputDir, names[..|names| - 1], backend) + Entry(folder, outputDir, last, backend)
  }

  lemma HarvestSnoc(folder: string, outputDir: string, names: seq<string>, n: string, backend: Backend)
    ensures Harvest(folder, outputDir, names + [n], backend) ==
            Harvest(folder, outputDir, names, backend) + Entry(folder, outputDir, n, backend)
  {
    assert (names + [n])[..|names|] == names;
  }

  /** `process_pdf_folder(folder_path, max_files, output_dir)` as a reference definition:
      nothing for a missing folder, otherwise the kept entries of the attempted PDFs, with
      the Excel files written next to the PDFs unless an output directory is given. */
  function FolderResults(folder: string, listing: Option<seq<string>>, maxFiles: Option<int>,
                         outputDir: Option<string>, backend: Backend): seq<FolderEntry>
  {
    if listing.None? then []
    else
      var outDir := if outputDir.Some? then outputDir.value else folder;
      Harvest(folder, outDir, AttemptedPdfs(listing.value, maxFiles), backend)
  }

  /** What the folder result promises: nothing for a missing folder; otherwise at most one
      entry per attempted PDF, at most `m` for a positive cap, each naming a PDF of the
      listing and carrying non-empty data. */
  lemma FolderResultsFacts(folder: string, listing: Option<seq<string>>, maxFiles: Option<int>,
                           outputDir: Option<string>, backend: Backend)
    ensures listing.None? ==> FolderResults(folder, listing, maxFiles, outputDir, backend) == []
    ensures listing.Some? ==>
              |FolderResults(folder, listing, maxFiles, outputDir, backend)| <= |AttemptedPdfs(listing.value, maxFiles)|
    ensures Truthy(maxFiles) && maxFiles.value > 0 ==>
              |FolderResults(folder, listing, maxFiles, outputDir, backend)| <= maxFiles.value
    ensures Truthy(maxFiles) && maxFiles.value < 0 ==> FolderResults(folder, listing, maxFiles, outputDir, backend) == []
    ensures forall e :: e in FolderResults(folder, listing, maxFiles, outputDir, backend) ==>
              listing.Some? && e.filename in listing.value && IsPdfName(e.filename) && e.data != []
  {
    if listing.Some? {
      var pdfs := PdfNames(listing.value);
      var attempted := AttemptedPdfs(listing.value, maxFiles);
      assert attempted <= pdfs;
      forall e | e in FolderResults(folder, listing, maxFiles, outputDir, backend)
        ensures e.filename in listing.value && IsPdfName(e.filename)
      {
        assert e.filename in attempted;
      }
    }
  }

  /** One iteration of the folder loop: a PDF name is attempted and counted, any other name
      changes nothing. */
  lemma FolderStep(folder: string, outDir: string, names: seq<string>, i: nat, backend: Backend)
    requires i < |names|
    ensures IsPdfName(names[i]) ==>
              && PdfNames(names[..i + 1]) == PdfNames(names[..i]) + [names[i]]
              && Harvest(folder, outDir, PdfNames(names[..i + 1]), backend) ==
                 Harvest(folder, outDir, PdfNames(names[..i]), backend) + Entry(folder, outDir, names[i], backend)
    ensures !IsPdfName(names[i]) ==>
              && PdfNames(names[..i + 1]) == PdfNames(names[..i])
              && Harvest(folder, outDir, PdfNames(names[..i + 1]), backend) == Harvest(folder, outDir, PdfNames(names[..i]), backend)
  {
    assert names[..i + 1] == names[..i] + [names[i]];
    PdfNamesSnoc(names[..i], names[i]);
    if IsPdfName(names[i]) {
      HarvestSnoc(folder, outDir, PdfNames(names[..i]), names[i], backend);
    } else {
      assert PdfNames(names[..i + 1]) == PdfNames(names[..i]);
    }
  }

  /** Where the folder loop stops: at the end of the listing, or where the PDFs seen so far
      reach a truthy cap. Either way those PDFs are exactly the attempted ones. */
  lemma LoopStopsAtAttempted(names: seq<string>, i: nat, maxFiles: Option<int>)
    requires i <= |names|
    requires Truthy(maxFiles) ==> if maxFiles.value > 0 then |PdfNames(names[..i])| <= maxFiles.value else i == 0
    requires i == |names| || (Truthy(maxFiles) && |PdfNames(names[..i])| >= maxFiles.value)
    ensures PdfNames(names[..i]) == AttemptedPdfs(names, maxFiles)
  {
    PdfNamesPrefix(names, i);
    var seen := PdfNames(names[..i]);
    var all := PdfNames(names);
    if i == |names| {
      assert names[..i] == names;
    }
    if Truthy(maxFiles) && maxFiles.value < 0 {
      assert names[..i] == [];
    }
    BreakLimitPrefix(seen, all, maxFiles, i == |names|);
  }

  /** `process_pdf_folder`: the loop over the listing, stopping once a truthy cap is reached
      and counting only PDF names. It computes `FolderResults`. */
  method ProcessPdfFolder(folder: string, listing: Option<seq<string>>, maxFiles: Option<int>,
                          outputDir: Option<string>, backend: Backend)
    returns (results: seq<FolderEntry>)
    ensures results == FolderResults(folder, listing, maxFiles, outputDir, backend)
  {
    if listing.None? {
      return [];
    }
    var names := listing.value;
    var outDir := if outputDir.Some? then outputDir.value else folder;
    results := [];
    var processedCount := 0;
    ghost var seen: seq<string> := [];
    var i := 0;
    while i < |names| && !(Truthy(maxFiles) && processedCount >= maxFiles.value)
      invariant 0 <= i <= |names|
      invariant seen == PdfNames(names[..i])
      invariant processedCount == |seen|
      invariant results == Harvest(folder, outDir, seen, backend)
      invariant Truthy(maxFiles) ==> if maxFiles.value > 0 then processedCount <= maxFiles.value else i == 0
    {
      var filename := names[i];
      FolderStep(folder, outDir, names, i, backend);
      if IsPdfName(filename) {
        results := results + Entry(folder, outDir, filename, backend);
        processedCount := processedCount + 1;
        seen := seen + [filename];
      }
      i := i + 1;
    }
    LoopStopsAtAttempted(names, i, maxFiles);
  }

  /** `get_folder_pdf_count`: the number of PDF names, 0 for a missing folder. */
  function GetFolderPdfCount(listing: Option<seq<string>>): nat {
    if listing.None? then 0 else CountPdfs(listing.value)
  }

  /** `sum(1 for filename in names if filename.lower().endswith('.pdf'))` */
  function CountPdfs(names: seq<string>): nat {
    if |names| == 0 then 0 else (if IsPdfName(names[0]) then 1 else 0) + CountPdfs(names[1..])
  }

  /** The count agrees with the PDFs the folder loop sees: without a cap it attempts exactly
      `get_folder_pdf_count` files, and with any cap no more. */
  lemma {:induction false} PdfCountMatchesAttempts(names: seq<string>, maxFiles: Option<int>)
    ensures GetFolderPdfCount(Some(names)) == |PdfNames(names)|
    ensures !Truthy(maxFiles) ==> |AttemptedPdfs(names, maxFiles)| == GetFolderPdfCount(Some(names))
    ensures |AttemptedPdfs(names, maxFiles)| <= GetFolderPdfCount(Some(names))
  {
    CountPdfsIsPdfNames(names);
  }

  lemma {:induction false} CountPdfsIsPdfNames(names: seq<string>)
    ensures CountPdfs(names) == |PdfNames(names)|
    decreases |names|
  {
    if |names| > 0 {
      CountPdfsIsPdfNames(names[1..]);
      PdfNamesCons(names[0], names[1..]);
      assert names == [names[0]] + names[1..];
    }
  }

  lemma {:induction false} PdfNamesCons(n: string, names: seq<string>)
    ensures PdfNames([n] + names) == (if IsPdfName(n) then [n] else []) + PdfNames(names)
    decreases |names|
  {
    if |names| == 0 {
      assert [n] + names == [n];
      assert [n][..0] == [];
    } else {
      var init := names[..|names| - 1];
      var last := names[|names| - 1];
      PdfNamesCons(n, init);
      assert [n] + names == ([n] + init) + [last];
      PdfNamesSnoc([n] + init, last);
      assert names == init + [last];
      PdfNamesSnoc(init, last);
    }
  }

  /** `process_pdfs_and_extract_data`: the data of the folder result, same length and order. */
  function ProcessPdfsAndExtractData(folder: string, listing: Option<seq<string>>, maxFiles: Option<int>,
                                     backend: Backend): (r: seq<Dataset>)
    ensures var results := FolderResults(folder, listing, maxFiles, None, backend);
            |r| == |results| && forall i :: 0 <= i < |r| ==> r[i] == results[i].data
  {
    DataOf(FolderResults(folder, listing, maxFiles, None, backend))
  }

  /** The data of each entry, in order. */
  function DataOf(results: seq<FolderEntry>): (r: seq<Dataset>)
    ensures |r| == |results| && forall i :: 0 <= i < |r| ==> r[i] == results[i].data
  {
    seq(|results|, i requires 0 <= i < |results| => results[i].data)
  }

  /** Every dataset returned by the legacy entry point is non-empty, and there is none for a
      missing folder. */
  lemma ExtractedDataNonEmpty(folder: string, listing: Option<seq<string>>, maxFiles: Option<int>, backend: Backend)
    ensures forall d :: d in ProcessPdfsAndExtractData(folder, listing, maxFiles, backend) ==> d != []
    ensures listing.None? ==> ProcessPdfsAndExtractData(folder, listing, maxFiles, backend) == []
  {
    var results := FolderResults(folder, listing, maxFiles, None, backend);
    FolderResultsFacts(folder, listing, maxFiles, None, backend);
    forall d | d in ProcessPdfsAndExtractData(folder, listing, maxFiles, backend)
      ensures d != []
    {
      var i :| 0 <= i < |results| && d == results[i].data;
      assert results[i] in results;
    }
  }
}
