/** Building LangChain documents from extracted rows: the metadata they carry
    (`create_document_from_content`), and the two builders `create_documents_from_extracted_data`
    (smart splitter choice) and `create_documents_from_excel_sheets` (always the default
    splitter). The text splitter's chunking is an oracle; `split_documents` gives every chunk
    the metadata of the document it came from. */
module Documents {
  import opened Wrappers
  import opened Text
  import opened Extraction
  import opened Content

  /** A LangChain `Document`: page content and string metadata. */
  datatype Document = Document(content: string, metadata: map<string, string>)

  /** `RecursiveCharacterTextSplitter(config).split_text(text)` */
  type Chunker = (SplitterConfig, string) -> seq<string>

  /** `metadata.get(key)` */
  function MetaGet(m: map<string, string>, key: string): Option<string> {
    if key in m then Some(m[key]) else None
  }

  /** The metadata of `create_document_from_content`: filename and source, then
      `metadata.update(additional_metadata)`, so an extra key overrides the first two. */
  function Metadata(filename: string, source: string, extra: map<string, string>): (m: map<string, string>)
    ensures m.Keys == {"filename", "source"} + extra.Keys
    ensures forall k :: k in extra ==> m[k] == extra[k]
    ensures "filename" !in extra ==> m["filename"] == filename
    ensures "source" !in extra ==> m["source"] == source
  {
    map["filename" := filename, "source" := source] + extra
  }

  /** `create_document_from_content(content, filename, source, additional_metadata)` */
  function CreateDocumentFromContent(content: string, filename: string, source: string,
                                     extra: map<string, string>): Document {
    Document(content, Metadata(filename, source, extra))
  }

  /** `split_documents([doc])`: one document per chunk, each with `doc`'s metadata. */
  function SplitDocument(config: SplitterConfig, doc: Document, chunker: Chunker): (r: seq<Document>)
    ensures |r| == |chunker(config, doc.content)|
    ensures forall i :: 0 <= i < |r| ==> r[i] == Document(chunker(config, doc.content)[i], doc.metadata)
  {
    var chunks := chunker(config, doc.content);
    seq(|chunks|, i requires 0 <= i < |chunks| => Document(chunks[i], doc.metadata))
  }

  /** `split_documents(docs)`: the chunks of each document, in document order. */
  function SplitDocuments(config: SplitterConfig, docs: seq<Document>, chunker: Chunker): seq<Document> {
    if |docs| == 0 then [] else SplitDocuments(config, docs[..|docs| - 1], chunker) + SplitDocument(config, docs[|docs| - 1], chunker)
  }

  lemma SplitDocumentsSingle(config: SplitterConfig, doc: Document, chunker: Chunker)
    ensures SplitDocuments(config, [doc], chunker) == SplitDocument(config, doc, chunker)
  {
    assert [doc][..0] == [];
  }

  /** `create_documents_from_extracted_data`: nothing for empty data; otherwise the rows are
      serialised and split with the configuration the text itself selects. */
  function CreateDocumentsFromExtractedData(data: Dataset, filename: string, source: string,
                                            extra: map<string, string>, chunker: Chunker): seq<Document> {
    if data == [] then []
    else
      var content := ConvertToContent(data);
      SplitDocuments(SmartSplitter(content), [CreateDocumentFromContent(content, filename, source, extra)], chunker)
  }

  /** The documents are exactly the chunks of the serialised rows under the smart splitter
      choice, in chunk order, each carrying the filename, the source and the extra metadata. */
  lemma ExtractedDataDocuments(data: Dataset, filename: string, source: string,
                               extra: map<string, string>, chunker: Chunker)
    ensures data == [] ==> CreateDocumentsFromExtractedData(data, filename, source, extra, chunker) == []
    ensures data != [] ==>
              var content := ConvertToContent(data);
              var chunks := chunker(SmartSplitter(content), content);
              var docs := CreateDocumentsFromExtractedData(data, filename, source, extra, chunker);
              |docs| == |chunks| &&
              forall i :: 0 <= i < |docs| ==> docs[i].content == chunks[i] && docs[i].metadata == Metadata(filename, source, extra)
  {
    if data != [] {
      var content := ConvertToContent(data);
      SplitDocumentsSingle(SmartSplitter(content), CreateDocumentFromContent(content, filename, source, extra), chunker);
    }
  }

  const ExcelSource: string := "excel_extraction"

  /** `create_documents_from_excel_sheets(extracted_data, filename)` */
  function CreateDocumentsFromExcelSheets(data: Dataset, filename: string, chunker: Chunker): seq<Document> {
    var docs := if data != [] then [Document(ConvertToContent(data), map["filename" := filename, "source" := ExcelSource])] else [];
    SplitDocuments(DefaultSplitter, docs, chunker)
  }

  /** Excel documents always use the default splitter, whatever the text looks like, and are
      tagged with the filename and the "excel_extraction" source only; they coincide with the
      smart builder's output whenever the smart choice is the default splitter too. */
  lemma ExcelSheetsDocuments(data: Dataset, filename: string, chunker: Chunker)
    ensures data == [] ==> CreateDocumentsFromExcelSheets(data, filename, chunker) == []
    ensures data != [] ==>
              var content := ConvertToContent(data);
              var chunks := chunker(DefaultSplitter, content);
              var docs := CreateDocumentsFromExcelSheets(data, filename, chunker);
              |docs| == |chunks| &&
              forall i :: 0 <= i < |docs| ==>
                docs[i].content == chunks[i] && docs[i].metadata == map["filename" := filename, "source" := "excel_extraction"]
    ensures SmartSplitter(ConvertToContent(data)) == DefaultSplitter ==>
              CreateDocumentsFromExcelSheets(data, filename, chunker) ==
              CreateDocumentsFromExtractedData(data, filename, "excel_extraction", map[], chunker)
  {
    var content := ConvertToContent(data);
    var meta := map["filename" := filename, "source" := ExcelSource];
    if data != [] {
      SplitDocumentsSingle(DefaultSplitter, Document(content, meta), chunker);
      assert Metadata(filename, ExcelSource, map[]) == meta;
    }
  }
}
