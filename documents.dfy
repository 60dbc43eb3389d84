/**
 * The document record stored in the vector store and carried in the
 * workflow state's retrieval context: its text and the `source` entry of its
 * metadata (absent when no label was found).
 */
module Documents {
  import opened Wrappers

  datatype Document = Document(pageContent: string, source: Option<string>)

  /** The texts of a list of documents, in order. */
  function PageContents(docs: seq<Document>): (texts: seq<string>)
    ensures |texts| == |docs|
    ensures forall i :: 0 <= i < |docs| ==> texts[i] == docs[i].pageContent
  {
    seq(|docs|, i requires 0 <= i < |docs| => docs[i].pageContent)
  }
}
