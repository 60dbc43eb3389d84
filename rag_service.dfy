/**
 * Document ingestion of the RAG service: the uploaded text is cut into
 * paragraphs at every blank line ("\n\n"), each paragraph is labelled by a
 * priority-ordered keyword classifier, and one document per paragraph is
 * added to the vector store, in order.
 */
module Rag {
  import opened Wrappers
  import opened Strings
  import opened Documents

  /** A keyword and the label it gives a chunk that contains it. */
  datatype Rule = Rule(keyword: string, source: string)

  /** The classifier's keywords, highest priority first. */
  const Rules: seq<Rule> := [
    Rule("Ficción Espacial", "Ficcion Espacial"),
    Rule("Ficción Tecnológica", "Ficcion Tecnologica"),
    Rule("Naturaleza", "Naturaleza"),
    Rule("Cuento Corto", "Cuento Corto"),
    Rule("Héroe", "Características del Héroe Olvidado")
  ]

  /** The separator between paragraphs. */
  const ParagraphBreak: string := "\n\n"

  /**
   * The label (source) of a chunk: the label of the first keyword, in priority order,
   * that occurs in it; no label when none occurs.
   */
  function IdentifySourceType(text: string): (r: Option<string>)
    ensures r.Some? <==> exists i :: 0 <= i < |Rules| && Occurs(text, Rules[i].keyword)
    ensures r.Some? ==>
      exists i :: 0 <= i < |Rules| && r.value == Rules[i].source && Occurs(text, Rules[i].keyword)
        && forall j :: 0 <= j < i ==> !Occurs(text, Rules[j].keyword)
  {
    if Contains(text, "Ficción Espacial") then
      assert Rules[0].keyword == "Ficción Espacial";
      Some("Ficcion Espacial")
    else if Contains(text, "Ficción Tecnológica") then
      assert Rules[1].keyword == "Ficción Tecnológica";
      Some("Ficcion Tecnologica")
    else if Contains(text, "Naturaleza") then
      assert Rules[2].keyword == "Naturaleza";
      Some("Naturaleza")
    else if Contains(text, "Cuento Corto") then
      assert Rules[3].keyword == "Cuento Corto";
      Some("Cuento Corto")
    else if Contains(text, "Héroe") then
      assert Rules[4].keyword == "Héroe";
      Some("Características del Héroe Olvidado")
    else
      None
  }

  /** A chunk containing "Ficción Espacial" is labelled "Ficcion Espacial", whatever else it contains. */
  lemma SpaceFictionWins(text: string)
    requires Occurs(text, "Ficción Espacial")
    ensures IdentifySourceType(text) == Some("Ficcion Espacial")
  {
  }

  /** A chunk whose only keyword (of the five) is "Héroe" gets the forgotten-hero label. */
  lemma HeroLabel(text: string)
    requires Occurs(text, "Héroe")
    requires !Occurs(text, "Ficción Espacial") && !Occurs(text, "Ficción Tecnológica")
    requires !Occurs(text, "Naturaleza") && !Occurs(text, "Cuento Corto")
    ensures IdentifySourceType(text) == Some("Características del Héroe Olvidado")
  {
  }

  /**
   * The label decides the rule: when rule `i`'s label comes back, rule `i`'s
   * keyword occurs and no keyword of higher priority does.
   */
  lemma LabelExcludesEarlierKeywords(text: string, i: nat)
    requires i < |Rules| && IdentifySourceType(text) == Some(Rules[i].source)
    ensures Occurs(text, Rules[i].keyword)
    ensures forall j :: 0 <= j < i ==> !Occurs(text, Rules[j].keyword)
  {
  }

  /** No two rules share a label. */
  lemma LabelsDistinct(i: nat, k: nat)
    requires i < |Rules| && k < |Rules| && Rules[i].source == Rules[k].source
    ensures i == k
  {
  }

  /** The label is one of the five fixed labels, or there is none. */
  lemma LabelIsFixed(text: string)
    ensures IdentifySourceType(text) in {None, Some("Ficcion Espacial"), Some("Ficcion Tecnologica"),
      Some("Naturaleza"), Some("Cuento Corto"), Some("Características del Héroe Olvidado")}
  {
  }

  /** The document stored for one chunk: the chunk itself, labelled by the classifier. */
  function Tagged(chunk: string): (d: Document)
    ensures d.pageContent == chunk
    ensures d.source.None? <==> forall i :: 0 <= i < |Rules| ==> !Occurs(chunk, Rules[i].keyword)
  {
    Document(chunk, IdentifySourceType(chunk))
  }

  /** The documents stored for a list of chunks, one per chunk and in chunk order. */
  function TagAll(chunks: seq<string>): (docs: seq<Document>)
    ensures |docs| == |chunks|
    ensures forall i :: 0 <= i < |chunks| ==> docs[i] == Tagged(chunks[i])
    decreases |chunks|
  {
    if chunks == [] then [] else TagAll(chunks[..|chunks| - 1]) + [Tagged(chunks[|chunks| - 1])]
  }

  /** The documents an uploaded text becomes. */
  function Ingest(text: string): (docs: seq<Document>)
    ensures |docs| == |Split(text, ParagraphBreak)| >= 1
    ensures forall i :: 0 <= i < |docs| ==>
      docs[i].pageContent == Split(text, ParagraphBreak)[i] && docs[i].source == IdentifySourceType(docs[i].pageContent)
  {
    TagAll(Split(text, ParagraphBreak))
  }

  /**
   * What ingestion stores: one document per paragraph, each carrying its
   * paragraph's label; no page contains a blank line; and the pages joined
   * back with blank lines give the uploaded text.
   */
  lemma IngestRebuildsText(text: string)
    ensures |Ingest(text)| == |Split(text, ParagraphBreak)| >= 1
    ensures forall i :: 0 <= i < |Ingest(text)| ==>
      Ingest(text)[i].source == IdentifySourceType(Ingest(text)[i].pageContent)
    ensures forall i :: 0 <= i < |Ingest(text)| ==> !Occurs(Ingest(text)[i].pageContent, ParagraphBreak)
    ensures Join(PageContents(Ingest(text)), ParagraphBreak) == text
  {
    var chunks := Split(text, ParagraphBreak);
    assert PageContents(Ingest(text)) == chunks;
    SplitChunksFree(text, ParagraphBreak);
    JoinSplit(text, ParagraphBreak);
  }

  /** An empty chunk is kept: two blank lines in a row give an empty document between the paragraphs. */
  lemma EmptyChunkKept(a: string, b: string)
    requires forall j :: 0 <= j < |a| ==> !OccursAt(a + ParagraphBreak, ParagraphBreak, j)
    ensures var docs := Ingest(a + ParagraphBreak + ParagraphBreak + b);
      |docs| >= 2 && docs[0] == Tagged(a) && docs[1] == Document("", None)
  {
    SplitKeepsEmptyChunk(a, b, ParagraphBreak);
    var chunks := Split(a + ParagraphBreak + ParagraphBreak + b, ParagraphBreak);
    assert chunks[1] == "";
    assert !Contains("", "Ficción Espacial");
    assert !Contains("", "Ficción Tecnológica");
    assert !Contains("", "Naturaleza");
    assert !Contains("", "Cuento Corto");
    assert !Contains("", "Héroe");
  }

  newtype byte = b: int | 0 <= b < 256

  /** What an upload reports: the file name and its size in bytes. */
  datatype UploadResponse = UploadResponse(filename: string, size: nat)

  /** The vector store, seen as the list of documents added to it so far. */
  class VectorStore {
    var documents: seq<Document>

    constructor ()
      ensures documents == []
    {
      documents := [];
    }

    /** `add_documents`: append the given documents, in order. */
    method AddDocuments(docs: seq<Document>)
      modifies this
      ensures documents == old(documents) + docs
    {
      documents := documents + docs;
    }
  }

  class RagService {
    const store: VectorStore

    constructor (store: VectorStore)
      ensures this.store == store
    {
      this.store := store;
    }

    /**
     * `upload_document`: extract the text of the uploaded bytes, split it
     * into paragraphs and add one labelled document per paragraph to the
     * store, in order; report the file name and the byte count.
     */
    method UploadDocument(filename: string, content: seq<byte>, loadText: seq<byte> -> string)
      returns (response: UploadResponse)
      modifies store
      ensures store.documents == old(store.documents) + Ingest(loadText(content))
      ensures response == UploadResponse(filename, |content|)
    {
      var chunks := Split(loadText(content), ParagraphBreak);
      for i := 0 to |chunks|
        invariant store.documents == old(store.documents) + TagAll(chunks[..i])
      {
        var document := Document(chunks[i], IdentifySourceType(chunks[i]));
        store.AddDocuments([document]);
        assert chunks[..i + 1][..i] == chunks[..i];
      }
      assert chunks[..|chunks|] == chunks;
      response := UploadResponse(filename, |content|);
    }
  }
}
