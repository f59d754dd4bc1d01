/** The values shared by the portal's components: file contents, documents
    with their metadata, vector stores and retriever handles. */
module Portal {
  import opened Wrappers

  type Bytes = seq<bv8>

  /** A directory tree, as a map from path to file contents. */
  type Files = map<string, Bytes>

  /** A document's metadata: the keys `source`, `page` and `row_id`, each
      possibly absent. */
  datatype Metadata = Metadata(source: Option<string>, page: Option<nat>, rowId: Option<string>)

  /** A LangChain `Document`: text plus metadata. */
  datatype Document = Document(content: string, meta: Metadata)

  /** The texts of a list of documents, in order. */
  function Contents(docs: seq<Document>): (texts: seq<string>)
    ensures |texts| == |docs|
    ensures forall i :: 0 <= i < |docs| ==> texts[i] == docs[i].content
  {
    if docs == [] then [] else [docs[0].content] + Contents(docs[1..])
  }

  lemma ContentsAppend(a: seq<Document>, b: seq<Document>)
    ensures Contents(a + b) == Contents(a) + Contents(b)
  {
  }

  /** A chat message: its role and its text. */
  datatype Message = Message(role: string, text: string)

  /** A FAISS store, seen as the sequence of texts it has embedded, in order. */
  datatype VectorStore = VectorStore(texts: seq<string>)

  /** `vectorstore.as_retriever(search_type="similarity", search_kwargs={"k": k})`
      over the index persisted in `indexDir`. */
  datatype Retriever = Retriever(indexDir: string, k: nat)
}
