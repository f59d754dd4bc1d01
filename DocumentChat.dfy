/** src/document_chat/retrieval.py: the conversational RAG whose LCEL chain
    feeds the retrieved documents, joined into one context string, to the
    answering prompt. The LLM call is a parameter. */
module DocumentChat {
  import opened Wrappers
  import opened PyText
  import opened Portal
  import opened Prompts

  const InitError := "initialization error in conversational RAG"
  const RetrieverError := "Retry creating the retriever"
  const InvokeError := "Retry invoking"
  const NoAnswer := "no answer generated"
  const Separator := "\n\n"

  /** `_format_docs(docs)`: the page contents joined by a blank line. */
  function FormatDocs(docs: seq<Document>): string {
    Join(Separator, Contents(docs))
  }

  /** No documents give an empty context and one document gives its own text. */
  lemma FormatDocsSmall(d: Document)
    ensures FormatDocs([]) == ""
    ensures FormatDocs([d]) == d.content
  {
  }

  /** Formatting two non-empty lists is formatting each, a blank line between. */
  lemma FormatDocsAppend(a: seq<Document>, b: seq<Document>)
    requires a != [] && b != []
    ensures FormatDocs(a + b) == FormatDocs(a) + Separator + FormatDocs(b)
  {
    ContentsAppend(a, b);
    JoinAppend(Separator, Contents(a), Contents(b));
  }

  /** The LCEL pipeline: the retriever piped into `_format_docs` as the context,
      the answering prompt, the LLM and a string parser. */
  datatype Chain = Chain(retriever: Retriever, qaPrompt: string)

  /** The chain's input: the question and the history, `None` read as empty. */
  datatype Payload = Payload(input: string, chatHistory: seq<Message>)

  function MakePayload(userInput: string, chatHistory: Option<seq<Message>>): (p: Payload)
    ensures p.input == userInput
    ensures chatHistory.None? ==> p.chatHistory == []
    ensures chatHistory.Some? ==> p.chatHistory == chatHistory.value
  {
    Payload(userInput, chatHistory.GetOr([]))
  }

  /** The answer `invoke` returns for the chain's output: the output itself
      unless it is empty, then the fixed sentinel. */
  function Answer(out: string): (a: string)
    ensures a != ""
    ensures out != "" ==> a == out
    ensures out == "" ==> a == NoAnswer
  {
    if out == "" then NoAnswer else out
  }

  /** A caller can always tell the sentinel from a genuine answer unless the
      LLM itself wrote the sentinel text. */
  lemma AnswerSentinel(out: string)
    ensures Answer(out) == NoAnswer <==> out == "" || out == NoAnswer
  {
  }

  class ConversationalRag {
    const sessionId: string
    const contextualizePrompt: string
    const qaPrompt: string
    var retriever: Retriever
    var chain: Chain

    /** The chain is always the one built over the current retriever. */
    predicate Valid()
      reads this
    {
      chain == Chain(retriever, qaPrompt)
    }

    constructor (sessionId: string, retriever: Retriever, contextualizePrompt: string, qaPrompt: string)
      ensures Valid()
      ensures this.sessionId == sessionId && this.retriever == retriever
      ensures this.contextualizePrompt == contextualizePrompt && this.qaPrompt == qaPrompt
    {
      this.sessionId := sessionId;
      this.retriever := retriever;
      this.contextualizePrompt := contextualizePrompt;
      this.qaPrompt := qaPrompt;
      chain := Chain(retriever, qaPrompt);
    }

    /** `load_retriever_from_faiss(index_path)`: when embeddings load, the path
        is a directory and FAISS loads it, the retriever becomes a k=5 retriever
        over that index and the chain is rebuilt; otherwise nothing changes. */
    method LoadRetrieverFromFaiss(indexPath: string, embeddingsOk: bool, dirs: set<string>, loadOk: bool)
      returns (r: Result<Retriever>)
      requires Valid()
      modifies this
      ensures Valid()
      ensures !embeddingsOk || indexPath !in dirs || !loadOk ==>
                r == Err(RetrieverError) && retriever == old(retriever) && chain == old(chain)
      ensures embeddingsOk && indexPath in dirs && loadOk ==>
                r == Ok(Retriever(indexPath, 5)) && retriever == Retriever(indexPath, 5)
    {
      if !embeddingsOk || indexPath !in dirs || !loadOk {
        return Err(RetrieverError);
      }
      retriever := Retriever(indexPath, 5);
      chain := Chain(retriever, qaPrompt);
      r := Ok(retriever);
    }

    /** `invoke(user_input, chat_history)`: the chain's output, or the sentinel
        when it is empty; a failing chain is reported as "Retry invoking". */
    method Invoke(userInput: string, chatHistory: Option<seq<Message>>, llm: (Chain, Payload) -> Result<string>)
      returns (r: Result<string>)
      ensures var out := llm(chain, MakePayload(userInput, chatHistory));
        r == (if out.Ok? then Ok(Answer(out.value)) else Err(InvokeError))
      ensures r.Ok? ==> r.value != ""
    {
      var payload := Payload(userInput, if chatHistory.Some? then chatHistory.value else []);
      var out := llm(chain, payload);
      if out.Err? {
        return Err(InvokeError);
      }
      if out.value == "" {
        return Ok(NoAnswer);
      }
      r := Ok(out.value);
    }
  }

  /** The constructor of `ConversationalRAG`: a missing retriever, an LLM that
      does not load or a prompt missing from the registry is an initialisation error. */
  method Create(sessionId: string, retriever: Option<Retriever>, llmOk: bool,
                registry: map<Key, string>, contextualize: PromptType, contextQa: PromptType)
    returns (r: Result<ConversationalRag>)
    ensures r.Err? <==> retriever.None? || !llmOk || FirstPresent(registry, DocumentChatKeys(contextualize)).None?
                        || FirstPresent(registry, DocumentChatKeys(contextQa)).None?
    ensures r.Err? ==> r.msg == InitError
    ensures r.Ok? ==> fresh(r.value) && r.value.Valid() && r.value.sessionId == sessionId
                      && r.value.retriever == retriever.value
                      && r.value.qaPrompt == FirstPresent(registry, DocumentChatKeys(contextQa)).value
  {
    if retriever.None? || !llmOk {
      return Err(InitError);
    }
    var cp := Resolve(registry, DocumentChatKeys(contextualize));
    if cp.Err? {
      return Err(InitError);
    }
    var qp := Resolve(registry, DocumentChatKeys(contextQa));
    if qp.Err? {
      return Err(InitError);
    }
    var rag := new ConversationalRag(sessionId, retriever.value, cp.value, qp.value);
    r := Ok(rag);
  }
}
