/** src/singledoc_chat/retrieval.py: the conversational RAG over one
    document's retriever, with chat histories kept per session id in a map
    shared by every instance. The LangChain pipeline is a parameter; the turns
    it appends to a history are not modelled. */
module SingleDocChat {
  import opened Wrappers
  import opened Portal
  import opened Prompts

  /** A `ChatMessageHistory`. */
  class ChatHistory {
    var messages: seq<Message>

    constructor ()
      ensures messages == []
    {
      messages := [];
    }
  }

  /** `ConversationalRAG._HISTORY_STORE`: one map for the whole process. */
  class HistoryStore {
    var histories: map<string, ChatHistory>

    constructor ()
      ensures histories == map[]
    {
      histories := map[];
    }
  }

  /** The value of `config["configurable"]`: a dict with or without a
      `session_id` entry, or anything else. */
  datatype Configurable = CfgDict(sessionId: Option<string>) | CfgOther

  /** The `config` handed to `_get_session_history`: a dict with or without a
      `configurable` entry, or anything else. */
  datatype Config = DictConfig(configurable: Option<Configurable>) | OtherConfig

  const HistoryError := "some error in loading the session history"
  const InitError := "Some error in initializing the RAG"
  const RetrieverError := "some error in loading retriever from FAISS"
  const InvokeError := "some error in invoking the RAG"

  /** The session id a config selects: its `configurable.session_id`, else the
      instance's own id; a `configurable` entry that is not a dict raises. */
  function SessionKey(config: Config, own: string): (r: Result<string>)
    ensures r.Err? <==> config == DictConfig(Some(CfgOther))
    ensures r.Ok? && r.value != own ==> config == DictConfig(Some(CfgDict(Some(r.value))))
    ensures config.OtherConfig? || config == DictConfig(None) || config == DictConfig(Some(CfgDict(None))) ==> r == Ok(own)
  {
    match config
    case OtherConfig => Ok(own)
    case DictConfig(None) => Ok(own)
    case DictConfig(Some(CfgOther)) => Err(HistoryError)
    case DictConfig(Some(CfgDict(sid))) => Ok(sid.GetOr(own))
  }

  /** What `invoke` may get back from the chain: None, a dict with optional
      `answer` and `result` strings, or another object, seen through `str()`. */
  datatype Response = NoResponse | DictResponse(answer: Option<string>, result: Option<string>) | OtherResponse(text: string)

  predicate Truthy(v: Option<string>) {
    v.Some? && v.value != ""
  }

  /** The answer `invoke` returns for a response. */
  function ExtractAnswer(resp: Response): (a: string)
    ensures a == "" <==> resp.NoResponse? || (resp.DictResponse? && !Truthy(resp.answer) && !Truthy(resp.result))
                         || resp == OtherResponse("")
    ensures resp.DictResponse? && a != "" ==> Some(a) == resp.answer || Some(a) == resp.result
    ensures resp.DictResponse? && Truthy(resp.answer) ==> a == resp.answer.value
  {
    match resp
    case DictResponse(answer, result) =>
      if Truthy(answer) then answer.value else if Truthy(result) then result.value else ""
    case OtherResponse(text) => text
    case NoResponse => ""
  }

  /** `load_retriever_from_faiss(index_path)`: a k=5 similarity retriever over the
      index in `index_path`, when embeddings load, the path is a directory and
      FAISS can load it. It returns the retriever and leaves the instance alone. */
  function LoadRetrieverFromFaiss(indexPath: string, embeddingsOk: bool, dirs: set<string>, loadOk: bool): (r: Result<Retriever>)
    ensures r.Ok? <==> embeddingsOk && indexPath in dirs && loadOk
    ensures r.Ok? ==> r.value == Retriever(indexPath, 5)
    ensures r.Err? ==> r.msg == RetrieverError
  {
    if !embeddingsOk || indexPath !in dirs || !loadOk then Err(RetrieverError)
    else Ok(Retriever(indexPath, 5))
  }

  class ConversationalRag {
    const sessionId: string
    const store: HistoryStore
    const retriever: Retriever
    const contextualizePrompt: string
    const qaPrompt: string

    constructor (sessionId: string, store: HistoryStore, retriever: Retriever, contextualizePrompt: string, qaPrompt: string)
      ensures this.sessionId == sessionId && this.store == store && this.retriever == retriever
      ensures this.contextualizePrompt == contextualizePrompt && this.qaPrompt == qaPrompt
    {
      this.sessionId := sessionId;
      this.store := store;
      this.retriever := retriever;
      this.contextualizePrompt := contextualizePrompt;
      this.qaPrompt := qaPrompt;
    }

    /** `_get_session_history(config)`: the stored history of the selected id,
        inserting a fresh empty one first when the id is new. No other entry changes. */
    method GetSessionHistory(config: Config) returns (r: Result<ChatHistory>)
      modifies store
      ensures SessionKey(config, sessionId).Err? ==> r == Err(HistoryError) && store.histories == old(store.histories)
      ensures SessionKey(config, sessionId).Ok? ==>
        var sid := SessionKey(config, sessionId).value;
        && r.Ok? && sid in store.histories && store.histories[sid] == r.value
        && (sid in old(store.histories) ==> r.value == old(store.histories)[sid] && store.histories == old(store.histories))
        && (sid !in old(store.histories) ==>
              fresh(r.value) && r.value.messages == [] && store.histories == old(store.histories)[sid := r.value])
    {
      var key := SessionKey(config, sessionId);
      if key.Err? {
        return Err(HistoryError);
      }
      var sid := key.value;
      if sid !in store.histories {
        var h := new ChatHistory();
        store.histories := store.histories[sid := h];
      }
      r := Ok(store.histories[sid]);
    }

    /** `invoke(user_input)`: run the chain with the instance's own session
        history and normalise its response; an empty answer is returned as is. */
    method Invoke(userInput: string, chain: (seq<Message>, string) -> Result<Response>) returns (r: Result<string>)
      modifies store
      ensures sessionId in store.histories
      ensures sessionId in old(store.histories) ==> store.histories == old(store.histories)
      ensures sessionId !in old(store.histories) ==>
        fresh(store.histories[sessionId]) && store.histories == old(store.histories)[sessionId := store.histories[sessionId]]
      ensures var out := chain(store.histories[sessionId].messages, userInput);
        r == (if out.Ok? then Ok(ExtractAnswer(out.value)) else Err(InvokeError))
    {
      var h := GetSessionHistory(DictConfig(Some(CfgDict(Some(sessionId)))));
      var out := chain(h.value.messages, userInput);
      if out.Err? {
        return Err(InvokeError);
      }
      r := Ok(ExtractAnswer(out.value));
    }
  }

  /** The constructor of `ConversationalRAG`: load the LLM, then resolve the
      contextualising and the answering prompt; any failure is reported as an
      initialisation error. The store is the one shared map. */
  method Create(sessionId: string, store: HistoryStore, retriever: Retriever, llmOk: bool,
                registry: map<Key, string>, contextualize: PromptType, contextQa: PromptType)
    returns (r: Result<ConversationalRag>)
    ensures r.Err? <==> !llmOk || FirstPresent(registry, SingleDocKeys(contextualize)).None?
                               || FirstPresent(registry, SingleDocKeys(contextQa)).None?
    ensures r.Err? ==> r.msg == InitError
    ensures r.Ok? ==> fresh(r.value) && r.value.sessionId == sessionId && r.value.store == store
                      && r.value.retriever == retriever
                      && r.value.contextualizePrompt == FirstPresent(registry, SingleDocKeys(contextualize)).value
                      && r.value.qaPrompt == FirstPresent(registry, SingleDocKeys(contextQa)).value
  {
    if !llmOk {
      return Err(InitError);
    }
    var cp := Resolve(registry, SingleDocKeys(contextualize));
    if cp.Err? {
      return Err(InitError);
    }
    var qp := Resolve(registry, SingleDocKeys(contextQa));
    if qp.Err? {
      return Err(InitError);
    }
    var rag := new ConversationalRag(sessionId, store, retriever, cp.value, qp.value);
    r := Ok(rag);
  }

  /** Two instances sharing the store get the very same history object for one id. */
  method SharedHistory(a: ConversationalRag, b: ConversationalRag, sid: string) returns (ha: ChatHistory, hb: ChatHistory)
    requires a.store == b.store
    modifies a.store
    ensures ha == hb && sid in a.store.histories && a.store.histories[sid] == ha
  {
    var cfg := DictConfig(Some(CfgDict(Some(sid))));
    var ra := a.GetSessionHistory(cfg);
    var rb := b.GetSessionHistory(cfg);
    ha, hb := ra.value, rb.value;
  }
}
