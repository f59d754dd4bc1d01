/** utils/model_loader.py: `ModelLoader`, which turns the configuration
    dictionary into the embeddings provider and the chat model to build, or
    into the exception the code raises. Building the clients is left to the
    libraries; here a result names the client and the arguments it gets. */
module ModelLoader {
  import opened Wrappers
  import opened PyText

  /** A value of the YAML configuration as Python sees it. */
  datatype Json =
    | JNull
    | JBool(b: bool)
    | JInt(i: int)
    | JStr(s: string)
    | JList(items: seq<Json>)
    | JObj(fields: map<string, Json>)

  /** Python truthiness of a configuration value. */
  predicate Truthy(v: Json) {
    match v
    case JNull => false
    case JBool(b) => b
    case JInt(i) => i != 0
    case JStr(s) => s != ""
    case JList(items) => items != []
    case JObj(fields) => fields != map[]
  }

  /** The exceptions the loader raises. `NoAttribute` is Python's own
      AttributeError when a configuration value has the wrong type for the
      `.get` or `.lower` called on it. */
  datatype Failure =
    | ValueError(msg: string)
    | ImportError(msg: string)
    | NoAttribute

  datatype Loaded<T> = Built(value: T) | Raised(failure: Failure)

  const EmbeddingNameMissing := "Embedding model_name" + " missing in config['embedding_model']."
  const GoogleMissing := "GoogleGenerativeAIEmbeddings not available. Install langchain-google-genai."
  const UnknownProvider := "Unknown embeddings provider: "
  const LlmNameMissing := "LLM model_name missing in config['llm']."

  /** The provider names that select the local HuggingFace embeddings. */
  const HuggingFaceNames := {"huggingface", "hf", "local"}

  datatype Embeddings = HuggingFace(modelName: Json) | GoogleGenAI(model: Json)

  /** `ChatGroq(model=..., temperature=..., max_tokens=...)`. */
  datatype ChatModel = ChatGroq(model: Json, temperature: Json, maxTokens: Json)

  /** The loader keeps one field, its configuration. */
  datatype ModelLoader = ModelLoader(config: map<string, Json>)

  /** `ModelLoader(config)`: `self.config = config or load_config()`, where
      `loaded` is what `load_config()` returns. */
  function NewModelLoader(config: Option<map<string, Json>>, loaded: map<string, Json>): (m: ModelLoader)
    ensures config.Some? && config.value != map[] ==> m.config == config.value
    ensures config.None? || config.value == map[] ==> m.config == loaded
  {
    if config.Some? && config.value != map[] then ModelLoader(config.value) else ModelLoader(loaded)
  }

  /** `d.get(key, default)`. */
  function Get(d: map<string, Json>, key: string, default: Json): Json {
    if key in d then d[key] else default
  }

  /** `(emb_cfg.get("provider") or "").lower()`: a falsy provider is "", a
      string is lower-cased, and any other truthy value has no `.lower`. */
  function ProviderName(cfg: map<string, Json>): (r: Option<string>)
    ensures r.None? <==> "provider" in cfg && Truthy(cfg["provider"]) && !cfg["provider"].JStr?
    ensures r.Some? && "provider" in cfg && cfg["provider"].JStr? ==> r.value == Lower(cfg["provider"].s)
    ensures r.Some? && !("provider" in cfg && cfg["provider"].JStr?) ==> r.value == ""
  {
    var p := Get(cfg, "provider", JNull);
    if !Truthy(p) then Some("")
    else if p.JStr? then Some(Lower(p.s))
    else None
  }

  /** `load_embeddings()`. The provider is read before the model name, so a
      provider that is not a string fails first; then a falsy or missing model
      name is rejected whatever the provider; then the lower-cased provider
      selects the client. `googleAvailable` is whether the optional package
      imported. */
  function LoadEmbeddings(m: ModelLoader, googleAvailable: bool): (r: Loaded<Embeddings>)
    ensures r.Built? ==> "embedding_model" in m.config && m.config["embedding_model"].JObj?
    ensures r.Built? ==>
      var cfg := m.config["embedding_model"].fields;
      && "model_name" in cfg && Truthy(cfg["model_name"])
      && ProviderName(cfg).Some?
      && (r.value.HuggingFace? <==> ProviderName(cfg).value in HuggingFaceNames)
      && (r.value.GoogleGenAI? <==> ProviderName(cfg).value == "google")
      && (r.value.HuggingFace? ==> r.value.modelName == cfg["model_name"])
      && (r.value.GoogleGenAI? ==> r.value.model == cfg["model_name"] && googleAvailable)
  {
    var emb := Get(m.config, "embedding_model", JObj(map[]));
    if !emb.JObj? then Raised(NoAttribute)
    else
      var provider := ProviderName(emb.fields);
      var modelName := Get(emb.fields, "model_name", JNull);
      if provider.None? then Raised(NoAttribute)
      else if !Truthy(modelName) then Raised(ValueError(EmbeddingNameMissing))
      else if provider.value in HuggingFaceNames then Built(HuggingFace(modelName))
      else if provider.value == "google" then
        if !googleAvailable then Raised(ImportError(GoogleMissing)) else Built(GoogleGenAI(modelName))
      else Raised(ValueError(UnknownProvider + provider.value))
  }

  /** An embedding section whose provider is a string, or absent, fails with
      the missing-name error exactly when its model name is missing or falsy,
      whichever provider it names. */
  lemma EmbeddingNameRequired(m: ModelLoader, googleAvailable: bool)
    requires "embedding_model" in m.config && m.config["embedding_model"].JObj?
    requires var cfg := m.config["embedding_model"].fields;
      "provider" !in cfg || cfg["provider"].JStr? || !Truthy(cfg["provider"])
    ensures var cfg := m.config["embedding_model"].fields;
      LoadEmbeddings(m, googleAvailable) == Raised(ValueError(EmbeddingNameMissing))
      <==> !("model_name" in cfg && Truthy(cfg["model_name"]))
  {
    var cfg := m.config["embedding_model"].fields;
    if "model_name" in cfg && Truthy(cfg["model_name"]) {
      var p := ProviderName(cfg).value;
      if p !in HuggingFaceNames && p != "google" {
        UnknownNotNameMissing(p);
      }
    }
  }

  /** The unknown-provider message never reads as the missing-name one. */
  lemma UnknownNotNameMissing(p: string)
    ensures UnknownProvider + p != EmbeddingNameMissing
  {
    assert (UnknownProvider + p)[0] == 'U';
    assert EmbeddingNameMissing[0] == 'E';
  }

  /** Every character is a fixed point of lower-casing once lower-cased. */
  lemma LowerIdempotent(s: string)
    ensures Lower(Lower(s)) == Lower(s)
  {
    LowerAt(s);
    LowerAt(Lower(s));
  }

  /** Only the provider name and the model name of the embedding section
      decide what `load_embeddings()` does. */
  lemma EmbeddingsDependOnNames(cfg: map<string, Json>, cfg': map<string, Json>, googleAvailable: bool)
    requires ProviderName(cfg) == ProviderName(cfg')
    requires Get(cfg, "model_name", JNull) == Get(cfg', "model_name", JNull)
    ensures LoadEmbeddings(ModelLoader(map["embedding_model" := JObj(cfg)]), googleAvailable)
         == LoadEmbeddings(ModelLoader(map["embedding_model" := JObj(cfg')]), googleAvailable)
  {
  }

  /** The provider is compared case-insensitively: spelling it in any case
      selects the same client as spelling it in lower case. */
  lemma ProviderCaseInsensitive(cfg: map<string, Json>, p: string, googleAvailable: bool)
    ensures LoadEmbeddings(ModelLoader(map["embedding_model" := JObj(cfg["provider" := JStr(p)])]), googleAvailable)
         == LoadEmbeddings(ModelLoader(map["embedding_model" := JObj(cfg["provider" := JStr(Lower(p))])]), googleAvailable)
  {
    var a, b := cfg["provider" := JStr(p)], cfg["provider" := JStr(Lower(p))];
    LowerIdempotent(p);
    assert p != "" <==> Lower(p) != "";
    assert ProviderName(a) == ProviderName(b);
    assert Get(a, "model_name", JNull) == Get(b, "model_name", JNull);
    EmbeddingsDependOnNames(a, b, googleAvailable);
  }

  /** Each of the three HuggingFace spellings, in any case, selects the local
      embeddings with the configured model name. */
  lemma HuggingFaceSelected(cfg: map<string, Json>, p: string, googleAvailable: bool)
    requires Lower(p) in HuggingFaceNames
    requires "model_name" in cfg && Truthy(cfg["model_name"])
    ensures LoadEmbeddings(ModelLoader(map["embedding_model" := JObj(cfg["provider" := JStr(p)])]), googleAvailable)
         == Built(HuggingFace(cfg["model_name"]))
  {
    var e := cfg["provider" := JStr(p)];
    assert e["model_name"] == cfg["model_name"];
    assert p != "";
  }

  /** `google` selects Google's embeddings when the package is there and is
      an ImportError when it is not. */
  lemma GoogleSelected(cfg: map<string, Json>, googleAvailable: bool)
    requires "model_name" in cfg && Truthy(cfg["model_name"])
    ensures var r := LoadEmbeddings(ModelLoader(map["embedding_model" := JObj(cfg["provider" := JStr("google")])]), googleAvailable);
      && (googleAvailable ==> r == Built(GoogleGenAI(cfg["model_name"])))
      && (!googleAvailable ==> r == Raised(ImportError(GoogleMissing)))
  {
    var e := cfg["provider" := JStr("google")];
    assert e["model_name"] == cfg["model_name"];
    assert Lower("google") == "google";
  }

  /** A missing provider, with a model name present, is an unknown provider
      with an empty name. */
  lemma MissingProviderUnknown(cfg: map<string, Json>, googleAvailable: bool)
    requires "provider" !in cfg
    requires "model_name" in cfg && Truthy(cfg["model_name"])
    ensures LoadEmbeddings(ModelLoader(map["embedding_model" := JObj(cfg)]), googleAvailable)
         == Raised(ValueError(UnknownProvider))
  {
    assert UnknownProvider + "" == UnknownProvider;
  }

  /** `self.config.get("llm", {})` when it is a dictionary. */
  function LlmSection(m: ModelLoader): Option<map<string, Json>> {
    var llm := Get(m.config, "llm", JObj(map[]));
    if llm.JObj? then Some(llm.fields) else None
  }

  /** `load_llm()`: a falsy or missing model name is rejected; the temperature
      defaults to 0 and `max_output_tokens` (passed as `max_tokens`) to 2048,
      each only when its key is absent. */
  function LoadLlm(m: ModelLoader): (r: Loaded<ChatModel>)
    ensures r.Built? <==>
      LlmSection(m).Some? && "model_name" in LlmSection(m).value && Truthy(LlmSection(m).value["model_name"])
    ensures r.Raised? ==> r.failure == NoAttribute || r.failure == ValueError(LlmNameMissing)
    ensures r.Built? ==>
      var cfg := LlmSection(m).value;
      && r.value.model == cfg["model_name"]
      && ("temperature" !in cfg ==> r.value.temperature == JInt(0))
      && ("temperature" in cfg ==> r.value.temperature == cfg["temperature"])
      && ("max_output_tokens" !in cfg ==> r.value.maxTokens == JInt(2048))
      && ("max_output_tokens" in cfg ==> r.value.maxTokens == cfg["max_output_tokens"])
  {
    var llm := Get(m.config, "llm", JObj(map[]));
    if !llm.JObj? then Raised(NoAttribute)
    else
      var modelName := Get(llm.fields, "model_name", JNull);
      if !Truthy(modelName) then Raised(ValueError(LlmNameMissing))
      else
        Built(ChatGroq(modelName, Get(llm.fields, "temperature", JInt(0)),
                       Get(llm.fields, "max_output_tokens", JInt(2048))))
  }

  /** A configuration with no `llm` section at all cannot build a chat model:
      the empty default has no model name. */
  lemma NoLlmSectionFails(m: ModelLoader)
    requires "llm" !in m.config
    ensures LoadLlm(m) == Raised(ValueError(LlmNameMissing))
  {
  }

  /** Giving the defaults explicitly builds the same chat model as leaving
      the keys out. */
  lemma LlmDefaultsExplicit(name: Json)
    requires Truthy(name)
    ensures LoadLlm(ModelLoader(map["llm" := JObj(map["model_name" := name])]))
         == LoadLlm(ModelLoader(map["llm" := JObj(map["model_name" := name, "temperature" := JInt(0),
                                                       "max_output_tokens" := JInt(2048)])]))
  {
  }
}
