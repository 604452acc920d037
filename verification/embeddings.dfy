/** The Ollama embeddings adapter: it posts texts to `{base_url}/api/embeddings`,
    reads the vectors out of whichever of four response shapes comes back, and
    falls back from one bulk request to one request per text.

    The HTTP call is an oracle `post` from a request to a reply; vectors are
    opaque JSON values that are never inspected. */
module EmbeddingsAdapter {
  import opened Wrappers
  import opened JsonValues
  import PyStr

  const DEFAULT_BASE_URL := "http://localhost:11434"
  const DEFAULT_MODEL := "all-minilm"

  /** The `prompt` field of a request: the whole list of texts in the bulk
      attempt, one text per request in the fallback. */
  datatype Prompt = Batch(texts: seq<string>) | Single(text: string)

  /** One POST: the URL and the JSON payload `{"model": ..., "prompt": ...}`. */
  datatype EmbeddingRequest = EmbeddingRequest(url: string, model: string, prompt: Prompt)

  /** What `requests.post` gives back: it raised (connection refused, timeout,
      ...), or a status with a body that `resp.json()` decodes (`None` when
      `resp.json()` raises). */
  datatype HttpReply = Unreachable | Received(status: int, body: Option<Json>)

  /** The exceptions that can leave the adapter. */
  datatype EmbedError =
    | RequestFailed          // raised by `requests.post`
    | RuntimeError(status: int) // a per-text request answered with a status other than 200
    | InvalidJson            // `resp.json()` raised
    | AttributeError         // `item.get` on an entry of "data" that is not a dict
    | ValueError(data: Json) // no known shape: "Unexpected embeddings response"
    | LookupFailed           // `parsed[0]` raised (IndexError, KeyError or TypeError)

  /** `item.get("embedding") or item.get("embeddings")`. */
  function Entry(item: map<string, Json>): Json {
    Or(Get(item, "embedding"), Get(item, "embeddings"))
  }

  /** The entries of the OpenAI-like shape, built item by item as the loop
      does; an item that is not a dict makes `item.get` raise. */
  function DataEntries(items: seq<Json>): Result<seq<Json>, EmbedError>
    decreases |items|
  {
    if items == [] then Ok([])
    else
      match DataEntries(items[..|items| - 1])
      case Err(e) => Err(e)
      case Ok(es) =>
        var item := items[|items| - 1];
        if item.JObj? then Ok(es + [Entry(item.fields)]) else Err(AttributeError)
  }

  /** `_parse_response`: the four shapes, tried in this order. The returned
      value is a Python value in which `JNull` stands for `None`; a response
      `{"embeddings": null}` therefore returns `None` just like an unknown
      shape does. */
  function Parse(data: Json): Result<Json, EmbedError> {
    if data.JObj? && "data" in data.fields && data.fields["data"].JArr? then
      match DataEntries(data.fields["data"].items)
      case Ok(es) => Ok(JArr(es))
      case Err(e) => Err(e)
    else if data.JObj? && "embedding" in data.fields then
      Ok(JArr([data.fields["embedding"]]))
    else if data.JObj? && "embeddings" in data.fields then
      Ok(data.fields["embeddings"])
    else if data.JArr? && |data.items| > 0 && data.items[0].JArr? then
      Ok(data)
    else
      Ok(JNull)
  }

  /** The bulk attempt: its parse is used only when the status is 200, the
      body decodes, the parser does not raise and does not return `None`;
      every other outcome, raised exceptions included, means "fall back". */
  function BulkParsed(reply: HttpReply): Option<Json> {
    if reply.Received? && reply.status == 200 && reply.body.Some? then
      match Parse(reply.body.value)
      case Ok(p) => if p != JNull then Some(p) else None
      case Err(_) => None
    else None
  }

  /** The reply to the fallback request for one text. */
  function SingleReply(url: string, model: string, post: EmbeddingRequest -> HttpReply, text: string): HttpReply {
    post(EmbeddingRequest(url, model, Single(text)))
  }

  /** One iteration of the fallback loop: the first element of the parsed
      reply, or the exception the iteration raises. */
  function ItemVector(reply: HttpReply): Result<Json, EmbedError> {
    match reply
    case Unreachable => Err(RequestFailed)
    case Received(status, body) =>
      if status != 200 then Err(RuntimeError(status))
      else if body.None? then Err(InvalidJson)
      else
        match Parse(body.value)
        case Err(e) => Err(e)
        case Ok(parsed) =>
          if parsed == JNull then Err(ValueError(body.value))
          else
            match Index0(parsed)
            case Some(v) => Ok(v)
            case None => Err(LookupFailed)
  }

  /** The outcome of one text in the fallback. */
  function ItemOutcome(url: string, model: string, post: EmbeddingRequest -> HttpReply, text: string): Result<Json, EmbedError> {
    ItemVector(SingleReply(url, model, post, text))
  }

  /** The fallback loop over `inputs`: the vectors in input order, or the
      first exception, in which case no partial list is returned. */
  function PerItem(url: string, model: string, post: EmbeddingRequest -> HttpReply, inputs: seq<string>): Result<seq<Json>, EmbedError>
    decreases |inputs|
  {
    if inputs == [] then Ok([])
    else
      match PerItem(url, model, post, inputs[..|inputs| - 1])
      case Err(e) => Err(e)
      case Ok(vs) =>
        match ItemOutcome(url, model, post, inputs[|inputs| - 1])
        case Err(e) => Err(e)
        case Ok(v) => Ok(vs + [v])
  }

  /** `_call_embeddings(inputs)`: the bulk parse when it is accepted, otherwise
      the list built by the fallback loop. */
  function EmbeddingsFor(url: string, model: string, post: EmbeddingRequest -> HttpReply, inputs: seq<string>): Result<Json, EmbedError> {
    match BulkParsed(post(EmbeddingRequest(url, model, Batch(inputs))))
    case Some(p) => Ok(p)
    case None =>
      match PerItem(url, model, post, inputs)
      case Ok(vs) => Ok(JArr(vs))
      case Err(e) => Err(e)
  }

  /** `embed_query(text)`: element 0 of `_call_embeddings([text])`. */
  function QueryVector(url: string, model: string, post: EmbeddingRequest -> HttpReply, text: string): Result<Json, EmbedError> {
    match EmbeddingsFor(url, model, post, [text])
    case Err(e) => Err(e)
    case Ok(all) =>
      match Index0(all)
      case Some(v) => Ok(v)
      case None => Err(LookupFailed)
  }

  /** `_parse_response` as the source runs it: ordered checks, and a loop that
      appends one entry per item of "data". */
  method ParseResponse(data: Json) returns (r: Result<Json, EmbedError>)
    ensures r == Parse(data)
  {
    if data.JObj? && "data" in data.fields && data.fields["data"].JArr? {
      var items := data.fields["data"].items;
      var embeddings: seq<Json> := [];
      for i := 0 to |items|
        invariant DataEntries(items[..i]) == Ok(embeddings)
      {
        var item := items[i];
        assert items[..i + 1][..i] == items[..i];
        if !item.JObj? {
          DataEntriesErrExtends(items, i + 1);
          return Err(AttributeError);
        }
        embeddings := embeddings + [Entry(item.fields)];
      }
      assert items[..|items|] == items;
      return Ok(JArr(embeddings));
    }
    if data.JObj? && "embedding" in data.fields {
      return Ok(JArr([data.fields["embedding"]]));
    }
    if data.JObj? && "embeddings" in data.fields {
      return Ok(data.fields["embeddings"]);
    }
    if data.JArr? && |data.items| > 0 && data.items[0].JArr? {
      return Ok(data);
    }
    return Ok(JNull);
  }

  /** An exception raised while building the entries of a prefix leaves the
      whole parse. */
  lemma {:induction false} DataEntriesErrExtends(items: seq<Json>, n: nat)
    requires n <= |items| && DataEntries(items[..n]).Err?
    ensures DataEntries(items) == DataEntries(items[..n])
    decreases |items| - n
  {
    if n < |items| {
      var m := n + 1;
      assert items[..m][..m - 1] == items[..n];
      assert DataEntries(items[..m]) == DataEntries(items[..n]);
      DataEntriesErrExtends(items, m);
    } else {
      assert items[..n] == items;
    }
  }

  /** The error raised in one fallback iteration leaves the whole loop. */
  lemma {:induction false} PerItemErrExtends(url: string, model: string, post: EmbeddingRequest -> HttpReply, inputs: seq<string>, n: nat)
    requires n <= |inputs| && PerItem(url, model, post, inputs[..n]).Err?
    ensures PerItem(url, model, post, inputs) == PerItem(url, model, post, inputs[..n])
    decreases |inputs| - n
  {
    if n < |inputs| {
      var m := n + 1;
      assert inputs[..m][..m - 1] == inputs[..n];
      assert PerItem(url, model, post, inputs[..m]) == PerItem(url, model, post, inputs[..n]);
      PerItemErrExtends(url, model, post, inputs, m);
    } else {
      assert inputs[..n] == inputs;
    }
  }

  /** The OpenAI-like shape yields one entry per item, in item order, each the
      item's "embedding" when that is truthy and its "embeddings" (possibly
      `None`) otherwise; the parse raises exactly when some item is not a dict. */
  lemma {:induction false} DataEntriesSpec(items: seq<Json>)
    ensures DataEntries(items).Ok? <==> forall i :: 0 <= i < |items| ==> items[i].JObj?
    ensures DataEntries(items).Err? ==> DataEntries(items).error == AttributeError
    ensures DataEntries(items).Ok? ==>
      |DataEntries(items).value| == |items| &&
      forall i :: 0 <= i < |items| ==> DataEntries(items).value[i] == Entry(items[i].fields)
    decreases |items|
  {
    if items != [] {
      var init := items[..|items| - 1];
      DataEntriesSpec(init);
      assert forall i :: 0 <= i < |init| ==> init[i] == items[i];
    }
  }

  /** A response in the OpenAI-like shape, one `{"embedding": v}` per vector. */
  function OpenAIShape(vs: seq<Json>): Json {
    JObj(map["data" := JArr(seq(|vs|, i requires 0 <= i < |vs| => JObj(map["embedding" := vs[i]])))])
  }

  /** Parsing the OpenAI-like shape gives the vectors back in order; a falsy
      vector (an empty list, say) comes back as `None`, because the entry falls
      through to the absent "embeddings" key. */
  lemma ParseOpenAIShape(vs: seq<Json>)
    ensures Parse(OpenAIShape(vs)) ==
      Ok(JArr(seq(|vs|, i requires 0 <= i < |vs| => if Truthy(vs[i]) then vs[i] else JNull)))
    ensures (forall i :: 0 <= i < |vs| ==> Truthy(vs[i])) ==> Parse(OpenAIShape(vs)) == Ok(JArr(vs))
  {
    var items := OpenAIShape(vs).fields["data"].items;
    assert forall i :: 0 <= i < |items| ==> items[i] == JObj(map["embedding" := vs[i]]);
    DataEntriesSpec(items);
    var es := DataEntries(items).value;
    var want := seq(|vs|, i requires 0 <= i < |vs| => if Truthy(vs[i]) then vs[i] else JNull);
    forall i | 0 <= i < |vs| ensures es[i] == want[i] {
      var m := map["embedding" := vs[i]];
      assert items[i].fields == m;
      assert Get(m, "embeddings") == JNull;
    }
    assert es == want;
    if forall i :: 0 <= i < |vs| ==> Truthy(vs[i]) {
      assert want == vs;
    }
  }

  /** Whether a response dict holds a list under "data": the first test. */
  predicate HasDataList(d: map<string, Json>) {
    "data" in d && d["data"].JArr?
  }

  /** The shapes of a dict response, in order, whatever other keys it holds: a
      list under "data" is parsed entry by entry, raising `AttributeError`
      exactly when some item is not a dict; otherwise "embedding" wins over
      "embeddings", a non-list "data" being no obstacle; a dict with neither
      gives `None`. A bare list is kept as it is when its first element is a
      list. */
  lemma ParseShapeOrder(d: map<string, Json>, items: seq<Json>)
    ensures HasDataList(d) ==>
      (Parse(JObj(d)).Ok? <==> forall i :: 0 <= i < |d["data"].items| ==> d["data"].items[i].JObj?)
    ensures HasDataList(d) && Parse(JObj(d)).Err? ==> Parse(JObj(d)).error == AttributeError
    ensures HasDataList(d) && Parse(JObj(d)).Ok? ==>
      Parse(JObj(d)).value.JArr? && |Parse(JObj(d)).value.items| == |d["data"].items| &&
      forall i :: 0 <= i < |d["data"].items| ==> Parse(JObj(d)).value.items[i] == Entry(d["data"].items[i].fields)
    ensures !HasDataList(d) && "embedding" in d ==> Parse(JObj(d)) == Ok(JArr([d["embedding"]]))
    ensures !HasDataList(d) && "embedding" !in d && "embeddings" in d ==> Parse(JObj(d)) == Ok(d["embeddings"])
    ensures !HasDataList(d) && "embedding" !in d && "embeddings" !in d ==> Parse(JObj(d)) == Ok(JNull)
    ensures Parse(JArr(items)) == if items != [] && items[0].JArr? then Ok(JArr(items)) else Ok(JNull)
  {
    if HasDataList(d) {
      DataEntriesSpec(d["data"].items);
    }
  }

  /** The reply of Ollama's `/api/embed`, with its vectors under "embeddings"
      next to other keys, and a response whose "data" is not a list but which
      has "embedding", are both recognised. */
  lemma ParseMixedKeys(vs: seq<Json>, v: Json, model: string)
    ensures Parse(JObj(map["embeddings" := JArr(vs), "model" := JStr(model)])) == Ok(JArr(vs))
    ensures Parse(JObj(map["data" := JStr("x"), "embedding" := v])) == Ok(JArr([v]))
  {
    ParseShapeOrder(map["embeddings" := JArr(vs), "model" := JStr(model)], []);
    ParseShapeOrder(map["data" := JStr("x"), "embedding" := v], []);
  }

  /** The parse returns `None` exactly when no shape matches or when the
      response is `{"embeddings": null, ...}` without "data" or "embedding". */
  lemma ParseNoneIff(data: Json)
    ensures Parse(data) == Ok(JNull) <==>
      if data.JObj? then
        !("data" in data.fields && data.fields["data"].JArr?) && "embedding" !in data.fields &&
        ("embeddings" in data.fields ==> data.fields["embeddings"] == JNull)
      else
        !(data.JArr? && data.items != [] && data.items[0].JArr?)
  {
  }

  /** The fallback succeeds exactly when every text's request succeeds, and
      then holds one vector per text, in input order, each the first element
      of that text's parsed reply. */
  lemma {:induction false} PerItemSpec(url: string, model: string, post: EmbeddingRequest -> HttpReply, inputs: seq<string>)
    ensures PerItem(url, model, post, inputs).Ok? <==>
      forall i :: 0 <= i < |inputs| ==> ItemOutcome(url, model, post, inputs[i]).Ok?
    ensures PerItem(url, model, post, inputs).Ok? ==>
      |PerItem(url, model, post, inputs).value| == |inputs| &&
      forall i :: 0 <= i < |inputs| ==>
        PerItem(url, model, post, inputs).value[i] == ItemOutcome(url, model, post, inputs[i]).value
    decreases |inputs|
  {
    if inputs != [] {
      var init := inputs[..|inputs| - 1];
      PerItemSpec(url, model, post, init);
      assert forall i :: 0 <= i < |init| ==> init[i] == inputs[i];
    }
  }

  /** The first text whose request fails decides the error of the whole
      fallback, and the texts after it are never requested for the result. */
  lemma PerItemFirstError(url: string, model: string, post: EmbeddingRequest -> HttpReply, inputs: seq<string>, i: nat)
    requires i < |inputs| && ItemOutcome(url, model, post, inputs[i]).Err?
    requires forall j :: 0 <= j < i ==> ItemOutcome(url, model, post, inputs[j]).Ok?
    ensures PerItem(url, model, post, inputs) == Err(ItemOutcome(url, model, post, inputs[i]).error)
  {
    var init := inputs[..i];
    assert forall j :: 0 <= j < |init| ==> init[j] == inputs[j];
    PerItemSpec(url, model, post, init);
    assert inputs[..i + 1][..i] == init;
    PerItemErrExtends(url, model, post, inputs, i + 1);
  }

  /** Conversely, a failed fallback failed at some text all of whose
      predecessors succeeded, with that text's error. */
  lemma {:induction false} PerItemErrorIsFirst(url: string, model: string, post: EmbeddingRequest -> HttpReply, inputs: seq<string>)
    requires PerItem(url, model, post, inputs).Err?
    ensures exists i ::
      0 <= i < |inputs| &&
      ItemOutcome(url, model, post, inputs[i]) == Err(PerItem(url, model, post, inputs).error) &&
      (forall j :: 0 <= j < i ==> ItemOutcome(url, model, post, inputs[j]).Ok?)
    decreases |inputs|
  {
    var init := inputs[..|inputs| - 1];
    if PerItem(url, model, post, init).Err? {
      assert PerItem(url, model, post, inputs) == PerItem(url, model, post, init);
      PerItemErrorIsFirst(url, model, post, init);
      var i :| 0 <= i < |init| &&
        ItemOutcome(url, model, post, init[i]) == Err(PerItem(url, model, post, init).error) &&
        (forall j :: 0 <= j < i ==> ItemOutcome(url, model, post, init[j]).Ok?);
      assert init[i] == inputs[i];
      forall j | 0 <= j < i ensures ItemOutcome(url, model, post, inputs[j]).Ok? {
        assert init[j] == inputs[j];
      }
    } else {
      PerItemSpec(url, model, post, init);
      var i := |inputs| - 1;
      forall j | 0 <= j < i ensures ItemOutcome(url, model, post, inputs[j]).Ok? {
        assert init[j] == inputs[j];
      }
      assert ItemOutcome(url, model, post, inputs[i]) == Err(PerItem(url, model, post, inputs).error);
    }
  }

  /** When the bulk attempt is not accepted, `_call_embeddings` returns exactly
      one vector per input, in input order, or raises. */
  lemma FallbackOnePerInput(url: string, model: string, post: EmbeddingRequest -> HttpReply, inputs: seq<string>)
    requires BulkParsed(post(EmbeddingRequest(url, model, Batch(inputs)))).None?
    ensures EmbeddingsFor(url, model, post, inputs).Ok? <==>
      forall i :: 0 <= i < |inputs| ==> ItemOutcome(url, model, post, inputs[i]).Ok?
    ensures EmbeddingsFor(url, model, post, inputs).Ok? ==>
      var v := EmbeddingsFor(url, model, post, inputs).value;
      v.JArr? && |v.items| == |inputs| &&
      forall i :: 0 <= i < |inputs| ==> v.items[i] == ItemOutcome(url, model, post, inputs[i]).value
  {
    PerItemSpec(url, model, post, inputs);
  }

  /** When the bulk attempt is accepted, its parse is the result as it is: the
      number of vectors is not checked against the number of inputs. Two texts
      answered in bulk with a single `{"embedding": [1.0]}` give one vector. */
  lemma BulkCountUnchecked()
    ensures var post := (req: EmbeddingRequest) =>
        Received(200, Some(JObj(map["embedding" := JArr([JNum(1.0)])])));
      var r := EmbeddingsFor("http://localhost:11434/api/embeddings", DEFAULT_MODEL, post, ["a", "b"]);
      r.Ok? && r.value.JArr? && |r.value.items| == 1
  {
  }

  /** `embed_query` after a rejected bulk attempt is exactly the one per-text
      request for the query; after an accepted one it is element 0 of the bulk
      parse. */
  lemma QueryVectorSpec(url: string, model: string, post: EmbeddingRequest -> HttpReply, text: string)
    ensures BulkParsed(post(EmbeddingRequest(url, model, Batch([text])))).None? ==>
      QueryVector(url, model, post, text) == ItemOutcome(url, model, post, text)
    ensures BulkParsed(post(EmbeddingRequest(url, model, Batch([text])))).Some? ==>
      var p := BulkParsed(post(EmbeddingRequest(url, model, Batch([text])))).value;
      QueryVector(url, model, post, text) == if Index0(p).Some? then Ok(Index0(p).value) else Err(LookupFailed)
  {
    assert [text][..0] == [];
    assert PerItem(url, model, post, [text][..0]) == Ok([]);
    assert forall v: Json :: [] + [v] == [v];
    assert PerItem(url, model, post, [text]) ==
      match ItemOutcome(url, model, post, text)
      case Ok(v) => Ok([v])
      case Err(e) => Err(e);
  }

  class OllamaEmbeddings {
    const baseUrl: string
    const model: string

    /** `__init__`: the explicit base URL, or else the `OLLAMA_BASE_URL`
        environment variable, or else the default; trailing slashes removed.
        An omitted `model` is "all-minilm". */
    constructor (baseUrl: Option<string>, env: map<string, string>, model: Option<string>)
      ensures this.baseUrl ==
        PyStr.RStrip(PyStr.OrElse(baseUrl, PyStr.EnvGet(env, "OLLAMA_BASE_URL", DEFAULT_BASE_URL)), '/')
      ensures this.baseUrl == [] || this.baseUrl[|this.baseUrl| - 1] != '/'
      ensures model.Some? ==> this.model == model.value
      ensures model.None? ==> this.model == "all-minilm"
    {
      this.baseUrl := PyStr.RStrip(PyStr.OrElse(baseUrl, PyStr.EnvGet(env, "OLLAMA_BASE_URL", DEFAULT_BASE_URL)), '/');
      this.model := if model.Some? then model.value else DEFAULT_MODEL;
    }

    /** `f"{self.base_url}/api/embeddings"` */
    function Url(): string {
      baseUrl + "/api/embeddings"
    }

    /** The bulk attempt of `_call_embeddings`, inside its `try`. */
    method TryBulk(post: EmbeddingRequest -> HttpReply, inputs: seq<string>) returns (r: Option<Json>)
      ensures r == BulkParsed(post(EmbeddingRequest(Url(), model, Batch(inputs))))
    {
      var resp := post(EmbeddingRequest(Url(), model, Batch(inputs)));
      if resp.Received? && resp.status == 200 {
        if resp.body.None? {
          return None;
        }
        var parsed := ParseResponse(resp.body.value);
        if parsed.Ok? && parsed.value != JNull {
          return Some(parsed.value);
        }
      }
      return None;
    }

    /** One iteration of the fallback loop of `_call_embeddings`. */
    method FetchOne(post: EmbeddingRequest -> HttpReply, text: string) returns (r: Result<Json, EmbedError>)
      ensures r == ItemOutcome(Url(), model, post, text)
    {
      var resp := post(EmbeddingRequest(Url(), model, Single(text)));
      if resp.Unreachable? {
        return Err(RequestFailed);
      }
      if resp.status != 200 {
        return Err(RuntimeError(resp.status));
      }
      if resp.body.None? {
        return Err(InvalidJson);
      }
      var parsed := ParseResponse(resp.body.value);
      if parsed.Err? {
        return Err(parsed.error);
      }
      if parsed.value == JNull {
        return Err(ValueError(resp.body.value));
      }
      var first := Index0(parsed.value);
      if first.None? {
        return Err(LookupFailed);
      }
      return Ok(first.value);
    }

    /** `_call_embeddings(inputs)`: the bulk request first, then one request
        per text, appending the first vector of each reply. */
    method CallEmbeddings(post: EmbeddingRequest -> HttpReply, inputs: seq<string>) returns (r: Result<Json, EmbedError>)
      ensures r == EmbeddingsFor(Url(), model, post, inputs)
    {
      var bulk := TryBulk(post, inputs);
      if bulk.Some? {
        return Ok(bulk.value);
      }
      var embeddings: seq<Json> := [];
      for i := 0 to |inputs|
        invariant PerItem(Url(), model, post, inputs[..i]) == Ok(embeddings)
      {
        var one := FetchOne(post, inputs[i]);
        assert inputs[..i + 1][..i] == inputs[..i];
        if one.Err? {
          PerItemErrExtends(Url(), model, post, inputs, i + 1);
          return Err(one.error);
        }
        embeddings := embeddings + [one.value];
      }
      assert inputs[..|inputs|] == inputs;
      return Ok(JArr(embeddings));
    }

    /** `embed_documents(texts)` delegates to `_call_embeddings`. */
    method EmbedDocuments(post: EmbeddingRequest -> HttpReply, texts: seq<string>) returns (r: Result<Json, EmbedError>)
      ensures r == EmbeddingsFor(Url(), model, post, texts)
    {
      r := CallEmbeddings(post, texts);
    }

    /** `embed_query(text)`: `_call_embeddings([text])[0]`. */
    method EmbedQuery(post: EmbeddingRequest -> HttpReply, text: string) returns (r: Result<Json, EmbedError>)
      ensures r == QueryVector(Url(), model, post, text)
    {
      var res := CallEmbeddings(post, [text]);
      if res.Err? {
        return Err(res.error);
      }
      var first := Index0(res.value);
      if first.None? {
        return Err(LookupFailed);
      }
      return Ok(first.value);
    }
  }
}
