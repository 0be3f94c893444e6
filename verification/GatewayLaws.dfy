/** Exactly which requests leave a receipt, and what is in it. */
module GatewayLaws {
  import opened Json
  import opened JsonRoundTrip
  import opened JsonCanonical
  import opened JsonLoaded
  import opened Receipts
  import opened Emitter
  import opened EmitterDomain
  import opened EmitterLaws
  import opened Ledger
  import opened Lines
  import opened Gateway

  // ---------- well-shaped bodies ----------

  /** `choices[0].message.content` is this string. */
  ghost predicate ChatShape(body: Value, output: string) {
    body.Obj? && exists choices, message :: Spoken(body.fields, choices, message, output)
  }

  ghost predicate Spoken(fields: seq<Field>, choices: seq<Value>, message: seq<Field>, output: string) {
    && Find(fields, "choices") == Some(Arr(choices)) && choices != [] && choices[0].Obj?
    && Find(choices[0].fields, "message") == Some(Obj(message))
    && Find(message, "content") == Some(Str(output))
  }

  predicate HasVector(item: Value) {
    item.Obj? && match Find(item.fields, "embedding") case Some(Arr(_)) => true case _ => false
  }

  /** `data` is a nonempty list of objects that each have an embedding list. */
  predicate EmbedShape(body: Value) {
    body.Obj? &&
    match Find(body.fields, "data")
    case Some(Arr(items)) => items != [] && forall i :: 0 <= i < |items| ==> HasVector(items[i])
    case _ => false
  }

  /** `usage` is missing, falsy or an object. */
  predicate UsageShape(body: Value) {
    body.Obj? && match Find(body.fields, "usage") case Some(v) => !v.Truthy() || v.Obj? case None => true
  }

  predicate AllObjects(items: seq<Value>) {
    forall i :: 0 <= i < |items| ==> items[i].Obj?
  }

  /** `messages` is missing, a list of objects, or an empty string or object. */
  predicate MessagesShape(req: Value) {
    req.Obj? &&
    match Find(req.fields, "messages")
    case None => true
    case Some(Arr(items)) => AllObjects(items)
    case Some(Str(s)) => s == ""
    case Some(Obj(fields)) => fields == []
    case _ => false
  }

  lemma {:induction false} ChatContentIs(body: Value, output: string)
    ensures ChatContent(body, Null) == Done(Str(output)) <==> ChatShape(body, output)
  {
    assert Find([], "message") == None && Find([], "content") == None;
    hide Find;
    if ChatContent(body, Null) == Done(Str(output)) {
      var choices := Find(body.fields, "choices").value.items;
      var message := Find(choices[0].fields, "message").value.fields;
      assert Spoken(body.fields, choices, message, output);
    }
  }

  lemma {:induction false} MessageLinesIff(show: Value -> string, messages: seq<Value>)
    ensures MessageLines(show, messages).Done? <==> AllObjects(messages)
  {
    if messages != [] { MessageLinesIff(show, messages[1..]); }
  }

  lemma {:induction false} MessagesTextIff(show: Value -> string, req: Value)
    ensures MessagesText(show, req).Done? <==> MessagesShape(req)
  {
    hide Find;
    var v := GetOr(req, "messages", Arr([]));
    if v.Done? && Iterate(v.value).Done? {
      MessageLinesIff(show, Iterate(v.value).value);
    }
  }

  lemma {:induction false} EmbeddingsIff(items: seq<Value>)
    ensures Embeddings(items).Done? <==> AllObjects(items)
    ensures Embeddings(items).Done? ==>
              var vs := Embeddings(items).value;
              |vs| == |items| && forall i :: 0 <= i < |items| ==> (vs[i].Arr? <==> HasVector(items[i]))
  {
    hide Find;
    if items != [] { EmbeddingsIff(items[1..]); }
  }

  lemma {:induction false} VectorsIff(body: Value)
    ensures EmbedShape(body) <==>
            (Vectors(body).Done? && Vectors(body).value != [] &&
             forall i :: 0 <= i < |Vectors(body).value| ==> Vectors(body).value[i].Arr?)
  {
    hide Find, HasVector;
    if body.Obj? {
      var data := Or(Get(body, "data").value, Arr([]));
      if Iterate(data).Done? {
        var items := Iterate(data).value;
        EmbeddingsIff(items);
        if !data.Arr? && items != [] { assert !items[0].Obj?; }
        if EmbedShape(body) {
          forall i | 0 <= i < |items| ensures items[i].Obj? { VectorIsObject(items[i]); }
        }
      }
    }
  }

  /** `data` is missing, falsy, or a list of objects; these are their embeddings, null where there is none. */
  predicate Listed(body: Value, vectors: seq<Value>) {
    body.Obj? &&
    match Find(body.fields, "data")
    case Some(Arr(items)) =>
      |vectors| == |items| && forall i :: 0 <= i < |items| ==> items[i].Obj? && vectors[i] == Embedding(items[i].fields)
    case Some(v) => !v.Truthy() && vectors == []
    case None => vectors == []
  }

  function Embedding(fields: seq<Field>): Value {
    match Find(fields, "embedding") case Some(v) => v case None => Null
  }

  /** The vectors are the listed ones, in order. */
  lemma {:induction false} VectorsAre(body: Value, vectors: seq<Value>)
    ensures Vectors(body) == Done(vectors) <==> Listed(body, vectors)
  {
    hide Find, Embedding;
    if body.Obj? {
      var data := Or(Get(body, "data").value, Arr([]));
      if Iterate(data).Done? {
        var items := Iterate(data).value;
        EmbeddingsAre(items, vectors);
        if !data.Arr? && items != [] { assert !items[0].Obj?; }
      }
    }
  }

  lemma {:induction false} EmbeddingsAre(items: seq<Value>, vectors: seq<Value>)
    ensures Embeddings(items) == Done(vectors) <==>
            |vectors| == |items| && forall i :: 0 <= i < |items| ==>
              items[i].Obj? && vectors[i] == Embedding(items[i].fields)
  {
    hide Find;
    if items != [] {
      if vectors != [] {
        EmbeddingsAre(items[1..], vectors[1..]);
        assert [vectors[0]] + vectors[1..] == vectors;
        assert forall i :: 0 < i < |items| ==> items[i] == items[1..][i - 1];
        assert forall i :: 0 < i < |vectors| ==> vectors[i] == vectors[1..][i - 1];
      }
      if Embeddings(items).Done? {
        var rest := Embeddings(items[1..]).value;
        assert vectors == [Embedding(items[0].fields)] + rest ==> vectors[1..] == rest;
      }
    }
  }

  lemma {:induction false} VectorIsObject(item: Value)
    requires HasVector(item)
    ensures item.Obj?
  {
  }

  lemma {:induction false} UsageIff(body: Value)
    ensures Usage(body).Done? <==> body.Obj?
    ensures UsageShape(body) <==> Usage(body).Done? && Usage(body).value.Obj?
  {
    hide Find;
  }

  /** With usable counts neither lookup raises. */
  lemma {:induction false} UsageOk(body: Value)
    ensures UsageShape(body) <==> Usage(body).Done? && Get(Usage(body).value, "prompt_tokens").Done?
    ensures UsageShape(body) ==>
              && Get(Usage(body).value, "prompt_tokens") == Done(UsageCount(body, "prompt_tokens"))
              && Get(Usage(body).value, "completion_tokens") == Done(UsageCount(body, "completion_tokens"))
  {
    hide Find, UsageCount, UsageShape;
    UsageIff(body);
    if UsageShape(body) {
      UsageCountIs(body, "prompt_tokens");
      UsageCountIs(body, "completion_tokens");
    }
  }

  // ---------- which replies leave a receipt ----------

  /** A count the backend reported, null when it reported none. */
  function UsageCount(body: Value, key: string): Value {
    if !body.Obj? then Null
    else
      match Find(body.fields, "usage")
      case Some(Obj(usage)) => (match Find(usage, key) case Some(v) => v case None => Null)
      case _ => Null
  }

  lemma {:induction false} UsageCountIs(body: Value, key: string)
    requires UsageShape(body)
    ensures Get(Usage(body).value, key) == Done(UsageCount(body, key))
  {
    assert Find([], key) == None;
    hide Find;
  }

  /** The names under which the gateway's receipts go. */
  predicate UsesNames(a: Args, daemon: string, tier: string) {
    a.providerDaemon == daemon && a.tier == tier && a.computeDevice == "cpu" && a.tokenizerDigest == None
  }

  lemma {:induction false} ChatReceiptIff(show: Value -> string, digest: string, req: Value, body: Value)
    ensures var r := ChatReceipt(show, digest, req, body);
            && (r.Done? && r.value.Some? <==>
                  (exists output :: ChatShape(body, output)) && UsageShape(body) && MessagesShape(req))
            && (r.Done? && r.value.Some? ==>
                  && r.value.value.baseModelDigest == digest && ChatShape(body, r.value.value.outputText)
                  && r.value.value.task == "chat.completion"
                  && MessagesText(show, req) == Done(r.value.value.inputText)
                  && r.value.value.inputTokens == Given(UsageCount(body, "prompt_tokens"))
                  && r.value.value.outputTokens == Given(UsageCount(body, "completion_tokens"))
                  && UsesNames(r.value.value, "inferenced", "T1"))
  {
    hide Find, ChatContent, MessagesText, Usage, ChatShape, UsageShape, MessagesShape, UsageCount, Get;
    UsageIff(body);
    UsageOk(body);
    MessagesTextIff(show, req);
    var c := ChatContent(body, Null);
    if c.Done? && c.value.Str? { ChatContentIs(body, c.value.s); }
    if output :| ChatShape(body, output) { ChatContentIs(body, output); }
  }

  lemma {:induction false} EmbedReceiptIff(show: Value -> string, digest: string, req: Value, body: Value)
    ensures var r := EmbedReceipt(show, digest, req, body);
            && (r.Done? && r.value.Some? <==> EmbedShape(body) && UsageShape(body) && req.Obj?)
            && (r.Done? && r.value.Some? ==>
                  && r.value.value.baseModelDigest == digest && r.value.value.task == "embedding"
                  && EmbedInputText(show, req) == Done(r.value.value.inputText)
                  && r.value.value.inputTokens == Given(UsageCount(body, "prompt_tokens"))
                  && r.value.value.outputTokens == Given(Null) && UsesNames(r.value.value, "embeddingd", "T0")
                  && exists vectors :: Listed(body, vectors) && r.value.value.outputText == Canonical(Arr(vectors)))
  {
    hide Find, Vectors, Usage, EmbedShape, UsageShape, Canonical, Join, UsageCount, Get, Listed;
    UsageIff(body);
    UsageOk(body);
    VectorsIff(body);
    if Vectors(body).Done? { VectorsAre(body, Vectors(body).value); }
  }

  /** The reply is one a receipt is due for. */
  ghost predicate WellShaped(path: string, req: Value, body: Value) {
    UsageShape(body) &&
    if path == CHAT then (exists output :: ChatShape(body, output)) && MessagesShape(req)
    else path == EMBED && EmbedShape(body) && req.Obj?
  }

  /** A resolved digest, an inference path, a successful JSON reply, well-shaped bodies. */
  ghost predicate Qualifies(config: Config, request: Request, reply: Reply, digest: string) {
    && ResolveDigest(config, ReqModel(request.body)) == Done(Some(digest))
    && Prepare(request).Done? && Prepare(request).value.Send?
    && reply.Succeeded() && IsJson(reply.contentType)
    && Loads(reply.body).Some? && Loads(Prepare(request).value.body).Some?
    && WellShaped(Prepare(request).value.path, Loads(Prepare(request).value.body).value, Loads(reply.body).value)
  }

  lemma {:induction false} PathIsInference(request: Request)
    requires Prepare(request).Done? && Prepare(request).value.Send?
    ensures Prepare(request).value.path == CHAT || Prepare(request).value.path == EMBED
  {
    hide Loads, Find, Print, ChatRequest, EmbedRequest;
  }

  /** A request leaves a receipt exactly when it qualifies, and the receipt is for its own digest. */
  lemma {:induction false} EmissionIff(config: Config, request: Request, reply: Reply)
    ensures Emission(config, request, reply).Some? <==> exists digest :: Qualifies(config, request, reply, digest)
    ensures Emission(config, request, reply).Some? ==>
              Qualifies(config, request, reply, Emission(config, request, reply).value.baseModelDigest)
  {
    hide Loads, Find, Prepare, ResolveDigest, ReqModel, Decide, IsJson, WellShaped;
    if Prepare(request).Done? && Prepare(request).value.Send? {
      PathIsInference(request);
      NothingDue(config, Prepare(request).value, reply);
    }
    var d := ResolveDigest(config, ReqModel(request.body));
    if d.Done? && d.value.Some? && Prepare(request).Done? && Prepare(request).value.Send? && reply.Succeeded() {
      DecideIff(config, d.value.value, Prepare(request).value, reply);
      assert Emission(config, request, reply).Some? <==> Qualifies(config, request, reply, d.value.value);
    }
  }

  lemma {:induction false} NothingDue(config: Config, prepared: Prepared, reply: Reply)
    requires prepared.Send?
    ensures Decide(config, None, prepared, reply) == Done(None)
    ensures forall digest :: !reply.Succeeded() ==> Decide(config, digest, prepared, reply) == Done(None)
  {
    hide ChatReceipt, EmbedReceipt, Loads, IsJson;
  }

  lemma {:induction false} DecideIff(config: Config, digest: string, prepared: Prepared, reply: Reply)
    requires prepared.Send? && reply.Succeeded() && (prepared.path == CHAT || prepared.path == EMBED)
    ensures var r := Decide(config, Some(digest), prepared, reply);
            && (r.Done? && r.value.Some? <==>
                  IsJson(reply.contentType) && Loads(reply.body).Some? && Loads(prepared.body).Some? &&
                  WellShaped(prepared.path, Loads(prepared.body).value, Loads(reply.body).value))
            && (r.Done? && r.value.Some? ==> r.value.value.baseModelDigest == digest)
  {
    hide Loads, Find, ChatReceipt, EmbedReceipt, IsJson, ChatShape, EmbedShape, UsageShape, MessagesShape, CHAT, EMBED;
    hide MessagesText, EmbedInputText, Usage;
    if Loads(reply.body).Some? && Loads(prepared.body).Some? {
      ChatReceiptIff(config.show, digest, Loads(prepared.body).value, Loads(reply.body).value);
      EmbedReceiptIff(config.show, digest, Loads(prepared.body).value, Loads(reply.body).value);
    }
  }

  // ---------- the configured map is authoritative ----------

  lemma {:induction false} OnlyStringsFind(fields: seq<Field>, key: string)
    requires Distinct(fields)
    ensures Find(OnlyStrings(fields), key) ==
            match Find(fields, key) case Some(Str(d)) => Some(Str(d)) case _ => None
  {
    if fields != [] {
      OnlyStringsFind(fields[1..], key);
      var more := OnlyStrings(fields[1..]);
      assert ([fields[0]] + more)[1..] == more && [] + more == more;
      if fields[0].key == key {
        forall i | 0 <= i < |fields[1..]| ensures fields[1..][i].key != key { assert fields[1..][i] == fields[i + 1]; }
        FindNone(fields[1..], key);
      }
    }
  }

  /** What the request's body has under "model". */
  function NamedModel(body: string): Option<Value> {
    match Loads(body) case Some(Obj(fields)) => Find(fields, "model") case _ => None
  }

  /** The digest a request is admitted with: without a map the single-model one; with a map the one it
    has for the string under "model" in the body, or none, and a list or an object there raises. */
  lemma {:induction false} AdmittedDigest(config: Config, request: Request)
    ensures match Admit(config, request)
            case Done((digest, prepared)) =>
              && Prepare(request) == Done(prepared)
              && digest ==
                 (if config.digests == [] then config.single
                  else
                    match NamedModel(request.body)
                    case Some(Str(m)) => (match Find(config.digests, m) case Some(Str(d)) => Some(d) case _ => None)
                    case _ => None)
            case Raises =>
              || Prepare(request).Raises?
              || (config.digests != [] && NamedModel(request.body).Some?
                  && (NamedModel(request.body).value.Arr? || NamedModel(request.body).value.Obj?))
  {
    hide Loads, Find, Prepare;
  }

  /** With a map, a request leaves a receipt only under the digest mapped to the string its body has
    under "model": the single-model digest is never used, and an unmapped or missing model leaves none. */
  lemma {:induction false} MapIsAuthoritative(config: Config, request: Request, reply: Reply)
    requires config.digests != [] && Emission(config, request, reply).Some?
    ensures Loads(request.body).Some? && Loads(request.body).value.Obj?
    ensures var named := Find(Loads(request.body).value.fields, "model");
            && named.Some? && named.value.Str?
            && Find(config.digests, named.value.s) ==
               Some(Str(Emission(config, request, reply).value.baseModelDigest))
  {
    hide Loads, Find, Prepare, Decide, ResolveDigest, ReqModel;
    EmissionIff(config, request, reply);
    AdmittedDigest(config, request);
  }

  lemma {:induction false} StringsAreThere(fields: seq<Field>)
    ensures OnlyStrings(fields) == [] <==> forall i :: 0 <= i < |fields| ==> !fields[i].value.Str?
  {
    if fields != [] {
      StringsAreThere(fields[1..]);
      assert forall i :: 0 < i < |fields| ==> fields[i] == fields[1..][i - 1];
    }
  }

  predicate SomeString(v: Value) { v.Obj? && exists i :: 0 <= i < |v.fields| && v.fields[i].value.Str? }

  /** The digest of a request as the environment has it: when the map's text is no JSON object with a
    string in it, the single-model digest whatever the model; otherwise the string under the model's
    name, or none, and a model that is a list or an object raises. */
  lemma {:induction false} EnvironmentDecides(raw: string, single: Option<string>, show: Value -> string, model: Value)
    ensures ResolveDigest(Started(raw, single, show), model) ==
            match Loads(raw)
            case None => Done(single)
            case Some(v) =>
              if !SomeString(v) then Done(single)
              else if model.Arr? || model.Obj? then Try.Raises
              else if !model.Str? then Done(None)
              else match Find(v.fields, model.s) case Some(Str(d)) => Done(Some(d)) case _ => Done(None)
  {
    hide Loads, Find, OnlyStrings;
    if Loads(raw).Some? { LoadsKeyedOnce(raw); }
    match Loads(raw) {
      case Some(Obj(fields)) =>
        StringsAreThere(fields);
        if model.Str? { OnlyStringsFind(fields, model.s); }
      case _ =>
    }
  }

  // ---------- translated requests ----------

  /** What is found in an object with distinct keys has them too. */
  lemma {:induction false} GetKeyedOnce(v: Value, key: string, default: Value)
    requires KeyedOnce(v) && KeyedOnce(default)
    ensures GetOr(v, key, default).Done? ==> KeyedOnce(GetOr(v, key, default).value)
  {
    hide Find;
    if v.Obj? { FindKeyedOnce(v.fields, key); }
  }

  lemma {:induction false} FindKeyedOnce(fields: seq<Field>, key: string)
    requires KeyedOnce(Obj(fields))
    ensures Find(fields, key).Some? ==> KeyedOnce(Find(fields, key).value)
  {
    if Find(fields, key).Some? {
      var i := FindSome(fields, key);
    }
  }

  lemma {:induction false} MessageKeyedOnce(prompt: Value)
    requires KeyedOnce(prompt)
    ensures KeyedOnce(Arr([Obj([Field("role", Str("user")), Field("content", prompt)])]))
  {
    var message := Obj([Field("role", Str("user")), Field("content", prompt)]);
    assert "role" != "content";
    assert KeyedOnce(message);
  }

  lemma {:induction false} MessagesKeyedOnce(endpoint: string, req: Value)
    requires KeyedOnce(req)
    ensures endpoint == "/api/chat" && Get(req, "messages").Done? ==> KeyedOnce(Get(req, "messages").value)
    ensures PromptMessages(req).Done? ==> KeyedOnce(PromptMessages(req).value)
  {
    hide GetOr, KeyedOnce;
    EmptyKeyedOnce();
    GetKeyedOnce(req, "messages", Null);
    GetKeyedOnce(req, "prompt", Str(""));
    if GetOr(req, "prompt", Str("")).Done? { MessageKeyedOnce(GetOr(req, "prompt", Str("")).value); }
  }

  lemma {:induction false} EmptyKeyedOnce()
    ensures KeyedOnce(Null) && KeyedOnce(Str("")) && KeyedOnce(Arr([])) && KeyedOnce(Obj([]))
  {
  }

  lemma {:induction false} ChatKeyedOnce(messages: Value, limit: Value)
    requires KeyedOnce(messages) && KeyedOnce(limit)
    ensures KeyedOnce(Obj([Field("messages", messages), Field("stream", Bool(false))]))
    ensures KeyedOnce(Obj([Field("messages", messages), Field("stream", Bool(false))] + [Field("max_tokens", limit)]))
  {
    assert |"messages"| == 8 && |"stream"| == 6 && |"max_tokens"| == 10;
  }

  lemma {:induction false} TranslatedKeyedOnce(endpoint: string, req: Value)
    requires KeyedOnce(req)
    ensures ChatRequest(endpoint, req).Done? ==> KeyedOnce(ChatRequest(endpoint, req).value)
    ensures EmbedRequest(req).Done? ==> KeyedOnce(EmbedRequest(req).value)
  {
    hide GetOr, KeyedOnce, PromptMessages;
    EmptyKeyedOnce();
    MessagesKeyedOnce(endpoint, req);
    GetKeyedOnce(req, "prompt", Str(""));
    GetKeyedOnce(req, "options", Null);
    if EmbedRequest(req).Done? {
      GetKeyedOnce(req, "input", GetOr(req, "prompt", Str("")).value);
      FieldKeyedOnce("input", GetOr(req, "input", GetOr(req, "prompt", Str("")).value).value);
    }
    if ChatRequest(endpoint, req).Done? {
      var options := Or(Get(req, "options").value, Obj([]));
      var messages := if endpoint == "/api/chat" then Get(req, "messages").value else PromptMessages(req).value;
      GetKeyedOnce(options, "num_predict", Null);
      ChatKeyedOnce(Or(messages, Arr([])), Get(options, "num_predict").value);
      var fields := [Field("messages", Or(messages, Arr([]))), Field("stream", Bool(false))];
      assert fields + [] == fields;
    }
  }

  lemma {:induction false} FieldKeyedOnce(key: string, v: Value)
    requires KeyedOnce(v)
    ensures KeyedOnce(Obj([Field(key, v)]))
  {
  }

  /** The request made for the backend. */
  function Made(endpoint: string, req: Value): Try<Value> {
    if IsChat(endpoint) then ChatRequest(endpoint, req) else EmbedRequest(req)
  }

  /** The receipt of a translated request hashes the text of the translated messages or inputs: the
    body made for the backend reads back as the request it was made from. Floats the translation
    leaves behind, a temperature among the options say, do no harm. */
  lemma {:induction false} TranslatedInput(config: Config, endpoint: string, body: string, req: Value, reply: Reply)
    requires endpoint in OLLAMA && Loads(body) == Some(req)
    requires Made(endpoint, req).Done? ==> FloatFree(Made(endpoint, req).value)
    requires Emission(config, Request(endpoint, body), reply).Some?
    ensures var input := Emission(config, Request(endpoint, body), reply).value.inputText;
            if IsChat(endpoint) then
              ChatRequest(endpoint, req).Done? && MessagesText(config.show, ChatRequest(endpoint, req).value) ==
                Done(input)
            else
              EmbedRequest(req).Done? && EmbedInputText(config.show, EmbedRequest(req).value) == Done(input)
  {
    hide Loads, Find, Print, ResolveDigest, ReqModel, IsJson, WellShaped, ChatRequest, EmbedRequest, IsChat,
         ChatReceipt, EmbedReceipt, MessagesText, EmbedInputText, ChatShape, UsageShape, MessagesShape, EmbedShape,
         GetOr, FloatFree, Plain, KeyedOnce;
    LoadsKeyedOnce(body);
    TranslatedKeyedOnce(endpoint, req);
    TranslatedPrepared(endpoint, body, req);
    var prepared := Prepare(Request(endpoint, body)).value;
    var oai := Made(endpoint, req).value;
    PlainIs(oai);
    LoadsDumps(DEFAULT_ASCII, oai);
    hide Prepare, Translate;
    var digest := ResolveDigest(config, ReqModel(body)).value.value;
    ChatReceiptIff(config.show, digest, oai, Loads(reply.body).value);
    EmbedReceiptIff(config.show, digest, oai, Loads(reply.body).value);
  }

  lemma {:induction false} TranslatedPrepared(endpoint: string, body: string, req: Value)
    requires endpoint in OLLAMA && Loads(body) == Some(req)
    requires Prepare(Request(endpoint, body)).Done? && Prepare(Request(endpoint, body)).value.Send?
    ensures var prepared := Prepare(Request(endpoint, body)).value;
            if IsChat(endpoint) then
              && ChatRequest(endpoint, req).Done? && prepared.path == CHAT
              && prepared.body == Print(DEFAULT_ASCII, ChatRequest(endpoint, req).value)
            else
              && EmbedRequest(req).Done? && prepared.path == EMBED
              && prepared.body == Print(DEFAULT_ASCII, EmbedRequest(req).value)
  {
    hide Loads, Print, ChatRequest, EmbedRequest, IsChat, GetOr;
    OllamaIsNotOpenAI();
  }

  lemma {:induction false} OllamaIsNotOpenAI()
    ensures CHAT !in OLLAMA && EMBED !in OLLAMA && CHAT != EMBED
  {
    assert CHAT[1] == 'v' && EMBED[1] == 'v';
    assert forall i :: 0 <= i < |OLLAMA| ==> OLLAMA[i][1] == 'a';
    assert |CHAT| != |EMBED|;
  }

  /** `num_predict` of the options, if it is there, holds no float. */
  ghost predicate FloatFreeLimit(req: Value) {
    var options := Get(req, "options");
    options.Done? ==>
      var limit := Get(Or(options.value, Obj([])), "num_predict");
      limit.Done? ==> FloatFree(limit.value)
  }

  /** In particular, `/api/generate` is receipted as one user message with the prompt. */
  lemma {:induction false} GenerateInput(config: Config, body: string, req: Value, prompt: string, reply: Reply)
    requires Loads(body) == Some(req) && req.Obj? && Find(req.fields, "prompt") == Some(Str(prompt))
    requires FloatFreeLimit(req)
    requires Emission(config, Request("/api/generate", body), reply).Some?
    ensures Emission(config, Request("/api/generate", body), reply).value.inputText == "user: " + prompt
  {
    hide Loads, Find, Emission, MessagesText, FloatFree, ChatRequest, FloatFreeLimit;
    assert "/api/generate" == OLLAMA[1];
    GenerateFloatFree(req, prompt);
    TranslatedInput(config, "/api/generate", body, req, reply);
    GenerateText(config.show, req, prompt);
  }

  lemma {:induction false} GenerateFloatFree(req: Value, prompt: string)
    requires req.Obj? && Find(req.fields, "prompt") == Some(Str(prompt)) && FloatFreeLimit(req)
    ensures var oai := ChatRequest("/api/generate", req); oai.Done? ==> FloatFree(oai.value)
  {
    assert |"/api/generate"| != |"/api/chat"|;
    hide Find, FloatFree;
    var oai := ChatRequest("/api/generate", req);
    if oai.Done? {
      var limit := Get(Or(Get(req, "options").value, Obj([])), "num_predict").value;
      GeneratedFloatFree(prompt, limit);
      var fields := [Field("messages", OneMessage(prompt)), Field("stream", Bool(false))];
      assert fields + [] == fields;
    }
  }

  /** The message list of a generate request. */
  function OneMessage(prompt: string): Value {
    Arr([Obj([Field("role", Str("user")), Field("content", Str(prompt))])])
  }

  lemma {:induction false} GeneratedFloatFree(prompt: string, limit: Value)
    requires FloatFree(limit)
    ensures FloatFree(Obj([Field("messages", OneMessage(prompt)), Field("stream", Bool(false))]))
    ensures FloatFree(Obj([Field("messages", OneMessage(prompt)), Field("stream", Bool(false))] +
                          [Field("max_tokens", limit)]))
  {
    var message := Obj([Field("role", Str("user")), Field("content", Str(prompt))]);
    assert FloatFree(message);
    assert FloatFree(OneMessage(prompt));
  }

  lemma {:induction false} GenerateText(show: Value -> string, req: Value, prompt: string)
    requires req.Obj? && Find(req.fields, "prompt") == Some(Str(prompt)) && ChatRequest("/api/generate", req).Done?
    ensures MessagesText(show, ChatRequest("/api/generate", req).value) == Done("user: " + prompt)
  {
    MessageLine(show, prompt);
    var oai := ChatRequest("/api/generate", req).value;
    assert |"/api/generate"| != |"/api/chat"|;
    assert oai.fields[0] == Field("messages", OneMessage(prompt));
    hide ChatRequest, MessageLines;
    assert Find(oai.fields, "messages") == Some(OneMessage(prompt));
  }

  lemma {:induction false} MessageLine(show: Value -> string, prompt: string)
    ensures MessageLines(show, OneMessage(prompt).items) == Done(["user: " + prompt])
  {
    var message := Obj([Field("role", Str("user")), Field("content", Str(prompt))]);
    assert Find(message.fields, "role") == Some(Str("user"));
    assert "role" != "content";
    assert message.fields[1..] == [Field("content", Str(prompt))];
    assert Find(message.fields, "content") == Some(Str(prompt));
    var line := "user: " + prompt;
    assert "user" + ": " + prompt == line;
    assert [message][1..] == [];
    assert [line] + [] == [line];
  }

  // ---------- receipts outside the schema ----------

  /** The digest is a SHA-256 reference, and the counts the backend reports and the receipt takes over
    are null or whole numbers from 0. */
  predicate SchemaAllows(digest: string, path: string, body: Value) {
    && IsHashRef(digest) && Meets(Nullable(Count), UsageCount(body, "prompt_tokens"))
    && (path == CHAT ==> Meets(Nullable(Count), UsageCount(body, "completion_tokens")))
  }

  lemma {:induction false} NamesInDomain(a: Args)
    requires UsesNames(a, "inferenced", "T1") || UsesNames(a, "embeddingd", "T0")
    requires a.inputTokens.Given? && a.outputTokens.Given?
    ensures InDomain(a) <==>
            && IsHashRef(a.baseModelDigest) && Meets(Nullable(Count), a.inputTokens.value)
            && Meets(Nullable(Count), a.outputTokens.value)
  {
    hide IsHashRef, Meets;
    assert DAEMONS[0] == "inferenced" && DAEMONS[1] == "embeddingd";
    assert TIERS[0] == "T0" && TIERS[1] == "T1" && DEVICES[2] == "cpu";
    hide DAEMONS, TIERS, DEVICES;
  }

  lemma {:induction false} NullCount()
    ensures Meets(Nullable(Count), Null)
  {
  }

  /** The arguments of a receipt that is due, by path. */
  lemma {:induction false} EmissionArgs(config: Config, request: Request, reply: Reply, digest: string)
    requires Qualifies(config, request, reply, digest)
    ensures Emission(config, request, reply).Some?
    ensures var a, body := Emission(config, request, reply).value, Loads(reply.body).value;
            var path := Prepare(request).value.path;
            && a.baseModelDigest == digest
            && a.inputTokens == Given(UsageCount(body, "prompt_tokens"))
            && a.outputTokens == Given(if path == CHAT then UsageCount(body, "completion_tokens") else Null)
            && (UsesNames(a, "inferenced", "T1") || UsesNames(a, "embeddingd", "T0"))
  {
    hide Loads, Find, Prepare, ResolveDigest, ReqModel, IsJson, ChatReceipt, EmbedReceipt, ChatShape, UsageShape,
         MessagesShape, EmbedShape, MessagesText, EmbedInputText, UsageCount, UsesNames, Vectors, Canonical;
    var prepared := Prepare(request).value;
    PathIsInference(request);
    ChatReceiptIff(config.show, digest, Loads(prepared.body).value, Loads(reply.body).value);
    EmbedReceiptIff(config.show, digest, Loads(prepared.body).value, Loads(reply.body).value);
  }

  /** When a receipt is due, it is one the schema allows exactly when the resolved digest is a SHA-256
    reference and the counts in the backend's reply are null or whole numbers from 0. */
  lemma {:induction false} ReceiptInDomainIff(config: Config, request: Request, reply: Reply, digest: string)
    requires Qualifies(config, request, reply, digest)
    ensures Emission(config, request, reply).Some?
    ensures InDomain(Emission(config, request, reply).value) <==>
            SchemaAllows(digest, Prepare(request).value.path, Loads(reply.body).value)
  {
    hide Loads, Prepare, IsHashRef, Meets, InDomain, Emission, UsageCount, UsesNames, Qualifies;
    EmissionArgs(config, request, reply, digest);
    NullCount();
    NamesInDomain(Emission(config, request, reply).value);
  }

  /** The reported counts hold no float. */
  ghost predicate FloatFreeCounts(reply: Reply) {
    reply.Reply? && Loads(reply.body).Some? ==>
      && FloatFree(UsageCount(Loads(reply.body).value, "prompt_tokens"))
      && FloatFree(UsageCount(Loads(reply.body).value, "completion_tokens"))
  }

  lemma {:induction false} UsageCountKeyedOnce(body: Value, key: string)
    requires KeyedOnce(body)
    ensures KeyedOnce(UsageCount(body, key))
  {
    hide Find;
    if body.Obj? {
      FindKeyedOnce(body.fields, "usage");
      match Find(body.fields, "usage")
      case Some(Obj(usage)) => FindKeyedOnce(usage, key);
      case _ =>
    }
  }

  /** Counts without floats are values a program can hold, whatever else the backend reports. */
  lemma {:induction false} CountsArePlain(config: Config, request: Request, reply: Reply, digest: string)
    requires Qualifies(config, request, reply, digest) && FloatFreeCounts(reply)
    ensures Emission(config, request, reply).Some? && PlainCounts(Emission(config, request, reply).value)
  {
    hide Loads, Prepare, Emission, UsageCount, UsesNames, Plain, KeyedOnce, FloatFree, ResolveDigest, ReqModel,
         WellShaped, IsJson;
    EmissionArgs(config, request, reply, digest);
    CountsPlain(reply);
    NullIsPlain();
  }

  lemma {:induction false} CountsPlain(reply: Reply)
    requires reply.Reply? && Loads(reply.body).Some? && FloatFreeCounts(reply)
    ensures Plain(UsageCount(Loads(reply.body).value, "prompt_tokens"))
    ensures Plain(UsageCount(Loads(reply.body).value, "completion_tokens"))
  {
    hide Loads, UsageCount, Plain, KeyedOnce, FloatFree;
    var body := Loads(reply.body).value;
    LoadsKeyedOnce(reply.body);
    UsageCountKeyedOnce(body, "prompt_tokens");
    UsageCountKeyedOnce(body, "completion_tokens");
    PlainIs(UsageCount(body, "prompt_tokens"));
    PlainIs(UsageCount(body, "completion_tokens"));
  }

  lemma {:induction false} NullIsPlain()
    ensures Plain(Null)
  {
  }

  /** What one such request does to a clean ledger: the line it adds leaves it verified exactly when the
    digest and the reported counts are allowed, and otherwise is rejected. */
  lemma {:induction false} RequestOnLedger(config: Config, hash: string -> Digest, file: string, n: nat,
                                           request: Request, reply: Reply, digest: string, now: string)
    requires CleanFile(Checked(hash), file, n) && Qualifies(config, request, reply, digest) && FloatFreeCounts(reply)
    ensures Emission(config, request, reply).Some?
    ensures var r := NextReceipt(hash, file, Emission(config, request, reply).value, now);
            && r.Success?
            && Verify(Checked(hash), VerifierLines(file + Canonical(r.value) + "\n")) ==
               if SchemaAllows(digest, Prepare(request).value.path, Loads(reply.body).value)
               then Accepted(n + 1) else Rejected(n, SchemaInvalid)
  {
    hide Loads, Prepare, InDomain, Emission, SchemaAllows, Qualifies, FloatFreeCounts, CleanFile, NextReceipt,
         Canonical, PlainCounts, Verify, VerifierLines;
    ReceiptInDomainIff(config, request, reply, digest);
    CountsArePlain(config, request, reply, digest);
    DomainIsExact(hash, file, n, Emission(config, request, reply).value, now);
  }

  // ---------- what the client of a translated request reads ----------

  /** A receipted content is a string, whatever the default. */
  lemma {:induction false} ContentOfReceipted(body: Value, output: string)
    requires ChatContent(body, Null) == Done(Str(output))
    ensures ChatContent(body, Str("")) == Done(Str(output))
  {
    assert Find([], "content") == None;
    hide Find;
  }

  lemma {:induction false} ChatResponseFields(endpoint: string, model: Value, body: Value, output: string)
    requires IsChat(endpoint) && ChatContent(body, Str("")) == Done(Str(output)) && UsageShape(body)
    ensures var r := ChatResponse(endpoint, model, body);
            && r.Done? && r.value.Obj? && |r.value.fields| == 5
            && Find(r.value.fields, "model") == Some(model)
            && Find(r.value.fields, if endpoint == "/api/chat" then "message" else "response") ==
               Some(if endpoint == "/api/chat"
                    then Obj([Field("role", Str("assistant")), Field("content", Str(output))]) else Str(output))
            && Find(r.value.fields, "done") == Some(Bool(true))
            && Find(r.value.fields, "prompt_eval_count") == Some(UsageCount(body, "prompt_tokens"))
            && Find(r.value.fields, "eval_count") == Some(UsageCount(body, "completion_tokens"))
  {
    UsageOk(body);
    hide UsageCount, Usage, ChatContent, Get, Find, UsageShape;
    var key := if endpoint == "/api/chat" then "message" else "response";
    var fields := ChatResponse(endpoint, model, body).value.fields;
    assert fields[0].key == "model" && fields[1].key == key && fields[2].key == "done";
    assert fields[3].key == "prompt_eval_count" && fields[4].key == "eval_count";
    AnswerKeys(key);
    FindAt(fields, 0);
    FindAt(fields, 1);
    FindAt(fields, 2);
    FindAt(fields, 3);
    FindAt(fields, 4);
  }

  lemma {:induction false} AnswerKeys(key: string)
    requires key == "message" || key == "response"
    ensures var keys := ["model", key, "done", "prompt_eval_count", "eval_count"];
            forall i, j :: 0 <= i < j < 5 ==> keys[i] != keys[j]
  {
    assert |"model"| == 5 && |"message"| == 7 && |"response"| == 8 && |"done"| == 4;
    assert |"prompt_eval_count"| == 17 && |"eval_count"| == 10;
  }

  lemma {:induction false} ChatResponsePlain(endpoint: string, model: Value, body: Value, output: string)
    requires IsChat(endpoint) && ChatContent(body, Str("")) == Done(Str(output)) && UsageShape(body)
    requires Plain(model) && Plain(UsageCount(body, "prompt_tokens")) && Plain(UsageCount(body, "completion_tokens"))
    ensures ChatResponse(endpoint, model, body).Done? && Plain(ChatResponse(endpoint, model, body).value)
  {
    hide ChatContent, Usage, GetOr, Plain, UsageCount, UsageShape;
    UsageOk(body);
    StrPlain(output);
    AssistantPlain(Str(output));
    var message := Obj([Field("role", Str("assistant")), Field("content", Str(output))]);
    var m, n := UsageCount(body, "prompt_tokens"), UsageCount(body, "completion_tokens");
    AnswerPlain("message", model, message, m, n);
    AnswerPlain("response", model, Str(output), m, n);
  }

  lemma {:induction false} AssistantPlain(content: Value)
    requires Plain(content)
    ensures Plain(Obj([Field("role", Str("assistant")), Field("content", content)]))
  {
    assert |"role"| == 4 && |"content"| == 7;
  }

  lemma {:induction false} AnswerPlain(key: string, model: Value, text: Value, m: Value, n: Value)
    requires Plain(model) && Plain(text) && Plain(m) && Plain(n) && (key == "message" || key == "response")
    ensures Plain(Obj([Field("model", model)] + [Field(key, text)] +
                      [Field("done", Bool(true)), Field("prompt_eval_count", m), Field("eval_count", n)]))
  {
    assert |"model"| == 5 && |"message"| == 7 && |"response"| == 8 && |"done"| == 4;
    assert |"prompt_eval_count"| == 17 && |"eval_count"| == 10;
  }

  /** The client of a translated chat reads the very text its receipt hashes: the answer made for
    it loads back with that content, under the model it asked for. Floats in what the answer does
    not take over, in the request or in the reply, do no harm. */
  lemma {:induction false} ClientReadsReceiptedText(config: Config, endpoint: string, body: string, req: Value,
          reply: Reply)
    requires IsChat(endpoint) && endpoint in OLLAMA && Loads(body) == Some(req)
    requires GetOr(req, "model", Str("")).Done? ==> FloatFree(GetOr(req, "model", Str("")).value)
    requires Emission(config, Request(endpoint, body), reply).Some? && FloatFreeCounts(reply)
    ensures var output := Emission(config, Request(endpoint, body), reply).value.outputText;
            var answer := Answer(Prepare(Request(endpoint, body)).value.route, reply);
            && answer.Done? && answer.value.Response? && answer.value.status == 200
            && Loads(answer.value.body).Some? && Loads(answer.value.body).value.Obj?
            && var fields := Loads(answer.value.body).value.fields;
            && Find(fields, "model") == Some(GetOr(req, "model", Str("")).value)
            && Find(fields, if endpoint == "/api/chat" then "message" else "response") ==
               Some(if endpoint == "/api/chat"
                    then Obj([Field("role", Str("assistant")), Field("content", Str(output))]) else Str(output))
            && Find(fields, "done") == Some(Bool(true))
            && Find(fields, "prompt_eval_count") == Some(UsageCount(Loads(reply.body).value, "prompt_tokens"))
            && Find(fields, "eval_count") == Some(UsageCount(Loads(reply.body).value, "completion_tokens"))
            && |fields| == 5
  {
    hide Loads, Find, Print, ResolveDigest, ReqModel, IsJson, ChatShape, UsageShape, MessagesShape, Plain, FloatFree,
         ChatResponse, ChatContent, MessagesText, Prepare, ChatReceipt, EmbedReceipt, IsChat, GetOr, ChatRequest,
         KeyedOnce, UsageCount;
    TranslatedPrepared(endpoint, body, req);
    TranslatedRoute(endpoint, body, req);
    var prepared, replied := Prepare(Request(endpoint, body)).value, Loads(reply.body).value;
    var digest := ResolveDigest(config, ReqModel(body)).value.value;
    ChatReceiptIff(config.show, digest, Loads(prepared.body).value, replied);
    var output := Emission(config, Request(endpoint, body), reply).value.outputText;
    ChatContentIs(replied, output);
    ContentOfReceipted(replied, output);
    ModelPlain(body, req);
    CountsPlain(reply);
    ChatResponseFields(endpoint, prepared.route.model, replied, output);
    ChatResponsePlain(endpoint, prepared.route.model, replied, output);
    LoadsDumps(DEFAULT_ASCII, ChatResponse(endpoint, prepared.route.model, replied).value);
  }

  lemma {:induction false} ModelPlain(body: string, req: Value)
    requires Loads(body) == Some(req) && GetOr(req, "model", Str("")).Done?
    requires FloatFree(GetOr(req, "model", Str("")).value)
    ensures Plain(GetOr(req, "model", Str("")).value)
  {
    hide Loads, GetOr, Plain, FloatFree, KeyedOnce;
    LoadsKeyedOnce(body);
    EmptyKeyedOnce();
    GetKeyedOnce(req, "model", Str(""));
    PlainIs(GetOr(req, "model", Str("")).value);
  }

  lemma {:induction false} StrPlain(s: string)
    ensures Plain(Str(s))
  {
  }

  lemma {:induction false} TranslatedRoute(endpoint: string, body: string, req: Value)
    requires endpoint in OLLAMA && Loads(body) == Some(req)
    requires Prepare(Request(endpoint, body)).Done? && Prepare(Request(endpoint, body)).value.Send?
    ensures GetOr(req, "model", Str("")).Done?
    ensures Prepare(Request(endpoint, body)).value.route == Translated(endpoint, GetOr(req, "model", Str("")).value)
  {
    hide Loads, Print, ChatRequest, EmbedRequest, IsChat, GetOr;
    OllamaIsNotOpenAI();
  }
}
