/** What goes over the gateway's wires, field by field: where a request goes, what is made of an Ollama
  request, which text is hashed, and what an Ollama client gets back. */
module GatewayWire {
  import opened Json
  import opened JsonCanonical
  import opened JsonGrammar
  import opened Gateway
  import opened GatewayLaws

  // ---------- the value under a key ----------

  /** `d.get(key)` with a default, of the fields of a dict. */
  function Under(fields: seq<Field>, key: string, default: Value): Value {
    match Find(fields, key) case Some(v) => v case None => default
  }

  lemma {:induction false} GetIs(v: Value, key: string, default: Value)
    ensures GetOr(v, key, default) == if v.Obj? then Done(Under(v.fields, key, default)) else Raises
  {
    hide Find;
  }

  // ---------- content types and statuses ----------

  /** One letter in either case. */
  predicate SameLetter(c: char, d: char) {
    c == d || ('A' <= c <= 'Z' && c as int + 0x20 == d as int)
  }

  /** `word`, which is in lower case, is in the text at `i`, in whatever case. */
  predicate WordAt(text: string, word: string, i: nat) {
    i + |word| <= |text| && forall j :: 0 <= j < |word| ==> SameLetter(text[i + j], word[j])
  }

  /** A content type is JSON when it has "application/json" somewhere, in any case: parameters such as
    a charset do no harm. */
  lemma {:induction false} IsJsonIff(contentType: string)
    ensures IsJson(contentType) <==> exists i: nat :: WordAt(contentType, "application/json", i)
  {
    var word := "application/json";
    var lower := seq(|contentType|, i requires 0 <= i < |contentType| => LowerChar(contentType[i]));
    assert forall i :: 0 <= i < |word| ==> word[i] == '/' || 'a' <= word[i] <= 'z';
    forall i: nat | i <= |lower| ensures word <= lower[i..] <==> WordAt(contentType, word, i) {
      PrefixAt(contentType, lower, word, i);
    }
    if i: nat :| WordAt(contentType, word, i) {
      assert i <= |lower| && word <= lower[i..];
    }
  }

  lemma {:induction false} PrefixAt(text: string, lower: string, word: string, i: nat)
    requires |lower| == |text| && i <= |lower| && forall j :: 0 <= j < |text| ==> lower[j] == LowerChar(text[j])
    requires forall j :: 0 <= j < |word| ==> word[j] == '/' || 'a' <= word[j] <= 'z'
    ensures word <= lower[i..] <==> WordAt(text, word, i)
  {
    forall j | 0 <= j < |word| && i + j < |text|
      ensures SameLetter(text[i + j], word[j]) <==> lower[i..][j] == word[j]
    {
      assert lower[i..][j] == LowerChar(text[i + j]);
    }
    if i + |word| <= |text| {
      assert word <= lower[i..] <==> lower[i..][..|word|] == word;
      assert forall j :: 0 <= j < |word| ==> lower[i..][..|word|][j] == lower[i..][j];
    }
  }

  /** A receipt, or a translation, needs a status from 200 to 299. */
  lemma {:induction false} SucceededIff(reply: Reply)
    ensures reply.Succeeded() <==> reply.Reply? && reply.status / 100 == 2
  {
  }

  // ---------- routing ----------

  const PATHS := ["/v1/chat/completions", "/v1/embeddings", "/api/chat", "/api/generate", "/api/embeddings",
    "/api/embed"]

  /** Where a POST goes. */
  lemma {:induction false} Routes(request: Request)
    ensures request.path == "/v1/chat/completions" || request.path == "/v1/embeddings" ==>
              Prepare(request) == Done(Send(request.path, request.body, Direct))
    ensures request.path in ["/api/chat", "/api/generate", "/api/embeddings", "/api/embed"] ==>
              match Loads(request.body)
              case None => Prepare(request) == Done(BadRequest)
              case Some(req) =>
                var made := Made(request.path, req);
                if !req.Obj? || made.Raises? then Prepare(request) == Raises
                else
                  && Prepare(request).Done? && Prepare(request).value.Send?
                  && Prepare(request).value.path ==
                     (if request.path == "/api/chat" || request.path == "/api/generate" then "/v1/chat/completions"
                      else "/v1/embeddings")
                  && Prepare(request).value.body == Print(DEFAULT_ASCII, made.value)
                  && Prepare(request).value.route == Translated(request.path, Under(req.fields, "model", Str("")))
    ensures request.path !in PATHS ==> Prepare(request) == Done(Unhandled)
  {
    hide Loads, Print, ChatRequest, EmbedRequest, Find;
    OllamaIsNotOpenAI();
    assert PATHS == [CHAT, EMBED] + OLLAMA;
    assert OLLAMA == ["/api/chat", "/api/generate", "/api/embeddings", "/api/embed"];
    match Loads(request.body)
    case None =>
    case Some(req) => GetIs(req, "model", Str(""));
  }

  // ---------- the request made for the backend ----------

  /** `options.num_predict`, when the options are an object. */
  function NumPredict(fields: seq<Field>): Value {
    match Find(fields, "options") case Some(Obj(options)) => Under(options, "num_predict", Null) case _ => Null
  }

  /** The messages an Ollama chat or generate request asks with. */
  function Asked(endpoint: string, fields: seq<Field>): Value {
    if endpoint == "/api/chat" then
      var messages := Under(fields, "messages", Null);
      if messages.Truthy() then messages else Arr([])
    else Arr([Obj([Field("role", Str("user")), Field("content", Under(fields, "prompt", Str("")))])])
  }

  /** A chat or generate request becomes its messages, without streaming, with `num_predict` as the limit
    when it is truthy, and nothing else; options that are truthy and no object raise. */
  lemma {:induction false} ChatRequestIs(endpoint: string, req: Value)
    requires endpoint == "/api/chat" || endpoint == "/api/generate"
    ensures match ChatRequest(endpoint, req)
            case Raises =>
              !req.Obj? || (Find(req.fields, "options").Some? && Find(req.fields, "options").value.Truthy()
                            && !Find(req.fields, "options").value.Obj?)
            case Done(made) =>
              && req.Obj? && made.Obj?
              && Find(made.fields, "messages") == Some(Asked(endpoint, req.fields))
              && Find(made.fields, "stream") == Some(Bool(false))
              && Find(made.fields, "max_tokens") ==
                 (if NumPredict(req.fields).Truthy() then Some(NumPredict(req.fields)) else None)
              && |made.fields| == if NumPredict(req.fields).Truthy() then 3 else 2
  {
    GetIs(req, "messages", Null);
    GetIs(req, "prompt", Str(""));
    GetIs(req, "options", Null);
    NoOptions();
    hide GetOr, Find;
    if req.Obj? {
      var options := Or(Under(req.fields, "options", Null), Obj([]));
      GetIs(options, "num_predict", Null);
      if options.Obj? { MadeFinds(Asked(endpoint, req.fields), Under(options.fields, "num_predict", Null)); }
    }
  }

  lemma {:induction false} NoOptions()
    ensures Find([], "num_predict") == None
  {
  }

  lemma {:induction false} MadeFinds(messages: Value, limit: Value)
    ensures var two := [Field("messages", messages), Field("stream", Bool(false))];
            var three := two + [Field("max_tokens", limit)];
            && two + [] == two
            && Find(two, "messages") == Find(three, "messages") == Some(messages)
            && Find(two, "stream") == Find(three, "stream") == Some(Bool(false))
            && Find(two, "max_tokens") == None && Find(three, "max_tokens") == Some(limit)
  {
    assert |"messages"| == 8 && |"stream"| == 6 && |"max_tokens"| == 10;
    var two := [Field("messages", messages), Field("stream", Bool(false))];
    var three := two + [Field("max_tokens", limit)];
    FindAt(two, 0);
    FindAt(two, 1);
    FindAt(three, 0);
    FindAt(three, 1);
    FindAt(three, 2);
    FindNone(two, "max_tokens");
  }

  /** An embeddings request becomes its input, or its prompt when it has none, and nothing else. */
  lemma {:induction false} EmbedRequestIs(req: Value)
    ensures EmbedRequest(req) ==
            if !req.Obj? then Raises
            else Done(Obj([Field("input", Under(req.fields, "input", Under(req.fields, "prompt", Str(""))))]))
  {
    GetIs(req, "prompt", Str(""));
    hide Find;
  }

  // ---------- the text that is hashed ----------

  /** Texts are joined by line ends: joining two lists of them puts one line end between. */
  lemma {:induction false} JoinLaw(a: seq<string>, b: seq<string>, text: string)
    ensures Join([]) == "" && Join([text]) == text
    ensures a != [] && b != [] ==> Join(a + b) == Join(a) + "\n" + Join(b)
  {
    if a != [] && b != [] {
      JoinFirst(a[0], a[1..] + b);
      assert a + b == [a[0]] + (a[1..] + b);
      if |a| == 1 {
        assert a[1..] + b == b && a == [a[0]];
      } else {
        JoinLaw(a[1..], b, text);
        JoinFirst(a[0], a[1..]);
        assert a == [a[0]] + a[1..];
        assert a[0] + "\n" + (Join(a[1..]) + "\n" + Join(b)) == (a[0] + "\n" + Join(a[1..])) + "\n" + Join(b);
      }
    }
  }

  lemma {:induction false} JoinFirst(first: string, rest: seq<string>)
    requires rest != []
    ensures Join([first] + rest) == first + "\n" + Join(rest)
  {
    assert ([first] + rest)[1..] == rest;
  }

  /** What formatting a value into a text gives; of floats, lists and dicts it is a parameter. */
  lemma {:induction false} ShownAs(show: Value -> string, v: Value)
    ensures StrOf(show, Null) == "None" && StrOf(show, Bool(true)) == "True" && StrOf(show, Bool(false)) == "False"
    ensures forall s :: StrOf(show, Str(s)) == s
    ensures forall n :: StrOf(show, Num(n)) == IntText(n)
    ensures v.Float? || v.Arr? || v.Obj? ==> StrOf(show, v) == show(v)
  {
    hide IntText;
  }

  /** A message as a line: its role and its content, "None" for a role that is missing. */
  function MessageText(show: Value -> string, fields: seq<Field>): string {
    StrOf(show, Under(fields, "role", Null)) + ": " + StrOf(show, Under(fields, "content", Str("")))
  }

  /** The receipted input of a chat: a line for each message, in order. */
  lemma {:induction false} MessagesTextIs(show: Value -> string, req: Value, messages: seq<Value>)
    requires req.Obj? && Find(req.fields, "messages") == Some(Arr(messages)) && AllObjects(messages)
    ensures MessagesText(show, req) ==
            Done(Join(seq(|messages|, i requires 0 <= i < |messages| => MessageText(show, messages[i].fields))))
  {
    GetIs(req, "messages", Arr([]));
    MessageLinesAre(show, messages);
    hide Find, Join, MessageLines;
  }

  lemma {:induction false} MessageLinesAre(show: Value -> string, messages: seq<Value>)
    requires AllObjects(messages)
    ensures MessageLines(show, messages) ==
            Done(seq(|messages|, i requires 0 <= i < |messages| => MessageText(show, messages[i].fields)))
  {
    hide Find, StrOf;
    var lines := seq(|messages|, i requires 0 <= i < |messages| => MessageText(show, messages[i].fields));
    if messages != [] {
      MessageLinesAre(show, messages[1..]);
      assert lines == [MessageText(show, messages[0].fields)] + lines[1..];
      assert lines[1..] == seq(|messages[1..]|, i requires 0 <= i < |messages[1..]| =>
        MessageText(show, messages[1..][i].fields));
    }
  }

  /** The receipted input of an embedding: the text itself, or the items of a list, one a line. */
  lemma {:induction false} EmbedInputIs(show: Value -> string, req: Value)
    requires req.Obj?
    ensures var input := Under(req.fields, "input", Str(""));
            EmbedInputText(show, req) ==
            match input
            case Str(s) => Done(s)
            case Arr(items) => Done(Join(seq(|items|, i requires 0 <= i < |items| => StrOf(show, items[i]))))
            case _ => Done(StrOf(show, input))
  {
    GetIs(req, "input", Str(""));
    hide Find, Join;
  }

  // ---------- what an Ollama client gets back ----------

  /** What is passed on to an Ollama client as it is: whatever is no successful JSON reply. */
  lemma {:induction false} PassedOn(endpoint: string, model: Value, reply: Reply)
    requires reply.Reply?
    requires !(200 <= reply.status <= 299) || !IsJson(reply.contentType) || Loads(reply.body).None?
    ensures Answer(Translated(endpoint, model), reply) ==
            Done(Response(reply.status, reply.contentType, reply.body))
  {
    hide Loads, IsJson;
  }

  lemma {:induction false} DownIsBadGateway(route: Route)
    ensures Answer(route, Unreachable) == Done(BadGateway)
  {
  }

  /** The client of /api/embed reads all vectors the backend gave, under the model it asked for, the one
    of /api/embeddings the first of them, or none. */
  lemma {:induction false} ClientReadsVectors(endpoint: string, body: string, req: Value, reply: Reply,
                                              vectors: seq<Value>)
    requires endpoint == "/api/embeddings" || endpoint == "/api/embed"
    requires Loads(body) == Some(req) && req.Obj?
    requires reply.Succeeded() && IsJson(reply.contentType) && Loads(reply.body).Some?
    requires Listed(Loads(reply.body).value, vectors)
    ensures var answer := Answer(Translated(endpoint, Under(req.fields, "model", Str(""))), reply);
            && answer.Done? && answer.value.Response? && answer.value.status == 200
            && answer.value.contentType == "application/json"
            && Loads(answer.value.body) == Some(Obj(
              if endpoint == "/api/embeddings" then
                [Field("embedding", if vectors == [] then Arr([]) else vectors[0])]
              else [Field("model", Under(req.fields, "model", Str(""))), Field("embeddings", Arr(vectors))]))
  {
    hide Loads, Find, Print, IsJson, Listed, Held, Vectors;
    var replied, model := Loads(reply.body).value, Under(req.fields, "model", Str(""));
    VectorsAre(replied, vectors);
    ListedHeld(reply.body, vectors);
    UnderHeld(body, req, "model");
    EmbedKeys();
    var single := Obj([Field("embedding", if vectors == [] then Arr([]) else vectors[0])]);
    var all := Obj([Field("model", model), Field("embeddings", Arr(vectors))]);
    AnswersHeld(model, vectors);
    LoadsPrinted(DEFAULT_ASCII, single);
    LoadsPrinted(DEFAULT_ASCII, all);
  }

  lemma {:induction false} EmbedKeys()
    ensures "/api/embeddings" != "/api/chat" && "/api/embeddings" != "/api/generate"
    ensures "/api/embed" != "/api/chat" && "/api/embed" != "/api/generate" && "/api/embed" != "/api/embeddings"
  {
    assert |"/api/embed"| == 10 && |"/api/chat"| == 9 && |"/api/generate"| == 13 && |"/api/embeddings"| == 15;
  }

  lemma {:induction false} AnswersHeld(model: Value, vectors: seq<Value>)
    requires Held(model) && forall i :: 0 <= i < |vectors| ==> Held(vectors[i])
    ensures Held(Obj([Field("embedding", if vectors == [] then Arr([]) else vectors[0])]))
    ensures Held(Obj([Field("model", model), Field("embeddings", Arr(vectors))]))
  {
    assert |"model"| == 5 && |"embeddings"| == 10;
    assert Held(Arr([])) && Held(Arr(vectors));
  }

  lemma {:induction false} FindHeld(fields: seq<Field>, key: string)
    requires Held(Obj(fields)) && Find(fields, key).Some?
    ensures Held(Find(fields, key).value)
  {
    var i := FindSome(fields, key);
  }

  lemma {:induction false} UnderHeld(body: string, req: Value, key: string)
    requires Loads(body) == Some(req) && req.Obj?
    ensures Held(Under(req.fields, key, Str("")))
  {
    hide Loads, Find, Held;
    LoadsHeld(body);
    StrHeld();
    if Find(req.fields, key).Some? { FindHeld(req.fields, key); }
  }

  lemma {:induction false} StrHeld()
    ensures Held(Str("")) && Held(Null)
  {
  }

  lemma {:induction false} ListedHeld(body: string, vectors: seq<Value>)
    requires Loads(body).Some? && Listed(Loads(body).value, vectors)
    ensures forall i :: 0 <= i < |vectors| ==> Held(vectors[i])
  {
    hide Loads, Find;
    LoadsHeld(body);
    var fields := Loads(body).value.fields;
    if Find(fields, "data").Some? && Find(fields, "data").value.Arr? {
      FindHeld(fields, "data");
      var items := Find(fields, "data").value.items;
      forall i | 0 <= i < |vectors| ensures Held(vectors[i]) {
        assert Held(items[i]);
        StrHeld();
        if Find(items[i].fields, "embedding").Some? { FindHeld(items[i].fields, "embedding"); }
      }
    }
  }
}
