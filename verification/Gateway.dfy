/** The receipt gateway: which digest a request has, what is sent to the backend, whether the
  reply leaves a receipt and with which arguments, and what the client is answered.

  Bodies are decoded text. Python's `str()` of a float, a list or a dict is the parameter `show`. */
module Gateway {
  import opened Json
  import opened JsonCanonical
  import opened Receipts
  import opened Emitter

  /** A Python computation that may raise something other than what the gateway catches. */
  datatype Try<+T> = Done(value: T) | Raises {
    predicate IsFailure() { Raises? }
    function PropagateFailure<U>(): Try<U>
      requires Raises?
    {
      Raises
    }
    function Extract(): T
      requires Done?
    {
      value
    }
  }

  const CHAT := "/v1/chat/completions"
  const EMBED := "/v1/embeddings"
  const INVALID_JSON := "{\"error\":\"invalid JSON\"}"
  const OLLAMA := ["/api/chat", "/api/generate", "/api/embeddings", "/api/embed"]

  // ---------- Python on JSON values ----------

  /** `v.get(key, default)`. */
  function GetOr(v: Value, key: string, default: Value): Try<Value> {
    if !v.Obj? then Raises
    else match Find(v.fields, key) case Some(w) => Done(w) case None => Done(default)
  }

  function Get(v: Value, key: string): Try<Value> { GetOr(v, key, Null) }

  /** `v or w`. */
  function Or(v: Value, w: Value): Value { if v.Truthy() then v else w }

  function KeysOf(fields: seq<Field>): seq<Value> {
    seq(|fields|, i requires 0 <= i < |fields| => Str(fields[i].key))
  }

  /** `for x in v`. */
  function Iterate(v: Value): Try<seq<Value>> {
    match v
    case Arr(items) => Done(items)
    case Str(s) => Done(seq(|s|, i requires 0 <= i < |s| => Str([s[i]])))
    case Obj(fields) => Done(KeysOf(fields))
    case _ => Raises
  }

  /** `v[0]` of a truthy `v`. */
  function First(v: Value): Try<Value>
    requires v.Truthy()
  {
    match v
    case Arr(items) => Done(items[0])
    case Str(s) => Done(Str(s[..1]))
    case _ => Raises
  }

  function Join(parts: seq<string>): string {
    if parts == [] then ""
    else if |parts| == 1 then parts[0]
    else parts[0] + "\n" + Join(parts[1..])
  }

  function LowerChar(c: char): char {
    if 'A' <= c <= 'Z' then (c as int + 32) as char else c
  }

  /** `"application/json" in content_type.lower()`. */
  predicate IsJson(contentType: string) {
    var lower := seq(|contentType|, i requires 0 <= i < |contentType| => LowerChar(contentType[i]));
    exists i :: 0 <= i <= |lower| && "application/json" <= lower[i..]
  }

  // ---------- the digest of a request ----------

  /** The map of configured digests, empty when there is none, and the single-model digest. */
  datatype Config = Config(digests: seq<Field>, single: Option<string>, show: Value -> string)

  function OnlyStrings(fields: seq<Field>): seq<Field> {
    if fields == [] then []
    else (if fields[0].value.Str? then [fields[0]] else []) + OnlyStrings(fields[1..])
  }

  /** The map read from the environment. */
  function DigestMap(raw: string): seq<Field> {
    match Loads(raw) case Some(Obj(fields)) => OnlyStrings(fields) case _ => []
  }

  /** The configuration of a gateway started with this map in its environment. */
  function Started(raw: string, single: Option<string>, show: Value -> string): Config {
    Config(DigestMap(raw), single, show)
  }

  /** `_req_model`; a missing model is `None`, JSON null. */
  function ReqModel(body: string): Value {
    match Loads(body)
    case None => Null
    case Some(v) => match Get(v, "model") case Done(m) => m case Raises => Null
  }

  /** `_resolve_digest`; an unhashable model raises at the map. */
  function ResolveDigest(config: Config, model: Value): Try<Option<string>> {
    if config.digests == [] then Done(config.single)
    else
      match model
      case Arr(_) => Raises
      case Obj(_) => Raises
      case Str(m) => (match Find(config.digests, m) case Some(Str(d)) => Done(Some(d)) case _ => Done(None))
      case _ => Done(None)
  }

  // ---------- the receipt of a reply ----------

  function MessageLines(show: Value -> string, messages: seq<Value>): Try<seq<string>> {
    if messages == [] then Done([])
    else
      var role :- Get(messages[0], "role");
      var content :- GetOr(messages[0], "content", Str(""));
      var more :- MessageLines(show, messages[1..]);
      Done([StrOf(show, role) + ": " + StrOf(show, content)] + more)
  }

  /** `_messages_text`. */
  function MessagesText(show: Value -> string, req: Value): Try<string> {
    var v :- GetOr(req, "messages", Arr([]));
    var messages :- Iterate(v);
    var lines :- MessageLines(show, messages);
    Done(Join(lines))
  }

  /** `_embed_input_text`. */
  function EmbedInputText(show: Value -> string, req: Value): Try<string> {
    var input :- GetOr(req, "input", Str(""));
    Done(if input.Arr? then Join(seq(|input.items|, i requires 0 <= i < |input.items| => StrOf(show, input.items[i])))
         else StrOf(show, input))
  }

  /** `((body.get("choices") or [{}])[0].get("message") or {}).get("content", default)`. */
  function ChatContent(body: Value, default: Value): Try<Value> {
    var choices :- Get(body, "choices");
    var first :- First(Or(choices, Arr([Obj([])])));
    var message :- Get(first, "message");
    GetOr(Or(message, Obj([])), "content", default)
  }

  function Embeddings(items: seq<Value>): Try<seq<Value>> {
    if items == [] then Done([])
    else
      var v :- Get(items[0], "embedding");
      var more :- Embeddings(items[1..]);
      Done([v] + more)
  }

  /** `[d.get("embedding") for d in (body.get("data") or [])]`. */
  function Vectors(body: Value): Try<seq<Value>> {
    var data :- Get(body, "data");
    var items :- Iterate(Or(data, Arr([])));
    Embeddings(items)
  }

  function Usage(body: Value): Try<Value> {
    var usage :- Get(body, "usage");
    Done(Or(usage, Obj([])))
  }

  /** The arguments of the chat receipt, if the reply deserves one. */
  function ChatReceipt(show: Value -> string, digest: string, req: Value, body: Value): Try<Option<Args>> {
    var usage :- Usage(body);
    var output :- ChatContent(body, Null);
    if !output.Str? then Done(None)
    else
      var input :- MessagesText(show, req);
      var promptTokens :- Get(usage, "prompt_tokens");
      var completionTokens :- Get(usage, "completion_tokens");
      Done(Some(Args(digest, "chat.completion", input, output.s, "inferenced", "T1", None, "cpu",
                     Given(promptTokens), Given(completionTokens))))
  }

  function EmbedReceipt(show: Value -> string, digest: string, req: Value, body: Value): Try<Option<Args>> {
    var usage :- Usage(body);
    var vectors :- Vectors(body);
    if vectors == [] || exists i :: 0 <= i < |vectors| && !vectors[i].Arr? then Done(None)
    else
      var input :- EmbedInputText(show, req);
      var promptTokens :- Get(usage, "prompt_tokens");
      Done(Some(Args(digest, "embedding", input, Canonical(Arr(vectors)), "embeddingd", "T0", None, "cpu",
                     Given(promptTokens), Given(Null))))
  }

  /** The decisions of `_maybe_emit`: the arguments it calls `emit_receipt` with, if it does. */
  function ReceiptArgs(show: Value -> string, path: string, reqBody: string, respBody: string,
                       contentType: string, digest: Option<string>): Try<Option<Args>> {
    if digest.None? || !IsJson(contentType) then Done(None)
    else
      match (Loads(respBody), Loads(reqBody))
      case (Some(body), Some(req)) =>
        if path == CHAT then ChatReceipt(show, digest.value, req, body)
        else if path == EMBED then EmbedReceipt(show, digest.value, req, body)
        else (var usage :- Usage(body); Done(None))
      case _ => Done(None)
  }

  // ---------- routing and translation ----------

  datatype Request = Request(path: string, body: string)

  /** What the backend does with a forwarded request. */
  datatype Reply = Unreachable | Reply(status: int, contentType: string, body: string) {
    predicate Succeeded() { Reply? && 200 <= status < 300 }
  }

  datatype Response = BadGateway | PassedThrough | Response(status: int, contentType: string, body: string)

  /** `Direct` replies go to the client as they are; the others are translated back. */
  datatype Route = Direct | Translated(endpoint: string, model: Value)

  datatype Prepared =
    | Unhandled
    | BadRequest
    | Send(path: string, body: string, route: Route)

  /** The single user message of `/api/generate`. */
  function PromptMessages(req: Value): Try<Value> {
    var prompt :- GetOr(req, "prompt", Str(""));
    Done(Arr([Obj([Field("role", Str("user")), Field("content", prompt)])]))
  }

  /** The OpenAI chat request for `/api/chat` and `/api/generate`. */
  function ChatRequest(endpoint: string, req: Value): Try<Value> {
    var messages :- if endpoint == "/api/chat" then Get(req, "messages") else PromptMessages(req);
    var options :- Get(req, "options");
    var limit :- Get(Or(options, Obj([])), "num_predict");
    Done(Obj([Field("messages", Or(messages, Arr([]))), Field("stream", Bool(false))] +
             if limit.Truthy() then [Field("max_tokens", limit)] else []))
  }

  function EmbedRequest(req: Value): Try<Value> {
    var prompt :- GetOr(req, "prompt", Str(""));
    var input :- GetOr(req, "input", prompt);
    Done(Obj([Field("input", input)]))
  }

  predicate IsChat(endpoint: string) { endpoint == "/api/chat" || endpoint == "/api/generate" }

  /** The first half of `_ollama_forward`. */
  function Translate(endpoint: string, body: string): Try<Prepared> {
    match Loads(body)
    case None => Done(BadRequest)
    case Some(req) =>
      var model :- GetOr(req, "model", Str(""));
      var oai :- if IsChat(endpoint) then ChatRequest(endpoint, req) else EmbedRequest(req);
      Done(Send(if IsChat(endpoint) then CHAT else EMBED, Print(DEFAULT_ASCII, oai), Translated(endpoint, model)))
  }

  /** The routing of `do_POST`. */
  function Prepare(request: Request): Try<Prepared> {
    if request.path == CHAT || request.path == EMBED then Done(Send(request.path, request.body, Direct))
    else if request.path in OLLAMA then Translate(request.path, request.body)
    else Done(Unhandled)
  }

  function ChatResponse(endpoint: string, model: Value, body: Value): Try<Value> {
    var content :- ChatContent(body, Str(""));
    var usage :- Usage(body);
    var promptTokens :- Get(usage, "prompt_tokens");
    var completionTokens :- Get(usage, "completion_tokens");
    Done(Obj([Field("model", model)] +
             (if endpoint == "/api/chat"
              then [Field("message", Obj([Field("role", Str("assistant")), Field("content", content)]))]
              else [Field("response", content)]) +
             [Field("done", Bool(true)), Field("prompt_eval_count", promptTokens), Field("eval_count",
               completionTokens)]))
  }

  function EmbedResponse(endpoint: string, model: Value, body: Value): Try<Value> {
    var vectors :- Vectors(body);
    Done(Obj(if endpoint == "/api/embeddings"
             then [Field("embedding", if vectors == [] then Arr([]) else vectors[0])]
             else [Field("model", model), Field("embeddings", Arr(vectors))]))
  }

  /** What the client is answered once the receipt, if any, is written. */
  function Answer(route: Route, reply: Reply): Try<Response> {
    if reply.Unreachable? then Done(BadGateway)
    else if route.Direct? || !reply.Succeeded() || !IsJson(reply.contentType) || Loads(reply.body).None? then
      Done(Response(reply.status, reply.contentType, reply.body))
    else
      var body := Loads(reply.body).value;
      var out :- if IsChat(route.endpoint) then ChatResponse(route.endpoint, route.model, body)
                 else EmbedResponse(route.endpoint, route.model, body);
      Done(Response(200, "application/json", Print(DEFAULT_ASCII, out)))
  }

  // ---------- one request ----------

  /** What `do_POST` does before the backend is asked. */
  function Admit(config: Config, request: Request): Try<(Option<string>, Prepared)> {
    var digest :- ResolveDigest(config, ReqModel(request.body));
    var prepared :- Prepare(request);
    Done((digest, prepared))
  }

  /** The call of `emit_receipt` after this reply, or that there is none, or that an exception ends the request. */
  function Decide(config: Config, digest: Option<string>, prepared: Prepared, reply: Reply): Try<Option<Args>>
    requires prepared.Send?
  {
    if !reply.Succeeded() then Done(None)
    else ReceiptArgs(config.show, prepared.path, prepared.body, reply.body, reply.contentType, digest)
  }

  /** The arguments of the receipt this request leaves when the backend replies so. */
  function Emission(config: Config, request: Request, reply: Reply): Option<Args> {
    match Admit(config, request)
    case Raises => None
    case Done((digest, prepared)) =>
      if !prepared.Send? then None
      else match Decide(config, digest, prepared, reply) case Done(Some(a)) => Some(a) case _ => None
  }

  /** The request as one thread handles it, on the ledger file. */
  class Server {
    const config: Config
    const hash: string -> Digest
    const ledger: LedgerFile

    constructor (config: Config, hash: string -> Digest, ledger: LedgerFile)
      ensures this.config == config && this.hash == hash && this.ledger == ledger
    {
      this.config, this.hash, this.ledger := config, hash, ledger;
    }

    /** `do_POST` with the reply the backend would give. */
    method Post(request: Request, reply: Reply, now: string) returns (r: Try<Response>)
      requires !ledger.locked
      modifies ledger
      ensures !ledger.locked
      ensures var emission := Emission(config, request, reply);
              if emission.None? then ledger.text == old(ledger.text)
              else
                match NextReceipt(hash, old(ledger.text), emission.value, now)
                case Raised(_) => ledger.text == old(ledger.text) && r == Raises
                case Success(receipt) => ledger.text == old(ledger.text) + Canonical(receipt) + "\n"
      ensures match Admit(config, request)
              case Raises => r == Raises
              case Done((_, Unhandled)) => r == Done(PassedThrough)
              case Done((_, BadRequest)) => r == Done(Response(400, "application/json", "{\"error\":\"invalid JSON\"}"))
              case Done((digest, Send(path, body, route))) =>
                if Decide(config, digest, Send(path, body, route), reply).Raises?
                   || (Emission(config, request, reply).Some?
                       && NextReceipt(hash, old(ledger.text), Emission(config, request, reply).value, now).Raised?)
                then r == Raises
                else r == Answer(route, reply)
    {
      hide NextReceipt, Canonical, Prepare, ResolveDigest, ReceiptArgs, Answer;
      var digest :- ResolveDigest(config, ReqModel(request.body));
      var prepared :- Prepare(request);
      if prepared.Unhandled? {
        return Done(PassedThrough);
      }
      if prepared.BadRequest? {
        return Done(Response(400, "application/json", INVALID_JSON));
      }
      if reply.Succeeded() {
        var args :- ReceiptArgs(config.show, prepared.path, prepared.body, reply.body, reply.contentType, digest);
        if args.Some? {
          var receipt := ledger.EmitReceipt(hash, args.value, now);
          if receipt.Raised? {
            return Raises;
          }
        }
      }
      r := Answer(prepared.route, reply);
    }
  }
}
