/** The forwarder (`send_to_plijadur_bot`, main.py): wraps a message in the
    alert banner, posts it once to the Telegram Bot API `sendMessage`
    endpoint, and reports success as a boolean. The HTTP exchange is
    abstracted to the response it produced; the client that produces it is a
    parameter (`Transport`). */
module Forwarder {
  import opened Wrappers

  /** Destination settings read from the environment. */
  datatype Config = Config(botToken: string, chatId: string)

  /** Prefix put in front of every forwarded text. */
  const Banner := "🎯 ALERTE INPLAYGURU AUTOMATIQUE:\n\n"

  const ParseMode := "HTML"

  /** Request timeout, in seconds. */
  const TimeoutSeconds := 10

  /** The JSON body of the POST. */
  datatype Payload = Payload(chatId: string, text: string, parseMode: string)

  datatype Request = Request(url: string, payload: Payload, timeout: nat)

  /** A decoded JSON document. */
  datatype Json =
    | Null
    | Bool(b: bool)
    | Number(n: real)
    | Str(s: string)
    | Array(items: seq<Json>)
    | Object(fields: map<string, Json>)

  /** A response body: either it decodes as JSON or `response.json()` raises. */
  datatype Body = Malformed | Parsed(json: Json)

  /** What one POST can come back with. */
  datatype Response =
    | Timeout                          // asyncio.TimeoutError
    | Fault                            // any other exception of the client
    | Reply(status: int, body: Body)

  /** The HTTP client: the response a request would receive. */
  type Transport = Request -> Response

  /** Exceptions the `try` block of the forwarder can raise. */
  datatype Raised = TimeoutError | ClientError | DecodeError | AttributeError

  function Endpoint(token: string): string {
    "https://api.telegram.org/bot" + token + "/sendMessage"
  }

  /** The request `send_to_plijadur_bot(message, ...)` issues. */
  function BuildRequest(cfg: Config, message: string): Request {
    Request(Endpoint(cfg.botToken), Payload(cfg.chatId, Banner + message, ParseMode), TimeoutSeconds)
  }

  /** Recovers the forwarded message from a payload text: the inverse of the
      banner wrapping. */
  function Unwrap(text: string): (r: Option<string>)
    ensures r.Some? <==> |text| >= |Banner| && text[..|Banner|] == Banner
    ensures r.Some? ==> text == Banner + r.value
  {
    if |text| >= |Banner| && text[..|Banner|] == Banner then Some(text[|Banner|..]) else None
  }

  /** Python truthiness of a decoded JSON value. */
  predicate Truthy(j: Json) {
    match j
    case Null => false
    case Bool(b) => b
    case Number(n) => n != 0.0
    case Str(s) => s != ""
    case Array(items) => items != []
    case Object(fields) => fields != map[]
  }

  /** The body of the `try` block: the boolean it returns, or what it raises. */
  function Attempt(resp: Response): Result<bool, Raised> {
    match resp
    case Timeout => Err(TimeoutError)
    case Fault => Err(ClientError)
    case Reply(status, body) =>
      if status != 200 then Ok(false)
      else
        match body
        case Malformed => Err(DecodeError)
        case Parsed(json) =>
          match json
          case Object(fields) => Ok("ok" in fields && Truthy(fields["ok"]))
          case _ => Err(AttributeError)
  }

  /** The acknowledgement the forwarder waits for: status 200 and a JSON
      object whose `ok` member is truthy. */
  predicate Acknowledged(resp: Response) {
    && resp.Reply?
    && resp.status == 200
    && resp.body.Parsed?
    && resp.body.json.Object?
    && "ok" in resp.body.json.fields
    && Truthy(resp.body.json.fields["ok"])
  }

  /** `send_to_plijadur_bot`'s verdict on a response: every exception is
      caught and reported as `false`. */
  function Outcome(resp: Response): (ok: bool)
    ensures ok <==> Acknowledged(resp)
    ensures Attempt(resp).Err? ==> !ok
    ensures resp.Reply? && resp.status != 200 ==> !ok
  {
    match Attempt(resp)
    case Ok(b) => b
    case Err(_) => false
  }

  /** One forwarding attempt through `transport`. */
  function Forward(cfg: Config, transport: Transport, message: string): (ok: bool)
    ensures ok <==> Acknowledged(transport(BuildRequest(cfg, message)))
  {
    Outcome(transport(BuildRequest(cfg, message)))
  }

  /** The payload carries the message unchanged behind the banner, to the
      configured chat, in HTML mode, through the configured bot. */
  lemma RequestCarriesMessage(cfg: Config, message: string)
    ensures Unwrap(BuildRequest(cfg, message).payload.text) == Some(message)
    ensures BuildRequest(cfg, message).payload.chatId == cfg.chatId
    ensures BuildRequest(cfg, message).payload.parseMode == "HTML"
    ensures BuildRequest(cfg, message).url == Endpoint(cfg.botToken)
    ensures BuildRequest(cfg, message).timeout == 10
  {
    var text := Banner + message;
    assert text[..|Banner|] == Banner;
    assert text[|Banner|..] == message;
  }

  /** Distinct messages give distinct requests. */
  lemma BuildRequestInjective(cfg: Config, a: string, b: string)
    requires BuildRequest(cfg, a) == BuildRequest(cfg, b)
    ensures a == b
  {
    RequestCarriesMessage(cfg, a);
    RequestCarriesMessage(cfg, b);
  }

  /** Timeouts and client faults are failures, not exceptions. */
  lemma ExceptionsAreFailures(resp: Response)
    requires resp.Timeout? || resp.Fault?
    ensures !Outcome(resp)
  {
  }

  /** A 200 reply whose body is `{"ok": true, ...}` is a success. */
  lemma OkTrueIsSuccess(fields: map<string, Json>)
    requires "ok" in fields && fields["ok"] == Bool(true)
    ensures Outcome(Reply(200, Parsed(Object(fields))))
  {
  }

  /** A 200 reply with an undecodable or non-object body, or with `ok`
      missing or falsy, is a failure. */
  lemma BadAcknowledgementIsFailure(body: Body)
    requires body.Malformed? || !body.json.Object? || "ok" !in body.json.fields || !Truthy(body.json.fields["ok"])
    ensures !Outcome(Reply(200, body))
  {
  }
}
