/**
 * The contact relay: one inbound request becomes exactly one response, and at
 * most one mail handed to the transport. The checks run in a fixed order with
 * early exits: CORS preflight, JSON decode, field presence, composition of the
 * mail, and the mapping of the transport's outcome to 200 or 500.
 */
module Relay {
  import opened Js

  /** A value as `req.json()` decodes it. `text` is what `String(value)` prints for the number. */
  datatype Json =
    | JNull
    | JBool(b: bool)
    | JNumber(value: real, text: string)
    | JString(s: string)
    | JArray(items: seq<Json>)
    | JObject(members: map<string, Json>)

  /** JavaScript truthiness: `null`, `false`, `0` and `""` are falsy; arrays and objects never are. */
  predicate Truthy(v: Json) {
    match v
    case JNull => false
    case JBool(b) => b
    case JNumber(x, _) => x != 0.0
    case JString(s) => s != ""
    case JArray(_) => true
    case JObject(_) => true
  }

  /**
   * `v[key]` for one of the four field names; `None` is `undefined`. Only an
   * object's own members carry these names: strings, arrays and
   * `Object.prototype` have no property called name, email, subject or message.
   */
  function Property(v: Json, key: string): Option<Json> {
    if v.JObject? && key in v.members then Some(v.members[key]) else None
  }

  /** `data || {}`. */
  function OrEmpty(data: Json): Json {
    if Truthy(data) then data else JObject(map[])
  }

  /** The field read by the destructuring `const { name, ... } = data || {}`, and checked by `!name`. */
  predicate Present(data: Json, key: string) {
    var p := Property(OrEmpty(data), key);
    p.Some? && Truthy(p.value)
  }

  predicate AllPresent(data: Json) {
    Present(data, "name") && Present(data, "email") && Present(data, "subject") && Present(data, "message")
  }

  /** The value of a field that `AllPresent` has vouched for. */
  function FieldOf(data: Json, key: string): Json
    requires Present(data, key)
  {
    Property(OrEmpty(data), key).value
  }

  /**
   * Whether `String(v)` throws. A decoded object whose own members include
   * `toString` shadows `Object.prototype.toString` with a value that is not
   * callable; `valueOf` then returns the object itself, which is not a
   * primitive, so the conversion fails with a TypeError. An array converts by
   * joining its elements, so it fails when one of them does.
   */
  predicate ToStringThrows(v: Json)
    decreases v
  {
    match v
    case JObject(members) => "toString" in members
    case JArray(items) => exists i | 0 <= i < |items| :: ToStringThrows(items[i])
    case _ => false
  }

  /** `${v}` inside a template literal; `None` when the conversion throws. */
  function Interpolate(v: Json): (r: Option<string>)
    ensures r.None? <==> ToStringThrows(v)
    ensures v.JString? ==> r == Some(v.s)
    decreases v, 1
  {
    match v
    case JNull => Some("null")
    case JBool(b) => Some(if b then "true" else "false")
    case JNumber(_, t) => Some(t)
    case JString(s) => Some(s)
    case JArray(items) => JoinItems(items)
    case JObject(members) => if "toString" in members then None else Some("[object Object]")
  }

  /** `Array.prototype.join(",")`, which prints `null` elements as the empty string and fails when an element's conversion does. */
  function JoinItems(items: seq<Json>): (r: Option<string>)
    ensures r.None? <==> exists i | 0 <= i < |items| :: ToStringThrows(items[i])
    decreases items, 0
  {
    if items == [] then Some("")
    else
      var head := if items[0].JNull? then Some("") else Interpolate(items[0]);
      var tail := if |items| == 1 then Some("") else JoinItems(items[1..]);
      assert forall i | 1 <= i < |items| :: items[i] == items[1..][i - 1];
      if head.None? then None
      else if |items| == 1 then head
      else if tail.None? then None
      else Some(head.value + "," + tail.value)
  }

  /** The `mailOptions` object handed to the transport. */
  datatype Mail = Mail(from: string, to: string, replyTo: Json, subject: Json, text: string)

  /** The `from` header: the submitter's name in quotes, then the operator's mailbox in angle brackets. */
  function SenderHeader(displayName: string, operator: string): string {
    "\"" + displayName + "\" <" + operator + ">"
  }

  /** Whether building `mailOptions` throws: `${name}`, `${email}` or `${message}` fails to convert. */
  predicate ComposeThrows(data: Json)
    requires AllPresent(data)
  {
    ToStringThrows(FieldOf(data, "name")) || ToStringThrows(FieldOf(data, "email"))
      || ToStringThrows(FieldOf(data, "message"))
  }

  /**
   * Builds `mailOptions` from a body whose four fields are present; `None`
   * when one of the template literals throws. `subject` and `replyTo` are
   * passed on as they are, without conversion.
   */
  function Compose(data: Json, operator: string): (m: Option<Mail>)
    requires AllPresent(data)
    ensures m.None? <==> ComposeThrows(data)
  {
    var name, email, message := Interpolate(FieldOf(data, "name")), Interpolate(FieldOf(data, "email")),
                                Interpolate(FieldOf(data, "message"));
    if name.None? || email.None? || message.None? then None
    else
      Some(Mail(
        from := SenderHeader(name.value, operator),
        to := operator,
        replyTo := FieldOf(data, "email"),
        subject := FieldOf(data, "subject"),
        text := "From: " + name.value + " <" + email.value + ">\n\n" + message.value))
  }

  // ---------------------------------------------------------------- requests and responses

  datatype Body = Unparsable | Parsed(data: Json)

  datatype Request = Request(verb: string, body: Body)

  /** What `transporter.sendMail` did: resolved, or threw an error whose `message` may be missing. */
  datatype SendOutcome = Delivered | Rejected(message: Option<string>)

  /** A response body: the preflight's plain `OK`, `{error: ...}` or `{success: true}`. */
  datatype Payload = PlainText(text: string) | ErrorBody(error: string) | SuccessBody

  datatype Response = Response(status: int, headers: map<string, string>, payload: Payload)

  const AllowOrigin := "Access-Control-Allow-Origin"
  const AllowMethods := "Access-Control-Allow-Methods"
  const AllowHeaders := "Access-Control-Allow-Headers"

  const PreflightHeaders: map<string, string> :=
    map[AllowOrigin := "*", AllowMethods := "POST, OPTIONS", AllowHeaders := "Content-Type, Authorization"]

  const CorsHeaders: map<string, string> := map[AllowOrigin := "*", AllowHeaders := "*"]

  /**
   * What `serve` answers when the handler itself throws: its default error
   * handler's bare 500, without the CORS headers the handler would have added.
   */
  const HandlerFailure := Response(500, map[], PlainText("Internal Server Error"))

  const InvalidJson := "Invalid or missing JSON"
  const MissingFields := "Missing fields"
  const UnknownError := "Unknown error"

  /** Where the early-return chain leaves a request: answered already, or a mail to send. */
  datatype Step = Reply(response: Response) | Send(mail: Mail)

  /**
   * Everything before `sendMail`: the preflight, decode and presence
   * branches, then composition, which sits outside the handler's `try` and so
   * escapes to `serve` when it throws.
   */
  function Screen(req: Request, operator: string): Step {
    if req.verb == "OPTIONS" then
      Reply(Response(200, PreflightHeaders, PlainText("OK")))
    else if req.body.Unparsable? then
      Reply(Response(400, CorsHeaders, ErrorBody(InvalidJson)))
    else if !AllPresent(req.body.data) then
      Reply(Response(400, CorsHeaders, ErrorBody(MissingFields)))
    else
      match Compose(req.body.data, operator)
      case None => Reply(HandlerFailure)
      case Some(mail) => Send(mail)
  }

  /** The response after the one send attempt: `{success: true}`, or 500 with `error.message || 'Unknown error'`. */
  function Acknowledge(outcome: SendOutcome): (r: Response)
    ensures r.headers == CorsHeaders
    ensures r.status == 200 <==> outcome.Delivered?
    ensures outcome.Delivered? ==> r.payload == SuccessBody
    ensures outcome.Rejected? ==> r.status == 500 && r.payload.ErrorBody? && r.payload.error != ""
    ensures outcome.Rejected? && outcome.message.Some? && outcome.message.value != "" ==>
              r.payload == ErrorBody(outcome.message.value)
    ensures outcome.Rejected? && (outcome.message.None? || outcome.message.value == "") ==>
              r.payload == ErrorBody(UnknownError)
  {
    match outcome
    case Delivered => Response(200, CorsHeaders, SuccessBody)
    case Rejected(msg) =>
      Response(500, CorsHeaders, ErrorBody(if msg.Some? && msg.value != "" then msg.value else UnknownError))
  }

  /** One invocation as observed from outside: the response and the mail the transport was given, if any. */
  datatype Exchange = Exchange(response: Response, attempted: Option<Mail>)

  /** The whole handler as a total function of the request and the transport's behaviour. */
  function Handle(req: Request, operator: string, outcome: SendOutcome): (x: Exchange)
    ensures x.response.status in {200, 400, 500}
    ensures req.verb == "OPTIONS" ==>
              x == Exchange(Response(200, PreflightHeaders, PlainText("OK")), None)
    ensures req.verb != "OPTIONS" && x.response != HandlerFailure ==> x.response.headers == CorsHeaders
    ensures req.verb != "OPTIONS" && req.body.Unparsable? ==>
              x == Exchange(Response(400, CorsHeaders, ErrorBody(InvalidJson)), None)
    ensures req.verb != "OPTIONS" && req.body.Parsed? && !AllPresent(req.body.data) ==>
              x == Exchange(Response(400, CorsHeaders, ErrorBody(MissingFields)), None)
    ensures req.verb != "OPTIONS" && req.body.Parsed? && AllPresent(req.body.data) && ComposeThrows(req.body.data) ==>
              x == Exchange(HandlerFailure, None)
    ensures x.response == HandlerFailure ==>
              req.verb != "OPTIONS" && req.body.Parsed? && AllPresent(req.body.data) && ComposeThrows(req.body.data)
    ensures x.attempted.Some? <==>
              req.verb != "OPTIONS" && req.body.Parsed? && AllPresent(req.body.data) && !ComposeThrows(req.body.data)
    ensures x.attempted.Some? ==>
              Some(x.attempted.value) == Compose(req.body.data, operator) && x.response == Acknowledge(outcome)
  {
    match Screen(req, operator)
    case Reply(r) => Exchange(r, None)
    case Send(m) => Exchange(Acknowledge(outcome), Some(m))
  }

  /** A falsy decoded body (`null`, `false`, `0`, `""`) is read as `{}` and so lacks every field. */
  lemma FalsyBodyLacksFields(data: Json)
    requires !Truthy(data)
    ensures !Present(data, "name") && !Present(data, "email")
    ensures !Present(data, "subject") && !Present(data, "message")
  {
  }

  /** Presence is all the relay checks: any four non-empty strings are relayed, blank or malformed as they may be. */
  lemma NonEmptyStringsAreRelayed(
    verb: string, name: string, email: string, subject: string, message: string,
    operator: string, outcome: SendOutcome)
    requires verb != "OPTIONS"
    requires name != "" && email != "" && subject != "" && message != ""
    ensures var data := JObject(map["name" := JString(name), "email" := JString(email),
                                    "subject" := JString(subject), "message" := JString(message)]);
            var x := Handle(Request(verb, Parsed(data)), operator, outcome);
            && x.attempted.Some?
            && x.attempted.value.replyTo == JString(email)
            && x.attempted.value.subject == JString(subject)
            && x.attempted.value.from == SenderHeader(name, operator)
            && x.attempted.value.text == "From: " + name + " <" + email + ">\n\n" + message
  {
    var data := JObject(map["name" := JString(name), "email" := JString(email),
                            "subject" := JString(subject), "message" := JString(message)]);
    assert Present(data, "name") && Present(data, "email");
    assert Present(data, "subject") && Present(data, "message");
  }

  /**
   * A name that decodes to an object with its own `toString` member makes the
   * sender header's template literal throw: nothing reaches the transport and
   * the answer is `serve`'s bare 500, without CORS headers.
   */
  lemma OwnToStringNameFails(operator: string, outcome: SendOutcome)
    ensures Handle(Request("POST", Parsed(JObject(map["name" := JObject(map["toString" := JNumber(1.0, "1")]),
                                                     "email" := JString("a@b.c"), "subject" := JString("Hi"),
                                                     "message" := JString("x")]))),
                   operator, outcome) == Exchange(HandlerFailure, None)
  {
    var data := JObject(map["name" := JObject(map["toString" := JNumber(1.0, "1")]),
                            "email" := JString("a@b.c"), "subject" := JString("Hi"), "message" := JString("x")]);
    assert Present(data, "name") && Present(data, "email");
    assert Present(data, "subject") && Present(data, "message");
  }

  /** A whitespace-only name and an email without `@` pass the relay's check. */
  lemma BlankNameAndBareEmailAreRelayed(operator: string, outcome: SendOutcome)
    ensures Handle(Request("POST", Parsed(JObject(map["name" := JString("  "), "email" := JString("ana"),
                                                     "subject" := JString("Hi"), "message" := JString("x")]))),
                   operator, outcome).attempted.Some?
  {
    NonEmptyStringsAreRelayed("POST", "  ", "ana", "Hi", "x", operator, outcome);
  }

  // ---------------------------------------------------------------- reading the sender header back

  /** Appending text that lacks `c` does not move the last occurrence of `c`. */
  lemma {:induction false} LastIndexOfAppend(p: string, q: string, c: char)
    requires c !in q
    ensures LastIndexOf(p + q, c) == LastIndexOf(p, c)
  {
    if q != [] {
      var q' := q[..|q| - 1];
      assert (p + q)[..|p + q| - 1] == p + q';
      LastIndexOfAppend(p, q', c);
    } else {
      assert p + q == p;
    }
  }

  /** The mailbox of a header `"display" <mailbox>`: the text between the last `<` and the closing `>`. */
  function AddressOf(header: string): Option<string> {
    var k := LastIndexOf(header, '<');
    if 0 <= k && k + 1 < |header| && header[|header| - 1] == '>' then Some(header[k + 1..|header| - 1])
    else None
  }

  /** The display name of a header `"display" <mailbox>`: what stands between the opening quote and `" <`. */
  function DisplayNameOf(header: string): Option<string> {
    var k := LastIndexOf(header, '<');
    if 3 <= k && header[0] == '"' && header[k - 2] == '"' && header[k - 1] == ' ' then Some(header[1..k - 2])
    else None
  }

  /** Where the `<` of the operator's address sits in the sender header, whatever the display name holds. */
  lemma SenderHeaderBracket(displayName: string, operator: string)
    requires '<' !in operator
    ensures LastIndexOf(SenderHeader(displayName, operator), '<') == |displayName| + 3
  {
    var front := "\"" + displayName + "\" ";
    var back := operator + ">";
    assert SenderHeader(displayName, operator) == (front + "<") + back;
    assert '<' !in back;
    LastIndexOfAppend(front + "<", back, '<');
  }

  /**
   * Read from the last `<`, the sender header's mailbox is the operator's and
   * its display name is the name exactly as sent, whatever the name holds.
   * The name's quotes are not escaped, so a reader that splits the header at
   * an earlier `<` or comma may see something else.
   */
  lemma SenderHeaderRoundTrip(displayName: string, operator: string)
    requires '<' !in operator
    ensures AddressOf(SenderHeader(displayName, operator)) == Some(operator)
    ensures DisplayNameOf(SenderHeader(displayName, operator)) == Some(displayName)
  {
    var h := SenderHeader(displayName, operator);
    SenderHeaderBracket(displayName, operator);
    var k := |displayName| + 3;
    assert h[k + 1..|h| - 1] == operator;
    assert h[1..k - 2] == displayName;
  }

  /**
   * The mail the relay hands to the transport: addressed to the operator, sent
   * from the operator's mailbox under the submitter's name, replying to the
   * submitter, with the submitted subject and a body that quotes name, email
   * and message.
   */
  lemma ComposedMail(req: Request, operator: string, outcome: SendOutcome)
    requires '<' !in operator
    requires Handle(req, operator, outcome).attempted.Some?
    ensures var m := Handle(req, operator, outcome).attempted.value;
            var data := req.body.data;
            && m.to == operator
            && AddressOf(m.from) == Some(operator)
            && DisplayNameOf(m.from) == Interpolate(FieldOf(data, "name"))
            && m.replyTo == FieldOf(data, "email")
            && m.subject == FieldOf(data, "subject")
            && m.text == "From: " + Interpolate(FieldOf(data, "name")).value + " <"
                         + Interpolate(FieldOf(data, "email")).value + ">\n\n"
                         + Interpolate(FieldOf(data, "message")).value
  {
    SenderHeaderRoundTrip(Interpolate(FieldOf(req.body.data, "name")).value, operator);
  }

  // ---------------------------------------------------------------- the deployed function

  /**
   * The deployed handler. `operator` is the mailbox read from the environment,
   * and `attempts` lists every mail handed to `transporter.sendMail`, in order.
   */
  class RelayFunction {
    const operator: string
    var attempts: seq<Mail>

    constructor (operator: string)
      ensures this.operator == operator && attempts == []
    {
      this.operator := operator;
      attempts := [];
    }

    /** Serves one request; the transport's answer to the send, if one is made, is `outcome`. */
    method Serve(req: Request, outcome: SendOutcome) returns (resp: Response)
      modifies this
      ensures resp == Handle(req, operator, outcome).response
      ensures Handle(req, operator, outcome).attempted.None? ==> attempts == old(attempts)
      ensures Handle(req, operator, outcome).attempted.Some? ==>
                attempts == old(attempts) + [Handle(req, operator, outcome).attempted.value]
    {
      var step := Screen(req, operator);
      if step.Reply? {
        return step.response;
      }
      attempts := attempts + [step.mail];
      resp := Acknowledge(outcome);
    }
  }

  /** No deduplication: the same valid request served twice reaches the transport twice. */
  method ResubmissionIsSentTwice(relay: RelayFunction, req: Request, first: SendOutcome, second: SendOutcome)
    requires req.verb != "OPTIONS" && req.body.Parsed? && AllPresent(req.body.data) && !ComposeThrows(req.body.data)
    modifies relay
    ensures var m := Compose(req.body.data, relay.operator).value;
            relay.attempts == old(relay.attempts) + [m, m]
  {
    var _ := relay.Serve(req, first);
    var _ := relay.Serve(req, second);
  }
}
