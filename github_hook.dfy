/** The GitHub webhook receiver (pkg/hook/github/hook.go): a delivery is
    checked header by header, its body is authenticated by the HMAC-SHA1
    signature of RFC 2104 in the X-Hub-Signature header, and the payload of
    a supported event type is decoded and handed to a handler. HMAC-SHA1 and
    JSON decoding are parameters. */
module GithubHook {
  import opened Api
  import opened HttpErrors
  import Hex

  const HeaderGithubEvent: string := "X-Github-Event"
  const HeaderGithubDelivery: string := "X-Github-Delivery"
  const HeaderHubSignature: string := "X-Hub-Signature"
  const HeaderContentType: string := "Content-Type"
  const ContentTypeJson: string := "application/json"
  const MethodPost: string := "POST"
  const SignaturePrefix: string := "sha1="

  /** HMAC-SHA1 of a payload keyed with the bytes of the token. */
  type Hmac = (string, seq<Hex.byte>) -> seq<Hex.byte>

  // ---------------------------------------------------------------------------
  // Errors

  const MethodNotAllowed: HttpError := HttpError(StatusMethodNotAllowed, "MethodNotAllowed", [])
  const MissingEventType: HttpError := HttpError(StatusBadRequest, "MissingEventType", [])
  const MissingDelivery: HttpError := HttpError(StatusBadRequest, "MissingDelivery", [])
  const MissingSignature: HttpError := HttpError(StatusForbidden, "MissingSignature", [])
  const InvalidSignature: HttpError := HttpError(StatusForbidden, "InvalidSignature", [])
  const UnsupportedContentType: HttpError := HttpError(StatusBadRequest, "UnsupportedContentType", [])

  function FailToUnmarshal(message: string): HttpError
  {
    HttpError(StatusBadRequest, "FailToUnmarshal", [message])
  }

  // ---------------------------------------------------------------------------
  // Validation

  /** A delivery: the method, the header values by canonical name, and the
      body as reading it yields it, or the read error. */
  datatype HookRequest = HookRequest(httpMethod: string, header: map<string, string>, body: Result<seq<Hex.byte>>)

  /** Header.Get: the value of a header, or "" when it is absent. */
  function HeaderValue(req: HookRequest, name: string): (v: string)
    ensures name !in req.header ==> v == ""
  {
    if name in req.header then req.header[name] else ""
  }

  predicate HasPrefix(s: string, prefix: string)
  {
    |prefix| <= |s| && s[..|prefix|] == prefix
  }

  /** validatePayload: the signature is "sha1=" followed by the hex digits of
      exactly the HMAC of the payload under the token. */
  function ValidatePayload(payload: seq<Hex.byte>, sig: string, token: string, hmac: Hmac): (ok: bool)
    ensures !HasPrefix(sig, SignaturePrefix) ==> !ok
    ensures HasPrefix(sig, SignaturePrefix) && Hex.Decode(sig[|SignaturePrefix|..]).None? ==> !ok
    ensures ok <==> HasPrefix(sig, SignaturePrefix) && Hex.Decode(sig[|SignaturePrefix|..]) == Some(hmac(token, payload))
  {
    if !HasPrefix(sig, SignaturePrefix) then false
    else
      match Hex.Decode(sig[|SignaturePrefix|..])
      case None => false
      case Some(decoded) => decoded == hmac(token, payload)
  }

  /** The signature GitHub computes is accepted. */
  lemma SignedPayloadValid(payload: seq<Hex.byte>, token: string, hmac: Hmac)
    ensures ValidatePayload(payload, SignaturePrefix + Hex.Encode(hmac(token, payload)), token, hmac)
  {
    var sig := SignaturePrefix + Hex.Encode(hmac(token, payload));
    assert sig[|SignaturePrefix|..] == Hex.Encode(hmac(token, payload));
    Hex.DecodeEncode(hmac(token, payload));
  }

  /** A signature made for another digest is refused. */
  lemma OtherDigestRefused(payload: seq<Hex.byte>, token: string, hmac: Hmac, digest: seq<Hex.byte>)
    requires digest != hmac(token, payload)
    ensures !ValidatePayload(payload, SignaturePrefix + Hex.Encode(digest), token, hmac)
  {
    var sig := SignaturePrefix + Hex.Encode(digest);
    assert sig[|SignaturePrefix|..] == Hex.Encode(digest);
    Hex.DecodeEncode(digest);
  }

  datatype Validation =
    | Validated(eventType: string, guid: string, payload: seq<Hex.byte>)
    | Invalid(err: AnyError)

  /** A POST carrying the event, delivery and signature headers. */
  predicate HeadersPresent(req: HookRequest)
  {
    && req.httpMethod == MethodPost
    && HeaderValue(req, HeaderGithubEvent) != ""
    && HeaderValue(req, HeaderGithubDelivery) != ""
    && HeaderValue(req, HeaderHubSignature) != ""
  }

  /** All the checks validate makes pass. */
  predicate Acceptable(req: HookRequest, token: string, hmac: Hmac)
  {
    && HeadersPresent(req)
    && HeaderValue(req, HeaderContentType) == ContentTypeJson
    && req.body.Ok?
    && ValidatePayload(req.body.value, HeaderValue(req, HeaderHubSignature), token, hmac)
  }

  /** validate: the checks in order, method, event header, delivery header,
      signature header, content type, body, signature; the first that fails
      decides the error. */
  function Validate(req: HookRequest, token: string, hmac: Hmac): (r: Validation)
    ensures r.Validated? <==> Acceptable(req, token, hmac)
    ensures r.Validated? ==>
      r == Validated(HeaderValue(req, HeaderGithubEvent), HeaderValue(req, HeaderGithubDelivery), req.body.value)
    ensures req.httpMethod != MethodPost ==> r == Invalid(Structured(MethodNotAllowed))
    ensures req.httpMethod == MethodPost && HeaderValue(req, HeaderGithubEvent) == "" ==>
      r == Invalid(Structured(MissingEventType))
    ensures req.httpMethod == MethodPost && HeaderValue(req, HeaderGithubEvent) != "" &&
            HeaderValue(req, HeaderGithubDelivery) == "" ==>
      r == Invalid(Structured(MissingDelivery))
    ensures req.httpMethod == MethodPost && HeaderValue(req, HeaderGithubEvent) != "" &&
            HeaderValue(req, HeaderGithubDelivery) != "" && HeaderValue(req, HeaderHubSignature) == "" ==>
      r == Invalid(Structured(MissingSignature))
    ensures HeadersPresent(req) && HeaderValue(req, HeaderContentType) != ContentTypeJson ==>
      r == Invalid(Structured(UnsupportedContentType))
    ensures HeadersPresent(req) && HeaderValue(req, HeaderContentType) == ContentTypeJson && req.body.Failure? ==>
      r == Invalid(Plain(req.body.err.message))
    ensures HeadersPresent(req) && HeaderValue(req, HeaderContentType) == ContentTypeJson && req.body.Ok? &&
            !ValidatePayload(req.body.value, HeaderValue(req, HeaderHubSignature), token, hmac) ==>
      r == Invalid(Structured(InvalidSignature))
    ensures r.Invalid? && r.err.Structured? ==>
      r.err.e.code in {StatusBadRequest, StatusForbidden, StatusMethodNotAllowed}
    ensures r.Invalid? && r.err.Plain? ==> req.body.Failure? && r.err.message == req.body.err.message
  {
    if req.httpMethod != MethodPost then Invalid(Structured(MethodNotAllowed))
    else
      var eventType := HeaderValue(req, HeaderGithubEvent);
      if eventType == "" then Invalid(Structured(MissingEventType))
      else
        var guid := HeaderValue(req, HeaderGithubDelivery);
        if guid == "" then Invalid(Structured(MissingDelivery))
        else
          var sig := HeaderValue(req, HeaderHubSignature);
          if sig == "" then Invalid(Structured(MissingSignature))
          else if HeaderValue(req, HeaderContentType) != ContentTypeJson then Invalid(Structured(UnsupportedContentType))
          else
            match req.body
            case Failure(e) => Invalid(Plain(e.message))
            case Ok(payload) =>
              if !ValidatePayload(payload, sig, token, hmac) then Invalid(Structured(InvalidSignature))
              else Validated(eventType, guid, payload)
  }

  /** A POST delivery carrying the event and delivery headers, a JSON body
      and the signature of its body passes validation with its body intact. */
  lemma SignedDeliveryValidated(eventType: string, guid: string, payload: seq<Hex.byte>, token: string, hmac: Hmac)
    requires eventType != "" && guid != ""
    ensures var req := HookRequest(MethodPost,
                                   map[HeaderGithubEvent := eventType, HeaderGithubDelivery := guid,
                                       HeaderHubSignature := SignaturePrefix + Hex.Encode(hmac(token, payload)),
                                       HeaderContentType := ContentTypeJson],
                                   Ok(payload));
      Validate(req, token, hmac) == Validated(eventType, guid, payload)
  {
    SignedPayloadValid(payload, token, hmac);
  }

  // ---------------------------------------------------------------------------
  // Dispatch

  datatype EventKind = PullRequestEvent | IssueCommentEvent | CreateEvent

  /** The event types with a handler. */
  function KindOf(eventType: string): (k: Option<EventKind>)
    ensures k == Some(PullRequestEvent) <==> eventType == "pull_request"
    ensures k == Some(IssueCommentEvent) <==> eventType == "issue_comment"
    ensures k == Some(CreateEvent) <==> eventType == "create"
  {
    if eventType == "pull_request" then Some(PullRequestEvent)
    else if eventType == "issue_comment" then Some(IssueCommentEvent)
    else if eventType == "create" then Some(CreateEvent)
    else None
  }

  /** A decoded event: the delivery it came with and its fields. */
  datatype GithubEvent = GithubEvent(guid: string, fields: map<string, string>)

  /** JSON decoding of a payload into the event structure of a kind. */
  type Decoder = (EventKind, seq<Hex.byte>) -> Result<GithubEvent>

  datatype Dispatch =
    | Started(kind: EventKind, event: GithubEvent)
    | Ignored
    | Rejected(err: AnyError)

  /** Dispatch: a validated delivery of a supported type is decoded, given
      the delivery's GUID and handed to the handler of its kind; other types
      are ignored. */
  function DispatchOutcome(req: HookRequest, token: string, hmac: Hmac, decode: Decoder): (d: Dispatch)
    ensures Validate(req, token, hmac).Invalid? ==> d == Rejected(Validate(req, token, hmac).err)
    ensures Validate(req, token, hmac).Validated? && KindOf(Validate(req, token, hmac).eventType).None? ==> d == Ignored
    ensures d.Started? <==>
      Validate(req, token, hmac).Validated? && KindOf(Validate(req, token, hmac).eventType).Some? &&
      decode(KindOf(Validate(req, token, hmac).eventType).value, req.body.value).Ok?
    ensures d.Started? ==>
      && Some(d.kind) == KindOf(HeaderValue(req, HeaderGithubEvent))
      && d.event.guid == HeaderValue(req, HeaderGithubDelivery)
      && d.event.fields == decode(d.kind, req.body.value).value.fields
    ensures d.Rejected? && Validate(req, token, hmac).Validated? ==>
      d.err == Structured(FailToUnmarshal(decode(KindOf(Validate(req, token, hmac).eventType).value, req.body.value).err.message))
  {
    match Validate(req, token, hmac)
    case Invalid(err) => Rejected(err)
    case Validated(eventType, guid, payload) =>
      match KindOf(eventType)
      case None => Ignored
      case Some(kind) =>
        match decode(kind, payload)
        case Failure(e) => Rejected(Structured(FailToUnmarshal(e.message)))
        case Ok(event) => Started(kind, event.(guid := guid))
  }

  /** The hook: the shared secret, and the handlers started so far, in order,
      each counted by the wait group until it finishes. */
  class Hook {
    const token: string
    var started: seq<(EventKind, GithubEvent)>

    constructor (token: string)
      ensures this.token == token && started == []
    {
      this.token := token;
      started := [];
    }

    /** Dispatch: the error returned, and one more handler started exactly
        when the delivery is a supported, decodable event. */
    method Dispatch(req: HookRequest, hmac: Hmac, decode: Decoder) returns (err: Option<AnyError>)
      modifies this
      ensures var d := DispatchOutcome(req, token, hmac, decode);
        && (err.Some? <==> d.Rejected?)
        && (err.Some? ==> err.value == d.err)
        && started == old(started) + (if d.Started? then [(d.kind, d.event)] else [])
    {
      var v := Validate(req, token, hmac);
      if v.Invalid? {
        return Some(v.err);
      }
      var kind := KindOf(v.eventType);
      if kind.None? {
        return None;
      }
      var decoded := decode(kind.value, v.payload);
      if decoded.Failure? {
        return Some(Structured(FailToUnmarshal(decoded.err.message)));
      }
      var event := decoded.value.(guid := v.guid);
      started := started + [(kind.value, event)];
      return None;
    }
  }
}
