/** The manifest server run inside the mario job (pkg/mario/mario.go): it
    hands the decoded manifest to the first caller that presents the bearer
    token and accepts one of the supported media types, then stops. Only the
    request handling is modelled; listening, shutdown and reading the
    manifest file are not. */
module MarioServer {
  import opened Api
  import opened HttpErrors
  import Keys

  const TokenType: string := "Bearer"

  // ---------------------------------------------------------------------------
  // Whitespace

  /** unicode.IsSpace: the white space characters strings.TrimSpace removes. */
  predicate IsSpace(c: char)
  {
    if c <= ' ' then c == ' ' || '\t' <= c <= '\r'
    else
      c == '\U{0085}' || c == '\U{00A0}' || c == '\U{1680}' || '\U{2000}' <= c <= '\U{200A}' ||
      c == '\U{2028}' || c == '\U{2029}' || c == '\U{202F}' || c == '\U{205F}' || c == '\U{3000}'
  }

  /** s without its leading white space. */
  function TrimLeft(s: string): (r: string)
    ensures |r| <= |s| && r == s[|s| - |r|..]
    ensures r == [] || !IsSpace(r[0])
    ensures forall i :: 0 <= i < |s| - |r| ==> IsSpace(s[i])
  {
    if s != [] && IsSpace(s[0]) then TrimLeft(s[1..]) else s
  }

  /** s without its trailing white space. */
  function TrimRight(s: string): (r: string)
    ensures |r| <= |s| && r == s[..|r|]
    ensures r == [] || !IsSpace(r[|r| - 1])
    ensures forall i :: |r| <= i < |s| ==> IsSpace(s[i])
  {
    if s != [] && IsSpace(s[|s| - 1]) then TrimRight(s[..|s| - 1]) else s
  }

  /** strings.TrimSpace: s without white space at either end. */
  function TrimSpace(s: string): (r: string)
    ensures |r| <= |s|
    ensures r == [] || (!IsSpace(r[0]) && !IsSpace(r[|r| - 1]))
    ensures (s == [] || (!IsSpace(s[0]) && !IsSpace(s[|s| - 1]))) ==> r == s
  {
    TrimRight(TrimLeft(s))
  }

  /** Trimming twice trims no more than trimming once. */
  lemma TrimSpaceIdempotent(s: string)
    ensures TrimSpace(TrimSpace(s)) == TrimSpace(s)
  {
  }

  // ---------------------------------------------------------------------------
  // The bearer token (section 2.1 of RFC 6750)

  datatype TokenCheck =
    | TokenAccepted
    | TokenRejected(message: string)
    /** A header holding no space whose trimmed text is the scheme: the source
        reads the missing second field and the handler panics. */
    | TokenIndexPanic

  /** i is the position of the first space of h. */
  predicate FirstSpace(h: string, i: int)
  {
    0 <= i < |h| && h[i] == ' ' && ' ' !in h[..i]
  }

  /** No space comes before the first one. */
  lemma NoSpaceBeforeFirst(h: string, i: int, j: int)
    requires FirstSpace(h, j) && 0 <= i < j
    ensures h[i] != ' '
  {
    assert h[..j][i] == h[i];
  }

  lemma FirstSpaceUnique(h: string, i: int, j: int)
    requires FirstSpace(h, i) && FirstSpace(h, j)
    ensures i == j
  {
    if i < j {
      NoSpaceBeforeFirst(h, i, j);
    } else if j < i {
      NoSpaceBeforeFirst(h, j, i);
    }
  }

  /** The header splits at its first space into exactly the scheme and the token, once trimmed. */
  ghost predicate Authorizes(header: string, token: string)
  {
    exists i :: FirstSpace(header, i) && TrimSpace(header[..i]) == TokenType && TrimSpace(header[i + 1..]) == token
  }

  /** checkToken: the Authorization header is split at its first space; the
      trimmed first part must be exactly the scheme and the trimmed rest
      exactly the configured token. */
  function CheckToken(header: string, token: string): (r: TokenCheck)
    ensures header == "" ==> r.TokenRejected?
  {
    if header == "" then TokenRejected("token is not found, please set token into Authorization header")
    else
      match Keys.IndexOf(header, ' ')
      case None =>
        var typ := TrimSpace(header);
        if typ != TokenType then TokenRejected("bad token format, invalid token type, expected: " + TokenType + ", actual: " + typ)
        else TokenIndexPanic
      case Some(i) =>
        var typ := TrimSpace(header[..i]);
        if typ != TokenType then TokenRejected("bad token format, invalid token type, expected: " + TokenType + ", actual: " + typ)
        else if TrimSpace(header[i + 1..]) != token then TokenRejected("token is not equal")
        else TokenAccepted
  }

  /** The header is accepted exactly when it splits into the scheme and the token. */
  lemma CheckTokenAccepts(header: string, token: string)
    ensures CheckToken(header, token).TokenAccepted? <==> Authorizes(header, token)
  {
    if header != "" && ' ' in header {
      var i := Keys.IndexOf(header, ' ').value;
      assert FirstSpace(header, i);
      forall j | FirstSpace(header, j)
        ensures j == i
      {
        FirstSpaceUnique(header, i, j);
      }
    }
  }

  /** The first space of a header that starts with a six-letter scheme
      and a space is the one after the scheme. */
  lemma SchemeSpace(h: string, scheme: string, rest: string)
    requires |scheme| == 6 && ' ' !in scheme && h == scheme + " " + rest
    ensures Keys.IndexOf(h, ' ') == Some(6) && h[..6] == scheme && h[7..] == rest
  {
    assert h[6] == ' ' && h[..6] == scheme;
    var k := Keys.IndexOf(h, ' ').value;
    assert forall m :: 0 <= m < 6 ==> h[m] == scheme[m];
  }

  /** The check stops short of the token (the source indexes a second
      field that is not there) exactly when the header holds no space and
      is the bare scheme. */
  lemma CheckTokenPanics(header: string, token: string)
    ensures CheckToken(header, token).TokenIndexPanic? <==>
            header != "" && ' ' !in header && TrimSpace(header) == TokenType
  {
    if header != "" && ' ' in header {
      var i := Keys.IndexOf(header, ' ').value;
      assert header[i] == ' ';
    }
  }

  /** The scheme has no white space at its ends. */
  lemma SchemeTrimmed()
    ensures TrimSpace(TokenType) == TokenType
  {
    assert !IsSpace(TokenType[0]) && !IsSpace(TokenType[|TokenType| - 1]);
  }

  /** The header a client builds from the scheme and the token is accepted,
      whenever the token has no white space at its ends. */
  lemma BearerHeaderAccepted(token: string)
    requires token == TrimSpace(token)
    ensures CheckToken(TokenType + " " + token, token) == TokenAccepted
  {
    var h := TokenType + " " + token;
    SchemeSpace(h, TokenType, token);
    SchemeTrimmed();
  }

  /** The scheme is compared exactly: a lower-case "bearer" is refused. */
  lemma SchemeIsCaseSensitive(token: string)
    ensures CheckToken("bearer " + token, token).TokenRejected?
  {
    var h := "bearer " + token;
    SchemeSpace(h, "bearer", token);
    assert !IsSpace('b') && !IsSpace('r');
    assert TrimSpace(h[..6]) == "bearer" != TokenType;
  }

  // ---------------------------------------------------------------------------
  // Media type negotiation (section 5.3.2 of RFC 7231)

  /** One clause of a parsed Accept header. */
  datatype Clause = Clause(typ: string, subType: string)

  /** A media type the server can encode to. */
  datatype SerializerInfo = SerializerInfo(mediaType: string, typ: string, subType: string)

  // A clause admits a serializer by exact type and subtype, by "type/*", or by "*/*".
  predicate Admits(c: Clause, s: SerializerInfo)
  {
    (c.typ == s.typ && c.subType == s.subType) || (c.typ == s.typ && c.subType == "*") || (c.typ == "*" && c.subType == "*")
  }

  /** Clause k admits serializer j, no clause from `from` on before k admits
      any serializer, and no serializer before j is admitted by clause k. */
  predicate Preferred(clauses: seq<Clause>, accepted: seq<SerializerInfo>, from: nat, k: nat, j: nat)
  {
    && from <= k < |clauses| && j < |accepted| && Admits(clauses[k], accepted[j])
    && (forall k' :: from <= k' < k ==> forall j' :: 0 <= j' < |accepted| ==> !Admits(clauses[k'], accepted[j']))
    && (forall j' :: 0 <= j' < j ==> !Admits(clauses[k], accepted[j']))
  }

  /** The first serializer from index j on that the clause admits. */
  function FirstAdmitted(c: Clause, accepted: seq<SerializerInfo>, j: nat): (r: Option<nat>)
    requires j <= |accepted|
    ensures r.Some? ==> j <= r.value < |accepted| && Admits(c, accepted[r.value]) &&
                        forall j' :: j <= j' < r.value ==> !Admits(c, accepted[j'])
    ensures r.None? <==> forall j' :: j <= j' < |accepted| ==> !Admits(c, accepted[j'])
    decreases |accepted| - j
  {
    if j == |accepted| then None
    else if Admits(c, accepted[j]) then Some(j)
    else FirstAdmitted(c, accepted, j + 1)
  }

  datatype Choice = Choice(clause: nat, serializer: nat)

  /** No clause from index k on admits any serializer. */
  predicate NoneAdmitted(clauses: seq<Clause>, accepted: seq<SerializerInfo>, k: nat)
  {
    forall k', j' :: k <= k' < |clauses| && 0 <= j' < |accepted| ==> !Admits(clauses[k'], accepted[j'])
  }

  /** Clauses in order from index k, then serializers in order. */
  function Negotiate(clauses: seq<Clause>, accepted: seq<SerializerInfo>, k: nat): (r: Option<Choice>)
    requires k <= |clauses|
    ensures r.Some? ==> Preferred(clauses, accepted, k, r.value.clause, r.value.serializer)
    ensures r.None? <==> NoneAdmitted(clauses, accepted, k)
    decreases |clauses| - k
  {
    if k == |clauses| then None
    else
      match FirstAdmitted(clauses[k], accepted, 0)
      case Some(j) => Some(Choice(k, j))
      case None => Negotiate(clauses, accepted, k + 1)
  }

  /** The choice Preferred describes is unique. */
  lemma PreferredUnique(clauses: seq<Clause>, accepted: seq<SerializerInfo>, from: nat, k1: nat, j1: nat, k2: nat, j2: nat)
    requires Preferred(clauses, accepted, from, k1, j1) && Preferred(clauses, accepted, from, k2, j2)
    ensures k1 == k2 && j1 == j2
  {
  }

  /** isAcceptable: the index of the serializer to answer with. An empty
      header takes the first serializer; otherwise the preferred one. */
  function IsAcceptable(header: string, accepted: seq<SerializerInfo>, parseAccept: string -> seq<Clause>)
    : (r: Option<nat>)
    ensures header == "" && accepted != [] ==> r == Some(0)
    ensures !(header == "" && accepted != []) ==>
      && (r.Some? ==> exists k :: Preferred(parseAccept(header), accepted, 0, k, r.value))
      && (r.None? <==> NoneAdmitted(parseAccept(header), accepted, 0))
  {
    if header == "" && accepted != [] then Some(0)
    else
      var clauses := parseAccept(header);
      match Negotiate(clauses, accepted, 0)
      case None => None
      case Some(c) => assert Preferred(clauses, accepted, 0, c.clause, c.serializer); Some(c.serializer)
  }

  // A leading "*/*" clause takes the first serializer.
  lemma WildcardTakesFirst(header: string, accepted: seq<SerializerInfo>, parseAccept: string -> seq<Clause>)
    requires accepted != [] && parseAccept(header) != [] && parseAccept(header)[0] == Clause("*", "*")
    ensures IsAcceptable(header, accepted, parseAccept) == Some(0)
  {
    if header != "" {
      var clauses := parseAccept(header);
      var r := IsAcceptable(header, accepted, parseAccept);
      var k :| Preferred(clauses, accepted, 0, k, r.value);
      PreferredUnique(clauses, accepted, 0, k, r.value, 0, 0);
    }
  }

  // ---------------------------------------------------------------------------
  // Errors

  function Unauthorized(message: string): HttpError
  {
    HttpError(StatusUnauthorized, "Unauthorized", [message])
  }

  /** The reason string is spelled as in the source. */
  const HasBeenConsumed: HttpError := HttpError(StatusUnprocessableEntity, "HasBeenConumsed", [])

  function NotAcceptable(mediaTypes: seq<string>): HttpError
  {
    HttpError(StatusNotAcceptable, "NotAcceptable", mediaTypes)
  }

  function EncodingFailed(message: string): HttpError
  {
    HttpError(StatusInternalServerError, "FailedToEncode", [message])
  }

  /** unwarp: a structured error as it is; any other error as an internal
      error carrying its message. */
  function Unwrap(err: AnyError): (e: HttpError)
    ensures err.Structured? ==> e == err.e
    ensures err.Plain? ==> e.code == StatusInternalServerError && e.reason == "Unknown" && e.detail == [err.message]
  {
    match err
    case Structured(e) => e
    case Plain(m) => HttpError(StatusInternalServerError, "Unknown", [m])
  }

  // ---------------------------------------------------------------------------
  // Handling a request

  datatype Request = Request(authorization: string, accept: string)

  /** The codecs of the scheme: the media types it supports, in order, the
      Accept header parser, and the encoder of the manifest to one of them,
      which may fail. */
  datatype Codecs = Codecs(supported: seq<SerializerInfo>, parseAccept: string -> seq<Clause>,
                           encode: (SerializerInfo, Mario) -> Option<Err>)

  datatype Reply =
    | Refused(error: HttpError)
    /** The handler panicked; the HTTP server drops the connection. */
    | Aborted
    | Encoded(serializer: nat)
    | EncodeFailed(serializer: nat, error: HttpError)

  /** The manifest was handed out (or its encoding attempted): the request consumed it. */
  predicate Consumed(r: Reply)
  {
    r.Encoded? || r.EncodeFailed?
  }

  /** The media types of the supported serializers, in order. */
  function MediaTypes(supported: seq<SerializerInfo>): (r: seq<string>)
    ensures |r| == |supported| && forall i :: 0 <= i < |r| ==> r[i] == supported[i].mediaType
  {
    if supported == [] then [] else MediaTypes(supported[..|supported| - 1]) + [supported[|supported| - 1].mediaType]
  }

  /** The reply to one request, given the number of requests served so far:
      the token is checked first, then the media type, then consumption. */
  function Respond(counter: int, token: string, manifest: Mario, codecs: Codecs, req: Request): (r: Reply)
    ensures Consumed(r) ==> counter == 0
  {
    match CheckToken(req.authorization, token)
    case TokenRejected(m) => Refused(Unauthorized(m))
    case TokenIndexPanic => Aborted
    case TokenAccepted =>
      match IsAcceptable(req.accept, codecs.supported, codecs.parseAccept)
      case None => Refused(NotAcceptable(MediaTypes(codecs.supported)))
      case Some(i) =>
        if counter != 0 then Refused(HasBeenConsumed)
        else
          match codecs.encode(codecs.supported[i], manifest)
          case None => Encoded(i)
          case Some(e) => EncodeFailed(i, EncodingFailed(e.message))
  }

  /** The order of the checks: token, media type, consumption; the manifest
      is consumed exactly when all three pass. */
  lemma RespondChecks(counter: int, token: string, manifest: Mario, codecs: Codecs, req: Request)
    ensures var r := Respond(counter, token, manifest, codecs, req);
      var check := CheckToken(req.authorization, token);
      var info := IsAcceptable(req.accept, codecs.supported, codecs.parseAccept);
      && (check.TokenRejected? ==> r == Refused(Unauthorized(check.message)))
      && (check.TokenIndexPanic? <==> r.Aborted?)
      && (check.TokenAccepted? && info.None? ==> r == Refused(NotAcceptable(MediaTypes(codecs.supported))))
      && (check.TokenAccepted? && info.Some? && counter != 0 ==> r == Refused(HasBeenConsumed))
      && (Consumed(r) <==> check.TokenAccepted? && info.Some? && counter == 0)
      && (Consumed(r) ==>
            && r.serializer == info.value && r.serializer < |codecs.supported|
            && (r.EncodeFailed? <==> codecs.encode(codecs.supported[r.serializer], manifest).Some?))
  {
  }

  /** How a server answers one request, given the count of requests that
      consumed the manifest so far. */
  type Responder = (int, Request) -> Reply

  /** A responder that consumes the manifest only while the count is zero. */
  ghost predicate ConsumesOnlyFresh(respond: Responder)
  {
    forall c, q :: Consumed(respond(c, q)) ==> c == 0
  }

  /** The replies to a series of requests, starting from a count. */
  function Replies(counter: int, respond: Responder, reqs: seq<Request>): (rs: seq<Reply>)
    ensures |rs| == |reqs|
    decreases |reqs|
  {
    if reqs == [] then []
    else
      var r := respond(counter, reqs[0]);
      [r] + Replies(if Consumed(r) then counter + 1 else counter, respond, reqs[1..])
  }

  predicate NoneConsumed(rs: seq<Reply>)
  {
    forall i :: 0 <= i < |rs| ==> !Consumed(rs[i])
  }

  predicate AtMostOneConsumed(rs: seq<Reply>)
  {
    forall i, j :: 0 <= i < j < |rs| && Consumed(rs[i]) ==> !Consumed(rs[j])
  }

  /** Once the count has moved, no request consumes the manifest. */
  lemma {:induction false} NoneConsumedAfter(counter: int, respond: Responder, reqs: seq<Request>)
    requires counter > 0 && ConsumesOnlyFresh(respond)
    ensures NoneConsumed(Replies(counter, respond, reqs))
    decreases |reqs|
  {
    if reqs != [] {
      var r := respond(counter, reqs[0]);
      assert !Consumed(r);
      var tail := Replies(counter, respond, reqs[1..]);
      var rs := Replies(counter, respond, reqs);
      assert rs == [r] + tail;
      NoneConsumedAfter(counter, respond, reqs[1..]);
      assert forall i :: 0 <= i < |tail| ==> !Consumed(tail[i]);
      assert forall i :: 0 < i < |rs| ==> rs[i] == tail[i - 1];
    }
  }

  /** Whatever the requests, at most one of them consumes the manifest. */
  lemma {:induction false} ConsumedAtMostOnce(counter: nat, respond: Responder, reqs: seq<Request>)
    requires ConsumesOnlyFresh(respond)
    ensures AtMostOneConsumed(Replies(counter, respond, reqs))
    decreases |reqs|
  {
    if reqs != [] {
      var r := respond(counter, reqs[0]);
      assert Consumed(r) ==> counter == 0;
      var next := if Consumed(r) then counter + 1 else counter;
      var tail := Replies(next, respond, reqs[1..]);
      var rs := Replies(counter, respond, reqs);
      assert rs == [r] + tail;
      ConsumedAtMostOnce(next, respond, reqs[1..]);
      assert forall i, j :: 0 <= i < j < |tail| && Consumed(tail[i]) ==> !Consumed(tail[j]);
      if Consumed(r) {
        NoneConsumedAfter(next, respond, reqs[1..]);
        assert forall i :: 0 <= i < |tail| ==> !Consumed(tail[i]);
      }
      forall i, j | 0 <= i < j < |rs| && Consumed(rs[i])
        ensures !Consumed(rs[j])
      {
        assert rs[j] == tail[j - 1];
        if i == 0 {
          assert rs[i] == r;
        } else {
          assert rs[i] == tail[i - 1];
        }
      }
    }
  }

  /** A freshly started server hands the manifest out at most once, whatever
      requests reach it. */
  lemma ServerConsumesAtMostOnce(token: string, manifest: Mario, codecs: Codecs, reqs: seq<Request>)
    ensures AtMostOneConsumed(Replies(0, (c, q) => Respond(c, token, manifest, codecs, q), reqs))
  {
    ConsumedAtMostOnce(0, (c, q) => Respond(c, token, manifest, codecs, q), reqs);
  }

  /** The server: the configured token, the codecs, the manifest decoded at
      start-up, the count of requests that consumed it, and whether the stop
      channel has been closed. */
  class Server {
    const token: string
    const codecs: Codecs
    const manifest: Mario
    var counter: int
    var stopped: bool

    /** The stop channel is closed exactly when the manifest has been consumed, once. */
    predicate Valid()
      reads this
    {
      (counter == 0 && !stopped) || (counter == 1 && stopped)
    }

    constructor (token: string, codecs: Codecs, manifest: Mario)
      ensures Valid() && counter == 0 && !stopped
      ensures this.token == token && this.codecs == codecs && this.manifest == manifest
    {
      this.token := token;
      this.codecs := codecs;
      this.manifest := manifest;
      counter := 0;
      stopped := false;
    }

    /** handleFunc: the reply to one request, counting it and closing the
        stop channel when it consumes the manifest. */
    method Handle(req: Request) returns (reply: Reply)
      requires Valid()
      modifies this
      ensures Valid()
      ensures reply == Respond(old(counter), token, manifest, codecs, req)
      ensures counter == (if Consumed(reply) then old(counter) + 1 else old(counter))
      ensures stopped == (old(stopped) || Consumed(reply))
      ensures Consumed(reply) ==> !old(stopped)
    {
      var check := CheckToken(req.authorization, token);
      if check.TokenIndexPanic? {
        return Aborted;
      } else if check.TokenRejected? {
        return Refused(Unauthorized(check.message));
      }
      var info := IsAcceptable(req.accept, codecs.supported, codecs.parseAccept);
      if info.None? {
        var mediaTypes: seq<string> := [];
        var i := 0;
        while i < |codecs.supported|
          invariant 0 <= i <= |codecs.supported|
          invariant mediaTypes == MediaTypes(codecs.supported[..i])
        {
          assert codecs.supported[..i + 1][..i] == codecs.supported[..i];
          mediaTypes := mediaTypes + [codecs.supported[i].mediaType];
          i := i + 1;
        }
        assert codecs.supported[..i] == codecs.supported;
        return Refused(NotAcceptable(mediaTypes));
      }
      if counter != 0 {
        return Refused(HasBeenConsumed);
      }
      counter := counter + 1;
      var s := codecs.supported[info.value];
      var err := codecs.encode(s, manifest);
      if err.Some? {
        reply := EncodeFailed(info.value, EncodingFailed(err.value.message));
      } else {
        reply := Encoded(info.value);
      }
      stopped := true;
    }
  }
}
