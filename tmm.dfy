/** A client session for the 10MinuteMail disposable-mailbox service: session
    creation, expiry tracking, renewal, incremental message retrieval, reply
    and forward. Every network round trip is a parameter `net`, a function
    from the request the session builds to the outcome of sending it; the
    clock is a parameter `now`, in nanoseconds. */
module Tmm {
  import opened Net
  import opened Decimal

  // ---------------------------------------------------------------------------
  // Constants

  const BaseUrl := Url("https", "10minutemail.com", "")

  const EndpointAddress: Segment := "session/address"
  const EndpointReset: Segment := "session/reset"
  const EndpointMessagesAfter: Segment := "messages/messagesAfter"
  const EndpointMessageReply: Segment := "messages/reply"
  const EndpointMessageForward: Segment := "messages/forward"

  /** Name of the cookie that carries the session token. */
  const SessionCookieName := "JSESSIONID"

  /** The payload with which the server confirms a renewal. */
  const ResetSentinel := "reset"

  const StatusOK := 200
  const StatusForbidden := 403

  const Second := 1_000_000_000
  const Minute := 60 * Second
  /** How long a session lasts after it was created or last renewed. */
  const SessionLifetime := 10 * Minute

  const Int64Min := -0x8000_0000_0000_0000
  const Int64Max := 0x7fff_ffff_ffff_ffff
  const TwoTo64 := 0x1_0000_0000_0000_0000

  // ---------------------------------------------------------------------------
  // Errors and messages

  /** The error sentinels an operation can report; `None` is Go's nil error. */
  datatype ErrorKind =
    | BuildingRequest
    | RequestFailed
    | ReadBody
    | MarshalFailed
    | UnmarshalFailed
    | MissingSession
    | BlockedByServer

  /** One received email, as the server lists it. */
  datatype Message = Message(
    id: string,
    forwarded: bool,
    repliedTo: bool,
    sentDate: string,
    sentDateFormatted: string,
    sender: string,
    from: string,
    subject: string,
    plaintext: string,
    html: string,
    preview: string)

  // ---------------------------------------------------------------------------
  // 64-bit counters

  predicate InInt64(x: int) {
    Int64Min <= x <= Int64Max
  }

  /** Two's-complement wrap-around of an int64 addition. */
  function WrapInt64(x: int): (r: int)
    ensures InInt64(r)
    ensures (r - x) % TwoTo64 == 0
    ensures InInt64(x) ==> r == x
  {
    (x - Int64Min) % TwoTo64 + Int64Min
  }

  // ---------------------------------------------------------------------------
  // URL joining

  /** The base URL followed by `/seg` for every segment, in order; a base path
      of just `/` is absorbed by the first segment. */
  function JoinedUrl(base: Url, segs: seq<string>): string {
    Origin(base) + (if base.path == "/" && segs != [] then "" else base.path) + Slashed(segs)
  }

  /** `/s1/s2/.../sn` for segments `s1 .. sn`. */
  function Slashed(segs: seq<string>): string {
    if segs == [] then "" else Slashed(segs[..|segs| - 1]) + "/" + segs[|segs| - 1]
  }

  /** The path `join` has built from a clean base path `p` after joining `done`. */
  function PathAfter(p: string, done: seq<string>): string
    requires |Slashed(done)| >= 1 || done == []
  {
    if done == [] then p
    else if p == "" then Slashed(done)[1..]
    else (if p == "/" then "" else p) + Slashed(done)
  }

  /** A segment that neither is empty nor starts with `/`. */
  predicate Headed(s: string) {
    s != [] && s[0] != '/'
  }

  lemma {:induction false} SlashedShape(segs: seq<string>)
    requires segs != [] && Headed(segs[0])
    ensures |Slashed(segs)| >= 2 && Slashed(segs)[0] == '/' && Slashed(segs)[1] == segs[0][0]
  {
    if |segs| > 1 {
      SlashedShape(segs[..|segs| - 1]);
    }
  }

  lemma SlashedSnoc(done: seq<string>, seg: string)
    ensures Slashed(done + [seg]) == Slashed(done) + "/" + seg
  {
  }

  lemma PathAfterStep(p: string, done: seq<string>, seg: string)
    requires p == "" || p == "/" || (|p| >= 2 && p[0] == '/')
    requires done != [] ==> Headed(done[0])
    requires Headed(seg)
    ensures PathJoin(PathAfter(p, done), seg) == PathAfter(p, done + [seg])
  {
    SlashedSnoc(done, seg);
    if done == [] {
      assert Slashed(done + [seg]) == "/" + seg;
    } else {
      SlashedShape(done);
      PathAfterLaterStep(p, Slashed(done), seg);
    }
  }

  /** The step of `PathAfterStep` once a segment has been joined, with the
      `/`-joined segments so far abstracted to `tail`: `path.Join` appends
      `/seg` to the path built so far (dropping the leading `/` of `tail` only
      when the base path was empty). Kept apart from `PathAfterStep` so the
      solver does not see `Slashed` while proving it. */
  lemma PathAfterLaterStep(p: string, tail: string, seg: string)
    requires p == "" || p == "/" || (|p| >= 2 && p[0] == '/')
    requires |tail| >= 2 && tail[0] == '/' && tail[1] != '/'
    ensures PathJoin(if p == "" then tail[1..] else (if p == "/" then "" else p) + tail, seg)
         == (if p == "" then (tail + "/" + seg)[1..] else (if p == "/" then "" else p) + (tail + "/" + seg))
  {
  }

  lemma UrlOfPathAfter(base: Url, segs: seq<string>)
    requires base.host != ""
    requires base.path == "" || base.path == "/" || (|base.path| >= 2 && base.path[0] == '/')
    requires segs != [] ==> Headed(segs[0])
    ensures UrlString(Url(base.scheme, base.host, PathAfter(base.path, segs))) == JoinedUrl(base, segs)
  {
    var p := base.path;
    var origin := Origin(base);
    assert Origin(Url(base.scheme, base.host, PathAfter(p, segs))) == origin;
    if segs == [] {
      assert JoinedUrl(base, segs) == origin + p;
    } else {
      SlashedShape(segs);
      var tail := Slashed(segs);
      assert JoinedUrl(base, segs) == origin + (if p == "/" then "" else p) + tail;
      if p == "" {
        assert PathAfter(p, segs) == tail[1..];
        assert "/" + tail[1..] == tail;
      } else {
        assert PathAfter(p, segs) == (if p == "/" then "" else p) + tail;
      }
    }
  }

  /** `join(base, segs...)`: extends the base URL's path with each segment in
      turn and writes the URL back out. */
  method Join(base: Url, segs: seq<Segment>) returns (u: string)
    requires WellFormedBase(base)
    ensures u == JoinedUrl(base, segs)
    ensures segs == [] ==> u == UrlString(base)
  {
    var path := base.path;
    for i := 0 to |segs|
      invariant path == PathAfter(base.path, segs[..i])
    {
      assert Headed(segs[i]);
      PathAfterStep(base.path, segs[..i], segs[i]);
      assert segs[..i + 1] == segs[..i] + [segs[i]];
      path := PathJoin(path, segs[i]);
    }
    assert segs[..|segs|] == segs;
    UrlOfPathAfter(base, segs);
    u := UrlString(Url(base.scheme, base.host, path));
  }

  /** The cases exercised by the package's own tests of `join`. */
  lemma JoinExamples()
    ensures JoinedUrl(Url("https", "example.com", ""), []) == "https://example.com"
    ensures JoinedUrl(Url("https", "example.com", ""), ["mypath"]) == "https://example.com/mypath"
    ensures JoinedUrl(Url("https", "example.com", ""), ["one", "two", "three"])
            == "https://example.com/one/two/three"
  {
    assert ["one", "two", "three"][..2] == ["one", "two"];
    assert ["one", "two"][..1] == ["one"];
  }

  lemma FormatIntIsSimple(i: int)
    ensures SimpleSegment(FormatInt(i))
  {
  }

  // ---------------------------------------------------------------------------
  // Requests the session sends

  function SessionCookie(token: string): Cookie {
    Cookie(SessionCookieName, token)
  }

  function AddressRequest(): Request {
    Request(Get, JoinedUrl(BaseUrl, [EndpointAddress]), [], [], NoPayload)
  }

  function MessagesAfterRequest(base: Url, token: string, i: int): Request {
    Request(Get, JoinedUrl(base, [EndpointMessagesAfter, FormatInt(i)]), [SessionCookie(token)], [], NoPayload)
  }

  function ResetRequest(base: Url, token: string): Request {
    Request(Get, JoinedUrl(base, [EndpointReset]), [SessionCookie(token)], [], NoPayload)
  }

  function ReplyRequest(base: Url, token: string, messageId: string, body: string): Request {
    Request(Post, JoinedUrl(base, [EndpointMessageReply]), [SessionCookie(token)], [],
            ReplyEnvelope(messageId, body))
  }

  function ForwardRequest(base: Url, token: string, messageId: string, recipient: string): Request {
    Request(Post, JoinedUrl(base, [EndpointMessageForward]), [SessionCookie(token)],
            [Header("Content-Type", "application/json")], ForwardEnvelope(messageId, recipient))
  }

  // ---------------------------------------------------------------------------
  // Classifying outcomes

  /** How an authenticated GET (messages, reset) reports the outcome of its
      round trip: each failed step has its own error, a 403 answer is the
      blocked condition, and only a decoded body is error-free. */
  function Classify<T>(ex: Exchange<T>): (e: Option<ErrorKind>)
    ensures e == None <==> ex.Answered? && ex.status != StatusForbidden && ex.body.Decoded?
    ensures e == Some(BlockedByServer) <==> ex.Answered? && ex.status == StatusForbidden
    ensures e == Some(BuildingRequest) <==> ex.BuildFailed?
    ensures e == Some(RequestFailed) <==> ex.TransportFailed?
    ensures e == Some(ReadBody) <==> ex.Answered? && ex.status != StatusForbidden && ex.body.ReadFailed?
    ensures e == Some(UnmarshalFailed) <==> ex.Answered? && ex.status != StatusForbidden && ex.body.Undecodable?
  {
    match ex
    case BuildFailed => Some(BuildingRequest)
    case TransportFailed => Some(RequestFailed)
    case Answered(status, _, body) =>
      if status == StatusForbidden then Some(BlockedByServer)
      else match body
        case ReadFailed => Some(ReadBody)
        case Undecodable(_) => Some(UnmarshalFailed)
        case Decoded(_) => None
  }

  /** The message list a fetch hands back: nothing before decoding started,
      what the decoder filled in when it failed, the decoded list otherwise. */
  function Received(ex: Exchange<seq<Message>>): seq<Message> {
    if ex.Answered? && ex.status != StatusForbidden then
      match ex.body
      case ReadFailed => []
      case Undecodable(partial) => partial
      case Decoded(v) => v
    else []
  }

  /** True when the reset endpoint's decoded payload is exactly the sentinel. */
  predicate ConfirmsReset(ex: Exchange<string>) {
    ex.Answered? && ex.status != StatusForbidden && ex.body.Decoded? && ex.body.value == ResetSentinel
  }

  /** How reply and forward read the status of an answered POST: 200 is
      success, 403 is the blocked condition, anything else is a refusal that
      is not an error. */
  function StatusVerdict(status: int): (r: (bool, Option<ErrorKind>))
    ensures r.0 <==> status == StatusOK
    ensures r.1 == Some(BlockedByServer) <==> status == StatusForbidden
    ensures r.1 == None <==> status != StatusForbidden
  {
    if status == StatusOK then (true, None)
    else if status == StatusForbidden then (false, Some(BlockedByServer))
    else (false, None)
  }

  /** Whether session creation reads the cookies of its answer: only when the
      server answered, did not block, and the body could be read. */
  predicate ReadsCookies(ex: Exchange<string>) {
    ex.Answered? && ex.status != StatusForbidden && !ex.body.ReadFailed?
  }

  /** The error session creation reports, in the order it checks: any failure
      to get an answer, a 403, a body that cannot be read, no session token
      (with `oldToken` the token held before the cookies are read), then a
      body that does not decode. */
  function CreationError(ex: Exchange<string>, oldToken: string): (e: Option<ErrorKind>)
    ensures e == None <==>
      ex.Answered? && ex.status != StatusForbidden && ex.body.Decoded? &&
      LastValue(ex.cookies, SessionCookieName, oldToken) != ""
    ensures e == Some(RequestFailed) <==> !ex.Answered?
    ensures e == Some(BlockedByServer) <==> ex.Answered? && ex.status == StatusForbidden
    ensures e == Some(ReadBody) <==> ex.Answered? && ex.status != StatusForbidden && ex.body.ReadFailed?
    ensures e == Some(MissingSession) <==>
      ReadsCookies(ex) && LastValue(ex.cookies, SessionCookieName, oldToken) == ""
    ensures e == Some(UnmarshalFailed) <==>
      ReadsCookies(ex) && ex.body.Undecodable? && LastValue(ex.cookies, SessionCookieName, oldToken) != ""
    ensures e != Some(BuildingRequest) && e != Some(MarshalFailed)
  {
    if !ex.Answered? then Some(RequestFailed)
    else if ex.status == StatusForbidden then Some(BlockedByServer)
    else if ex.body.ReadFailed? then Some(ReadBody)
    else if LastValue(ex.cookies, SessionCookieName, oldToken) == "" then Some(MissingSession)
    else if ex.body.Undecodable? then Some(UnmarshalFailed)
    else None
  }

  /** The value of the last cookie named `name`, or `default` if there is none. */
  function LastValue(cs: seq<Cookie>, name: string, default: string): string {
    if cs == [] then default
    else if cs[|cs| - 1].name == name then cs[|cs| - 1].value
    else LastValue(cs[..|cs| - 1], name, default)
  }

  /** The token kept from a response's cookies is the value of the last cookie
      with the session name, whatever earlier cookies of that name held. */
  lemma {:induction false} LastValueIsLastMatch(cs: seq<Cookie>, name: string, default: string, j: int)
    requires 0 <= j < |cs| && cs[j].name == name
    requires forall k :: j < k < |cs| ==> cs[k].name != name
    ensures LastValue(cs, name, default) == cs[j].value
  {
    if j < |cs| - 1 {
      var init := cs[..|cs| - 1];
      assert forall k :: j < k < |init| ==> init[k] == cs[k];
      LastValueIsLastMatch(init, name, default, j);
    }
  }

  /** With no cookie of the session name, the previous token stays. */
  lemma {:induction false} LastValueWithoutMatch(cs: seq<Cookie>, name: string, default: string)
    requires forall k :: 0 <= k < |cs| ==> cs[k].name != name
    ensures LastValue(cs, name, default) == default
  {
    if cs != [] {
      var init := cs[..|cs| - 1];
      assert forall k :: 0 <= k < |init| ==> init[k] == cs[k];
      LastValueWithoutMatch(init, name, default);
    }
  }

  // ---------------------------------------------------------------------------
  // The session

  class Session {
    var address: string
    var token: string
    /** When the session was created or last renewed (nanoseconds). */
    var lastreset: int
    /** Index of the next message to fetch: the number of messages seen. */
    var lastcount: int
    var baseurl: Url

    ghost predicate Valid()
      reads this
    {
      InInt64(lastcount) && WellFormedBase(baseurl)
    }

    /** The freshly allocated session of `New`: the expiry baseline is taken
        before any request is made. */
    constructor (now: int)
      ensures Valid()
      ensures address == "" && token == "" && lastreset == now && lastcount == 0 && baseurl == BaseUrl
    {
      address := "";
      token := "";
      lastreset := now;
      lastcount := 0;
      baseurl := BaseUrl;
    }

    /** `newSession`: asks the service for a mailbox address. The token is
        taken from the response's cookies before the body is decoded; a
        missing token is reported before a bad body, and the address is
        written only when everything succeeded. */
    method Establish(net: Request -> Exchange<string>) returns (err: Option<ErrorKind>)
      requires Valid()
      modifies this`token, this`address
      ensures Valid()
      ensures err == CreationError(net(AddressRequest()), old(token))
      ensures var ex := net(AddressRequest());
        if !ex.Answered? then
          err == Some(RequestFailed) && token == old(token) && address == old(address)
        else if ex.status == StatusForbidden then
          err == Some(BlockedByServer) && token == old(token) && address == old(address)
        else if ex.body.ReadFailed? then
          err == Some(ReadBody) && token == old(token) && address == old(address)
        else
          token == LastValue(ex.cookies, SessionCookieName, old(token)) &&
          if token == "" then
            err == Some(MissingSession) && address == old(address)
          else if ex.body.Undecodable? then
            err == Some(UnmarshalFailed) && address == old(address)
          else
            err == None && address == ex.body.value
    {
      // The address request goes to the fixed service URL, not to `baseurl`.
      var u := Join(BaseUrl, [EndpointAddress]);
      var ex := net(Request(Get, u, [], [], NoPayload));
      if !ex.Answered? {
        // Building the request happens inside the client's Get, so it is
        // reported like a transport failure.
        return Some(RequestFailed);
      }
      if ex.status == StatusForbidden {
        return Some(BlockedByServer);
      }
      if ex.body.ReadFailed? {
        return Some(ReadBody);
      }
      var cookies := ex.cookies;
      for k := 0 to |cookies|
        invariant token == LastValue(cookies[..k], SessionCookieName, old(token))
        invariant address == old(address)
      {
        assert cookies[..k + 1][..k] == cookies[..k];
        if cookies[k].name == SessionCookieName {
          token := cookies[k].value;
        }
      }
      assert cookies[..|cookies|] == cookies;
      if token == "" {
        return Some(MissingSession);
      }
      if ex.body.Undecodable? {
        return Some(UnmarshalFailed);
      }
      address := ex.body.value;
      return None;
    }

    /** `New`: a session whose expiry baseline is the clock reading taken
        before the address request, initialised by `Establish`, whose error
        it passes on unchanged. Success implies a non-empty token; a failure
        leaves the address empty. */
    static method New(now: int, net: Request -> Exchange<string>) returns (s: Session, err: Option<ErrorKind>)
      ensures fresh(s) && s.Valid()
      ensures s.lastreset == now && s.lastcount == 0 && s.baseurl == BaseUrl
      ensures !s.Expired(now)
      ensures var ex := net(AddressRequest());
        (err == None <==> ex.Answered? && ex.status != StatusForbidden && ex.body.Decoded? &&
                          LastValue(ex.cookies, SessionCookieName, "") != "") &&
        (err == None ==> s.token == LastValue(ex.cookies, SessionCookieName, "") && s.address == ex.body.value)
      ensures err == None ==> s.token != ""
      ensures var ex := net(AddressRequest());
        err == CreationError(ex, "") &&
        s.token == (if ReadsCookies(ex) then LastValue(ex.cookies, SessionCookieName, "") else "")
      ensures err != None ==> s.address == ""
    {
      s := new Session(now);
      err := s.Establish(net);
    }

    /** The mailbox address; only session creation writes it. */
    function Address(): (a: string)
      reads this
      ensures a == address
    {
      address
    }

    /** The instant the session is due to expire. */
    function ExpiresAt(): (t: int)
      reads this
      ensures t - SessionLifetime == lastreset
    {
      lastreset + SessionLifetime
    }

    /** The session is expired once `now` is not strictly before its expiry
        instant. */
    function Expired(now: int): (expired: bool)
      reads this
      ensures expired <==> lastreset + SessionLifetime <= now
    {
      !(now < ExpiresAt())
    }

    /** `messages(i)`: fetches the messages after index `i`. Only a decoded
        list moves the cursor, to `i` plus its length (in int64 arithmetic);
        every failure leaves it where it was. */
    method MessagesFrom(i: int, net: Request -> Exchange<seq<Message>>) returns (m: seq<Message>, err: Option<ErrorKind>)
      requires Valid() && InInt64(i)
      modifies this`lastcount
      ensures Valid()
      ensures var ex := net(MessagesAfterRequest(baseurl, token, i));
        err == Classify(ex) && m == Received(ex) &&
        lastcount == (if err == None then WrapInt64(i + |m|) else old(lastcount))
    {
      m := [];
      FormatIntIsSimple(i);
      var u := Join(baseurl, [EndpointMessagesAfter, FormatInt(i)]);
      var ex := net(Request(Get, u, [SessionCookie(token)], [], NoPayload));
      if ex.BuildFailed? {
        return m, Some(BuildingRequest);
      }
      if ex.TransportFailed? {
        return m, Some(RequestFailed);
      }
      if ex.status == StatusForbidden {
        return m, Some(BlockedByServer);
      }
      if ex.body.ReadFailed? {
        return m, Some(ReadBody);
      }
      if ex.body.Undecodable? {
        return ex.body.partial, Some(UnmarshalFailed);
      }
      m := ex.body.value;
      lastcount := WrapInt64(i + |m|);
      return m, None;
    }

    /** All messages, from index 0; on success the cursor becomes the number
        of messages returned. */
    method Messages(net: Request -> Exchange<seq<Message>>) returns (m: seq<Message>, err: Option<ErrorKind>)
      requires Valid()
      modifies this`lastcount
      ensures Valid()
      ensures var ex := net(MessagesAfterRequest(baseurl, token, 0));
        err == Classify(ex) && m == Received(ex) &&
        lastcount == (if err == None then WrapInt64(|m|) else old(lastcount))
      ensures err == None && |m| <= Int64Max ==> lastcount == |m|
    {
      m, err := MessagesFrom(0, net);
    }

    /** Only the messages after the cursor; on success the cursor moves past
        the ones returned. */
    method Latest(net: Request -> Exchange<seq<Message>>) returns (m: seq<Message>, err: Option<ErrorKind>)
      requires Valid()
      modifies this`lastcount
      ensures Valid()
      ensures var ex := net(MessagesAfterRequest(baseurl, token, old(lastcount)));
        err == Classify(ex) && m == Received(ex) &&
        lastcount == (if err == None then WrapInt64(old(lastcount) + |m|) else old(lastcount))
    {
      m, err := MessagesFrom(lastcount, net);
    }

    /** `Renew`: asks the service to extend the session. Success needs the
        exact sentinel payload and then moves the expiry baseline to the clock
        reading taken at entry; any other outcome leaves it alone. */
    method Renew(now: int, net: Request -> Exchange<string>) returns (ok: bool, err: Option<ErrorKind>)
      requires Valid()
      modifies this`lastreset
      ensures Valid()
      ensures var ex := net(ResetRequest(baseurl, token));
        err == Classify(ex) && (ok <==> ConfirmsReset(ex)) &&
        lastreset == (if ok then now else old(lastreset))
      ensures ok ==> err == None && !Expired(now)
    {
      var resetAt := now;
      var u := Join(baseurl, [EndpointReset]);
      var ex := net(Request(Get, u, [SessionCookie(token)], [], NoPayload));
      if ex.BuildFailed? {
        return false, Some(BuildingRequest);
      }
      if ex.TransportFailed? {
        return false, Some(RequestFailed);
      }
      if ex.status == StatusForbidden {
        return false, Some(BlockedByServer);
      }
      if ex.body.ReadFailed? {
        return false, Some(ReadBody);
      }
      if ex.body.Undecodable? {
        return false, Some(UnmarshalFailed);
      }
      if ex.body.value != ResetSentinel {
        return false, None;
      }
      lastreset := resetAt;
      return true, None;
    }

    /** `Reply`: posts a reply envelope. `encoded` is whether encoding the
        envelope succeeded. Changes no field of the session. */
    method Reply(messageId: string, body: string, encoded: bool, net: Request -> Exchange<()>)
      returns (ok: bool, err: Option<ErrorKind>)
      requires Valid()
      ensures !encoded ==> !ok && err == Some(MarshalFailed)
      ensures encoded ==>
        var ex := net(ReplyRequest(baseurl, token, messageId, body));
        (ex.BuildFailed? ==> !ok && err == Some(BuildingRequest)) &&
        (ex.TransportFailed? ==> !ok && err == Some(RequestFailed)) &&
        (ex.Answered? ==> (ok, err) == StatusVerdict(ex.status))
    {
      if !encoded {
        return false, Some(MarshalFailed);
      }
      var u := Join(baseurl, [EndpointMessageReply]);
      var ex := net(Request(Post, u, [SessionCookie(token)], [], ReplyEnvelope(messageId, body)));
      if ex.BuildFailed? {
        return false, Some(BuildingRequest);
      }
      if ex.TransportFailed? {
        return false, Some(RequestFailed);
      }
      if ex.status == StatusOK {
        return true, None;
      } else if ex.status == StatusForbidden {
        return false, Some(BlockedByServer);
      } else {
        return false, None;
      }
    }

    /** `Forward`: posts a forward envelope, declared as JSON. A true result
        only means the server accepted the request. Changes no field of the
        session. */
    method Forward(messageId: string, recipient: string, encoded: bool, net: Request -> Exchange<()>)
      returns (ok: bool, err: Option<ErrorKind>)
      requires Valid()
      ensures !encoded ==> !ok && err == Some(MarshalFailed)
      ensures encoded ==>
        var ex := net(ForwardRequest(baseurl, token, messageId, recipient));
        (ex.BuildFailed? ==> !ok && err == Some(BuildingRequest)) &&
        (ex.TransportFailed? ==> !ok && err == Some(RequestFailed)) &&
        (ex.Answered? ==> (ok, err) == StatusVerdict(ex.status))
    {
      if !encoded {
        return false, Some(MarshalFailed);
      }
      var u := Join(baseurl, [EndpointMessageForward]);
      var ex := net(Request(Post, u, [SessionCookie(token)], [Header("Content-Type", "application/json")],
                            ForwardEnvelope(messageId, recipient)));
      if ex.BuildFailed? {
        return false, Some(BuildingRequest);
      }
      if ex.TransportFailed? {
        return false, Some(RequestFailed);
      }
      if ex.status == StatusOK {
        return true, None;
      } else if ex.status == StatusForbidden {
        return false, Some(BlockedByServer);
      } else {
        return false, None;
      }
    }
  }

  // ---------------------------------------------------------------------------
  // Properties of the session's state

  /** Expiry falls exactly at the baseline plus ten minutes, and once expired
      a session stays expired as the clock moves forward. */
  lemma ExpiryBoundary(s: Session, t: int, t': int)
    ensures !s.Expired(s.ExpiresAt() - 1) && s.Expired(s.ExpiresAt())
    ensures s.lastreset <= t < s.ExpiresAt() ==> !s.Expired(t)
    ensures t <= t' && s.Expired(t) ==> s.Expired(t')
  {
  }

  /** A two-segment URL is a prefix fixed by the base and the first segment,
      followed by the second segment. */
  lemma JoinedPair(base: Url, a: string, b: string)
    ensures JoinedUrl(base, [a, b]) == (Origin(base) + (if base.path == "/" then "" else base.path) + "/" + a + "/") + b
  {
    assert [a, b][..1] == [a];
    assert [a][..0] == [];
    assert Slashed([a]) == "/" + a;
    assert Slashed([a, b]) == "/" + a + "/" + b;
  }

  /** The request a fetch sends determines the index it asks for, so the
      fetch that follows `Messages` asks for exactly the number of messages
      it returned. */
  lemma MessagesAfterUrlDeterminesIndex(base: Url, i: int, j: int)
    requires JoinedUrl(base, [EndpointMessagesAfter, FormatInt(i)]) == JoinedUrl(base, [EndpointMessagesAfter, FormatInt(j)])
    ensures i == j
  {
    var e: string := EndpointMessagesAfter;
    var fi, fj := FormatInt(i), FormatInt(j);
    var pre := Origin(base) + (if base.path == "/" then "" else base.path) + "/" + e + "/";
    JoinedPair(base, e, fi);
    JoinedPair(base, e, fj);
    assert fi == (pre + fi)[|pre|..];
    assert fj == (pre + fj)[|pre|..];
    FormatIntInjective(i, j);
  }

  /** An int64 cursor that does not overflow is exactly the start index plus
      the number of messages. */
  lemma CursorWithoutOverflow(i: int, n: nat)
    requires InInt64(i) && i + n <= Int64Max
    ensures WrapInt64(i + n) == i + n
  {
  }
}
