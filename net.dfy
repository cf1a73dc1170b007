/** The collaborators the session talks to, reduced to values: the request it
    builds, the outcome of one HTTP round trip (with the body already read and
    decoded, or the step at which that failed), and the part of URL handling
    (`net/url` and `path.Join`) that the session's own `join` relies on. */
module Net {

  datatype Option<+T> = None | Some(value: T)

  /** A cookie, reduced to what the session reads or sends: its name and value. */
  datatype Cookie = Cookie(name: string, value: string)

  datatype Header = Header(key: string, value: string)

  datatype Verb = Get | Post

  /** The JSON envelope a POST carries, before it is encoded. */
  datatype Payload =
    | NoPayload
    | ReplyEnvelope(messageId: string, replyBody: string)
    | ForwardEnvelope(messageId: string, forwardAddress: string)

  datatype Request = Request(verb: Verb, url: string, cookies: seq<Cookie>, headers: seq<Header>, payload: Payload)

  /** What became of a response body: reading it failed, decoding it failed
      (leaving whatever the decoder had filled in so far), or it decoded. */
  datatype Body<T> = ReadFailed | Undecodable(partial: T) | Decoded(value: T)

  /** The outcome of one round trip: the request object could not be built,
      the client could not complete the exchange, or the server answered with
      a status code, a list of cookies and a body. */
  datatype Exchange<T> =
    | BuildFailed
    | TransportFailed
    | Answered(status: int, cookies: seq<Cookie>, body: Body<T>)

  /** A parsed absolute URL: scheme, host and path. */
  datatype Url = Url(scheme: string, host: string, path: string)

  /** Characters that may appear in a path without being percent-escaped. */
  predicate PathChar(c: char) {
    'a' <= c <= 'z' || 'A' <= c <= 'Z' || '0' <= c <= '9' ||
    c == '-' || c == '_' || c == '~' || c == '.' || c == '/'
  }

  /** The character at `k` may stand there in a simple segment: it is
      unreserved, a `/` does not follow another `/`, and a `.` that starts a
      component does not make that component `.` or `..`. */
  predicate SegmentAt(s: string, k: int)
    requires 0 <= k < |s|
  {
    PathChar(s[k]) &&
    (s[k] == '/' ==> 0 < k && s[k - 1] != '/') &&
    (s[k] == '.' && (k == 0 || s[k - 1] == '/') ==>
       !(k + 1 == |s| || s[k + 1] == '/' || (s[k + 1] == '.' && (k + 2 == |s| || s[k + 2] == '/'))))
  }

  /** A relative path that `path.Join` leaves as it is and that the URL
      serializer does not escape: non-empty, no leading, trailing or doubled
      `/`, no `.` or `..` component, only unreserved characters. */
  predicate SimpleSegment(s: string) {
    s != [] && s[0] != '/' && s[|s| - 1] != '/' &&
    forall k :: 0 <= k < |s| ==> SegmentAt(s, k)
  }

  /** A path segment `join` can take. */
  type Segment = s: string | SimpleSegment(s) witness "a"

  /** The path of a base URL that is already in clean form. */
  predicate CleanRootPath(p: string) {
    p == "" || p == "/" || (|p| >= 2 && p[0] == '/' && SimpleSegment(p[1..]))
  }

  predicate WellFormedBase(u: Url) {
    u.scheme != "" && u.host != "" && CleanRootPath(u.path)
  }

  function Origin(u: Url): string {
    u.scheme + "://" + u.host
  }

  /** `URL.String` for a URL with a host: a relative path is written with a
      leading `/`. */
  function UrlString(u: Url): (s: string)
    ensures |s| >= |Origin(u)| && s[..|Origin(u)|] == Origin(u)
    ensures s[|Origin(u)|..] == u.path || s[|Origin(u)|..] == "/" + u.path
    ensures u.host != "" && u.path != "" ==> s[|Origin(u)|] == '/'
    ensures u.path == "" || u.path[0] == '/' ==> s == Origin(u) + u.path
  {
    Origin(u) + (if u.path != "" && u.path[0] != '/' && u.host != "" then "/" + u.path else u.path)
  }

  /** `path.Join(p, seg)` for a clean `p` and a simple `seg`: the segment is
      appended after exactly one `/`, and an empty `p` gives the segment
      alone. */
  function PathJoin(p: string, seg: string): string {
    if p == "" then seg
    else if p == "/" then "/" + seg
    else p + "/" + seg
  }

  /** A simple segment followed by `/` and another simple segment is simple. */
  lemma {:induction false} SimpleSegmentConcat(q: string, seg: string)
    requires SimpleSegment(q) && SimpleSegment(seg)
    ensures SimpleSegment(q + "/" + seg)
  {
    var t := q + "/" + seg;
    forall k | 0 <= k < |t|
      ensures SegmentAt(t, k)
    {
      if k < |q| {
        assert SegmentAt(q, k);
      } else if k > |q| {
        var j := k - |q| - 1;
        assert SegmentAt(seg, j);
        assert t[k] == seg[j];
        assert j + 1 < |seg| ==> t[k + 1] == seg[j + 1];
        assert j + 2 < |seg| ==> t[k + 2] == seg[j + 2];
        assert j > 0 ==> t[k - 1] == seg[j - 1];
      }
    }
  }

  /** Joining a simple segment onto a clean path gives a clean path (the
      segment itself for an empty path) that ends in that segment, so
      `path.Join` has nothing left to clean. */
  lemma PathJoinStaysClean(p: string, seg: string)
    requires CleanRootPath(p) && SimpleSegment(seg)
    ensures p == "" ==> PathJoin(p, seg) == seg
    ensures p != "" ==> CleanRootPath(PathJoin(p, seg))
    ensures |PathJoin(p, seg)| > |seg| ==> PathJoin(p, seg)[|PathJoin(p, seg)| - |seg| - 1..] == "/" + seg
  {
    if p != "" && p != "/" {
      SimpleSegmentConcat(p[1..], seg);
      assert PathJoin(p, seg)[1..] == p[1..] + "/" + seg;
    }
  }
}
