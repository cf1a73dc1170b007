# tmm: a verified model of the 10MinuteMail session client

This project models the session client of the Go package `tmm`, a client for
the 10MinuteMail disposable-mailbox service. A `Session` holds a mailbox
address, the `JSESSIONID` session token, the clock reading of the last reset
(`lastreset`) and the message cursor (`lastcount`). The operations are:
- `New`/`newSession` create the session.
- `Address`, `ExpiresAt` and `Expired` read it.
- `Renew` extends it.
- `Messages`, `Latest` and the internal `messages(i)` fetch mail.
- `Reply` and `Forward` act on a message.
- `join` builds every request URL.

Three modules:

- `Net` (`net.dfy`): the collaborators reduced to values.
  - A `Request` is the verb, URL, cookies, headers and JSON envelope that the session builds.
  - An `Exchange<T>` is the outcome of one round trip: the request could not be built, the transport failed, or the server answered with a status, cookies and a body. The body either could not be read, did not decode (keeping what the decoder had filled in), or decoded to a `T`.
  - It also holds the part of `net/url` and `path.Join` that `join` relies on.
- `Decimal` (`decimal.dfy`): `strconv.FormatInt(i, 10)`, which writes the cursor into the URL, with its inverse.
- `Tmm` (`tmm.dfy`): the error kinds, `Message`, the `Session` class and `join`.

Every network call is a parameter `net: Request -> Exchange<T>`, a function of the request actually built. So each contract states both how the outcome is classified and which request was sent. The clock (`time.Now()`) is a parameter `now` in nanoseconds. Go's `nil` error is `None` and each error sentinel is an `ErrorKind`.

Three behaviours of the code worth noting:
- The cursor is not monotonic: `Messages` resets it to `0 + n` (tmm.go:183, tmm.go:233).
- `Renew` does not replace the token. It only moves `lastreset` (tmm.go:291-292).
- `newSession` sends its request to the constant base URL, not to the session's `baseurl` (tmm.go:122).

## Model

| member | source | states |
|---|---|---|
| `Tmm.Session.constructor` | tmm.go:91-101 | a new session has empty address and token, cursor 0, the service base URL, and the expiry baseline taken before any request |
| `Tmm.Session.Establish` | tmm.go:120-157 | classification in source order: a request failure (including a build failure inside `Get`), then 403 blocked, then a body-read failure. Each leaves token and address alone. Otherwise the token becomes the last `JSESSIONID` cookie's value. An empty token gives MissingSession before decoding. The address is written only when the body decodes. The error is `CreationError` of the outcome, from the token held before |
| `Tmm.CreationError` | tmm.go:122-153 | the error of session creation, in the order it is checked: RequestFailed when there is no answer, BlockedByServer on 403, ReadBody when the body cannot be read, MissingSession when the last `JSESSIONID` cookie leaves the token empty, UnmarshalFailed when the body does not decode. No error exactly when the body decodes and the token is non-empty. Creation never reports BuildingRequest or MarshalFailed |
| `Tmm.Session.New` | tmm.go:90-116 | a fresh session with `lastreset == now` and `lastcount == 0` that is not yet expired. Its error is `CreationError` of the address request's outcome, passed on unchanged from `newSession`. The token is the last `JSESSIONID` value when the cookies were read, empty otherwise. On success the token is non-empty and the address is the decoded one; on failure the address is empty |
| `Tmm.LastValueIsLastMatch` | tmm.go:139-143 | the token loop keeps the value of the last cookie named `JSESSIONID`, whatever earlier ones held |
| `Tmm.LastValueWithoutMatch` | tmm.go:139-146 | with no `JSESSIONID` cookie the token keeps its previous (empty) value, so creation reports MissingSession |
| `Tmm.Session.Address` | tmm.go:159-162 | returns the stored address. Only `Establish` writes it: every other method's frame excludes `address` |
| `Tmm.Session.ExpiresAt` | tmm.go:170-174 | the expiry instant lies exactly ten minutes after `lastreset` |
| `Tmm.Session.Expired` | tmm.go:164-168 | expired exactly when `now >= lastreset + 10 min`, i.e. `now` is not strictly before the expiry instant |
| `Tmm.ExpiryBoundary` | tmm.go:164-174 | not expired one nanosecond before the expiry instant, expired at it, never expired inside the window, and stays expired as time advances |
| `Tmm.Classify` | tmm.go:196-230 | a GET's error depends on the step that failed: build, transport, 403 (blocked, not a transport error), read, decode. There is no error only for a decoded body |
| `Tmm.Session.MessagesFrom` | tmm.go:192-236 | requests `messagesAfter/<i>` with the session cookie. The error is the classified outcome. It returns the decoded (or partially decoded) list. A success sets the cursor to `i + len` in int64 arithmetic. Every failure leaves the cursor unchanged |
| `Tmm.Session.Messages` | tmm.go:176-184 | fetches from index 0. On success the cursor equals the number of messages returned |
| `Tmm.Session.Latest` | tmm.go:186-190 | fetches from the current cursor. On success the cursor moves past the messages returned; on failure it stays |
| `Tmm.MessagesAfterUrlDeterminesIndex` | tmm.go:196 | two fetch URLs are equal only for equal indices, so the fetch after `Messages` asks for exactly the index it left behind |
| `Tmm.WrapInt64` | tmm.go:233 | the int64 sum is the true sum reduced into the int64 range modulo 2^64, and equals it when it fits |
| `Tmm.CursorWithoutOverflow` | tmm.go:233 | without overflow the new cursor is exactly start index plus message count |
| `Tmm.Session.Renew` | tmm.go:238-295 | the error is the classified outcome of the reset request. Success holds exactly when the decoded payload is `"reset"`, and then `lastreset` becomes the clock reading taken at entry and the session is not expired at that instant. Any other payload or error leaves `lastreset` unchanged |
| `Tmm.StatusVerdict` | tmm.go:335-343 | status 200 is `(true, nil)`, 403 is `(false, Blocked)`, anything else is `(false, nil)` |
| `Tmm.Session.Reply` | tmm.go:303-344 | a marshal, build or transport failure gives `false` and that error. An answer is judged by `StatusVerdict`. The request is a POST of the reply envelope with the session cookie. No field changes |
| `Tmm.Session.Forward` | tmm.go:355-399 | as `Reply`, for the forward envelope with a JSON content-type header. No field changes |
| `Net.UrlString` | tmm.go:412 | `URL.String` writes the scheme and host, then the path. With a host, a non-empty path always starts with `/`: a relative path gets one added and a rooted path is kept as it is |
| `Net.PathJoinStaysClean` | tmm.go:408-410 | `path.Join` on an empty path gives the segment itself. On `/` or a clean rooted path, the result is again a clean rooted path ending in `/seg`, so `Clean` has nothing to remove |
| `Tmm.Join` | tmm.go:401-413 | joining simple segments onto a clean base URL yields the base followed by `/seg` for each segment in order. With no segments it yields the base URL itself |
| `Tmm.JoinExamples` | tmm_test.go:78-82 | `https://example.com` with no segments, with `mypath`, and with `one`, `two`, `three` |
| `Tmm.FormatIntIsSimple` | tmm.go:196 | the formatted cursor is a segment that `join` keeps verbatim |
| `Decimal.Numeral` | tmm.go:196 | the base-10 numeral is all digits, with a leading zero only for zero |
| `Decimal.FormatInt` | tmm.go:196 | the formatted index is non-empty, with a `-` exactly for negative values followed by digits |
| `Decimal.NumeralRoundTrip` | tmm.go:196 | parsing a numeral gives back its value |
| `Decimal.FormatIntRoundTrip` | tmm.go:196 | parsing the formatted index gives back the index |
| `Decimal.FormatIntInjective` | tmm.go:196 | distinct indices are formatted differently |

## Left out

- HTTP transport, `http.Client`, `DefaultTimeout` and `NewWithClient`'s client argument. Every round trip is the `net` parameter. `NewWithClient` behaves as `New` in this model.
- The request body's JSON bytes are represented by their envelope value. The `Content-Type` header and the `JSESSIONID` cookie are modelled as name/value pairs. `AddCookie` ignores the `MaxAge: 300` hint of request cookies, so the model drops it; its sanitising of cookie values is not modelled.
- JSON decoding and encoding are foreign. A body is `Decoded(v)` or `Undecodable(partial)`, and whether encoding the reply/forward envelope succeeded is the `encoded` parameter.
- The DTO structs and the unused endpoints `session/expired` and `session/secondsLeft` are not used by the modelled operations.
- `time.Now()` is the `now` parameter. Monotonic-clock readings and the saturation of `Time.Add` at the extremes of `time.Time` are not modelled.
- Tmm.Join: models `url.Parse`, `path.Join` and `URL.String` only for a base URL with a scheme, a host and an already clean path, and for segments that are non-empty, have no leading, trailing or doubled `/`, no `.` or `..` component, and use only unreserved characters. Cleaning of other paths, percent-escaping and the panic on an unparseable base are not modelled. The base URL field is kept in parsed form.
- The command-line pollers under `cmd/` are callers and are not part of this model. So is the integration test that contacts the live service.
- Decoding the example message payload of the package tests is JSON decoding and is not modelled.
