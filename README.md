# Session store and request gateway of the gym-app browser client

`js/api.js` is the browser side of a workout tracker whose backend is a spreadsheet script reached over
HTTP. Beneath the `fetch` plumbing it keeps a session: a bearer token, the current user and the token's
expiry in three fields. These are mirrored into `localStorage` under `auth_token`, `auth_user` and
`token_expires_at`. Every remote call goes through `get` or `post`. Each refuses to start without a
token and injects the token into the request. An authentication-class error in the reply clears the
session and fires an `auth:logout` event.

This project models that core in Dafny and proves what it does:

- `Session` holds the session as a value (`State`) and the transitions `init`, `setAuthToken` and
  `clearAuthToken` as functions. Lemmas cover them: reload after login restores exactly what was set,
  stale user or expiry values survive a partial `setAuthToken`, and the last call of any sequence
  decides the session.
- `Expiry` holds `isTokenExpired`, `getTokenTimeLeft` and `isAuthenticated` as integer arithmetic over
  milliseconds, with bounds and monotonicity lemmas. As the code does (js/api.js:42), a session without
  an expiry counts as expired, so it is never authenticated.
- `Gateway` holds the GET query, the POST body, the auth-error test and the outcome of a decoded reply:
  - the query follows `URLSearchParams.set` semantics: the first entry is replaced and later duplicates
    are dropped;
  - in the POST body, spread payload fields win over `action` and `token`, as the code does;
  - the auth-error test is a substring search for `token` or the exact text `Authorization required`.
- `Api.Api` is the client object. Its fields are the three session values, a `map<string, string>`
  standing for `localStorage`, and a count of `auth:logout` events. Its methods change them in place,
  step by step. Each one states its new state through the `Session` functions.
- `Json` is the profile's JSON text. The decoder is proved to read back every text the encoder writes,
  and only those texts.
- `Calls` holds the fixed action tags and parameter packaging of the domain operations.

Inputs that are I/O in the source are parameters:
- the decoded reply of `fetch` + `response.json()` is a `Response` value (a decoded body or a transport
  failure);
- the clock `Date.now()` is `now`;
- `new Date(text).getTime()` is a parser `dateOf: string -> Option<int>`, where `None` stands for NaN.

Because the NaN case is modelled, an expiry text that does not read as a date never counts as expired
(`now >= NaN` is false), and its time left is NaN. A token missing from a login reply is stored as the
text `undefined` (`String(undefined)`) and so reads back as a truthy token after a reload
(`Session.InitAfterSetUndefinedToken`).

## Model

| member | source | states |
|---|---|---|
| `Json.EncodeUser` | js/api.js:81 | the text written for a user is an object text: at least two characters, starting with `{` |
| `Json.DecodeUser` | js/api.js:23 | a text that decodes to a user is exactly the text the encoder writes for that user |
| `Json.DecodeUserExactly` | js/api.js:23 | a text decodes to a user iff it is the text written for that user |
| `Json.DecodeEncodeUser` | js/api.js:20-27 | parsing the text written for a user gives back that user |
| `Json.EncodeUserInjective` | js/api.js:81 | different users are written as different texts |
| `Json.MalformedUserText` | js/api.js:22-26 | texts that are not a user object (empty, `not json`, a truncated object) parse to no user |
| `Expiry.ExpiredCases` | js/api.js:41-46 | no or empty expiry means expired; a readable expiry `e` means expired iff `now >= e - buffer*1000`; an unreadable one (NaN) is never expired |
| `Expiry.IsTokenExpired` | js/api.js:41-46 | a null or empty expiry counts as expired; an unreadable (NaN) expiry never does |
| `Expiry.ExpiredMonotone` | js/api.js:41-46 | expired at `now` with buffer `b` implies expired at every later time and every larger buffer |
| `Expiry.TokenTimeLeft` | js/api.js:51-56 | never negative; 0 without an expiry; NaN exactly for an unreadable expiry; otherwise the floor of the seconds left, 0 exactly when less than 1000 ms remain |
| `Expiry.TimeLeftAtExpiry` | js/api.js:51-56 | the time left is 0 from 999 ms before expiry on and positive before that |
| `Expiry.AuthenticatedIff` | js/api.js:61-63 | authenticated iff the token is truthy, an expiry is stored, and it is unreadable or more than 300 s away |
| `Expiry.IsAuthenticated` | js/api.js:61-63 | authenticated only with a truthy token and a truthy expiry |
| `Expiry.NoExpiryNeverAuthenticated` | js/api.js:42 | with a null or empty expiry no token is authenticated |
| `Expiry.UnauthenticatedStays` | js/api.js:61-63 | once not authenticated, the same session is not authenticated at any later time |
| `Expiry.BufferExamples` | js/api.js:41-46 | an expiry 60 s away counts as expired under the default buffer; one an hour away does not |
| `Session.AfterSet` | js/api.js:75-86 | the three fields become the arguments; `auth_token` always gets the token's text; `auth_user` / `token_expires_at` are written only for a user / truthy expiry and otherwise keep their old value; other keys are untouched |
| `Session.AfterClear` | js/api.js:91-98 | the three fields are null, the three keys are gone, every other key is unchanged |
| `Session.AfterInit` | js/api.js:17-28 | token and expiry are read from their keys (null when absent); a truthy stored user text is parsed; without one the user is unchanged; storage is unchanged |
| `Session.ClearedIsUnauthenticated` | js/api.js:91-98 | after clearing, the session is not authenticated at any time |
| `Session.InitAfterSet` | js/api.js:17-28 | reloading after `setAuthToken` with a token, user and truthy expiry reproduces exactly the state that was set |
| `Session.InitAfterSetTokenOnly` | js/api.js:79-85 | reloading after `setAuthToken(token)` restores the token together with the user and expiry an earlier session left in storage |
| `Session.InitAfterSetUndefinedToken` | js/api.js:79 | a missing token is null in memory but reads back as the text `undefined` after reload |
| `Session.InitAfterClear` | js/api.js:17-28 | reloading after clearing gives the cleared state |
| `Session.InitMalformedUser` | js/api.js:21-26 | a truthy stored user text that does not decode gives a null user |
| `Session.ReplayLastStepDecides` | js/api.js:75-98 | after any non-empty sequence of set/clear calls the in-memory session, and so `isAuthenticated`, is the one the last call set |
| `Gateway.SearchParams.Set` | js/api.js:198-203 | `set(k, v)` changes the entries to exactly `QuerySet` of the old entries |
| `Gateway.QuerySet` | js/api.js:198-203 | after `set(k, v)` the key `k` reads `v`, every other key reads as before, and no key is duplicated if none was |
| `Gateway.SetAllFind` | js/api.js:201-205 | after the parameter loop a key reads the last non-null value given to it, else what it read before; unique keys stay unique |
| `Gateway.QueryForFind` | js/api.js:197-205 | the GET query has each key once; a key reads the last non-null parameter for it, else the action or token for those two keys, else is absent |
| `Gateway.BuildQuery` | js/api.js:197-205 | the loop of `set` calls builds exactly the query `QueryFor` describes |
| `Gateway.PostBody` | js/api.js:240-244 | the body's keys are the payload's plus `action` and `token`; payload values win; the fixed values stand when the payload lacks those keys |
| `Gateway.Contains` | js/api.js:213 | `includes` holds iff the substring occurs at some position |
| `Gateway.IsAuthError` | js/api.js:213 | a message is authentication-class iff `token` occurs in it at some position or it is exactly `Authorization required` |
| `Gateway.Outcome` | js/api.js:211-219 | a reply is returned unchanged iff it was decoded and its `error` is not truthy; a truthy error raises its message; a transport failure is re-raised |
| `Gateway.EndsSessionOnlyOnAuthError` | js/api.js:211-216 | a reply ends the session iff the call raises a remote error whose message is authentication-class |
| `Gateway.InvalidTokenEndsSession` | js/api.js:213 | `{error: "Invalid token"}` ends the session and raises `Invalid token` |
| `Gateway.OtherErrorKeepsSession` | js/api.js:213 | `{error: "Some other error"}` raises its message without ending the session |
| `Gateway.CapitalTokenKeepsSession` | js/api.js:211-217 | the substring test is case-sensitive: `{error: "Token expired"}` raises its message without ending the session |
| `Gateway.LowerCaseAuthorizationIsNotAuthError` | js/api.js:213 | the text test is exact: `authorization required` is not authentication-class |
| `Api.Api.constructor` | js/api.js:10-12 | the object starts with null session fields over the existing persistent store and no events |
| `Api.Api.Init` | js/api.js:17-28 | the new state is `AfterInit` of the old one; no event |
| `Api.Api.SetAuthToken` | js/api.js:75-86 | the new state is `AfterSet` of the old one with the arguments; no event |
| `Api.Api.ClearAuthToken` | js/api.js:91-98 | the new state is `AfterClear` of the old one; no event |
| `Api.Api.Logout` | js/api.js:170-187 | a logout request carrying the token is made iff a truthy token is held; the session always ends cleared; no `auth:logout` event |
| `Api.Api.AcceptAuthReply` | js/api.js:151-160 | a successful reply is returned and its token, user and expiry are set; an error or transport failure is raised with the session untouched |
| `Api.Api.Login` | js/api.js:139-165 | sends `{action: "login", username, password}`; handles the reply as `AcceptAuthReply` |
| `Api.Api.Register` | js/api.js:107-134 | sends `{action: "register", username, password, name}`; handles the reply as `AcceptAuthReply` |
| `Api.Api.HandleResponse` | js/api.js:249-257 | the result is `Outcome` of the reply; an authentication-class error clears the session and adds exactly one `auth:logout`; otherwise session and events are unchanged |
| `Api.Api.Get` | js/api.js:192-224 | without a truthy token: `NotAuthenticated`, no request, nothing changed; otherwise sends `QueryFor(action, token, params)` and handles the reply as `HandleResponse` |
| `Api.Api.Post` | js/api.js:229-262 | without a truthy token: `NotAuthenticated`, no request, nothing changed; otherwise sends `PostBody(action, token, payload)` and handles the reply as `HandleResponse` |
| `Api.ReloadAfterSet` | js/api.js:351-352 | a fresh object over the store left by `setAuthToken(t, u, e)` holds `t`, `u` and `e` once `init()` has run |
| `Calls.CallFor` | js/api.js:271-348 | no domain operation packages a parameter or payload field named `action` or `token` |
| `Calls.GetCallsKeepFixedFields` | js/api.js:271-334 | every GET operation's query carries its own action tag and the session token |
| `Calls.PostCallsKeepFixedFields` | js/api.js:278-347 | every POST operation's body carries its own action tag and the session token |
| `Calls.HistoryOmitsMissingEndDate` | js/api.js:303-305 | `getWorkouts(start)` and `getBodyMetrics(start)` send `startDate` and no `endDate` key |

## Left out

- Network I/O is an input and an output of the model. `fetch`, `async`/`await`, the URL itself, percent-encoding, `BASE_URL` and the headers are not modelled. The decoded reply is an input. The request is returned as a body map or a query list.
- The JSON text of request bodies is not modelled; bodies are maps. `JSON.stringify` dropping fields whose value is `undefined` is therefore not modelled.
- `Date.now()` and `new Date(text).getTime()` are parameters. ISO-8601 parsing is a library call. Numbers are integers of milliseconds, so floating-point rounding is not modelled.
- `window.dispatchEvent(new CustomEvent('auth:logout'))` is a counter of events. Listeners are not modelled.
- `console.error` logging is not modelled; it has no effect on state or results.
- `getTokenExpiration` and `getCurrentUser` are not modelled. They return a field unchanged.
- Json.DecodeUser: a profile is an object whose members are strings. The encoder escapes only `"` and `\`, and the decoder accepts no whitespace.
- Json.DecodeUser: valid JSON that is not such an object reads as no user. This includes `null`, a number and a nested object. The source keeps the parsed value instead.
- JsValues.StoredText: the model has a single "missing token" value, stored as `undefined`. A reply whose token is JSON `null` is stored as `null` in the source.
- Gateway.Outcome: the reply's `error` is a string. A truthy non-string error is not modelled. Most such values make `.includes` throw a TypeError, but an array tests its elements and can end the session.
- Parameters of `get` are given as a sequence in `Object.entries` order. JavaScript's ordering of integer-like keys first is not modelled.
- Concurrency between in-flight calls is not modelled. The page is single-threaded and each call is handled to completion.
