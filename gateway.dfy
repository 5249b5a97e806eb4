/**
 * Request shaping and response handling shared by `get` and `post`: the GET query string,
 * the POST body, the test for an authentication-class error and the outcome of a decoded reply.
 */
module Gateway {
  import opened Wrappers
  import opened JsValues
  import opened Json

  // ---------------------------------------------------------------- query string

  /** The entries of `url.searchParams`, in order. */
  type Query = seq<(string, string)>

  /** `searchParams.get(key)`: the value of the first entry with that key. */
  function Find(q: Query, key: string): Option<string>
    decreases |q|
  {
    if q == [] then None else if q[0].0 == key then Some(q[0].1) else Find(q[1..], key)
  }

  /** No key appears twice. */
  predicate UniqueKeys(q: Query)
    decreases |q|
  {
    q == [] || (Find(q[1..], q[0].0) == None && UniqueKeys(q[1..]))
  }

  /** The entries whose key is not `key`. */
  function RemoveKey(q: Query, key: string): (r: Query)
    ensures forall k :: Find(r, k) == if k == key then None else Find(q, k)
    ensures UniqueKeys(q) ==> UniqueKeys(r)
    decreases |q|
  {
    if q == [] then []
    else if q[0].0 == key then RemoveKey(q[1..], key)
    else [q[0]] + RemoveKey(q[1..], key)
  }

  /**
   * `searchParams.set(key, value)`: the first entry with that key takes the value and later ones
   * are dropped; without one the entry is appended.
   */
  function QuerySet(q: Query, key: string, value: string): (r: Query)
    ensures Find(r, key) == Some(value)
    ensures forall k :: k != key ==> Find(r, k) == Find(q, k)
    ensures UniqueKeys(q) ==> UniqueKeys(r)
    decreases |q|
  {
    if q == [] then [(key, value)]
    else if q[0].0 == key then [(key, value)] + RemoveKey(q[1..], key)
    else [q[0]] + QuerySet(q[1..], key, value)
  }

  /** The parameter loop of `get`: every entry that is neither null nor undefined is `set`, in order. */
  function SetAll(q: Query, params: seq<(string, Value)>): Query
    decreases |params|
  {
    if params == [] then q
    else
      var before := SetAll(q, params[..|params| - 1]);
      var (k, v) := params[|params| - 1];
      if v.Present() then QuerySet(before, k, v.text) else before
  }

  /** The query `get(action, params)` sends: `action`, `token`, then the parameters. */
  function QueryFor(action: string, token: string, params: seq<(string, Value)>): Query
  {
    SetAll(QuerySet(QuerySet([], "action", action), "token", token), params)
  }

  /** The text of the last parameter named `key` that is neither null nor undefined. */
  function LastPresent(params: seq<(string, Value)>, key: string): Option<string>
    decreases |params|
  {
    if params == [] then None
    else if params[|params| - 1].0 == key && params[|params| - 1].1.Present() then
      Some(params[|params| - 1].1.text)
    else LastPresent(params[..|params| - 1], key)
  }

  lemma {:induction false} SetAllFind(q: Query, params: seq<(string, Value)>, key: string)
    ensures Find(SetAll(q, params), key) ==
      if LastPresent(params, key).Some? then LastPresent(params, key) else Find(q, key)
    ensures UniqueKeys(q) ==> UniqueKeys(SetAll(q, params))
    decreases |params|
  {
    if params != [] {
      SetAllFind(q, params[..|params| - 1], key);
    }
  }

  /**
   * The GET query holds each key once; a parameter's key maps to the last value given to it that is
   * neither null nor undefined (so a parameter may override `action` or `token`); a key whose
   * parameters are all null or undefined is absent unless it is `action` or `token`.
   */
  lemma QueryForFind(action: string, token: string, params: seq<(string, Value)>, key: string)
    ensures UniqueKeys(QueryFor(action, token, params))
    ensures Find(QueryFor(action, token, params), key) ==
      if LastPresent(params, key).Some? then LastPresent(params, key)
      else if key == "token" then Some(token)
      else if key == "action" then Some(action)
      else None
  {
    var base := QuerySet(QuerySet([], "action", action), "token", token);
    assert UniqueKeys(base);
    SetAllFind(base, params, key);
  }

  /** `url.searchParams`: the query of a URL, changed in place by `Set`. */
  class SearchParams {
    var entries: Query

    constructor ()
      ensures entries == []
    {
      entries := [];
    }

    method Set(key: string, value: string)
      modifies this
      ensures entries == QuerySet(old(entries), key, value)
    {
      entries := QuerySet(entries, key, value);
    }
  }

  /** Builds the query of `get(action, params)` as the source does, with a loop of `set` calls. */
  method BuildQuery(action: string, token: string, params: seq<(string, Value)>) returns (q: Query)
    ensures q == QueryFor(action, token, params)
  {
    var url := new SearchParams();
    url.Set("action", action);
    url.Set("token", token);
    ghost var base := url.entries;
    for i := 0 to |params|
      invariant url.entries == SetAll(base, params[..i])
    {
      var (key, value) := params[i];
      assert params[..i + 1][..i] == params[..i];
      if value.Present() {
        url.Set(key, value.text);
      }
    }
    assert params[..|params|] == params;
    q := url.entries;
  }

  // ---------------------------------------------------------------- POST body

  /**
   * The body object `{action, token, ...payload}` of `post(action, payload)`: payload fields are
   * spread after the fixed ones, so a payload key `action` or `token` replaces the fixed value.
   */
  function PostBody(action: string, token: string, payload: map<string, Value>): (r: map<string, Value>)
    ensures r.Keys == payload.Keys + {"action", "token"}
    ensures forall k :: k in payload ==> r[k] == payload[k]
    ensures "action" !in payload ==> r["action"] == Str(action)
    ensures "token" !in payload ==> r["token"] == Str(token)
  {
    map["action" := Str(action), "token" := Str(token)] + payload
  }

  // ---------------------------------------------------------------- errors and replies

  /** `sub` occurs in `s` at position `i`. */
  predicate OccursAt(s: string, sub: string, i: nat)
  {
    i + |sub| <= |s| && s[i..i + |sub|] == sub
  }

  /** `s.includes(sub)`. */
  function Contains(s: string, sub: string): (r: bool)
    ensures r <==> exists i: nat :: OccursAt(s, sub, i)
    decreases |s|
  {
    if |sub| <= |s| && s[..|sub|] == sub then
      assert OccursAt(s, sub, 0);
      true
    else if s == [] then false
    else
      var r := Contains(s[1..], sub);
      assert forall i: nat :: OccursAt(s[1..], sub, i) <==> OccursAt(s, sub, i + 1) by {
        forall i: nat ensures OccursAt(s[1..], sub, i) <==> OccursAt(s, sub, i + 1) {
          if i + |sub| <= |s[1..]| {
            assert s[1..][i..i + |sub|] == s[i + 1..i + 1 + |sub|];
          }
        }
      }
      assert forall i: nat :: OccursAt(s, sub, i) ==> i > 0;
      assert (exists i: nat :: OccursAt(s, sub, i)) ==> exists i: nat :: OccursAt(s[1..], sub, i) by {
        if exists i: nat :: OccursAt(s, sub, i) {
          var i: nat :| OccursAt(s, sub, i);
          assert OccursAt(s[1..], sub, i - 1);
        }
      }
      r
  }

  /** An error is authentication-class when its text contains `token` (case-sensitive) or is exactly `Authorization required`. */
  predicate IsAuthError(message: string)
    ensures IsAuthError(message) <==>
      (exists i: nat :: OccursAt(message, "token", i)) || message == "Authorization required"
  {
    Contains(message, "token") || message == "Authorization required"
  }

  /** How a call fails: the precondition, a backend error (its message verbatim), or the transport. */
  datatype Failure = NotAuthenticated | Remote(message: string) | Transport(reason: string)

  /** A decoded JSON reply: its `error` field (absent is `None`) and the rest of it. */
  datatype Reply<D> = Reply(error: Option<string>, data: D)

  /** What `fetch` followed by `response.json()` produced: a decoded body, or a thrown failure. */
  datatype Response<D> = TransportFailure(reason: string) | Delivered(body: Reply<D>)

  /** The result of a call: a transport failure is re-raised, a truthy `error` is raised, anything else is returned unchanged. */
  function Outcome<D>(response: Response<D>): (r: Result<Reply<D>, Failure>)
    ensures r.Success? <==> response.Delivered? && !Truthy(response.body.error)
    ensures r.Success? ==> r.value == response.body
    ensures response.TransportFailure? ==> r == Failure(Transport(response.reason))
    ensures response.Delivered? && Truthy(response.body.error) ==> r == Failure(Remote(response.body.error.value))
  {
    match response
    case TransportFailure(reason) => Failure(Transport(reason))
    case Delivered(body) => if Truthy(body.error) then Failure(Remote(body.error.value)) else Success(body)
  }

  /** The reply makes `get`/`post` clear the session and signal `auth:logout`. */
  predicate EndsSession<D>(response: Response<D>)
  {
    response.Delivered? && Truthy(response.body.error) && IsAuthError(response.body.error.value)
  }

  /** Only a raised authentication-class error ends the session; a returned reply never does. */
  lemma EndsSessionOnlyOnAuthError<D>(response: Response<D>)
    ensures EndsSession(response) <==>
      exists m :: Outcome(response) == Failure(Remote(m)) && IsAuthError(m)
  {
    if EndsSession(response) {
      assert Outcome(response) == Failure(Remote(response.body.error.value));
    }
  }

  /** The reply `{error: "Invalid token"}` ends the session and raises "Invalid token". */
  lemma InvalidTokenEndsSession<D>(data: D)
    ensures EndsSession(Delivered(Reply(Some("Invalid token"), data)))
    ensures Outcome(Delivered(Reply(Some("Invalid token"), data))) == Failure(Remote("Invalid token"))
  {
    assert OccursAt("Invalid token", "token", 8);
  }

  /** A text lacking one of the characters of `sub` does not contain `sub`. */
  lemma MissingCharExcludes(m: string, sub: string, c: char)
    requires c in sub && c !in m
    ensures !Contains(m, sub)
  {
  }

  /** The reply `{error: "Some other error"}` raises its message and leaves the session alone. */
  lemma OtherErrorKeepsSession<D>(data: D)
    ensures !EndsSession(Delivered(Reply(Some("Some other error"), data)))
    ensures Outcome(Delivered(Reply(Some("Some other error"), data))) == Failure(Remote("Some other error"))
  {
    MissingCharExcludes("Some other error", "token", 'k');
  }

  /** The test is case-sensitive: `{error: "Token expired"}` is raised without ending the session. */
  lemma CapitalTokenKeepsSession<D>(data: D)
    ensures !EndsSession(Delivered(Reply(Some("Token expired"), data)))
    ensures Outcome(Delivered(Reply(Some("Token expired"), data))) == Failure(Remote("Token expired"))
  {
    MissingCharExcludes("Token expired", "token", 't');
  }

  /** The exact text must match: "authorization required" is not authentication-class. */
  lemma LowerCaseAuthorizationIsNotAuthError()
    ensures !IsAuthError("authorization required")
  {
    MissingCharExcludes("authorization required", "token", 'k');
  }
}
