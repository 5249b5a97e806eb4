/**
 * The session store as values: the three in-memory fields and the persistent key/value store
 * (`localStorage`) they are mirrored into, with the transitions `init`, `setAuthToken` and
 * `clearAuthToken` as functions from one state to the next. The class `Api.Api` performs these
 * transitions in place; the lemmas here say what they mean.
 */
module Session {
  import opened Wrappers
  import opened JsValues
  import opened Json
  import opened Expiry

  const TokenKey := "auth_token"
  const UserKey := "auth_user"
  const ExpiresKey := "token_expires_at"

  /** `_token`, `_currentUser`, `_tokenExpiresAt`, and the persistent store. */
  datatype State = State(token: Option<string>, user: Option<User>, expiresAt: Option<string>,
                         storage: map<string, string>)

  /** `localStorage.getItem(key)`: `None` (null) when the key is absent. */
  function Lookup(storage: map<string, string>, key: string): Option<string>
  {
    if key in storage then Some(storage[key]) else None
  }

  /**
   * `setAuthToken(token, user, expiresAt)`: the three fields become exactly the arguments;
   * `auth_token` is always written, `auth_user` and `token_expires_at` only for a user / a truthy
   * expiry, so an earlier stored value for those keys survives.
   */
  function AfterSet(s: State, token: Option<string>, user: Option<User>, expiresAt: Option<string>): (r: State)
    ensures r.token == token && r.user == user && r.expiresAt == expiresAt
    ensures Lookup(r.storage, TokenKey) == Some(StoredText(token))
    ensures Lookup(r.storage, UserKey) ==
      if user.Some? then Some(EncodeUser(user.value)) else Lookup(s.storage, UserKey)
    ensures Lookup(r.storage, ExpiresKey) ==
      if Truthy(expiresAt) then expiresAt else Lookup(s.storage, ExpiresKey)
    ensures forall k :: k != TokenKey && k != UserKey && k != ExpiresKey ==>
      Lookup(r.storage, k) == Lookup(s.storage, k)
  {
    var withToken := s.storage[TokenKey := StoredText(token)];
    var withUser := if user.Some? then withToken[UserKey := EncodeUser(user.value)] else withToken;
    var withExpiry := if Truthy(expiresAt) then withUser[ExpiresKey := expiresAt.value] else withUser;
    State(token, user, expiresAt, withExpiry)
  }

  /** `clearAuthToken()`: the three fields become null and the three keys are removed; nothing else changes. */
  function AfterClear(s: State): (r: State)
    ensures r.token == None && r.user == None && r.expiresAt == None
    ensures TokenKey !in r.storage && UserKey !in r.storage && ExpiresKey !in r.storage
    ensures forall k :: k != TokenKey && k != UserKey && k != ExpiresKey ==>
      Lookup(r.storage, k) == Lookup(s.storage, k)
  {
    State(None, None, None, s.storage - {TokenKey, UserKey, ExpiresKey})
  }

  /**
   * `init()`: token and expiry are read back from their keys (null when absent); a truthy stored
   * user text is parsed, a malformed one giving null; without one the user is left as it was.
   */
  function AfterInit(s: State): (r: State)
    ensures r.token == Lookup(s.storage, TokenKey) && r.expiresAt == Lookup(s.storage, ExpiresKey)
    ensures r.storage == s.storage
    ensures !Truthy(Lookup(s.storage, UserKey)) ==> r.user == s.user
    ensures Truthy(Lookup(s.storage, UserKey)) ==> r.user == DecodeUser(s.storage[UserKey])
  {
    var userText := Lookup(s.storage, UserKey);
    var user := if Truthy(userText) then DecodeUser(userText.value) else s.user;
    State(Lookup(s.storage, TokenKey), user, Lookup(s.storage, ExpiresKey), s.storage)
  }

  /** After `clearAuthToken()` no clock reading makes the session authenticated. */
  lemma ClearedIsUnauthenticated(s: State, dateOf: DateParser, now: int)
    ensures !IsAuthenticated(AfterClear(s).token, AfterClear(s).expiresAt, dateOf, now)
  {
  }

  /**
   * Reload after a full `setAuthToken(token, user, expiresAt)`: `init()` reproduces exactly the
   * state that was set, the user through its JSON text.
   */
  lemma InitAfterSet(s: State, token: string, user: User, expiresAt: string)
    requires expiresAt != ""
    ensures AfterInit(AfterSet(s, Some(token), Some(user), Some(expiresAt))) ==
            AfterSet(s, Some(token), Some(user), Some(expiresAt))
  {
    var t := AfterSet(s, Some(token), Some(user), Some(expiresAt));
    DecodeEncodeUser(user);
    assert Lookup(t.storage, UserKey) == Some(EncodeUser(user));
  }

  /**
   * Reload after `setAuthToken(token)` with no user and no expiry: the token comes back, but the user
   * and expiry of an earlier session still stored under their keys come back with it.
   */
  lemma InitAfterSetTokenOnly(s: State, token: string)
    ensures var r := AfterInit(AfterSet(s, Some(token), None, None));
      && r.token == Some(token)
      && r.expiresAt == Lookup(s.storage, ExpiresKey)
      && r.user == (if Truthy(Lookup(s.storage, UserKey)) then DecodeUser(s.storage[UserKey]) else None)
  {
  }

  /** A reply without a token: `setAuthToken(undefined, …)` stores the text "undefined", truthy after reload. */
  lemma InitAfterSetUndefinedToken(s: State, user: Option<User>, expiresAt: Option<string>)
    ensures AfterSet(s, None, user, expiresAt).token == None
    ensures AfterInit(AfterSet(s, None, user, expiresAt)).token == Some("undefined")
  {
  }

  /** Reload after `clearAuthToken()` gives back the cleared state. */
  lemma InitAfterClear(s: State)
    ensures AfterInit(AfterClear(s)) == AfterClear(s)
  {
  }

  /** A truthy stored user text that is not a profile object reads as no user. */
  lemma InitMalformedUser(s: State)
    requires Truthy(Lookup(s.storage, UserKey)) && DecodeUser(s.storage[UserKey]) == None
    ensures AfterInit(s).user == None
  {
  }

  /** A step of the session's life: `setAuthToken(token, user, expiresAt)` or `clearAuthToken()`. */
  datatype Step = SetStep(token: Option<string>, user: Option<User>, expiresAt: Option<string>) | ClearStep

  function Apply(s: State, step: Step): State
  {
    match step
    case SetStep(t, u, e) => AfterSet(s, t, u, e)
    case ClearStep => AfterClear(s)
  }

  /** The state after the steps, taken in order. */
  function Replay(s: State, steps: seq<Step>): State
    decreases |steps|
  {
    if steps == [] then s else Replay(Apply(s, steps[0]), steps[1..])
  }

  /**
   * After any sequence of `setAuthToken` / `clearAuthToken` calls, the in-memory session is the one
   * the most recent call set, so `isAuthenticated()` reflects that call alone (modulo the clock).
   */
  lemma {:induction false} ReplayLastStepDecides(s: State, steps: seq<Step>, dateOf: DateParser, now: int)
    requires steps != []
    ensures var r := Replay(s, steps);
      match steps[|steps| - 1]
      case SetStep(t, u, e) =>
        r.token == t && r.user == u && r.expiresAt == e &&
        (IsAuthenticated(r.token, r.expiresAt, dateOf, now) <==> IsAuthenticated(t, e, dateOf, now))
      case ClearStep =>
        r.token == None && r.user == None && r.expiresAt == None &&
        !IsAuthenticated(r.token, r.expiresAt, dateOf, now)
    decreases |steps|
  {
    if |steps| > 1 {
      ReplayLastStepDecides(Apply(s, steps[0]), steps[1..], dateOf, now);
      assert steps[1..][|steps[1..]| - 1] == steps[|steps| - 1];
    }
  }
}
