/**
 * The client object: the session fields, the persistent store they are mirrored into, and a count
 * of `auth:logout` signals dispatched. Its methods change that state step by step as the source
 * does; each states its new state through the transition functions of `Session`.
 */
module Api {
  import opened Wrappers
  import opened JsValues
  import opened Json
  import opened Session
  import opened Gateway

  /** What a successful `login` / `register` reply carries: `token`, `user` and `expires_at`. */
  datatype AuthData = AuthData(token: Option<string>, user: Option<User>, expiresAt: Option<string>)

  class Api {
    var token: Option<string>
    var currentUser: Option<User>
    var tokenExpiresAt: Option<string>
    /** `localStorage`. */
    var storage: map<string, string>
    /** How many `auth:logout` events have been dispatched. */
    var logoutEvents: nat

    /** The session as a value. */
    function State(): Session.State
      reads this
    {
      Session.State(token, currentUser, tokenExpiresAt, storage)
    }

    /** The object as loaded, before `init()`: all fields null, over an existing persistent store. */
    constructor (stored: map<string, string>)
      ensures State() == Session.State(None, None, None, stored)
      ensures logoutEvents == 0
    {
      token, currentUser, tokenExpiresAt := None, None, None;
      storage := stored;
      logoutEvents := 0;
    }

    /** `init()`: loads the session from the persistent store. */
    method Init()
      modifies this
      ensures State() == AfterInit(old(State()))
      ensures logoutEvents == old(logoutEvents)
    {
      token := Lookup(storage, TokenKey);
      tokenExpiresAt := Lookup(storage, ExpiresKey);
      var userText := Lookup(storage, UserKey);
      if Truthy(userText) {
        currentUser := DecodeUser(userText.value);
      }
    }

    /** `setAuthToken(token, user, expiresAt)`. */
    method SetAuthToken(newToken: Option<string>, user: Option<User>, expiresAt: Option<string>)
      modifies this
      ensures State() == AfterSet(old(State()), newToken, user, expiresAt)
      ensures logoutEvents == old(logoutEvents)
    {
      token := newToken;
      currentUser := user;
      tokenExpiresAt := expiresAt;
      storage := storage[TokenKey := StoredText(newToken)];
      if user.Some? {
        storage := storage[UserKey := EncodeUser(user.value)];
      }
      if Truthy(expiresAt) {
        storage := storage[ExpiresKey := expiresAt.value];
      }
    }

    /** `clearAuthToken()`. */
    method ClearAuthToken()
      modifies this
      ensures State() == AfterClear(old(State()))
      ensures logoutEvents == old(logoutEvents)
    {
      token := None;
      currentUser := None;
      tokenExpiresAt := None;
      storage := storage - {TokenKey};
      storage := storage - {UserKey};
      storage := storage - {ExpiresKey};
    }

    /**
     * `logout()`: sends `{action: "logout", token}` only when a token is held, then clears the session
     * whatever became of that request (its failure is caught and its reply is not read), so neither
     * is an input here. Returns the body sent, if any. It dispatches no `auth:logout` event.
     */
    method Logout() returns (request: Option<map<string, Value>>)
      modifies this
      ensures Truthy(old(token)) ==> request == Some(map["action" := Str("logout"), "token" := Str(old(token).value)])
      ensures !Truthy(old(token)) ==> request == None
      ensures State() == AfterClear(old(State()))
      ensures logoutEvents == old(logoutEvents)
    {
      request := None;
      if Truthy(token) {
        request := Some(map["action" := Str("logout"), "token" := Str(token.value)]);
      }
      ClearAuthToken();
    }

    /**
     * The reply handling of `login` / `register`: a transport failure or a truthy `error` is raised
     * with the session untouched (no logout, whatever the message); otherwise the reply's token,
     * user and expiry are stored and the reply is returned.
     */
    method AcceptAuthReply(response: Response<AuthData>) returns (outcome: Result<Reply<AuthData>, Failure>)
      modifies this
      ensures outcome == Outcome(response)
      ensures outcome.Success? ==>
        State() == AfterSet(old(State()), response.body.data.token, response.body.data.user, response.body.data.expiresAt)
      ensures outcome.Failure? ==> State() == old(State())
      ensures logoutEvents == old(logoutEvents)
    {
      match response
      case TransportFailure(reason) =>
        outcome := Failure(Transport(reason));
      case Delivered(body) =>
        if Truthy(body.error) {
          outcome := Failure(Remote(body.error.value));
        } else {
          SetAuthToken(body.data.token, body.data.user, body.data.expiresAt);
          outcome := Success(body);
        }
    }

    /** `login(username, password)`: the request body sent, and the reply handled as `AcceptAuthReply` says. */
    method Login(username: string, password: string, response: Response<AuthData>)
      returns (outcome: Result<Reply<AuthData>, Failure>, request: map<string, Value>)
      modifies this
      ensures request == map["action" := Str("login"), "username" := Str(username), "password" := Str(password)]
      ensures outcome == Outcome(response)
      ensures outcome.Success? ==>
        State() == AfterSet(old(State()), response.body.data.token, response.body.data.user, response.body.data.expiresAt)
      ensures outcome.Failure? ==> State() == old(State())
      ensures logoutEvents == old(logoutEvents)
    {
      request := map["action" := Str("login"), "username" := Str(username), "password" := Str(password)];
      outcome := AcceptAuthReply(response);
    }

    /** `register(username, password, name)`: as `Login`, with the action `register` and the name. */
    method Register(username: string, password: string, name: string, response: Response<AuthData>)
      returns (outcome: Result<Reply<AuthData>, Failure>, request: map<string, Value>)
      modifies this
      ensures request == map["action" := Str("register"), "username" := Str(username),
                             "password" := Str(password), "name" := Str(name)]
      ensures outcome == Outcome(response)
      ensures outcome.Success? ==>
        State() == AfterSet(old(State()), response.body.data.token, response.body.data.user, response.body.data.expiresAt)
      ensures outcome.Failure? ==> State() == old(State())
      ensures logoutEvents == old(logoutEvents)
    {
      request := map["action" := Str("register"), "username" := Str(username),
                     "password" := Str(password), "name" := Str(name)];
      outcome := AcceptAuthReply(response);
    }

    /**
     * The reply handling shared by `get` and `post`: an authentication-class error clears the session
     * and dispatches one `auth:logout` before it is raised; any other error is raised with the session
     * untouched; a reply without a truthy `error` is returned unchanged.
     */
    method HandleResponse<D>(response: Response<D>) returns (outcome: Result<Reply<D>, Failure>)
      modifies this
      ensures outcome == Outcome(response)
      ensures EndsSession(response) ==>
        State() == AfterClear(old(State())) && logoutEvents == old(logoutEvents) + 1
      ensures !EndsSession(response) ==>
        State() == old(State()) && logoutEvents == old(logoutEvents)
    {
      match response
      case TransportFailure(reason) =>
        outcome := Failure(Transport(reason));
      case Delivered(body) =>
        if Truthy(body.error) {
          if IsAuthError(body.error.value) {
            ClearAuthToken();
            logoutEvents := logoutEvents + 1;
          }
          outcome := Failure(Remote(body.error.value));
        } else {
          outcome := Success(body);
        }
    }

    /**
     * `get(action, params)`: without a truthy token it fails with `NotAuthenticated` and builds no
     * request; otherwise it sends `QueryFor(action, token, params)` and handles the reply.
     */
    method Get(action: string, params: seq<(string, Value)>, response: Response<map<string, Value>>)
      returns (outcome: Result<Reply<map<string, Value>>, Failure>, request: Option<Query>)
      modifies this
      ensures !Truthy(old(token)) ==>
        outcome == Failure(NotAuthenticated) && request == None &&
        State() == old(State()) && logoutEvents == old(logoutEvents)
      ensures Truthy(old(token)) ==>
        request == Some(QueryFor(action, old(token).value, params)) && outcome == Outcome(response)
      ensures Truthy(old(token)) && EndsSession(response) ==>
        State() == AfterClear(old(State())) && logoutEvents == old(logoutEvents) + 1
      ensures Truthy(old(token)) && !EndsSession(response) ==>
        State() == old(State()) && logoutEvents == old(logoutEvents)
    {
      if !Truthy(token) {
        outcome := Failure(NotAuthenticated);
        request := None;
        return;
      }
      var query := BuildQuery(action, token.value, params);
      request := Some(query);
      outcome := HandleResponse(response);
    }

    /**
     * `post(action, payload)`: without a truthy token it fails with `NotAuthenticated` and builds no
     * request; otherwise it sends `PostBody(action, token, payload)` and handles the reply.
     */
    method Post(action: string, payload: map<string, Value>, response: Response<map<string, Value>>)
      returns (outcome: Result<Reply<map<string, Value>>, Failure>, request: Option<map<string, Value>>)
      modifies this
      ensures !Truthy(old(token)) ==>
        outcome == Failure(NotAuthenticated) && request == None &&
        State() == old(State()) && logoutEvents == old(logoutEvents)
      ensures Truthy(old(token)) ==>
        request == Some(PostBody(action, old(token).value, payload)) && outcome == Outcome(response)
      ensures Truthy(old(token)) && EndsSession(response) ==>
        State() == AfterClear(old(State())) && logoutEvents == old(logoutEvents) + 1
      ensures Truthy(old(token)) && !EndsSession(response) ==>
        State() == old(State()) && logoutEvents == old(logoutEvents)
    {
      if !Truthy(token) {
        outcome := Failure(NotAuthenticated);
        request := None;
        return;
      }
      request := Some(PostBody(action, token.value, payload));
      outcome := HandleResponse(response);
    }
  }

  /**
   * A page reload after a full login: a fresh object over the same persistent store, once `init()`
   * has run, holds the token, user and expiry that `setAuthToken` was given.
   */
  method ReloadAfterSet(stored: map<string, string>, t: string, u: User, e: string)
    returns (token: Option<string>, user: Option<User>, expiresAt: Option<string>)
    requires e != ""
    ensures token == Some(t) && user == Some(u) && expiresAt == Some(e)
  {
    var before := new Api(stored);
    before.Init();
    before.SetAuthToken(Some(t), Some(u), Some(e));
    var after := new Api(before.storage);
    after.Init();
    DecodeEncodeUser(u);
    assert EncodeUser(u)[0] == '{';
    token, user, expiresAt := after.token, after.currentUser, after.tokenExpiresAt;
  }
}
