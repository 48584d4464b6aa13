/** Single-device login: when a user logs in, the session the user was
    last recorded under is deleted from the session store, and the new
    request's session key is recorded on the user. */
module Signals {
  import opened Wrappers

  /** One stored session: its encoded data and its expiry instant, both
      carried unchanged (expiry is not enforced here). */
  datatype SessionData = SessionData(sessionData: string, expireDate: int)

  /** The request that logged in; only its session key is read. The key
      is `None` while the session has not been saved yet. */
  datatype Request = Request(sessionKey: Option<string>)

  /** The database table of sessions, keyed by session key. */
  class SessionStore {
    var sessions: map<string, SessionData>

    constructor (sessions: map<string, SessionData>)
      ensures this.sessions == sessions
    {
      this.sessions := sessions;
    }

    /** Looks the session up by key and deletes it; `found` is false when
        no session has that key, in which case nothing changes. */
    method Delete(key: string) returns (found: bool)
      modifies this`sessions
      ensures found <==> key in old(sessions)
      ensures key !in sessions
      ensures sessions.Keys == old(sessions).Keys - {key}
      ensures forall k :: k in sessions ==> sessions[k] == old(sessions)[k]
    {
      found := key in sessions;
      if found {
        sessions := sessions - {key};
      }
    }
  }

  /** The user record. `currentSessionKey` is the one field the login
      handler writes; the others stand for the rest of the record. */
  class User {
    var username: string
    var email: string
    var userType: string
    var department: string
    var currentSessionKey: Option<string>

    constructor (username: string, email: string, userType: string, department: string)
      ensures this.username == username && this.email == email
      ensures this.userType == userType && this.department == department
      ensures currentSessionKey == None
    {
      this.username := username;
      this.email := email;
      this.userType := userType;
      this.department := department;
      currentSessionKey := None;
    }
  }

  /** What the handler reads and writes: the stored sessions and the key
      recorded on the user. */
  datatype LoginState = LoginState(sessions: map<string, SessionData>, recorded: Option<string>)

  /** The recorded key names a session the handler must delete: it is set
      (truthy) and differs from the new request's key. */
  predicate IsStale(recorded: Option<string>, currentKey: Option<string>)
  {
    Truthy(recorded) && recorded != currentKey
  }

  /** The effect of one login on the state: a stale recorded session is
      removed (a missing one is ignored) and the new key is recorded. */
  function Login(s: LoginState, currentKey: Option<string>): (r: LoginState)
    ensures r.recorded == currentKey
    ensures IsStale(s.recorded, currentKey) ==> s.recorded.value !in r.sessions
    ensures forall k :: k in s.sessions && !(IsStale(s.recorded, currentKey) && k == s.recorded.value)
                        ==> k in r.sessions
    ensures forall k :: k in r.sessions ==> k in s.sessions && r.sessions[k] == s.sessions[k]
  {
    if IsStale(s.recorded, currentKey) then
      LoginState(s.sessions - {s.recorded.value}, currentKey)
    else
      LoginState(s.sessions, currentKey)
  }

  /** `invalidate_other_sessions`, run on `user_logged_in`: deletes the
      session the user was recorded under when it is set and is not the
      request's own, then records the request's session key on the user.
      Only the store's sessions and the user's session key are written. */
  method InvalidateOtherSessions(request: Request, user: User, store: SessionStore)
    modifies store`sessions, user`currentSessionKey
    ensures LoginState(store.sessions, user.currentSessionKey)
            == Login(LoginState(old(store.sessions), old(user.currentSessionKey)), request.sessionKey)
    ensures user.currentSessionKey == request.sessionKey
    ensures IsStale(old(user.currentSessionKey), request.sessionKey)
            ==> old(user.currentSessionKey).value !in store.sessions
    ensures !IsStale(old(user.currentSessionKey), request.sessionKey) ==> store.sessions == old(store.sessions)
    ensures user.username == old(user.username) && user.email == old(user.email)
    ensures user.userType == old(user.userType) && user.department == old(user.department)
  {
    var currentKey := request.sessionKey;
    if Truthy(user.currentSessionKey) && user.currentSessionKey != currentKey {
      var _ := store.Delete(user.currentSessionKey.value);
    }
    user.currentSessionKey := currentKey;
  }

  /** Logging in again with the same request changes nothing more: on the
      second run the recorded key already equals the request's key. */
  lemma LoginIdempotent(s: LoginState, currentKey: Option<string>)
    ensures Login(Login(s, currentKey), currentKey) == Login(s, currentKey)
  {
  }

  /** An unset recorded key, or one equal to the request's, deletes
      nothing. */
  lemma LoginWithoutStaleKeepsStore(s: LoginState, currentKey: Option<string>)
    requires !Truthy(s.recorded) || s.recorded == currentKey
    ensures Login(s, currentKey) == LoginState(s.sessions, currentKey)
  {
  }

  /** A recorded key naming no stored session is not an error: the store
      is unchanged and the request's key is still recorded. */
  lemma LoginWithMissingOldSession(s: LoginState, currentKey: Option<string>)
    requires s.recorded.Some? && s.recorded.value !in s.sessions
    ensures Login(s, currentKey) == LoginState(s.sessions, currentKey)
  {
    assert s.sessions - {s.recorded.value} == s.sessions;
  }

  /** The request's own session survives its login, with its data. */
  lemma LoginKeepsCurrentSession(s: LoginState, currentKey: string)
    requires currentKey in s.sessions
    ensures currentKey in Login(s, Some(currentKey)).sessions
    ensures Login(s, Some(currentKey)).sessions[currentKey] == s.sessions[currentKey]
  {
  }

  /** The state after the same user logs in with each key of `keys` in
      turn. */
  function Replay(s: LoginState, keys: seq<Option<string>>): (r: LoginState)
    ensures keys == [] ==> r == s
    ensures keys != [] ==> r.recorded == keys[|keys| - 1]
    ensures forall k :: k in r.sessions ==> k in s.sessions && r.sessions[k] == s.sessions[k]
    decreases |keys|
  {
    if keys == [] then s else Replay(Login(s, keys[0]), keys[1..])
  }

  /** A key recorded before a series of logins whose last key differs
      from it is gone from the store after the series, whether it is
      deleted at once or only when the next different key arrives. */
  lemma {:induction false} ReplayDeletesStaleRecorded(s: LoginState, keys: seq<Option<string>>)
    requires keys != []
    requires IsStale(s.recorded, keys[|keys| - 1])
    ensures s.recorded.value !in Replay(s, keys).sessions
    decreases |keys|
  {
    var next := Login(s, keys[0]);
    if keys[0] == s.recorded {
      assert next.recorded == s.recorded;
      assert |keys| > 1;
      assert keys[1..][|keys| - 2] == keys[|keys| - 1];
      ReplayDeletesStaleRecorded(next, keys[1..]);
    } else {
      assert s.recorded.value !in next.sessions;
    }
  }

  /** After a series of logins by one user, every non-empty session key
      the handler recorded, other than the latest, names no stored
      session. A login whose key is still `None` records nothing to
      delete, so it is not covered (see `UnsavedKeyLeavesNextSession`). */
  lemma {:induction false} ReplayLeavesOnlyLatestSession(s: LoginState, keys: seq<Option<string>>)
    requires keys != []
    ensures Replay(s, keys).recorded == keys[|keys| - 1]
    ensures forall i :: 0 <= i < |keys| && Truthy(keys[i]) && keys[i] != keys[|keys| - 1]
                        ==> keys[i].value !in Replay(s, keys).sessions
    decreases |keys|
  {
    var last := keys[|keys| - 1];
    var next := Login(s, keys[0]);
    forall i | 0 <= i < |keys| && Truthy(keys[i]) && keys[i] != last
      ensures keys[i].value !in Replay(s, keys).sessions
    {
      assert |keys| > 1;
      assert keys[1..][|keys| - 2] == last;
      if i == 0 {
        ReplayDeletesStaleRecorded(next, keys[1..]);
      } else {
        ReplayLeavesOnlyLatestSession(next, keys[1..]);
        assert keys[1..][i - 1] == keys[i];
      }
    }
  }

  /** A login made while the request's session is still unsaved records
      `None`; the next login then deletes nothing, so the session the
      user held before both logins survives them. */
  lemma UnsavedKeyLeavesNextSession(s: LoginState, newKey: string)
    requires !IsStale(s.recorded, None)
    ensures Replay(s, [None, Some(newKey)]).sessions == s.sessions
  {
    assert Replay(s, [None, Some(newKey)]) == Replay(Login(s, None), [Some(newKey)]);
    assert [None, Some(newKey)][1..] == [Some(newKey)];
  }
}
