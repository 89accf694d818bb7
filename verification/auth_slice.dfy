/** The `auth` Redux slice: the signed-in user, the access token, and the
    loading/error flags. Only register and login have pending handlers;
    logout is handled only when it succeeds. */
module AuthSlice {
  import opened Common
  import opened Docs

  datatype State = State(user: Option<UserDoc>, accessToken: Option<string>, loading: bool, error: Option<string>)

  /** The initial state, from what the browser's storage holds: a stored
      empty token counts as none (`getItem(...) || null`). */
  function Initial(storedUser: Option<UserDoc>, storedToken: Option<string>): (r: State)
    ensures r.user == storedUser && !r.loading && r.error == None
    ensures r.accessToken.Some? <==> storedToken.Some? && storedToken.value != ""
    ensures r.accessToken.Some? ==> r.accessToken == storedToken
  {
    var token := if storedToken == Some("") then None else storedToken;
    State(storedUser, token, false, None)
  }

  datatype Thunk = Register | Login | Logout | Refresh

  /** The actions the reducer receives; the fulfilled variants carry the
      fields of `payload.data` the slice reads. */
  datatype Action =
    | ClearError
    | Pending(thunk: Thunk)
    | Rejected(thunk: Thunk, message: Option<string>)
    | Registered(user: UserDoc)
    | LoggedIn(user: UserDoc, accessToken: string)
    | LoggedOut
    | Refreshed(accessToken: string)

  /** The thunks whose progress the slice shows. */
  predicate Tracked(t: Thunk) {
    t == Register || t == Login
  }

  function Reduce(s: State, a: Action): (r: State)
    ensures a.ClearError? ==> r.error == None && r.(error := s.error) == s
    ensures a.Pending? ==> r == (if Tracked(a.thunk) then s.(loading := true) else s)
    ensures a.Rejected? && Tracked(a.thunk) ==>
              !r.loading && r.error == a.message && r.user == s.user && r.accessToken == s.accessToken
    ensures a.Rejected? && a.thunk == Refresh ==>
              r.user == None && r.accessToken == None && r.error == a.message && r.loading == s.loading
    ensures a.Rejected? && a.thunk == Logout ==> r == s
    ensures a.Registered? ==>
              r.user == Some(a.user) && !r.loading && r.accessToken == s.accessToken && r.error == s.error
    ensures a.LoggedIn? ==>
              && r.user == Some(a.user) && r.accessToken == Some(a.accessToken)
              && !r.loading && r.error == s.error
    ensures a.LoggedOut? ==>
              r.user == None && r.accessToken == None && r.loading == s.loading && r.error == s.error
    ensures a.Refreshed? ==> r == s.(accessToken := Some(a.accessToken))
  {
    match a
    case ClearError => s.(error := None)
    case Pending(t) => if Tracked(t) then s.(loading := true) else s
    case Rejected(t, message) =>
      if Tracked(t) then s.(loading := false, error := message)
      else if t == Refresh then s.(user := None, accessToken := None, error := message)
      else s
    case Registered(u) => s.(loading := false, user := Some(u))
    case LoggedIn(u, token) => s.(loading := false, user := Some(u), accessToken := Some(token))
    case LoggedOut => s.(user := None, accessToken := None)
    case Refreshed(token) => s.(accessToken := Some(token))
  }

  /** The state after a sequence of actions, dispatched in order. */
  function ReduceAll(s: State, actions: seq<Action>): State
    decreases |actions|
  {
    if |actions| == 0 then s else ReduceAll(Reduce(s, actions[0]), actions[1..])
  }

  /** The user is shown as signed in. */
  predicate SignedIn(s: State) {
    s.user.Some? && s.accessToken.Some?
  }

  // -------------------------------------------------------------- storage

  /** What the slice keeps in the browser's storage. */
  datatype Storage = Storage(user: Option<UserDoc>, accessToken: Option<string>)

  /** The storage writes of the reducer: a login stores the user and the
      token, a logout removes both, and no other action touches storage. */
  function Persist(st: Storage, a: Action): (r: Storage)
    ensures a.LoggedIn? ==> r == Storage(Some(a.user), Some(a.accessToken))
    ensures a.LoggedOut? ==> r == Storage(None, None)
    ensures !a.LoggedIn? && !a.LoggedOut? ==> r == st
  {
    match a
    case LoggedIn(u, token) => Storage(Some(u), Some(token))
    case LoggedOut => Storage(None, None)
    case _ => st
  }

  function PersistAll(st: Storage, actions: seq<Action>): Storage
    decreases |actions|
  {
    if |actions| == 0 then st else PersistAll(Persist(st, actions[0]), actions[1..])
  }

  /** The state a page reload starts from. */
  function Reload(st: Storage): State {
    Initial(st.user, st.accessToken)
  }

  /** The session shown is the one a reload would restore. */
  predicate InSync(s: State, st: Storage) {
    Reload(st).user == s.user && Reload(st).accessToken == s.accessToken
  }

  /** The actions whose effect on the session is mirrored in storage: not a
      registration, a refresh or a failed refresh (which change the session
      without writing storage), and not a login with an empty token (which
      a reload reads back as none). */
  predicate Mirrored(a: Action) {
    match a
    case Registered(_) => false
    case Refreshed(_) => false
    case Rejected(t, _) => t != Refresh
    case LoggedIn(_, token) => token != ""
    case _ => true
  }

  // --------------------------------------------------------------- lemmas

  /** A sign-in that succeeds after a failed one still carries the failure's
      message: no success clears `error`. */
  lemma FailedThenSuccessfulLogin(s: State, message: string, u: UserDoc, token: string)
    ensures var r := ReduceAll(s, [Pending(Login), Rejected(Login, Some(message)),
                                   Pending(Login), LoggedIn(u, token)]);
            && SignedIn(r) && !r.loading && r.error == Some(message)
  {
    var a := [Pending(Login), Rejected(Login, Some(message)), Pending(Login), LoggedIn(u, token)];
    var s1 := Reduce(s, a[0]);
    var s2 := Reduce(s1, a[1]);
    var s3 := Reduce(s2, a[2]);
    var s4 := Reduce(s3, a[3]);
    assert ReduceAll(s4, []) == s4;
    assert ReduceAll(s3, a[3..]) == s4 by { assert a[3..][1..] == []; }
    assert ReduceAll(s2, a[2..]) == s4 by { assert a[2..][1..] == a[3..]; }
    assert ReduceAll(s1, a[1..]) == s4 by { assert a[1..][1..] == a[2..]; }
  }

  /** Once signed out (after a logout or a failed refresh) the user stays
      absent until a register or login succeeds. */
  lemma {:induction false} NoUserWithoutSignIn(s: State, actions: seq<Action>)
    requires s.user.None?
    requires forall i :: 0 <= i < |actions| ==> !actions[i].Registered? && !actions[i].LoggedIn?
    ensures ReduceAll(s, actions).user.None?
    decreases |actions|
  {
    if |actions| > 0 {
      assert forall i :: 0 <= i < |actions| - 1 ==> actions[1..][i] == actions[i + 1];
      NoUserWithoutSignIn(Reduce(s, actions[0]), actions[1..]);
    }
  }

  /** Only `clearError` and a rejection write `error`: any run of other
      actions leaves it as it was. */
  lemma {:induction false} SuccessesKeepError(s: State, actions: seq<Action>)
    requires forall i :: 0 <= i < |actions| ==> !actions[i].ClearError? && !actions[i].Rejected?
    ensures ReduceAll(s, actions).error == s.error
    decreases |actions|
  {
    if |actions| > 0 {
      assert forall i :: 0 <= i < |actions| - 1 ==> actions[1..][i] == actions[i + 1];
      SuccessesKeepError(Reduce(s, actions[0]), actions[1..]);
    }
  }

  /** A reload restores the session shown, for as long as only mirrored
      actions are dispatched. */
  lemma {:induction false} ReloadRestoresSession(s: State, st: Storage, actions: seq<Action>)
    requires InSync(s, st)
    requires forall i :: 0 <= i < |actions| ==> Mirrored(actions[i])
    ensures InSync(ReduceAll(s, actions), PersistAll(st, actions))
    decreases |actions|
  {
    if |actions| > 0 {
      assert Mirrored(actions[0]);
      assert forall i :: 0 <= i < |actions| - 1 ==> actions[1..][i] == actions[i + 1];
      ReloadRestoresSession(Reduce(s, actions[0]), Persist(st, actions[0]), actions[1..]);
    }
  }

  /** A failed refresh signs the user out of the page but leaves storage
      alone, so a reload signs them back in with the old token. */
  lemma FailedRefreshUndoneByReload(s: State, st: Storage, message: Option<string>)
    requires st.user.Some? && st.accessToken.Some? && st.accessToken.value != ""
    ensures !SignedIn(Reduce(s, Rejected(Refresh, message)))
    ensures Persist(st, Rejected(Refresh, message)) == st
    ensures SignedIn(Reload(Persist(st, Rejected(Refresh, message))))
    ensures Reload(st).accessToken == st.accessToken
  {
  }
}
