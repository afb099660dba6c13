/**
 * The per-browser session store (core/session_manager.py): the `user` and
 * `role` keys it creates, sets and removes, and the role gate each page
 * passes through before it renders.
 */
module SessionManager {
  import opened Common
  import opened Records
  import opened UserService

  /** A value kept in the session store. */
  datatype SessionValue = NoneValue | UserValue(user: User) | Text(text: string) | Flag(flag: bool) | Number(number: int)

  /** Why a page sent the browser back to the start page. */
  datatype Denial = NotLoggedIn | WrongRole

  /** What a page does next: render, or `st.switch_page("app.py")`. */
  datatype Navigation = Stay | SwitchToApp(reason: Denial)

  /** The store with `user` and `role` added where they are missing (as None). */
  function Initialized(state: map<string, SessionValue>): (r: map<string, SessionValue>)
    ensures r.Keys == state.Keys + {"user", "role"}
    ensures forall k | k in state :: r[k] == state[k]
    ensures "user" !in state ==> r["user"] == NoneValue
    ensures "role" !in state ==> r["role"] == NoneValue
  {
    var s := if "user" in state then state else state["user" := NoneValue];
    if "role" in s then s else s["role" := NoneValue]
  }

  /** Initialising twice is initialising once. */
  lemma InitializedIdempotent(state: map<string, SessionValue>)
    ensures Initialized(Initialized(state)) == Initialized(state)
  {
  }

  /** The store after `login(user)`. */
  function LoggedIn(state: map<string, SessionValue>, user: User): (r: map<string, SessionValue>)
    ensures r.Keys == state.Keys + {"user", "role"}
    ensures r["user"] == UserValue(user) && r["role"] == Text(user.role)
    ensures forall k | k in state && k != "user" && k != "role" :: r[k] == state[k]
  {
    state["user" := UserValue(user)]["role" := Text(user.role)]
  }

  /** The store after `clear_session` (and the first half of `logout`). */
  function Cleared(state: map<string, SessionValue>): (r: map<string, SessionValue>)
    ensures r.Keys == state.Keys - {"user", "role"}
    ensures forall k | k in r :: r[k] == state[k]
  {
    state - {"user", "role"}
  }

  /** Logging in and then out leaves every other key as it was. */
  lemma LoginThenClear(state: map<string, SessionValue>, user: User)
    ensures Cleared(LoggedIn(state, user)) == Cleared(state)
  {
  }

  /** `(st.session_state.role or "")` */
  function RoleText(v: SessionValue): Option<string> {
    if v.Text? then Some(v.text) else None
  }

  /** The decision `require_role(role)` takes on the store it is given. */
  function RoleGate(state: map<string, SessionValue>, role: Option<string>): (nav: Navigation)
    ensures Initialized(state)["user"] == NoneValue ==> nav == SwitchToApp(NotLoggedIn)
    ensures nav == Stay <==>
      Initialized(state)["user"] != NoneValue && RoleAccepted(role, RoleText(Initialized(state)["role"]))
  {
    var s := Initialized(state);
    if s["user"] == NoneValue then SwitchToApp(NotLoggedIn)
    else if !RoleAccepted(role, RoleText(s["role"])) then SwitchToApp(WrongRole)
    else Stay
  }

  /** Right after `login(user)`, a page lets the user in exactly when the account's role is accepted. */
  lemma GateAfterLogin(state: map<string, SessionValue>, user: User, role: Option<string>)
    ensures RoleGate(LoggedIn(state, user), role) == Stay <==> RoleAccepted(role, Some(user.role))
  {
    assert Initialized(LoggedIn(state, user)) == LoggedIn(state, user);
  }

  /** After `clear_session` every gated page sends the browser back. */
  lemma GateAfterClear(state: map<string, SessionValue>, role: Option<string>)
    ensures RoleGate(Cleared(state), role) == SwitchToApp(NotLoggedIn)
  {
  }

  /** `st.session_state` together with the page's query parameters. */
  class Session {
    var state: map<string, SessionValue>
    var queryParams: map<string, string>

    constructor ()
      ensures state == map[] && queryParams == map[]
    {
      state := map[];
      queryParams := map[];
    }

    /** `init_session_state` */
    method InitSessionState()
      modifies this
      ensures state == Initialized(old(state)) && queryParams == old(queryParams)
    {
      if "user" !in state {
        state := state["user" := NoneValue];
      }
      if "role" !in state {
        state := state["role" := NoneValue];
      }
    }

    /** `login` */
    method Login(user: User)
      modifies this
      ensures state == LoggedIn(old(state), user) && queryParams == old(queryParams)
    {
      state := state["user" := UserValue(user)];
      state := state["role" := Text(user.role)];
    }

    /** `clear_session` */
    method ClearSession()
      modifies this
      ensures state == Cleared(old(state)) && queryParams == old(queryParams)
    {
      state := state - {"user"};
      state := state - {"role"};
    }

    /** `logout`: clears the session and the query parameters, then goes to the start page. */
    method Logout() returns (nav: Navigation)
      modifies this
      ensures state == Cleared(old(state)) && queryParams == map[]
      ensures nav == SwitchToApp(NotLoggedIn)
    {
      state := state - {"user"};
      state := state - {"role"};
      queryParams := map[];
      nav := SwitchToApp(NotLoggedIn);
    }

    /** `require_role`: initialises the store, then admits or redirects. */
    method RequireRole(role: Option<string>) returns (nav: Navigation)
      modifies this
      ensures state == Initialized(old(state)) && queryParams == old(queryParams)
      ensures nav == RoleGate(old(state), role)
    {
      InitSessionState();
      if state["user"] == NoneValue {
        return SwitchToApp(NotLoggedIn);
      }
      var requested := NormalizedRole(role);
      var current := NormalizedRole(RoleText(state["role"]));
      if current !in AllowedRoles(requested) {
        return SwitchToApp(WrongRole);
      }
      nav := Stay;
    }
  }
}
