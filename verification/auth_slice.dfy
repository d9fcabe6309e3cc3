/** The authentication reducer (src/redux/slices/authSlice.ts): a two-state
    login/logout machine with no credential check. */
module AuthSlice {

  datatype AuthState = AuthState(username: string, isAuthenticated: bool)

  const Initial: AuthState := AuthState("", false)

  /** `login(username)`: from any state, the user is signed in. */
  function Login(s: AuthState, username: string): (r: AuthState)
    ensures r.isAuthenticated && r.username == username
  {
    AuthState(username, true)
  }

  /** `logout`: from any state, back to the initial state. */
  function Logout(s: AuthState): (r: AuthState)
    ensures r == Initial
    ensures !r.isAuthenticated && r.username == ""
  {
    AuthState("", false)
  }

  /** The state after a login does not depend on the state before it. */
  lemma LoginForgetsPriorState(s: AuthState, t: AuthState, username: string)
    ensures Login(s, username) == Login(t, username)
  {
  }

  /** Logging out twice is logging out once, and a login followed by a
      logout leaves no trace. */
  lemma LogoutIdempotent(s: AuthState, username: string)
    ensures Logout(Logout(s)) == Logout(s)
    ensures Logout(Login(s, username)) == Initial
  {
  }
}
