/**
 * The admin session kept in local storage by `useAuth` and `authUtils`: a
 * token and its expiry time. Storage is a map from key to stored value; the
 * clock is the parameter `now` (milliseconds, as `Date.now()`).
 */
module Auth {
  import opened Wrappers
  import opened JsNumber

  const TokenKey: string := "adminToken"
  const ExpiryKey: string := "tokenExpiry"

  /** A value read back from storage: a string or a number. */
  datatype Stored = SStr(s: string) | SNum(n: Num) {
    /** `!!value`. */
    predicate Truthy() {
      if SStr? then s != "" else n.Truthy()
    }
  }

  type Storage = map<string, Stored>

  /** `Taro.getStorageSync(key)`: a missing key reads as the empty string. */
  function Read(st: Storage, key: string): (r: Stored)
    ensures key !in st ==> !r.Truthy()
  {
    if key in st then st[key] else SStr("")
  }

  /** `now < expiry` with JavaScript's coercion of a string operand to a number. */
  predicate Before(now: real, expiry: Stored) {
    var e := match expiry case SStr(s) => ToNumber(s) case SNum(n) => n;
    (e.Finite? && now < e.v) || e.PosInf?
  }

  /** `!!(token && expiry && Date.now() < expiry)`: the session test shared by every entry point. */
  predicate Authenticated(st: Storage, now: real) {
    Read(st, TokenKey).Truthy() && Read(st, ExpiryKey).Truthy() && Before(now, Read(st, ExpiryKey))
  }

  /** `getToken()` (hook and utility alike): the token while the session is live, else null. */
  function GetToken(st: Storage, now: real): (r: Option<Stored>)
    ensures r.Some? <==> Authenticated(st, now)
    ensures r.Some? ==> r.value == st[TokenKey] && r.value.Truthy()
  {
    if Read(st, TokenKey).Truthy() && Read(st, ExpiryKey).Truthy() && Before(now, Read(st, ExpiryKey)) then
      Some(Read(st, TokenKey))
    else None
  }

  /** The hook's state. */
  datatype AuthState = AuthState(isAuthenticated: bool, loading: bool)

  const InitialAuthState: AuthState := AuthState(false, true)

  /** `checkAuth()`: records the session test and ends loading. */
  function CheckAuth(st: Storage, now: real): (r: (bool, AuthState))
    ensures r.0 <==> GetToken(st, now).Some?
    ensures r.1 == AuthState(r.0, false)
  {
    var ok := Authenticated(st, now);
    (ok, AuthState(ok, false))
  }

  /** What `requireAuth()` leads to. */
  datatype Guard = Guard(allowed: bool, state: AuthState, redirectToLogin: bool)

  /** `requireAuth()`: allowed exactly when `checkAuth()` passes; otherwise a redirect to the login page follows. */
  function RequireAuth(st: Storage, now: real): (r: Guard)
    ensures r.allowed <==> Authenticated(st, now)
    ensures r.redirectToLogin <==> !r.allowed
    ensures r.state == AuthState(r.allowed, false)
  {
    var (ok, s) := CheckAuth(st, now);
    Guard(ok, s, !ok)
  }

  /** `authUtils.clearAuth()`: both session keys are removed, every other key is kept. */
  function ClearAuth(st: Storage): (r: Storage)
    ensures TokenKey !in r && ExpiryKey !in r
    ensures forall k :: k != TokenKey && k != ExpiryKey ==> (k in r <==> k in st)
    ensures forall k :: k in r ==> r[k] == st[k]
  {
    st - {TokenKey, ExpiryKey}
  }

  /** `logout()`: the session keys are removed and the hook reports signed out; a redirect follows. */
  function Logout(st: Storage, s: AuthState): (r: (Storage, AuthState))
    ensures r.0 == ClearAuth(st)
    ensures r.1 == s.(isAuthenticated := false)
  {
    (ClearAuth(st), s.(isAuthenticated := false))
  }

  /** After clearing or logging out nobody is signed in, at any time. */
  lemma SignedOutAfterClear(st: Storage, s: AuthState, now: real)
    ensures !Authenticated(ClearAuth(st), now)
    ensures GetToken(Logout(st, s).0, now).None?
    ensures !RequireAuth(Logout(st, s).0, now).allowed
  {
  }

  /** A session that is live now was live at every earlier moment. */
  lemma SessionLiveEarlier(st: Storage, now: real, earlier: real)
    requires earlier <= now && Authenticated(st, now)
    ensures Authenticated(st, earlier)
  {
  }

  /** A session that has expired stays expired. */
  lemma ExpiredStaysExpired(st: Storage, now: real, later: real)
    requires now <= later && Read(st, TokenKey).Truthy() && !Authenticated(st, now)
    ensures !Authenticated(st, later)
  {
  }

  /** A token stored with a numeric expiry is honoured exactly until that instant. */
  lemma LoginWindow(st: Storage, token: string, expiry: real, now: real)
    requires token != "" && expiry != 0.0
    ensures var s := st[TokenKey := SStr(token)][ExpiryKey := SNum(Finite(expiry))];
      GetToken(s, now) == (if now < expiry then Some(SStr(token)) else None)
  {
    var s := st[TokenKey := SStr(token)][ExpiryKey := SNum(Finite(expiry))];
    assert Read(s, TokenKey) == SStr(token);
  }
}
