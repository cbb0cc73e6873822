/**
 Login, logout and acceptance across two services: auth-service writes and deletes sessions
 (service/auth_service.go, repository/redis/session_repository.go) and the API gateway
 reads them on every request (handler/http/proxy_handler.go).
 */
module Sessions {
  import opened Wrappers
  import opened Text
  import opened Tokens

  datatype Session = Session(id: string, userID: string, email: string, expiresAt: int)

  datatype Failure =
    | BadRequest(message: string)
    | Unauthenticated(message: string)
    | Upstream(message: string)
    | Internal(message: string)

  const KEY_PREFIX := "auth:sessions:"

  function Key(id: string): string { KEY_PREFIX + id }

  lemma KeyInjective(a: string, b: string)
    requires Key(a) == Key(b)
    ensures a == b
  {
    assert Key(a)[|KEY_PREFIX|..] == a && Key(b)[|KEY_PREFIX|..] == b;
  }

  function Lookup(store: map<string, Session>, id: string): Option<Session> {
    if Key(id) in store then Some(store[Key(id)]) else None
  }

  /** SET with EX refuses a lifetime that truncates to zero seconds. */
  predicate Lives(expiresAt: int, now: int) { expiresAt - now >= NANOS }

  class SessionRepository {
    var store: map<string, Session>

    constructor ()
      ensures store == map[]
    {
      store := map[];
    }

    method Save(session: Session, now: int, fate: Fate) returns (err: Option<string>)
      modifies this
      ensures err.None? <==> session.expiresAt - now >= 1_000_000_000 && fate.Applied?
      ensures store == if session.expiresAt - now >= 1_000_000_000 && !fate.Lost?
        then old(store)["auth:sessions:" + session.id := session] else old(store)
    {
      var ttl := session.expiresAt - now;
      if ttl <= 0 { return Some("session TTL must be positive"); }
      if ttl / NANOS == 0 { return Some("save session: invalid expire time"); }
      if fate.Lost? { return Some(fate.error); }
      store := store[Key(session.id) := session];
      err := if fate.Applied? then None else Some(fate.error);
    }

    method GetByID(id: string, fault: Option<string>) returns (r: Result<Option<Session>, string>)
      ensures r == if fault.Some? then Err(fault.value) else Ok(Lookup(store, id))
    {
      if fault.Some? { return Err(fault.value); }
      r := Ok(Lookup(store, id));
    }

    method DeleteByID(id: string, fate: Fate) returns (err: Option<string>)
      modifies this
      ensures err == if fate.Applied? then None else Some(fate.error)
      ensures store == if fate.Lost? then old(store) else old(store) - {"auth:sessions:" + id}
    {
      if fate.Lost? { return Some(fate.error); }
      store := store - {Key(id)};
      err := if fate.Applied? then None else Some(fate.error);
    }
  }

  // ---- The three services' decisions ----

  /** What both services decide once a token has parsed and its session has been looked up. */
  function CheckSession(session: Option<Session>, c: Claims, now: int): Result<Session, Failure> {
    if session.None? || session.value.userID != c.subject then Err(Unauthenticated("session is invalid or revoked"))
    else if session.value.expiresAt < now then Err(Unauthenticated("session has expired"))
    else Ok(session.value)
  }

  function Claimed(p: Primitives, v: Verifier, header: string, now: int): Result<Claims, Failure> {
    var token := BearerToken(header);
    if token == "" then Err(Unauthenticated("missing bearer token"))
    else
      match Parse(p, v, token, now)
      case Err(_) => Err(Unauthenticated("invalid bearer token"))
      case Ok(c) => Ok(c)
  }

  /** What both services answer to a header, given what parsing its token gives. */
  function Parsed(claims: Result<Claims, string>): Result<Claims, Failure> {
    if claims.Ok? then Ok(claims.value) else Err(Unauthenticated("invalid bearer token"))
  }

  /** The verifier is given exactly the token behind the scheme, however the scheme is spelled. */
  lemma VerifierGetsToken(
      p: Primitives, v: Verifier, before: string, scheme: string, between: string, t: string, after: string, now: int)
    requires OnlySpaces(before) && OnlySpaces(between) && OnlySpaces(after) && SpellsBearer(scheme) && t != "" && Trimmed(t)
    ensures Claimed(p, v, before + scheme + " " + between + t + after, now) == Parsed(Parse(p, v, t, now))
  {
    SchemeIsStripped(before, scheme, between, t, after);
    hide BearerToken, Parse;
  }

  /** Without the scheme the verifier is given the header, and a blank header is refused outright. */
  lemma VerifierGetsHeader(p: Primitives, v: Verifier, before: string, t: string, after: string, now: int)
    requires OnlySpaces(before) && OnlySpaces(after) && Trimmed(t) && !NamesBearer(t)
    ensures Claimed(p, v, before + t + after, now) ==
      if t == "" then Err(Unauthenticated("missing bearer token")) else Parsed(Parse(p, v, t, now))
  {
    OthersAreKept(before, t, after);
    hide BearerToken, Parse;
  }

  /** requireAuthenticated with a session store that answers; the clock is read at t1 and t2. */
  function Accepts(p: Primitives, v: Verifier, store: map<string, Session>, header: string, t1: int, t2: int): Result<Claims, Failure> {
    match Claimed(p, v, header, t1)
    case Err(e) => Err(e)
    case Ok(c) =>
      match CheckSession(Lookup(store, c.sessionID), c, t2)
      case Err(e) => Err(e)
      case Ok(_) => Ok(c)
  }

  class Gateway {
    const primitives: Primitives
    const verifier: Verifier
    const sessions: SessionRepository

    constructor (primitives: Primitives, verifier: Verifier, sessions: SessionRepository)
      ensures this.primitives == primitives && this.verifier == verifier && this.sessions == sessions
    {
      this.primitives, this.verifier, this.sessions := primitives, verifier, sessions;
    }

    method RequireAuthenticated(header: string, t1: int, fault: Option<string>, t2: int) returns (r: Result<Claims, Failure>)
      ensures fault.None? ==> r == Accepts(primitives, verifier, sessions.store, header, t1, t2)
      ensures fault.Some? ==> r.Err?
      ensures fault.Some? ==>
        (r.error == if Claimed(primitives, verifier, header, t1).Ok? then Internal("failed to verify session")
          else Claimed(primitives, verifier, header, t1).error)
    {
      var token := TrimSpace(header);
      if |token| >= 7 && ToLower(token)[..7] == "bearer " { token := TrimSpace(token[7..]); }
      if token == "" { return Err(Unauthenticated("missing bearer token")); }
      var claims := Parse(primitives, verifier, token, t1);
      if claims.Err? { return Err(Unauthenticated("invalid bearer token")); }
      var session := sessions.GetByID(claims.value.sessionID, fault);
      if session.Err? { return Err(Internal("failed to verify session")); }
      if session.value.None? || session.value.value.userID != claims.value.subject {
        return Err(Unauthenticated("session is invalid or revoked"));
      }
      if session.value.value.expiresAt < t2 { return Err(Unauthenticated("session has expired")); }
      return Ok(claims.value);
    }
  }

  /** The outside answers a callback depends on, in the order they are asked for. */
  datatype Login = Login(
    stateValid: bool, exchange: Option<string>, user: Result<AuthUser, string>, sessionID: Result<string, string>,
    t1: int, t2: int, t3: int, fate: Fate)
  {
    /** The provider named a user and a session id was drawn. */
    predicate Answered() { exchange.None? && user.Ok? && sessionID.Ok? }
  }

  datatype CallbackResult = CallbackResult(token: string, expiresAt: int, user: AuthUser, sessionID: string)

  datatype ValidationResult = ValidationResult(user: AuthUser, sessionID: string, expiresAt: int)

  class AuthService {
    const primitives: Primitives
    const issuer: Issuer
    const sessions: SessionRepository
    const sessionTTL: int

    constructor (primitives: Primitives, issuer: Issuer, sessions: SessionRepository, sessionTTL: int)
      ensures this.primitives == primitives && this.issuer == issuer && this.sessions == sessions && this.sessionTTL == sessionTTL
    {
      this.primitives, this.issuer, this.sessions, this.sessionTTL := primitives, issuer, sessions, sessionTTL;
    }

    function OwnVerifier(): Verifier { Verifier(issuer.secret, issuer.issuer, true) }

    /**
     A token is returned exactly when its session was stored and the write acknowledged; the
     first outside answer that is bad decides the error, and nothing is stored before all of
     them are good.
     */
    method HandleCallback(code: string, state: string, w: Login) returns (r: Result<CallbackResult, Failure>)
      modifies sessions
      ensures OnlySpaces(code) ==> r == Err(BadRequest("missing authorization code"))
      ensures !OnlySpaces(code) && OnlySpaces(state) ==> r == Err(BadRequest("missing OAuth state"))
      ensures !OnlySpaces(code) && !OnlySpaces(state) && !w.stateValid ==> r == Err(BadRequest("invalid OAuth state"))
      ensures !OnlySpaces(code) && !OnlySpaces(state) && w.stateValid && !w.Answered() ==>
        r == Err(if w.exchange.Some? then Upstream("failed to exchange code with Google")
                 else if w.user.Err? then Upstream("failed to load Google user profile")
                 else Internal("failed to create session"))
      ensures var asked := !OnlySpaces(code) && !OnlySpaces(state) && w.stateValid && w.Answered();
        if asked then
          var user, id, expiresAt := w.user.value, w.sessionID.value, w.t1 + sessionTTL;
          && r == (if expiresAt - w.t3 >= 1_000_000_000 && w.fate.Applied?
                   then Ok(CallbackResult(Issue(primitives, issuer, user, id, w.t2), expiresAt, user, id))
                   else Err(Internal("failed to persist session")))
          && sessions.store == AfterSignIn(old(sessions.store), user, id, expiresAt, w.t3, w.fate)
          && (expiresAt - w.t3 >= 1_000_000_000 && !w.fate.Lost? ==>
                sessions.store == old(sessions.store)["auth:sessions:" + id := Session(id, user.id, user.email, expiresAt)])
        else r.Err? && sessions.store == old(sessions.store)
    {
      BlankMeans(code);
      BlankMeans(state);
      hide TrimSpace, OnlySpaces, Issue;
      if IsBlank(code) { return Err(BadRequest("missing authorization code")); }
      if IsBlank(state) { return Err(BadRequest("missing OAuth state")); }
      if !w.stateValid { return Err(BadRequest("invalid OAuth state")); }
      if w.exchange.Some? { return Err(Upstream("failed to exchange code with Google")); }
      if w.user.Err? { return Err(Upstream("failed to load Google user profile")); }
      if w.sessionID.Err? { return Err(Internal("failed to create session")); }
      var user, sessionID := w.user.value, w.sessionID.value;
      var expiresAt := w.t1 + sessionTTL;
      var session := Session(sessionID, user.id, user.email, expiresAt);
      var signedToken := Issue(primitives, issuer, user, sessionID, w.t2);
      var err := sessions.Save(session, w.t3, w.fate);
      if err.Some? { return Err(Internal("failed to persist session")); }
      return Ok(CallbackResult(signedToken, expiresAt, user, sessionID));
    }

    method ParseBearerToken(header: string, now: int) returns (r: Result<Claims, Failure>)
      ensures r == Claimed(primitives, OwnVerifier(), header, now)
    {
      var token := TrimSpace(header);
      if |token| >= 7 && ToLower(token)[..7] == "bearer " { token := TrimSpace(token[7..]); }
      if token == "" { return Err(Unauthenticated("missing bearer token")); }
      var claims := Parse(primitives, OwnVerifier(), token, now);
      if claims.Err? { return Err(Unauthenticated("invalid bearer token")); }
      return Ok(claims.value);
    }

    method Logout(header: string, now: int, fate: Fate) returns (err: Option<Failure>)
      modifies sessions
      ensures sessions.store == AfterLogout(primitives, OwnVerifier(), old(sessions.store), header, now, fate)
      ensures err == match Claimed(primitives, OwnVerifier(), header, now)
        case Err(e) => Some(e)
        case Ok(_) => if fate.Applied? then None else Some(Internal("failed to invalidate session"))
    {
      var claims := ParseBearerToken(header, now);
      if claims.Err? { return Some(claims.error); }
      var deleted := sessions.DeleteByID(claims.value.sessionID, fate);
      err := if deleted.Some? then Some(Internal("failed to invalidate session")) else None;
    }

    /** The auth-service's own check agrees with the gateway's on the same store and clock. */
    method ValidateSession(header: string, t1: int, fault: Option<string>, t2: int) returns (r: Result<ValidationResult, Failure>)
      ensures fault.None? ==> Reports(r, Accepts(primitives, OwnVerifier(), sessions.store, header, t1, t2), sessions.store)
      ensures fault.Some? ==> r.Err?
      ensures fault.Some? ==>
        (r.error == if Claimed(primitives, OwnVerifier(), header, t1).Ok? then Internal("failed to load session")
          else Claimed(primitives, OwnVerifier(), header, t1).error)
    {
      var claims := ParseBearerToken(header, t1);
      if claims.Err? { return Err(claims.error); }
      var c := claims.value;
      var session := sessions.GetByID(c.sessionID, fault);
      if session.Err? { return Err(Internal("failed to load session")); }
      if session.value.None? || session.value.value.userID != c.subject {
        return Err(Unauthenticated("session is invalid or revoked"));
      }
      if session.value.value.expiresAt < t2 { return Err(Unauthenticated("session has expired")); }
      return Ok(ValidationResult(AuthUser(c.subject, c.email, c.name, c.picture), c.sessionID, session.value.value.expiresAt));
    }
  }

  /** r says what a says, with the session's expiry from the store. */
  predicate Reports(r: Result<ValidationResult, Failure>, a: Result<Claims, Failure>, store: map<string, Session>) {
    match a
    case Err(e) => r == Err(e)
    case Ok(c) =>
      Key(c.sessionID) in store && r == Ok(ValidationResult(
        AuthUser(c.subject, c.email, c.name, c.picture), c.sessionID, store[Key(c.sessionID)].expiresAt))
  }

  function SessionOf(user: AuthUser, id: string, expiresAt: int): Session {
    Session(id, user.id, user.email, expiresAt)
  }

  function AfterSignIn(store: map<string, Session>, user: AuthUser, id: string, expiresAt: int, now: int, fate: Fate): map<string, Session> {
    if Lives(expiresAt, now) && !fate.Lost? then store[Key(id) := SessionOf(user, id, expiresAt)] else store
  }

  function AfterLogout(p: Primitives, v: Verifier, store: map<string, Session>, header: string, now: int, fate: Fate): map<string, Session> {
    var claims := Claimed(p, v, header, now);
    if claims.Ok? && !fate.Lost? then store - {Key(claims.value.sessionID)} else store
  }

  // ---- Runs ----

  /** The deployment: both services share the secret; the clock is in the actions. */
  datatype Config = Config(p: Primitives, issuer: Issuer, sessionTTL: int, gatewayIssuer: string) {
    function Own(): Verifier { Verifier(issuer.secret, issuer.issuer, true) }
    function Gateway(): Verifier { Verifier(issuer.secret, gatewayIssuer, false) }
    /** The gateway takes tokens that name the auth-service's issuer. */
    predicate IssuersAgree() { issuer.issuer == "" || gatewayIssuer == "" || gatewayIssuer == issuer.issuer }
  }

  /** A login that returned a token. */
  datatype Grant = Grant(user: AuthUser, sessionID: string, issuedAt: int, expiresAt: int)

  datatype Action =
    | SignIn(user: AuthUser, sessionID: string, t1: int, t2: int, t3: int, fate: Fate)
    | SignOut(header: string, now: int, fate: Fate)
    /** Redis drops the key; its EX lifetime is in truncated seconds. */
    | Evict(sessionID: string)

  datatype System = System(store: map<string, Session>, grants: set<Grant>, used: set<string>, ended: set<string>)

  const START := System(map[], {}, {}, {})

  function TokenOf(cfg: Config, g: Grant): string { Issue(cfg.p, cfg.issuer, g.user, g.sessionID, g.issuedAt) }

  function ClaimsOf(cfg: Config, g: Grant): Claims { ClaimsFor(cfg.issuer, g.user, g.sessionID, g.issuedAt) }

  ghost function Do(cfg: Config, s: System, a: Action): System {
    match a
    case SignIn(user, id, t1, t2, t3, fate) =>
      var expiresAt := t1 + cfg.sessionTTL;
      s.(used := s.used + {id},
         store := AfterSignIn(s.store, user, id, expiresAt, t3, fate),
         grants := s.grants + if Lives(expiresAt, t3) && fate.Applied? then {Grant(user, id, t2, expiresAt)} else {})
    case SignOut(header, now, fate) =>
      var claims := Claimed(cfg.p, cfg.Own(), header, now);
      s.(store := AfterLogout(cfg.p, cfg.Own(), s.store, header, now, fate),
         ended := s.ended + if claims.Ok? && !fate.Lost? then {claims.value.sessionID} else {})
    case Evict(id) => s.(store := s.store - {Key(id)}, ended := s.ended + ({id} * s.used))
  }

  ghost function Exec(cfg: Config, run: seq<Action>): System {
    if run == [] then START else Do(cfg, Exec(cfg, run[..|run| - 1]), run[|run| - 1])
  }

  /** A token with a valid signature was returned by a login: nobody else can sign. */
  ghost predicate Unforged(cfg: Config, s: System, header: string) {
    Signed(cfg.p, cfg.issuer.secret, BearerToken(header)).Some? ==>
      exists g :: g in s.grants &&
        Signed(cfg.p, cfg.issuer.secret, TokenOf(cfg, g)) == Signed(cfg.p, cfg.issuer.secret, BearerToken(header))
  }

  /**
   A run in which no session id is reused (newSessionID draws 128 random bits) and no logout
   presents a forged token.
   */
  ghost predicate Genuine(cfg: Config, run: seq<Action>) {
    if run == [] then cfg.p.Lawful()
    else
      var before, a := run[..|run| - 1], run[|run| - 1];
      && Genuine(cfg, before)
      && (a.SignIn? ==> a.sessionID !in Exec(cfg, before).used)
      && (a.SignOut? ==> Unforged(cfg, Exec(cfg, before), a.header))
  }

  lemma {:induction false} GenuineIsLawful(cfg: Config, run: seq<Action>)
    requires Genuine(cfg, run)
    ensures cfg.p.Lawful()
  {
    if run != [] { GenuineIsLawful(cfg, run[..|run| - 1]); }
  }

  /** A granted session is in the store, as granted, until it is logged out or evicted. */
  ghost predicate Consistent(s: System) {
    && (forall id :: Key(id) in s.store || id in s.ended ==> id in s.used)
    && (forall g :: g in s.grants ==> g.sessionID in s.used)
    && (forall g, h :: g in s.grants && h in s.grants && g.sessionID == h.sessionID ==> g == h)
    && (forall g :: g in s.grants ==> Lookup(s.store, g.sessionID) == Granted(s, g))
  }

  ghost function Granted(s: System, g: Grant): Option<Session> {
    if g.sessionID in s.ended then None else Some(SessionOf(g.user, g.sessionID, g.expiresAt))
  }

  lemma RemoveKey(store: map<string, Session>, id: string)
    ensures forall other :: Lookup(store - {Key(id)}, other) == if other == id then None else Lookup(store, other)
    ensures forall other :: Key(other) in store - {Key(id)} ==> Key(other) in store
  {
    KeysDiffer(id);
    hide Key;
  }

  lemma KeysDiffer(id: string)
    ensures forall other :: Key(other) == Key(id) <==> other == id
  {
    forall other | Key(other) == Key(id) ensures other == id { KeyInjective(other, id); }
  }

  lemma PutKey(store: map<string, Session>, id: string, session: Session)
    ensures forall other :: Lookup(store[Key(id) := session], other) == if other == id then Some(session) else Lookup(store, other)
  {
    forall other
      ensures Lookup(store[Key(id) := session], other) == if other == id then Some(session) else Lookup(store, other)
    {
      KeysDiffer(id);
      hide Key;
      assert Key(other) == Key(id) <==> other == id;
    }
  }

  lemma SignInConsistent(cfg: Config, s: System, a: Action)
    requires a.SignIn? && Consistent(s) && a.sessionID !in s.used
    ensures Consistent(Do(cfg, s, a))
  {
    hide Key, Lives, SessionOf;
    PutKey(s.store, a.sessionID, SessionOf(a.user, a.sessionID, a.t1 + cfg.sessionTTL));
    LookupIsIn(Do(cfg, s, a).store);
    LookupIsIn(s.store);
  }

  lemma LookupIsIn(store: map<string, Session>)
    ensures forall id :: Key(id) in store <==> Lookup(store, id).Some?
  {
  }

  lemma EndConsistent(s: System, id: string)
    requires Consistent(s) && id in s.used
    ensures Consistent(s.(store := s.store - {Key(id)}, ended := s.ended + {id}))
  {
    hide Key, SessionOf;
    RemoveKey(s.store, id);
  }

  lemma DropConsistent(s: System, id: string)
    requires Consistent(s) && id !in s.used
    ensures Consistent(s.(store := s.store - {Key(id)}))
  {
    hide Key, SessionOf;
    RemoveKey(s.store, id);
  }

  /** A genuine header that either service's verifier accepts carries a granted token and its claims. */
  lemma Authentic(cfg: Config, s: System, v: Verifier, header: string, now: int) returns (g: Grant)
    requires cfg.p.Lawful() && v.secret == cfg.issuer.secret && Unforged(cfg, s, header) && Claimed(cfg.p, v, header, now).Ok?
    ensures g in s.grants && BearerToken(header) == TokenOf(cfg, g)
    ensures Claimed(cfg.p, v, header, now).value == ClaimsOf(cfg, g)
  {
    hide Parse, CheckClaims, Issue, Signed, BearerToken, ClaimsFor;
    var token := BearerToken(header);
    ParsedIsSigned(cfg.p, v, token, now);
    g :| g in s.grants && Signed(cfg.p, v.secret, TokenOf(cfg, g)) == Signed(cfg.p, v.secret, token);
    SignedDeterminesToken(cfg.p, v.secret, token);
    SignedDeterminesToken(cfg.p, v.secret, TokenOf(cfg, g));
    IssueThenParse(cfg.p, cfg.issuer, v, g.user, g.sessionID, g.issuedAt, now);
    CheckedIsSame(v, ClaimsOf(cfg, g), now);
  }

  lemma CheckedIsSame(v: Verifier, c: Claims, now: int)
    ensures CheckClaims(v, c, now).Ok? ==> CheckClaims(v, c, now).value == c
  {
  }

  lemma SignOutConsistent(cfg: Config, s: System, a: Action)
    requires a.SignOut? && Consistent(s) && cfg.p.Lawful() && Unforged(cfg, s, a.header)
    ensures Consistent(Do(cfg, s, a))
  {
    hide Claimed, Unforged, ClaimsFor;
    var claims := Claimed(cfg.p, cfg.Own(), a.header, a.now);
    if claims.Ok? && !a.fate.Lost? {
      var g := Authentic(cfg, s, cfg.Own(), a.header, a.now);
      ClaimsName(cfg, g);
      EndConsistent(s, g.sessionID);
    } else {
      assert s.ended + {} == s.ended;
    }
  }

  lemma ClaimsName(cfg: Config, g: Grant)
    ensures ClaimsOf(cfg, g).sessionID == g.sessionID && ClaimsOf(cfg, g).subject == g.user.id
    ensures ClaimsOf(cfg, g).issuer == cfg.issuer.issuer && ClaimsOf(cfg, g).expiresAt == Unix(g.issuedAt + cfg.issuer.ttl)
  {
  }

  lemma {:induction false} AlwaysConsistent(cfg: Config, run: seq<Action>)
    requires Genuine(cfg, run)
    ensures Consistent(Exec(cfg, run))
  {
    if run == [] {
      assert Consistent(START);
    } else {
      var before, a := run[..|run| - 1], run[|run| - 1];
      AlwaysConsistent(cfg, before);
      GenuineIsLawful(cfg, before);
      hide Consistent, Unforged, Genuine;
      var s := Exec(cfg, before);
      match a
      case SignIn(_, _, _, _, _, _) => SignInConsistent(cfg, s, a);
      case SignOut(_, _, _) => SignOutConsistent(cfg, s, a);
      case Evict(id) =>
        if id in s.used {
          EndConsistent(s, id);
          assert {id} * s.used == {id};
        } else {
          DropConsistent(s, id);
          assert s.ended + ({id} * s.used) == s.ended;
        }
    }
  }

  // ---- Acceptance at the gateway ----

  /** What a caller can check of a granted token before the request. */
  ghost predicate Live(cfg: Config, s: System, g: Grant, t1: int, t2: int) {
    && g.sessionID !in s.ended
    && g.user.id != "" && g.sessionID != ""
    && t1 / 1_000_000_000 < (g.issuedAt + cfg.issuer.ttl) / 1_000_000_000
    && t2 <= g.expiresAt
  }

  ghost predicate Current(cfg: Config, s: System, g: Grant, t1: int, t2: int) {
    Live(cfg, s, g, t1, t2) && cfg.IssuersAgree()
  }

  /**
   Over every run of logins, logouts and evictions: the gateway accepts a genuine header
   exactly when it carries the token of a login whose session is neither logged out nor
   evicted, before the token's expiry second and not after the session's expiry, and the
   two services' issuers agree; and it then reports that login's user.
   */
  lemma GatewayAcceptsExactly(cfg: Config, run: seq<Action>, header: string, t1: int, t2: int)
    requires Genuine(cfg, run) && Unforged(cfg, Exec(cfg, run), header)
    ensures var s := Exec(cfg, run); var r := Accepts(cfg.p, cfg.Gateway(), s.store, header, t1, t2);
      && (r.Ok? <==> exists g :: g in s.grants && BearerToken(header) == TokenOf(cfg, g) && Current(cfg, s, g, t1, t2))
      && (r.Ok? ==> exists g :: g in s.grants && BearerToken(header) == TokenOf(cfg, g) && r.value == ClaimsOf(cfg, g))
  {
    AlwaysConsistent(cfg, run);
    GenuineIsLawful(cfg, run);
    hide Exec, Genuine, Unforged;
    var s := Exec(cfg, run);
    var v := cfg.Gateway();
    if Claimed(cfg.p, v, header, t1).Ok? {
      var g := Authentic(cfg, s, v, header, t1);
      AcceptsGrant(cfg, s, g, header, t1, t2);
    }
    forall g | g in s.grants && BearerToken(header) == TokenOf(cfg, g)
      ensures Accepts(cfg.p, v, s.store, header, t1, t2).Ok? <==> Current(cfg, s, g, t1, t2)
    {
      AcceptsGrant(cfg, s, g, header, t1, t2);
    }
  }

  /** What either service decides on the header of a granted token. */
  lemma DecidesGrant(cfg: Config, s: System, g: Grant, v: Verifier, header: string, t1: int, t2: int)
    requires cfg.p.Lawful() && Consistent(s) && g in s.grants && BearerToken(header) == TokenOf(cfg, g)
    requires v.secret == cfg.issuer.secret
    ensures var r := Accepts(cfg.p, v, s.store, header, t1, t2);
      && (r.Ok? <==> Live(cfg, s, g, t1, t2) && (cfg.issuer.issuer == "" || v.issuer == "" || v.issuer == cfg.issuer.issuer))
      && (r.Ok? ==> r.value == ClaimsOf(cfg, g))
  {
    hide Parse, Issue, BearerToken, ClaimsFor, Key;
    ClaimsName(cfg, g);
    IssueThenParse(cfg.p, cfg.issuer, v, g.user, g.sessionID, g.issuedAt, t1);
    IssuedNotEmpty(cfg, g);
    assert Lookup(s.store, g.sessionID) == Granted(s, g);
  }

  lemma AcceptsGrant(cfg: Config, s: System, g: Grant, header: string, t1: int, t2: int)
    requires cfg.p.Lawful() && Consistent(s) && g in s.grants && BearerToken(header) == TokenOf(cfg, g)
    ensures var r := Accepts(cfg.p, cfg.Gateway(), s.store, header, t1, t2);
      && (r.Ok? <==> Current(cfg, s, g, t1, t2))
      && (r.Ok? ==> r.value == ClaimsOf(cfg, g))
  {
    DecidesGrant(cfg, s, g, cfg.Gateway(), header, t1, t2);
    hide Live, Accepts, Consistent, BearerToken, TokenOf;
  }

  /** The auth-service validates a login's token while it is live, and then names that login's user, field by field. */
  lemma ValidationNamesUser(
      cfg: Config, run: seq<Action>, g: Grant, header: string, t1: int, t2: int, r: Result<ValidationResult, Failure>)
    requires Genuine(cfg, run) && g in Exec(cfg, run).grants && BearerToken(header) == TokenOf(cfg, g)
    requires Reports(r, Accepts(cfg.p, cfg.Own(), Exec(cfg, run).store, header, t1, t2), Exec(cfg, run).store)
    ensures r.Ok? <==> Live(cfg, Exec(cfg, run), g, t1, t2)
    ensures r.Ok? ==> r.value == ValidationResult(g.user, g.sessionID, g.expiresAt)
  {
    AlwaysConsistent(cfg, run);
    GenuineIsLawful(cfg, run);
    hide Exec, Genuine, BearerToken, TokenOf, Accepts, Live;
    var s := Exec(cfg, run);
    DecidesGrant(cfg, s, g, cfg.Own(), header, t1, t2);
    assert Lookup(s.store, g.sessionID) == Granted(s, g);
    ClaimsOfUser(cfg, g);
  }

  lemma ClaimsOfUser(cfg: Config, g: Grant)
    ensures var c := ClaimsOf(cfg, g); AuthUser(c.subject, c.email, c.name, c.picture) == g.user && c.sessionID == g.sessionID
  {
  }

  /** Both services' answer on a session, once the token has parsed. */
  lemma DecisionOnSession(p: Primitives, v: Verifier, store: map<string, Session>, header: string, t1: int, t2: int, c: Claims)
    requires Claimed(p, v, header, t1) == Ok(c)
    ensures var r, key := Accepts(p, v, store, header, t1, t2), "auth:sessions:" + c.sessionID;
      && (r.Ok? <==> key in store && store[key].userID == c.subject && t2 <= store[key].expiresAt)
      && (r.Err? <==> r == Err(Unauthenticated("session is invalid or revoked")) || r == Err(Unauthenticated("session has expired")))
      && (r == Err(Unauthenticated("session has expired")) <==>
            key in store && store[key].userID == c.subject && store[key].expiresAt < t2)
  {
    hide Claimed;
  }

  lemma IssuedNotEmpty(cfg: Config, g: Grant)
    ensures TokenOf(cfg, g) != ""
  {
    hide ClaimsFor;
  }

  /** The usual header of a login's token is accepted exactly while the login is current. */
  lemma BearerHeaderAccepted(cfg: Config, run: seq<Action>, g: Grant, t1: int, t2: int)
    requires Genuine(cfg, run) && g in Exec(cfg, run).grants
    ensures var s := Exec(cfg, run); var r := Accepts(cfg.p, cfg.Gateway(), s.store, "Bearer " + TokenOf(cfg, g), t1, t2);
      (r.Ok? <==> Current(cfg, s, g, t1, t2)) && (r.Ok? ==> r.value == ClaimsOf(cfg, g))
  {
    AlwaysConsistent(cfg, run);
    GenuineIsLawful(cfg, run);
    IssuedUnspaced(cfg, g);
    var token := TokenOf(cfg, g);
    UsualHeader(token);
    hide Exec, Genuine, Consistent, BearerToken, TokenOf;
    AcceptsGrant(cfg, Exec(cfg, run), g, "Bearer " + token, t1, t2);
  }

  lemma IssuedUnspaced(cfg: Config, g: Grant)
    requires cfg.p.Lawful()
    ensures TokenOf(cfg, g) != "" && Trimmed(TokenOf(cfg, g))
  {
    hide ClaimsFor, IsSpace;
    var p, token := cfg.p, TokenOf(cfg, g);
    var h, c := p.encode(p.header), p.encode(p.marshal(ClaimsOf(cfg, g)));
    var sig := p.encode(p.mac(h + "." + c, cfg.issuer.secret));
    assert token == h + "." + c + "." + sig;
    assert Unspaced(h) && Unspaced(sig);
    DotIsNoSpace();
    assert token[0] == if h == "" then '.' else h[0];
    assert token[|token| - 1] == if sig == "" then '.' else sig[|sig| - 1];
  }

  lemma DotIsNoSpace()
    ensures !IsSpace('.')
  {
  }

  /** A logout under any token leaves every other session accepted or refused as before. */
  lemma LogoutIsolated(cfg: Config, s: System, a: Action, header: string, g: Grant, t1: int, t2: int)
    requires cfg.p.Lawful() && a.SignOut? && BearerToken(header) == TokenOf(cfg, g)
    requires var out := Claimed(cfg.p, cfg.Own(), a.header, a.now); out.Ok? ==> out.value.sessionID != g.sessionID
    ensures Accepts(cfg.p, cfg.Gateway(), Do(cfg, s, a).store, header, t1, t2) == Accepts(cfg.p, cfg.Gateway(), s.store, header, t1, t2)
  {
    var v, token := cfg.Gateway(), BearerToken(header);
    hide Parse, Issue, BearerToken, ClaimsFor, Key;
    IssueThenParse(cfg.p, cfg.issuer, v, g.user, g.sessionID, g.issuedAt, t1);
    CheckedIsSame(v, ClaimsOf(cfg, g), t1);
    ClaimsName(cfg, g);
    var out := Claimed(cfg.p, cfg.Own(), a.header, a.now);
    if out.Ok? { RemoveKey(s.store, out.value.sessionID); }
  }

  /** Once ended, a session is never accepted again, whatever happens later. */
  lemma {:induction false} EndedStaysEnded(cfg: Config, run: seq<Action>, m: nat)
    requires m <= |run|
    ensures Exec(cfg, run[..m]).ended <= Exec(cfg, run).ended
    ensures Exec(cfg, run[..m]).grants <= Exec(cfg, run).grants
  {
    if m < |run| {
      hide Claimed;
      assert run[..|run| - 1][..m] == run[..m];
      EndedStaysEnded(cfg, run[..|run| - 1], m);
    } else {
      assert run[..m] == run;
    }
  }

  lemma SignOutEnds(cfg: Config, s: System, a: Action, g: Grant)
    requires cfg.p.Lawful() && a.SignOut? && !a.fate.Lost? && BearerToken(a.header) == TokenOf(cfg, g)
    requires Claimed(cfg.p, cfg.Own(), a.header, a.now).Ok?
    ensures g.sessionID in Do(cfg, s, a).ended
  {
    hide Parse, Issue, BearerToken, ClaimsFor, CheckClaims;
    IssueThenParse(cfg.p, cfg.issuer, cfg.Own(), g.user, g.sessionID, g.issuedAt, a.now);
    CheckedIsSame(cfg.Own(), ClaimsOf(cfg, g), a.now);
    ClaimsName(cfg, g);
  }

  /** A token that was logged out once is refused for good. */
  lemma LoggedOutForGood(cfg: Config, run: seq<Action>, m: nat, g: Grant, header: string, t1: int, t2: int)
    requires Genuine(cfg, run) && m < |run| && run[m].SignOut? && !run[m].fate.Lost?
    requires g in Exec(cfg, run[..m]).grants && BearerToken(run[m].header) == TokenOf(cfg, g) == BearerToken(header)
    requires Claimed(cfg.p, cfg.Own(), run[m].header, run[m].now).Ok?
    ensures Accepts(cfg.p, cfg.Gateway(), Exec(cfg, run).store, header, t1, t2).Err?
  {
    hide *;
    AlwaysConsistent(cfg, run);
    GenuineIsLawful(cfg, run);
    ExecNext(cfg, run, m);
    EndedStaysEnded(cfg, run, m);
    EndedStaysEnded(cfg, run, m + 1);
    SignOutEnds(cfg, Exec(cfg, run[..m]), run[m], g);
    EndedNotCurrent(cfg, Exec(cfg, run), g, t1, t2);
    AcceptsGrant(cfg, Exec(cfg, run), g, header, t1, t2);
  }

  lemma ExecNext(cfg: Config, run: seq<Action>, m: nat)
    requires m < |run|
    ensures Exec(cfg, run[..m + 1]) == Do(cfg, Exec(cfg, run[..m]), run[m])
  {
    hide Do;
    assert run[..m + 1][..m] == run[..m];
  }

  lemma EndedNotCurrent(cfg: Config, s: System, g: Grant, t1: int, t2: int)
    requires g.sessionID in s.ended
    ensures !Current(cfg, s, g, t1, t2)
  {
  }
}
