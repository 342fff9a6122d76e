/**
 The SMTP session as a machine over its callbacks, in whatever order they come:
 who may send where.
 */
module Session {
  import opened Wrappers
  import opened Config
  import opened Router
  import opened Fanout

  datatype Credential = Credential(password: string, passwordBcrypt: string)

  function CredentialOf(r: Route): Credential {
    Credential(r.password, r.passwordBcrypt)
  }

  /** Comparison of a password with a bcrypt hash; left open. */
  type Bcrypt = (string, string) -> bool

  predicate CheckPassword(c: Credential, bcrypt: Bcrypt, password: string) {
    if c.passwordBcrypt != "" then bcrypt(c.passwordBcrypt, password) else c.password == password
  }

  /** What every session of a server shares. */
  datatype Realm = Realm(users: map<string, Credential>, routes: seq<Route>, fold: Folding, bcrypt: Bcrypt)
  {
    predicate Proves(username: string, password: string): (b: bool)
      ensures b <==>
        && username in users
        && (if users[username].passwordBcrypt != "" then bcrypt(users[username].passwordBcrypt, password)
            else users[username].password == password)
    {
      username in users && CheckPassword(users[username], bcrypt, password)
    }
  }

  /** `users` holds, for each username, the credential of the last route that has it. */
  ghost predicate LastWins(routes: seq<Route>, users: map<string, Credential>) {
    && (forall u :: u in users ==> FromLast(routes, u, users[u]))
    && (forall i :: 0 <= i < |routes| ==> routes[i].username in users)
  }

  ghost predicate FromLast(routes: seq<Route>, username: string, c: Credential) {
    exists i :: 0 <= i < |routes| && LastOf(routes, username, i) && c.password == routes[i].password && c.passwordBcrypt == routes[i].passwordBcrypt
  }

  ghost predicate LastOf(routes: seq<Route>, username: string, i: nat)
    requires i < |routes|
  {
    routes[i].username == username && forall j :: i < j < |routes| ==> routes[j].username != username
  }

  lemma {:induction false} LastWinsExtends(routes: seq<Route>, users: map<string, Credential>, r: Route)
    requires LastWins(routes, users)
    ensures LastWins(routes + [r], users[r.username := CredentialOf(r)])
  {
    var all, more := routes + [r], users[r.username := CredentialOf(r)];
    assert all[|routes|] == r && forall i :: 0 <= i < |routes| ==> all[i] == routes[i];
    forall u | u in more
      ensures FromLast(all, u, more[u])
    {
      if u == r.username {
        assert LastOf(all, u, |routes|);
      } else {
        assert FromLast(routes, u, users[u]);
        var i :| 0 <= i < |routes| && LastOf(routes, u, i) && users[u].password == routes[i].password && users[u].passwordBcrypt == routes[i].passwordBcrypt;
        assert LastOf(all, u, i);
      }
    }
  }

  /** The credential map built when the server starts: one pass, later routes overwriting earlier ones. */
  method BuildUsers(routes: seq<Route>) returns (users: map<string, Credential>)
    ensures LastWins(routes, users)
  {
    users := map[];
    for i := 0 to |routes|
      invariant LastWins(routes[..i], users)
    {
      var r := routes[i];
      LastWinsExtends(routes[..i], users, r);
      assert routes[..i + 1] == routes[..i] + [r];
      users := users[r.username := CredentialOf(r)];
    }
    assert routes[..|routes|] == routes;
  }

  /** The worker's route map, by name. */
  method BuildRouteMap(routes: seq<Route>) returns (byName: map<string, Route>)
    ensures NamesDistinct(routes) ==> ByName(routes, byName)
  {
    byName := map[];
    for i := 0 to |routes|
      invariant NamesDistinct(routes) ==> ByName(routes[..i], byName)
    {
      byName := byName[routes[i].name := routes[i]];
      assert routes[..i + 1] == routes[..i] + [routes[i]];
    }
    assert routes[..|routes|] == routes;
  }

  /** Each route is found under its own name, and nothing else is found. */
  ghost predicate ByName(routes: seq<Route>, byName: map<string, Route>) {
    && (forall r :: r in routes ==> r.name in byName && byName[r.name] == r)
    && (forall n :: n in byName ==> byName[n] in routes && byName[n].name == n)
  }

  /** Under an accepted configuration each route's user is checked against that route's own credential. */
  lemma {:induction false} UsersAgree(routes: seq<Route>, users: map<string, Credential>, logging: bool, def: string, r: Route)
    requires Admissible(routes, logging, def) && CollisionFree(routes) && LastWins(routes, users) && r in routes
    ensures r.username in users
    ensures users[r.username].password == r.password && users[r.username].passwordBcrypt == r.passwordBcrypt
  {
    AdmissibleCredentials(routes, logging, def);
    var k :| 0 <= k < |routes| && routes[k] == r;
    assert FromLast(routes, r.username, users[r.username]);
    var i :| 0 <= i < |routes| && LastOf(routes, r.username, i)
      && users[r.username].password == routes[i].password && users[r.username].passwordBcrypt == routes[i].passwordBcrypt;
    assert SameCredential(routes[i], routes[k]);
  }

  // --- the machine ---

  datatype State = State(username: string, sender: string, rcpts: seq<Recipient>)

  const NEW := State("", "", [])

  datatype Callback =
    | Auth(username: string, password: string)
    | MailFrom(sender: string)
    | RcptTo(addr: string)
    | Reset
    | Data

  function OnAuth(realm: Realm, s: State, username: string, password: string): State {
    if realm.Proves(username, password) then s.(username := username) else s
  }

  function OnMail(s: State, sender: string): State {
    if s.username == "" then s else s.(sender := sender)
  }

  function OnRcpt(realm: Realm, s: State, addr: string): State {
    match FindRoute(realm.routes, realm.fold, s.username, addr)
    case Some(r) => s.(rcpts := s.rcpts + [Recipient(addr, r)])
    case None => s
  }

  function OnReset(s: State): State {
    s.(sender := "", rcpts := [])
  }

  function On(realm: Realm, s: State, c: Callback): State {
    match c
    case Auth(u, p) => OnAuth(realm, s, u, p)
    case MailFrom(f) => OnMail(s, f)
    case RcptTo(a) => OnRcpt(realm, s, a)
    case Reset => OnReset(s)
    case Data => s
  }

  function Play(realm: Realm, cs: seq<Callback>): State {
    if cs == [] then NEW else On(realm, Play(realm, cs[..|cs| - 1]), cs[|cs| - 1])
  }

  /** Some callback so far proved `username`. */
  ghost predicate Proven(realm: Realm, cs: seq<Callback>, username: string) {
    exists i :: 0 <= i < |cs| && cs[i].Auth? && cs[i].username == username && realm.Proves(username, cs[i].password)
  }

  ghost predicate Owned(realm: Realm, cs: seq<Callback>, rc: Recipient) {
    && rc.route in realm.routes && Proven(realm, cs, rc.route.username)
    && FindRoute(realm.routes, realm.fold, rc.route.username, rc.addr) == Some(rc.route)
  }

  /** The realm was built from an accepted configuration. */
  ghost predicate Established(realm: Realm, logging: bool, def: string) {
    Admissible(realm.routes, logging, def) && LastWins(realm.routes, realm.users)
  }

  ghost predicate Authenticated(realm: Realm, cs: seq<Callback>, s: State) {
    && (s.username != "" ==> Proven(realm, cs, s.username))
    && (s.username == "" ==> forall u :: !Proven(realm, cs, u))
    && (forall i :: 0 <= i < |s.rcpts| ==> Owned(realm, cs, s.rcpts[i]))
  }

  lemma {:induction false} ProvenLasts(realm: Realm, cs: seq<Callback>, c: Callback, username: string)
    ensures Proven(realm, cs + [c], username) <==>
      Proven(realm, cs, username) || (c.Auth? && c.username == username && realm.Proves(username, c.password))
  {
    var all := cs + [c];
    assert all[|cs|] == c;
    if i :| 0 <= i < |cs| && cs[i].Auth? && cs[i].username == username && realm.Proves(username, cs[i].password) {
      assert all[i] == cs[i];
    }
    if i :| 0 <= i < |all| && all[i].Auth? && all[i].username == username && realm.Proves(username, all[i].password) {
      assert i < |cs| ==> cs[i] == all[i];
    }
  }

  lemma {:induction false} UsernamesNonEmpty(routes: seq<Route>, logging: bool, def: string)
    requires Admissible(routes, logging, def)
    ensures forall i :: 0 <= i < |routes| ==> routes[i].username != ""
    ensures forall r :: r in routes ==> r.username != ""
  {
    assert forall i :: 0 <= i < |routes| ==> RouteUsable(routes[i], logging, def);
  }

  /** Nobody proves the empty username: no accepted route has it. */
  lemma {:induction false} EmptyUserNeverProves(realm: Realm, logging: bool, def: string, password: string)
    requires Established(realm, logging, def)
    ensures !realm.Proves("", password)
  {
    UsernamesNonEmpty(realm.routes, logging, def);
    assert "" !in realm.users;
  }

  /** A recipient is only matched for a user with a route, and the match is that user's. */
  lemma {:induction false} MatchIsOwned(realm: Realm, username: string, addr: string)
    ensures match FindRoute(realm.routes, realm.fold, username, addr)
      case Some(r) => r in realm.routes && r.username == username
      case None => true
  {
    FindRouteIsFirst(realm.routes, realm.fold, username, addr);
  }

  lemma {:induction false} AuthenticatedStep(realm: Realm, logging: bool, def: string, cs: seq<Callback>, c: Callback, s: State)
    requires Established(realm, logging, def) && Authenticated(realm, cs, s)
    ensures Authenticated(realm, cs + [c], On(realm, s, c))
  {
    forall u
      ensures Proven(realm, cs + [c], u) <==>
        Proven(realm, cs, u) || (c.Auth? && c.username == u && realm.Proves(u, c.password))
    {
      ProvenLasts(realm, cs, c, u);
    }
    assert forall i :: 0 <= i < |s.rcpts| ==> Owned(realm, cs, s.rcpts[i]);
    assert forall i :: 0 <= i < |s.rcpts| ==> Owned(realm, cs + [c], s.rcpts[i]);
    match c
    case Auth(u, p) => EmptyUserNeverProves(realm, logging, def, p);
    case RcptTo(a) =>
      MatchIsOwned(realm, s.username, a);
      NoUserNoRoute(realm, logging, def, a);
      AuthenticatedRcpt(realm, cs, c, s, FindRoute(realm.routes, realm.fold, s.username, a));
    case _ =>
  }

  lemma {:induction false} AuthenticatedRcpt(realm: Realm, cs: seq<Callback>, c: Callback, s: State, found: Option<Route>)
    requires Authenticated(realm, cs, s) && c.RcptTo?
    requires found == FindRoute(realm.routes, realm.fold, s.username, c.addr)
    requires found.Some? ==> s.username != "" && found.value in realm.routes && found.value.username == s.username
    requires forall u :: Proven(realm, cs + [c], u) <==> Proven(realm, cs, u)
    ensures Authenticated(realm, cs + [c], OnRcpt(realm, s, c.addr))
  {
    assert forall i :: 0 <= i < |s.rcpts| ==> Owned(realm, cs, s.rcpts[i]);
    assert forall i :: 0 <= i < |s.rcpts| ==> Owned(realm, cs + [c], s.rcpts[i]);
  }

  lemma {:induction false} NoUserNoRoute(realm: Realm, logging: bool, def: string, addr: string)
    requires Established(realm, logging, def)
    ensures FindRoute(realm.routes, realm.fold, "", addr) == None
  {
    MatchIsOwned(realm, "", addr);
    UsernamesNonEmpty(realm.routes, logging, def);
  }

  /**
   After any callbacks in any order, each accepted recipient's route belongs to a
   user proved earlier in the session and is that user's first match for it; the
   session has no username exactly when nobody has been proved.
   */
  lemma {:induction false} AuthenticationIsMandatory(realm: Realm, logging: bool, def: string, cs: seq<Callback>)
    requires Established(realm, logging, def)
    ensures var s := Play(realm, cs);
      && (s.username == "" <==> forall u :: !Proven(realm, cs, u))
      && (s.username != "" ==> Proven(realm, cs, s.username))
      && (forall i :: 0 <= i < |s.rcpts| ==> Owned(realm, cs, s.rcpts[i]))
    decreases cs
  {
    if cs != [] {
      var init, c := cs[..|cs| - 1], cs[|cs| - 1];
      AuthenticationIsMandatory(realm, logging, def, init);
      AuthenticatedStep(realm, logging, def, init, c, Play(realm, init));
      assert cs == init + [c];
    }
  }

  /**
   End to end from configuration to recipient: to have a route accept mail, the
   session presented a password that passes against that very route's credential.
   */
  lemma {:induction false} RecipientsHoldCredentials(realm: Realm, logging: bool, def: string, cs: seq<Callback>, rc: Recipient)
    requires Established(realm, logging, def) && CollisionFree(realm.routes) && rc in Play(realm, cs).rcpts
    ensures rc.route in realm.routes
    ensures exists i ::
      0 <= i < |cs| && cs[i].Auth? && cs[i].username == rc.route.username &&
      (if rc.route.passwordBcrypt != "" then realm.bcrypt(rc.route.passwordBcrypt, cs[i].password)
       else rc.route.password == cs[i].password)
  {
    AuthenticationIsMandatory(realm, logging, def, cs);
    var s := Play(realm, cs);
    var k :| 0 <= k < |s.rcpts| && s.rcpts[k] == rc;
    assert Owned(realm, cs, s.rcpts[k]);
    UsersAgree(realm.routes, realm.users, logging, def, rc.route);
    var i :| 0 <= i < |cs| && cs[i].Auth? && cs[i].username == rc.route.username && realm.Proves(rc.route.username, cs[i].password);
  }
}
