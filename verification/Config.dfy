/**
 The configuration: routes, delivery settings, their defaults and the checks
 that the session and the worker rely on.
 */
module Config {
  import opened Wrappers

  const ASYNC := "async"
  const SYNC := "sync"

  const SECOND: int := 1_000_000_000

  /** Recipient conditions; an empty field imposes nothing. */
  datatype Match = Match(rcpt: string, rcptDomain: string, rcptLocalpart: string)

  datatype Webhook = Webhook(url: string, verb: string, secret: string, headers: map<string, string>)

  datatype IncludeRules = IncludeRules(raw: bool, attachments: bool, maxAttachmentBytes: int)

  datatype Route = Route(
    name: string,
    username: string,
    password: string,
    passwordBcrypt: string,
    conditions: Match,
    webhook: Webhook,
    mode: string,
    rules: IncludeRules)
  {
    predicate HasWebhook() {
      webhook.url != ""
    }

    function EffectiveMode(def: string): string {
      if mode != "" then mode else if def != "" then def else ASYNC
    }

    /** The key by which `Validate` compares credentials: NUL-separated. */
    function CredentialKey(): string {
      password + ['\0'] + passwordBcrypt
    }
  }

  /** Durations are nanoseconds. */
  datatype DeliverySettings = DeliverySettings(
    defaultMode: string,
    timeout: int,
    maxRetries: int,
    retryBackoff: int,
    concurrency: int)

  datatype Problem =
    | NameRequired
    | DuplicateName
    | UsernameRequired
    | PasswordRequired
    | TwoPasswords
    | ConflictingPasswords
    | CaptureNeedsLogging
    | InvalidMode

  datatype Verdict =
    | Usable
    | NetworkInvalid
    | NoRoutes
    | Rejected(index: nat, problem: Problem)

  /** What one route must satisfy on its own. */
  predicate RouteUsable(r: Route, logging: bool, def: string) {
    && r.name != ""
    && r.username != ""
    && (r.password == "" <==> r.passwordBcrypt != "")
    && (r.webhook.url != "" || logging)
    && (r.mode == "async" || r.mode == "sync" || (r.mode == "" && (def == "async" || def == "sync" || def == "")))
  }

  /** No two routes share a name. */
  ghost predicate NamesDistinct(routes: seq<Route>) {
    forall i, j :: 0 <= i < j < |routes| ==> routes[i].name != routes[j].name
  }

  /** Routes of one username carry one credential key. */
  ghost predicate KeysAgree(routes: seq<Route>) {
    forall i, j :: 0 <= i < j < |routes| && routes[i].username == routes[j].username ==>
      routes[i].CredentialKey() == routes[j].CredentialKey()
  }

  /** What `Validate` establishes about a list of routes. */
  ghost predicate Admissible(routes: seq<Route>, logging: bool, def: string) {
    && (forall i :: 0 <= i < |routes| ==> RouteUsable(routes[i], logging, def))
    && NamesDistinct(routes)
    && KeysAgree(routes)
  }

  /** The complaint `p` is true of route `k`, given the routes before it. */
  ghost predicate Justified(p: Problem, routes: seq<Route>, k: nat, logging: bool, def: string)
    requires k < |routes|
  {
    var r := routes[k];
    match p
    case NameRequired => r.name == ""
    case DuplicateName => exists i :: 0 <= i < k && routes[i].name == r.name
    case UsernameRequired => r.username == ""
    case PasswordRequired => r.password == "" && r.passwordBcrypt == ""
    case TwoPasswords => r.password != "" && r.passwordBcrypt != ""
    case ConflictingPasswords =>
      exists i :: 0 <= i < k && routes[i].username == r.username && routes[i].CredentialKey() != r.CredentialKey()
    case CaptureNeedsLogging => r.webhook.url == "" && !logging
    case InvalidMode => r.mode !in {"async", "sync", ""} || (r.mode == "" && def !in {"async", "sync", ""})
  }

  /** The order in which the checks are made. */
  function Order(p: Problem): nat {
    match p
    case NameRequired => 0
    case DuplicateName => 1
    case UsernameRequired => 2
    case PasswordRequired => 3
    case TwoPasswords => 4
    case ConflictingPasswords => 5
    case CaptureNeedsLogging => 6
    case InvalidMode => 7
  }

  /** `p` is true of route `k`, and no check made earlier fails on it. */
  ghost predicate FirstComplaint(p: Problem, routes: seq<Route>, k: nat, logging: bool, def: string)
    requires k < |routes|
  {
    Justified(p, routes, k, logging, def) && forall q: Problem :: Order(q) < Order(p) ==> !Justified(q, routes, k, logging, def)
  }

  /** A justified complaint about route `k` rules out every list that extends past it. */
  lemma JustifiedIsFatal(p: Problem, routes: seq<Route>, k: nat, logging: bool, def: string)
    requires k < |routes| && Justified(p, routes, k, logging, def)
    ensures !Admissible(routes, logging, def)
    ensures !Admissible(routes[..k + 1], logging, def)
  {
    var cut := routes[..k + 1];
    assert cut[k] == routes[k];
    if p.DuplicateName? {
      var i :| 0 <= i < k && routes[i].name == routes[k].name;
      assert cut[i] == routes[i];
    } else if p.ConflictingPasswords? {
      var i :| 0 <= i < k && routes[i].username == routes[k].username && routes[i].CredentialKey() != routes[k].CredentialKey();
      assert cut[i] == routes[i];
    }
  }

  ghost predicate SameCredential(a: Route, b: Route) {
    a.password == b.password && a.passwordBcrypt == b.passwordBcrypt
  }

  /** The one way two different credentials share a key: a leading NUL against a trailing one. */
  ghost predicate KeysCollide(a: Route, b: Route) {
    && a.password != "" && a.password[0] == '\0'
    && b.passwordBcrypt == a.password[1..] + ['\0']
  }

  lemma KeyEquality(a: Route, b: Route)
    requires a.password == "" <==> a.passwordBcrypt != ""
    requires b.password == "" <==> b.passwordBcrypt != ""
    ensures a.CredentialKey() == b.CredentialKey() <==> SameCredential(a, b) || KeysCollide(a, b) || KeysCollide(b, a)
  {
    if a.password == "" && b.password == "" {
      assert a.CredentialKey()[1..] == a.passwordBcrypt;
      assert b.CredentialKey()[1..] == b.passwordBcrypt;
    } else if a.password != "" && b.password != "" {
      assert a.CredentialKey()[..|a.CredentialKey()| - 1] == a.password;
      assert b.CredentialKey()[..|b.CredentialKey()| - 1] == b.password;
    } else if a.password != "" {
      MixedKeys(a.password, b.passwordBcrypt);
      assert a.CredentialKey() == a.password + ['\0'] && b.CredentialKey() == ['\0'] + b.passwordBcrypt;
    } else {
      MixedKeys(b.password, a.passwordBcrypt);
      assert b.CredentialKey() == b.password + ['\0'] && a.CredentialKey() == ['\0'] + a.passwordBcrypt;
    }
  }

  lemma MixedKeys(p: string, h: string)
    requires p != "" && h != ""
    ensures p + ['\0'] == ['\0'] + h <==> p[0] == '\0' && h == p[1..] + ['\0']
  {
    if p + ['\0'] == ['\0'] + h {
      assert p[0] == (p + ['\0'])[0] == '\0';
      assert h == (['\0'] + h)[1..] == (p + ['\0'])[1..] == p[1..] + ['\0'];
    }
    if p[0] == '\0' && h == p[1..] + ['\0'] {
      assert p == ['\0'] + p[1..];
      assert p + ['\0'] == ['\0'] + h;
    }
  }

  /** Every username has one credential, not merely one key. */
  ghost predicate CredentialsAgree(routes: seq<Route>) {
    forall i, j :: 0 <= i < |routes| && 0 <= j < |routes| && routes[i].username == routes[j].username ==>
      SameCredential(routes[i], routes[j])
  }

  /** No route's plaintext password begins with NUL and mirrors a same-user hash that ends with one. */
  ghost predicate CollisionFree(routes: seq<Route>) {
    forall i, j :: 0 <= i < |routes| && 0 <= j < |routes| && routes[i].username == routes[j].username ==>
      !KeysCollide(routes[i], routes[j])
  }

  /** Exactly when the key comparison in `Validate` is as good as comparing credentials. */
  lemma AdmissibleCredentials(routes: seq<Route>, logging: bool, def: string)
    requires Admissible(routes, logging, def)
    ensures CredentialsAgree(routes) <==> CollisionFree(routes)
  {
    forall i, j | 0 <= i < |routes| && 0 <= j < |routes| && routes[i].username == routes[j].username
      ensures SameCredential(routes[i], routes[j]) || KeysCollide(routes[i], routes[j]) || KeysCollide(routes[j], routes[i])
      ensures SameCredential(routes[i], routes[j]) ==> !KeysCollide(routes[i], routes[j])
    {
      assert RouteUsable(routes[i], logging, def) && RouteUsable(routes[j], logging, def);
      KeyEquality(routes[i], routes[j]);
      assert i < j ==> routes[i].CredentialKey() == routes[j].CredentialKey();
      assert j < i ==> routes[j].CredentialKey() == routes[i].CredentialKey();
    }
  }

  ghost predicate NulFree(s: string) {
    '\0' !in s
  }

  /** Text without NUL cannot collide, so accepted routes of one username share one credential. */
  lemma NulFreeCredentials(routes: seq<Route>, logging: bool, def: string)
    requires Admissible(routes, logging, def)
    requires forall i :: 0 <= i < |routes| ==> NulFree(routes[i].password) && NulFree(routes[i].passwordBcrypt)
    ensures CredentialsAgree(routes)
  {
    assert CollisionFree(routes);
    AdmissibleCredentials(routes, logging, def);
  }

  /** With NUL bytes, an accepted configuration can give one username two credentials. */
  lemma CollisionWitness()
    ensures exists routes, logging, def :: Admissible(routes, logging, def) && !CredentialsAgree(routes)
  {
    var hook := Webhook("http://x", "POST", "", map[]);
    var all := Match("", "", "");
    var rules := IncludeRules(false, false, 0);
    var a := Route("a", "u", ['\0', 'p'], "", all, hook, ASYNC, rules);
    var b := Route("b", "u", "", ['p', '\0'], all, hook, ASYNC, rules);
    var routes := [a, b];
    assert a.CredentialKey() == b.CredentialKey();
    assert Admissible(routes, true, ASYNC);
    assert !SameCredential(routes[0], routes[1]);
    assert !CredentialsAgree(routes);
  }

  /** Route `k` fits with the routes before it. */
  ghost predicate Fits(routes: seq<Route>, k: nat, logging: bool, def: string)
    requires k < |routes|
  {
    && RouteUsable(routes[k], logging, def)
    && (forall i :: 0 <= i < k ==> routes[i].name != routes[k].name)
    && (forall i :: 0 <= i < k && routes[i].username == routes[k].username ==>
      routes[i].CredentialKey() == routes[k].CredentialKey())
  }

  lemma AdmissibleExtends(routes: seq<Route>, k: nat, logging: bool, def: string)
    requires k < |routes|
    requires Admissible(routes[..k], logging, def)
    requires Fits(routes, k, logging, def)
    ensures Admissible(routes[..k + 1], logging, def)
  {
    var cut, before := routes[..k + 1], routes[..k];
    assert cut == before + [routes[k]];
    forall i, j | 0 <= i < j < |cut|
      ensures cut[i].name != cut[j].name
      ensures cut[i].username == cut[j].username ==> cut[i].CredentialKey() == cut[j].CredentialKey()
    {
      assert cut[i] == before[i];
      assert j < k ==> cut[j] == before[j];
    }
    forall i | 0 <= i < |cut|
      ensures RouteUsable(cut[i], logging, def)
    {
      assert i < k ==> cut[i] == before[i];
    }
  }

  /** The checks made on one route, in their order. */
  function Complaint(r: Route, nameSeen: bool, keySeen: Option<string>, logging: bool, def: string): Option<Problem> {
    if r.name == "" then Some(NameRequired)
    else if nameSeen then Some(DuplicateName)
    else if r.username == "" then Some(UsernameRequired)
    else if r.password == "" && r.passwordBcrypt == "" then Some(PasswordRequired)
    else if r.password != "" && r.passwordBcrypt != "" then Some(TwoPasswords)
    else if keySeen.Some? && keySeen.value != r.CredentialKey() then Some(ConflictingPasswords)
    else if !r.HasWebhook() && !logging then Some(CaptureNeedsLogging)
    else if r.EffectiveMode(def) != ASYNC && r.EffectiveMode(def) != SYNC then Some(InvalidMode)
    else None
  }

  function Lookup(creds: map<string, string>, u: string): Option<string> {
    if u in creds then Some(creds[u]) else None
  }

  /** The tables as one pass over the first `k` routes leaves them. */
  function NamesIn(routes: seq<Route>, k: nat): set<string>
    requires k <= |routes|
  {
    if k == 0 then {} else NamesIn(routes, k - 1) + {routes[k - 1].name}
  }

  function KeysIn(routes: seq<Route>, k: nat): map<string, string>
    requires k <= |routes|
  {
    if k == 0 then map[] else KeysIn(routes, k - 1)[routes[k - 1].username := routes[k - 1].CredentialKey()]
  }

  /** What finding a name in the table says about the routes before. */
  lemma {:induction false} NameMeaning(routes: seq<Route>, k: nat, name: string)
    requires k <= |routes|
    ensures name in NamesIn(routes, k) <==> exists i :: 0 <= i < k && routes[i].name == name
  {
    if k > 0 {
      NameMeaning(routes, k - 1, name);
    }
  }

  /** And likewise a username, as long as its keys agree. */
  lemma {:induction false} KeyMeaning(routes: seq<Route>, k: nat, user: string)
    requires k <= |routes|
    requires forall i, j :: 0 <= i < j < k && routes[i].username == routes[j].username ==>
      routes[i].CredentialKey() == routes[j].CredentialKey()
    ensures
      var key := Lookup(KeysIn(routes, k), user);
      && (key.Some? ==> exists i :: 0 <= i < k && routes[i].username == user && routes[i].CredentialKey() == key.value)
      && (forall i :: 0 <= i < k && routes[i].username == user ==> key == Some(routes[i].CredentialKey()))
  {
    if k > 0 {
      KeyMeaning(routes, k - 1, user);
    }
  }

  /** The complaint about route `k` with these tables. */
  function ComplaintAt(routes: seq<Route>, k: nat, seen: set<string>, creds: map<string, string>, logging: bool, def: string): Option<Problem>
    requires k < |routes|
  {
    var r := routes[k];
    Complaint(r, r.name in seen, Lookup(creds, r.username), logging, def)
  }

  /** The routes before `k` have passed, and these are their tables. */
  ghost predicate Passed(routes: seq<Route>, k: nat, seen: set<string>, creds: map<string, string>, logging: bool, def: string)
    requires k <= |routes|
  {
    Admissible(routes[..k], logging, def) && seen == NamesIn(routes, k) && creds == KeysIn(routes, k)
  }

  /** The tables answer, for route `k`, about the routes before it. */
  ghost predicate Informed(routes: seq<Route>, k: nat, nameSeen: bool, keySeen: Option<string>)
    requires k < |routes|
  {
    && (nameSeen <==> exists i :: 0 <= i < k && routes[i].name == routes[k].name)
    && (keySeen.Some? ==> exists i :: 0 <= i < k && routes[i].username == routes[k].username && routes[i].CredentialKey() == keySeen.value)
    && (forall i :: 0 <= i < k && routes[i].username == routes[k].username ==> keySeen == Some(routes[i].CredentialKey()))
  }

  lemma PassedInforms(routes: seq<Route>, k: nat, seen: set<string>, creds: map<string, string>, logging: bool, def: string)
    requires k < |routes| && Passed(routes, k, seen, creds, logging, def)
    ensures Informed(routes, k, routes[k].name in seen, Lookup(creds, routes[k].username))
  {
    var cut := routes[..k];
    forall i, j | 0 <= i < j < k && routes[i].username == routes[j].username
      ensures routes[i].CredentialKey() == routes[j].CredentialKey()
    {
      assert cut[i] == routes[i] && cut[j] == routes[j];
    }
    NameMeaning(routes, k, routes[k].name);
    KeyMeaning(routes, k, routes[k].username);
  }

  lemma ComplaintIsFirst(routes: seq<Route>, k: nat, nameSeen: bool, keySeen: Option<string>, logging: bool, def: string, p: Problem)
    requires k < |routes| && Informed(routes, k, nameSeen, keySeen)
    requires Complaint(routes[k], nameSeen, keySeen, logging, def) == Some(p)
    ensures FirstComplaint(p, routes, k, logging, def) && !Fits(routes, k, logging, def)
  {
  }

  /** A complaint is raised exactly when the route does not fit, and is then the first that is true. */
  lemma ComplaintIsJustified(routes: seq<Route>, k: nat, seen: set<string>, creds: map<string, string>, logging: bool, def: string)
    requires k < |routes| && Passed(routes, k, seen, creds, logging, def)
    ensures match ComplaintAt(routes, k, seen, creds, logging, def)
      case Some(p) => FirstComplaint(p, routes, k, logging, def) && !Fits(routes, k, logging, def)
      case None => Fits(routes, k, logging, def)
  {
    PassedInforms(routes, k, seen, creds, logging, def);
    var c := ComplaintAt(routes, k, seen, creds, logging, def);
    if c.Some? {
      ComplaintIsFirst(routes, k, routes[k].name in seen, Lookup(creds, routes[k].username), logging, def, c.value);
    }
  }

  lemma ComplaintStands(routes: seq<Route>, k: nat, seen: set<string>, creds: map<string, string>, logging: bool, def: string)
    requires k < |routes| && Passed(routes, k, seen, creds, logging, def)
    requires ComplaintAt(routes, k, seen, creds, logging, def).Some?
    ensures FirstComplaint(ComplaintAt(routes, k, seen, creds, logging, def).value, routes, k, logging, def)
    ensures !Admissible(routes, logging, def) && !Admissible(routes[..k + 1], logging, def)
  {
    ComplaintIsJustified(routes, k, seen, creds, logging, def);
    JustifiedIsFatal(ComplaintAt(routes, k, seen, creds, logging, def).value, routes, k, logging, def);
  }

  lemma NoComplaintExtends(routes: seq<Route>, k: nat, seen: set<string>, creds: map<string, string>, logging: bool, def: string)
    requires k < |routes| && Passed(routes, k, seen, creds, logging, def)
    requires ComplaintAt(routes, k, seen, creds, logging, def).None?
    ensures Passed(routes, k + 1, seen + {routes[k].name}, creds[routes[k].username := routes[k].CredentialKey()], logging, def)
  {
    ComplaintIsJustified(routes, k, seen, creds, logging, def);
    AdmissibleExtends(routes, k, logging, def);
  }

  /** A route with its webhook method filled in and nothing else changed. */
  predicate WithVerb(r: Route, was: Route) {
    r == if was.webhook.verb == "" then was.(webhook := was.webhook.(verb := "POST")) else was
  }

  class Config {
    var delivery: DeliverySettings
    var logging: bool
    var routes: seq<Route>

    constructor (delivery: DeliverySettings, logging: bool, routes: seq<Route>)
      ensures this.delivery == delivery && this.logging == logging && this.routes == routes
    {
      this.delivery, this.logging, this.routes := delivery, logging, routes;
    }

    /** Fills in zero values; touches neither credentials nor matching. */
    method ApplyDefaults()
      modifies this`delivery, this`routes
      ensures delivery.defaultMode == if old(delivery).defaultMode == "" then "async" else old(delivery).defaultMode
      ensures delivery.timeout == if old(delivery).timeout == 0 then 30_000_000_000 else old(delivery).timeout
      ensures delivery.maxRetries == if old(delivery).maxRetries == 0 then 5 else old(delivery).maxRetries
      ensures delivery.retryBackoff == if old(delivery).retryBackoff == 0 then 10_000_000_000 else old(delivery).retryBackoff
      ensures delivery.concurrency == if old(delivery).concurrency == 0 then 4 else old(delivery).concurrency
      ensures |routes| == |old(routes)|
      ensures forall i :: 0 <= i < |routes| ==> WithVerb(routes[i], old(routes)[i])
    {
      if delivery.defaultMode == "" { delivery := delivery.(defaultMode := ASYNC); }
      if delivery.timeout == 0 { delivery := delivery.(timeout := 30 * SECOND); }
      if delivery.maxRetries == 0 { delivery := delivery.(maxRetries := 5); }
      if delivery.retryBackoff == 0 { delivery := delivery.(retryBackoff := 10 * SECOND); }
      if delivery.concurrency == 0 { delivery := delivery.(concurrency := 4); }
      ghost var filled := delivery;
      for i := 0 to |routes|
        invariant |routes| == |old(routes)|
        invariant delivery == filled
        invariant forall j :: 0 <= j < i ==> WithVerb(routes[j], old(routes)[j])
        invariant forall j :: i <= j < |routes| ==> routes[j] == old(routes)[j]
      {
        if routes[i].webhook.verb == "" {
          routes := routes[i := routes[i].(webhook := routes[i].webhook.(verb := "POST"))];
        }
      }
    }

    /**
     Accepts exactly the admissible configurations; otherwise names the first
     route at which admissibility breaks, and a true reason. `networkOk` stands
     for the CIDR and TLS checks made first.
     */
    method Validate(networkOk: bool) returns (v: Verdict)
      ensures v.Usable? <==> networkOk && routes != [] && Admissible(routes, logging, delivery.defaultMode)
      ensures v.NetworkInvalid? <==> !networkOk
      ensures v.NoRoutes? <==> networkOk && routes == []
      ensures v.Rejected? ==>
        && v.index < |routes|
        && Admissible(routes[..v.index], logging, delivery.defaultMode)
        && !Admissible(routes[..v.index + 1], logging, delivery.defaultMode)
        && FirstComplaint(v.problem, routes, v.index, logging, delivery.defaultMode)
    {
      if !networkOk {
        return NetworkInvalid;
      }
      if |routes| == 0 {
        return NoRoutes;
      }
      ghost var rs, lg, def := routes, logging, delivery.defaultMode;
      var seen: set<string> := {};
      var creds: map<string, string> := map[];
      for i := 0 to |routes|
        invariant Passed(rs, i, seen, creds, lg, def)
      {
        var r := routes[i];
        var problem := ComplaintAt(routes, i, seen, creds, logging, delivery.defaultMode);
        if problem.Some? {
          ComplaintStands(rs, i, seen, creds, lg, def);
          return Rejected(i, problem.value);
        }
        NoComplaintExtends(rs, i, seen, creds, lg, def);
        seen := seen + {r.name};
        creds := creds[r.username := r.CredentialKey()];
      }
      assert rs[..|rs|] == rs;
      return Usable;
    }
  }
}
