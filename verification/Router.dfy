/**
 Route selection. Text is a sequence of code points; case folding is any map
 from code points to fold classes under which '@' and '+' stand alone, as they
 do in Unicode simple folding.
 */
module Router {
  import opened Wrappers
  import opened Config

  type Folding = char -> char

  ghost predicate SeparatorsAlone(fold: Folding) {
    && (forall c :: fold(c) == fold('@') ==> c == '@')
    && (forall c :: fold(c) == fold('+') ==> c == '+')
  }

  predicate EqualFold(fold: Folding, a: string, b: string) {
    |a| == |b| && forall i :: 0 <= i < |a| ==> fold(a[i]) == fold(b[i])
  }

  function IndexOf(s: string, c: char): (r: int)
    ensures r == -1 <==> c !in s
    ensures r != -1 ==> 0 <= r < |s| && s[r] == c && c !in s[..r]
  {
    if s == "" then -1
    else if s[0] == c then 0
    else
      var r := IndexOf(s[1..], c);
      assert s == [s[0]] + s[1..];
      if r == -1 then -1 else assert s[..r + 1] == [s[0]] + s[1..][..r]; r + 1
  }

  function LastIndexOf(s: string, c: char): (r: int)
    ensures r == -1 <==> c !in s
    ensures r != -1 ==> 0 <= r < |s| && s[r] == c && c !in s[r + 1..]
  {
    if s == "" then -1
    else
      var n := |s| - 1;
      if s[n] == c then n
      else
        assert s == s[..n] + [s[n]];
        var r := LastIndexOf(s[..n], c);
        if r == -1 then -1 else assert s[r + 1..] == s[..n][r + 1..] + [s[n]]; r
  }

  /** Local part and domain; an address without '@' is all local part. */
  function Split(addr: string): (string, string) {
    var at := LastIndexOf(addr, '@');
    if at < 0 then (addr, "") else (addr[..at], addr[at + 1..])
  }

  function StripTag(local: string): string {
    var i := IndexOf(local, '+');
    if i >= 0 then local[..i] else local
  }

  predicate Conforms(m: Match, fold: Folding, rcpt: string, localBase: string, domain: string) {
    && (m.rcpt == "" || EqualFold(fold, m.rcpt, rcpt))
    && (m.rcptDomain == "" || EqualFold(fold, m.rcptDomain, domain))
    && (m.rcptLocalpart == "" || EqualFold(fold, m.rcptLocalpart, localBase))
  }

  /** Route `r` takes recipient `rcpt`, whoever sends. */
  predicate Takes(r: Route, fold: Folding, rcpt: string) {
    var (local, domain) := Split(rcpt);
    Conforms(r.conditions, fold, rcpt, StripTag(local), domain)
  }

  /** First route owned by `username` that takes `rcpt`. */
  function FindRoute(routes: seq<Route>, fold: Folding, username: string, rcpt: string): Option<Route> {
    if routes == [] then None
    else if routes[0].username == username && Takes(routes[0], fold, rcpt) then Some(routes[0])
    else FindRoute(routes[1..], fold, username, rcpt)
  }

  /** What a first match is: the least index that qualifies, or none at all. */
  lemma {:induction false} FindRouteIsFirst(routes: seq<Route>, fold: Folding, username: string, rcpt: string)
    ensures match FindRoute(routes, fold, username, rcpt)
      case Some(r) =>
        exists i :: 0 <= i < |routes| && routes[i] == r && r.username == username && Takes(r, fold, rcpt)
          && forall j :: 0 <= j < i ==> routes[j].username != username || !Takes(routes[j], fold, rcpt)
      case None => forall i :: 0 <= i < |routes| ==> routes[i].username != username || !Takes(routes[i], fold, rcpt)
  {
    if routes != [] && !(routes[0].username == username && Takes(routes[0], fold, rcpt)) {
      var rest := routes[1..];
      FindRouteIsFirst(rest, fold, username, rcpt);
      assert forall j :: 0 < j < |routes| ==> routes[j] == rest[j - 1];
      var found := FindRoute(rest, fold, username, rcpt);
      if found.Some? {
        var i :| 0 <= i < |rest| && rest[i] == found.value
          && forall j :: 0 <= j < i ==> rest[j].username != username || !Takes(rest[j], fold, rcpt);
        assert routes[i + 1] == found.value;
      }
    }
  }

  /** The routes of one user, in configured order. */
  function OwnedBy(routes: seq<Route>, username: string): seq<Route> {
    if routes == [] then []
    else (if routes[0].username == username then [routes[0]] else []) + OwnedBy(routes[1..], username)
  }

  /** First match that never looks at usernames. */
  function FirstTaking(routes: seq<Route>, fold: Folding, rcpt: string): Option<Route> {
    if routes == [] then None
    else if Takes(routes[0], fold, rcpt) then Some(routes[0])
    else FirstTaking(routes[1..], fold, rcpt)
  }

  /** Other users' routes play no part, wherever they stand in the list. */
  lemma {:induction false} MatchIsScoped(routes: seq<Route>, fold: Folding, username: string, rcpt: string)
    ensures FindRoute(routes, fold, username, rcpt) == FirstTaking(OwnedBy(routes, username), fold, rcpt)
  {
    if routes != [] {
      MatchIsScoped(routes[1..], fold, username, rcpt);
      var owned := OwnedBy(routes[1..], username);
      assert ([routes[0]] + owned)[1..] == owned;
      assert [] + owned == owned;
    }
  }

  // --- case folding ---

  lemma LastIndexUnique(s: string, c: char, i: int)
    requires 0 <= i < |s| && s[i] == c && c !in s[i + 1..]
    ensures LastIndexOf(s, c) == i
  {
    var r := LastIndexOf(s, c);
    assert s[i] in s;
    assert forall k :: i < k < |s| ==> s[k] == s[i + 1..][k - i - 1];
    assert forall k :: r < k < |s| ==> s[k] == s[r + 1..][k - r - 1];
  }

  lemma FirstIndexUnique(s: string, c: char, i: int)
    requires 0 <= i < |s| && s[i] == c && c !in s[..i]
    ensures IndexOf(s, c) == i
  {
    var r := IndexOf(s, c);
    assert s[i] in s;
    assert forall k :: 0 <= k < i ==> s[k] == s[..i][k];
    assert forall k :: 0 <= k < r ==> s[k] == s[..r][k];
  }

  /** Text that folds alike has a lone separator at the same positions. */
  lemma SeparatorPositions(fold: Folding, a: string, b: string, c: char)
    requires EqualFold(fold, a, b)
    requires forall d :: fold(d) == fold(c) ==> d == c
    ensures LastIndexOf(a, c) == LastIndexOf(b, c)
    ensures IndexOf(a, c) == IndexOf(b, c)
  {
    FoldsAlikeOn(fold, a, b, c);
    var i := LastIndexOf(a, c);
    if i != -1 {
      FoldsAlikeOn(fold, a[i + 1..], b[i + 1..], c);
      LastIndexUnique(b, c, i);
    }
    var j := IndexOf(a, c);
    if j != -1 {
      FoldsAlikeOn(fold, a[..j], b[..j], c);
      FirstIndexUnique(b, c, j);
    }
  }

  /** A character that folds alone stands at the same places in text that folds alike. */
  lemma FoldsAlikeOn(fold: Folding, a: string, b: string, c: char)
    requires EqualFold(fold, a, b)
    requires forall d :: fold(d) == fold(c) ==> d == c
    ensures forall i :: 0 <= i < |a| ==> (a[i] == c <==> b[i] == c)
    ensures c in a <==> c in b
  {
    assert forall i :: 0 <= i < |a| ==> (a[i] == c <==> b[i] == c);
    assert c in a ==> exists i :: 0 <= i < |a| && a[i] == c;
    assert c in b ==> exists i :: 0 <= i < |b| && b[i] == c;
  }

  lemma SplitFoldsAlike(fold: Folding, a: string, b: string)
    requires SeparatorsAlone(fold) && EqualFold(fold, a, b)
    ensures EqualFold(fold, Split(a).0, Split(b).0)
    ensures EqualFold(fold, Split(a).1, Split(b).1)
  {
    SeparatorPositions(fold, a, b, '@');
  }

  lemma StripTagFoldsAlike(fold: Folding, a: string, b: string)
    requires SeparatorsAlone(fold) && EqualFold(fold, a, b)
    ensures EqualFold(fold, StripTag(a), StripTag(b))
  {
    SeparatorPositions(fold, a, b, '+');
  }

  lemma EqualFoldTransfers(fold: Folding, pattern: string, a: string, b: string)
    requires EqualFold(fold, a, b)
    ensures EqualFold(fold, pattern, a) <==> EqualFold(fold, pattern, b)
  {
  }

  lemma TakesRespectsFolding(r: Route, fold: Folding, a: string, b: string)
    requires SeparatorsAlone(fold) && EqualFold(fold, a, b)
    ensures Takes(r, fold, a) <==> Takes(r, fold, b)
  {
    SplitFoldsAlike(fold, a, b);
    StripTagFoldsAlike(fold, Split(a).0, Split(b).0);
    EqualFoldTransfers(fold, r.conditions.rcpt, a, b);
    EqualFoldTransfers(fold, r.conditions.rcptDomain, Split(a).1, Split(b).1);
    EqualFoldTransfers(fold, r.conditions.rcptLocalpart, StripTag(Split(a).0), StripTag(Split(b).0));
  }

  /** Recipients that differ only in case get the same answer. */
  lemma {:induction false} MatchRespectsFolding(routes: seq<Route>, fold: Folding, username: string, a: string, b: string)
    requires SeparatorsAlone(fold)
    requires |a| == |b| && forall i :: 0 <= i < |a| ==> fold(a[i]) == fold(b[i])
    ensures FindRoute(routes, fold, username, a) == FindRoute(routes, fold, username, b)
  {
    assert EqualFold(fold, a, b);
    if routes != [] {
      TakesRespectsFolding(routes[0], fold, a, b);
      MatchRespectsFolding(routes[1..], fold, username, a, b);
    }
  }

  // --- subaddressing ---

  function Plain(base: string, domain: string): string {
    base + ['@'] + domain
  }

  function Tagged(base: string, tag: string, domain: string): string {
    base + ['+'] + tag + ['@'] + domain
  }

  lemma SplitAtLast(local: string, domain: string)
    requires '@' !in domain
    ensures Split(local + ['@'] + domain) == (local, domain)
  {
    var addr := local + ['@'] + domain;
    assert addr[|local| + 1..] == domain && addr[..|local|] == local;
    LastIndexUnique(addr, '@', |local|);
  }

  lemma TagIsStripped(base: string, tag: string)
    requires '+' !in base
    ensures StripTag(base) == base
    ensures StripTag(base + ['+'] + tag) == base
  {
    var local := base + ['+'] + tag;
    assert local[..|base|] == base;
    FirstIndexUnique(local, '+', |base|);
  }

  /** The parts of an address: at the last '@', and the local part up to its first '+'. */
  ghost predicate Parts(rcpt: string, local: string, base: string, domain: string) {
    && (if '@' in rcpt then '@' !in domain && rcpt == local + ['@'] + domain else local == rcpt && domain == "")
    && '+' !in base && (if '+' in local then base + ['+'] <= local else base == local)
  }

  lemma PartsFound(rcpt: string, local: string, base: string, domain: string)
    requires Parts(rcpt, local, base, domain)
    ensures Split(rcpt) == (local, domain) && StripTag(local) == base
  {
    if '@' in rcpt {
      SplitAtLast(local, domain);
    }
    if '+' in local {
      var tag := local[|base| + 1..];
      assert local == base + ['+'] + tag;
      TagIsStripped(base, tag);
    }
  }

  /**
   A route takes a recipient if and only if each condition it sets equals, character
   by character up to folding, the address, its domain or its untagged local part.
   */
  lemma TakesExactly(r: Route, fold: Folding, rcpt: string, local: string, base: string, domain: string)
    requires Parts(rcpt, local, base, domain)
    ensures Takes(r, fold, rcpt) <==>
      var c := r.conditions;
      && (c.rcpt != "" ==> |c.rcpt| == |rcpt| && forall i :: 0 <= i < |rcpt| ==> fold(c.rcpt[i]) == fold(rcpt[i]))
      && (c.rcptDomain != "" ==> |c.rcptDomain| == |domain| && forall i :: 0 <= i < |domain| ==> fold(c.rcptDomain[i]) == fold(domain[i]))
      && (c.rcptLocalpart != "" ==> |c.rcptLocalpart| == |base| && forall i :: 0 <= i < |base| ==> fold(c.rcptLocalpart[i]) == fold(base[i]))
  {
    PartsFound(rcpt, local, base, domain);
  }

  /** Every address has parts. */
  lemma PartsExist(rcpt: string) returns (local: string, base: string, domain: string)
    ensures Parts(rcpt, local, base, domain)
  {
    local, domain := Split(rcpt).0, Split(rcpt).1;
    base := StripTag(local);
  }

  /** The conditions on domain and local part, which never see the tag. */
  predicate TakesApart(r: Route, fold: Folding, base: string, domain: string) {
    && (r.conditions.rcptDomain == "" || EqualFold(fold, r.conditions.rcptDomain, domain))
    && (r.conditions.rcptLocalpart == "" || EqualFold(fold, r.conditions.rcptLocalpart, base))
  }

  /** The exact condition of `r`, if any, names one of the two addresses in full. */
  predicate NamesEither(r: Route, fold: Folding, a: string, b: string) {
    EqualFold(fold, r.conditions.rcpt, a) || EqualFold(fold, r.conditions.rcpt, b)
  }

  /** Route `r` is the user's and can take at least one of the two addresses. */
  predicate CanTake(r: Route, fold: Folding, username: string, base: string, tag: string, domain: string) {
    && r.username == username && TakesApart(r, fold, base, domain)
    && (r.conditions.rcpt == "" || NamesEither(r, fold, Plain(base, domain), Tagged(base, tag, domain)))
  }

  /** The user's first such route: it decides whether the tag matters. */
  function Decisive(routes: seq<Route>, fold: Folding, username: string, base: string, tag: string, domain: string): Option<Route> {
    if routes == [] then None
    else if CanTake(routes[0], fold, username, base, tag, domain) then Some(routes[0])
    else Decisive(routes[1..], fold, username, base, tag, domain)
  }

  /** The decisive route, if there is one, sets no exact condition. */
  predicate TagClear(routes: seq<Route>, fold: Folding, username: string, base: string, tag: string, domain: string) {
    match Decisive(routes, fold, username, base, tag, domain)
    case Some(r) => r.conditions.rcpt == ""
    case None => true
  }

  /** What a route makes of the two addresses. */
  lemma TakesEither(r: Route, fold: Folding, base: string, tag: string, domain: string)
    requires '+' !in base && '@' !in domain
    ensures Takes(r, fold, Plain(base, domain)) <==>
      TakesApart(r, fold, base, domain) && (r.conditions.rcpt == "" || EqualFold(fold, r.conditions.rcpt, Plain(base, domain)))
    ensures Takes(r, fold, Tagged(base, tag, domain)) <==>
      TakesApart(r, fold, base, domain) && (r.conditions.rcpt == "" || EqualFold(fold, r.conditions.rcpt, Tagged(base, tag, domain)))
  {
    SplitAtLast(base, domain);
    SplitAtLast(base + ['+'] + tag, domain);
    TagIsStripped(base, tag);
  }

  /** No exact condition names both addresses: their lengths differ. */
  lemma NamesOne(r: Route, fold: Folding, base: string, tag: string, domain: string)
    ensures !(EqualFold(fold, r.conditions.rcpt, Plain(base, domain)) && EqualFold(fold, r.conditions.rcpt, Tagged(base, tag, domain)))
  {
    assert |Tagged(base, tag, domain)| == |Plain(base, domain)| + 1 + |tag|;
  }

  /** Whatever is found is in the list. */
  lemma {:induction false} FoundIsListed(routes: seq<Route>, fold: Folding, username: string, rcpt: string)
    ensures match FindRoute(routes, fold, username, rcpt)
      case Some(r) => r in routes
      case None => true
  {
    FindRouteIsFirst(routes, fold, username, rcpt);
  }

  lemma {:induction false} ClearIsBlind(routes: seq<Route>, fold: Folding, username: string, base: string, tag: string, domain: string)
    requires '+' !in base && '@' !in domain && TagClear(routes, fold, username, base, tag, domain)
    ensures FindRoute(routes, fold, username, Tagged(base, tag, domain)) == FindRoute(routes, fold, username, Plain(base, domain))
  {
    if routes != [] {
      TakesEither(routes[0], fold, base, tag, domain);
      if !CanTake(routes[0], fold, username, base, tag, domain) {
        ClearIsBlind(routes[1..], fold, username, base, tag, domain);
      }
    }
  }

  /** An exact decisive route takes one address and not the other, and does not come again further down. */
  lemma {:induction false} ExactSees(routes: seq<Route>, fold: Folding, username: string, base: string, tag: string, domain: string)
    requires '+' !in base && '@' !in domain && NamesDistinct(routes) && !TagClear(routes, fold, username, base, tag, domain)
    ensures FindRoute(routes, fold, username, Tagged(base, tag, domain)) != FindRoute(routes, fold, username, Plain(base, domain))
  {
    var first, rest := routes[0], routes[1..];
    assert forall i :: 0 <= i < |rest| ==> rest[i] == routes[i + 1];
    TakesEither(first, fold, base, tag, domain);
    if CanTake(first, fold, username, base, tag, domain) {
      NamesOne(first, fold, base, tag, domain);
      assert first !in rest;
      FoundIsListed(rest, fold, username, Tagged(base, tag, domain));
      FoundIsListed(rest, fold, username, Plain(base, domain));
    } else {
      ExactSees(rest, fold, username, base, tag, domain);
    }
  }

  /**
   A "+tag" changes nothing if and only if the user's first route that can take
   either address, by domain and local part and by an exact condition that is
   absent or names one of them, has no exact condition.
   */
  lemma TagBlindExactly(routes: seq<Route>, fold: Folding, username: string, base: string, tag: string, domain: string)
    requires '+' !in base && '@' !in domain && NamesDistinct(routes)
    ensures FindRoute(routes, fold, username, Tagged(base, tag, domain)) == FindRoute(routes, fold, username, Plain(base, domain))
      <==> TagClear(routes, fold, username, base, tag, domain)
  {
    if TagClear(routes, fold, username, base, tag, domain) {
      ClearIsBlind(routes, fold, username, base, tag, domain);
    } else {
      ExactSees(routes, fold, username, base, tag, domain);
    }
  }

  /** Route `r` names neither address in full, so its exact condition, if any, fails on both. */
  predicate NamesNeither(r: Route, fold: Folding, a: string, b: string) {
    r.conditions.rcpt == "" || !NamesEither(r, fold, a, b)
  }

  lemma {:induction false} NamesNeitherIsClear(routes: seq<Route>, fold: Folding, username: string, base: string, tag: string, domain: string)
    requires forall i :: 0 <= i < |routes| && routes[i].username == username ==>
      NamesNeither(routes[i], fold, Plain(base, domain), Tagged(base, tag, domain))
    ensures TagClear(routes, fold, username, base, tag, domain)
  {
    if routes != [] {
      NamesNeitherIsClear(routes[1..], fold, username, base, tag, domain);
    }
  }

  /** In particular for a user none of whose routes names either address in full. */
  lemma MatchIsTagBlind(routes: seq<Route>, fold: Folding, username: string, base: string, tag: string, domain: string)
    requires '+' !in base && '@' !in domain
    requires forall i :: 0 <= i < |routes| && routes[i].username == username ==>
      NamesNeither(routes[i], fold, Plain(base, domain), Tagged(base, tag, domain))
    ensures FindRoute(routes, fold, username, Tagged(base, tag, domain)) == FindRoute(routes, fold, username, Plain(base, domain))
  {
    NamesNeitherIsClear(routes, fold, username, base, tag, domain);
    ClearIsBlind(routes, fold, username, base, tag, domain);
  }

  /** With an exact condition in play the tag does matter. */
  lemma ExactConditionSeesTag(fold: Folding, r: Route)
    requires r.conditions == Match("a@d", "", "")
    ensures FindRoute([r], fold, r.username, Plain("a", "d")) == Some(r)
    ensures FindRoute([r], fold, r.username, Tagged("a", "t", "d")) == None
  {
    assert Plain("a", "d") == "a@d";
    assert |Tagged("a", "t", "d")| == 5;
  }
}
