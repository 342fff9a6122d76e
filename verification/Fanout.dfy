/** The distinct routes of a recipient list, and how they divide into sync and async. */
module Fanout {
  import opened Config

  datatype Recipient = Recipient(addr: string, route: Route)

  predicate Has(routes: seq<Route>, name: string) {
    exists i :: 0 <= i < |routes| && routes[i].name == name
  }

  /** Distinct matched routes by name, in first-seen order. */
  function Distinct(rcpts: seq<Recipient>): seq<Route> {
    if rcpts == [] then []
    else
      var before, last := Distinct(rcpts[..|rcpts| - 1]), rcpts[|rcpts| - 1].route;
      if Has(before, last.name) then before else before + [last]
  }

  /** The position at which a name is first seen, or -1. */
  function First(rcpts: seq<Recipient>, name: string): (r: int)
    ensures -1 <= r < |rcpts|
    ensures r >= 0 ==> rcpts[r].route.name == name && forall k :: 0 <= k < r ==> rcpts[k].route.name != name
    ensures r == -1 ==> forall k :: 0 <= k < |rcpts| ==> rcpts[k].route.name != name
  {
    if rcpts == [] then -1
    else
      var n := |rcpts| - 1;
      var r := First(rcpts[..n], name);
      if r >= 0 then r else if rcpts[n].route.name == name then n else -1
  }

  /** Each listed route is the one that carried its name first, and the list follows the order of first sight. */
  ghost predicate InFirstSeenOrder(rcpts: seq<Recipient>, routes: seq<Route>) {
    && (forall i :: 0 <= i < |routes| ==>
      First(rcpts, routes[i].name) >= 0 && routes[i] == rcpts[First(rcpts, routes[i].name)].route)
    && (forall i, j :: 0 <= i < j < |routes| ==> First(rcpts, routes[i].name) < First(rcpts, routes[j].name))
  }

  ghost predicate Covers(rcpts: seq<Recipient>, routes: seq<Route>) {
    forall k :: 0 <= k < |rcpts| ==> Has(routes, rcpts[k].route.name)
  }

  lemma HasLonger(routes: seq<Route>, more: Route, name: string)
    requires Has(routes, name) || more.name == name
    ensures Has(routes + [more], name)
  {
    if Has(routes, name) {
      var i :| 0 <= i < |routes| && routes[i].name == name;
      assert (routes + [more])[i].name == name;
    } else {
      assert (routes + [more])[|routes|].name == name;
    }
  }

  lemma {:induction false} DistinctCovers(rcpts: seq<Recipient>)
    ensures Covers(rcpts, Distinct(rcpts))
    decreases rcpts
  {
    if rcpts != [] {
      var n := |rcpts| - 1;
      var before, last := Distinct(rcpts[..n]), rcpts[n].route;
      DistinctCovers(rcpts[..n]);
      forall k | 0 <= k < |rcpts|
        ensures Has(Distinct(rcpts), rcpts[k].route.name)
      {
        if k < n {
          assert rcpts[..n][k] == rcpts[k];
          HasLonger(before, last, rcpts[k].route.name);
        } else {
          HasLonger(before, last, last.name);
        }
      }
    }
  }

  lemma FirstExtends(rcpts: seq<Recipient>, name: string)
    requires rcpts != [] && First(rcpts[..|rcpts| - 1], name) >= 0
    ensures First(rcpts, name) == First(rcpts[..|rcpts| - 1], name)
    ensures rcpts[First(rcpts, name)] == rcpts[..|rcpts| - 1][First(rcpts, name)]
  {
  }

  lemma {:induction false} DistinctInOrder(rcpts: seq<Recipient>)
    ensures InFirstSeenOrder(rcpts, Distinct(rcpts))
    decreases rcpts
  {
    if rcpts != [] {
      var n := |rcpts| - 1;
      var init, last := rcpts[..n], rcpts[n].route;
      var before := Distinct(init);
      DistinctInOrder(init);
      forall i | 0 <= i < |before|
        ensures First(rcpts, before[i].name) == First(init, before[i].name)
        ensures before[i] == rcpts[First(rcpts, before[i].name)].route
      {
        FirstExtends(rcpts, before[i].name);
      }
      if !Has(before, last.name) {
        DistinctCovers(init);
        FreshIsLast(rcpts);
      }
    }
  }

  lemma {:induction false} FreshIsLast(rcpts: seq<Recipient>)
    requires rcpts != []
    requires Covers(rcpts[..|rcpts| - 1], Distinct(rcpts[..|rcpts| - 1]))
    requires !Has(Distinct(rcpts[..|rcpts| - 1]), rcpts[|rcpts| - 1].route.name)
    ensures First(rcpts, rcpts[|rcpts| - 1].route.name) == |rcpts| - 1
  {
    var init, name := rcpts[..|rcpts| - 1], rcpts[|rcpts| - 1].route.name;
    assert forall k :: 0 <= k < |init| ==> Has(Distinct(init), init[k].route.name);
    assert First(init, name) == -1;
  }

  /** No name twice. */
  lemma DistinctNames(rcpts: seq<Recipient>)
    ensures NamesDistinct(Distinct(rcpts))
  {
    DistinctInOrder(rcpts);
  }

  lemma {:induction false} SameNameSameRoute(config: seq<Route>, a: Route, b: Route)
    requires NamesDistinct(config) && a in config && b in config && a.name == b.name
    ensures a == b
  {
    var i :| 0 <= i < |config| && config[i] == a;
    var j :| 0 <= j < |config| && config[j] == b;
    assert !(i < j) && !(j < i);
  }

  /** When names are unique in the configuration, the listed routes are exactly the recipients' own. */
  lemma {:induction false} ListedExactly(rcpts: seq<Recipient>, config: seq<Route>, r: Route)
    requires NamesDistinct(config) && forall k :: 0 <= k < |rcpts| ==> rcpts[k].route in config
    ensures r in Distinct(rcpts) <==> exists k :: 0 <= k < |rcpts| && rcpts[k].route == r
  {
    var routes := Distinct(rcpts);
    DistinctInOrder(rcpts);
    DistinctCovers(rcpts);
    if k :| 0 <= k < |rcpts| && rcpts[k].route == r {
      var i :| 0 <= i < |routes| && routes[i].name == r.name;
      SameNameSameRoute(config, routes[i], r);
    }
  }

  predicate IsSync(r: Route, def: string): (b: bool)
    ensures b <==> r.webhook.url != "" && (r.mode == "sync" || (r.mode == "" && def == "sync"))
  {
    r.HasWebhook() && r.EffectiveMode(def) == SYNC
  }

  predicate IsAsync(r: Route, def: string): (b: bool)
    ensures b <==> r.webhook.url != "" && !(r.mode == "sync" || (r.mode == "" && def == "sync"))
  {
    r.HasWebhook() && r.EffectiveMode(def) != SYNC
  }

  function SyncRoutes(routes: seq<Route>, def: string): (r: seq<Route>)
    ensures forall x :: x in r <==> x in routes && IsSync(x, def)
  {
    if routes == [] then []
    else
      assert routes == routes[..|routes| - 1] + [routes[|routes| - 1]];
      SyncRoutes(routes[..|routes| - 1], def) + if IsSync(routes[|routes| - 1], def) then [routes[|routes| - 1]] else []
  }

  function AsyncRoutes(routes: seq<Route>, def: string): (r: seq<Route>)
    ensures forall x :: x in r <==> x in routes && IsAsync(x, def)
  {
    if routes == [] then []
    else
      assert routes == routes[..|routes| - 1] + [routes[|routes| - 1]];
      AsyncRoutes(routes[..|routes| - 1], def) + if IsAsync(routes[|routes| - 1], def) then [routes[|routes| - 1]] else []
  }

  /** A sub-list of distinct names has distinct names. */
  lemma {:induction false} PartsStayDistinct(routes: seq<Route>, def: string)
    requires NamesDistinct(routes)
    ensures NamesDistinct(SyncRoutes(routes, def)) && NamesDistinct(AsyncRoutes(routes, def))
    decreases routes
  {
    if routes != [] {
      var init, last := routes[..|routes| - 1], routes[|routes| - 1];
      PartsStayDistinct(init, def);
      forall x | x in init
        ensures x.name != last.name
      {
        var i :| 0 <= i < |init| && init[i] == x;
        assert routes[i] == x;
      }
      AppendDistinct(SyncRoutes(init, def), init, last);
      AppendDistinct(AsyncRoutes(init, def), init, last);
    }
  }

  lemma AppendDistinct(part: seq<Route>, all: seq<Route>, last: Route)
    requires NamesDistinct(part) && (forall x :: x in part ==> x in all) && forall x :: x in all ==> x.name != last.name
    ensures NamesDistinct(part + [last])
  {
    assert forall i :: 0 <= i < |part| ==> part[i] in all;
  }

  /**
   Under unique names the sync and the async list hold, once each, exactly the
   recipients' own routes of that kind.
   */
  lemma {:induction false} DividedExactly(rcpts: seq<Recipient>, config: seq<Route>, def: string, r: Route)
    requires NamesDistinct(config) && forall k :: 0 <= k < |rcpts| ==> rcpts[k].route in config
    ensures NamesDistinct(SyncRoutes(Distinct(rcpts), def)) && NamesDistinct(AsyncRoutes(Distinct(rcpts), def))
    ensures r in SyncRoutes(Distinct(rcpts), def) <==>
      r.webhook.url != "" && (r.mode == "sync" || (r.mode == "" && def == "sync")) && exists k :: 0 <= k < |rcpts| && rcpts[k].route == r
    ensures r in AsyncRoutes(Distinct(rcpts), def) <==>
      r.webhook.url != "" && !(r.mode == "sync" || (r.mode == "" && def == "sync")) && exists k :: 0 <= k < |rcpts| && rcpts[k].route == r
  {
    DistinctNames(rcpts);
    PartsStayDistinct(Distinct(rcpts), def);
    ListedExactly(rcpts, config, r);
  }
}
