/**
 From an accepted configuration to the worker: calls and jobs are for routes
 whose credential the session has met, and a queued job names a route the worker
 has, the very one its recipient matched.
 */
module EndToEnd {
  import opened Config
  import opened Payloads
  import opened Backoff
  import opened Queue
  import opened Delivery
  import opened Worker
  import opened Exclusion
  import opened Loss
  import opened Serial
  import opened Fanout
  import opened Session
  import opened Server

  /** The row queued for an async route resolves, by name, to that route. */
  lemma {:induction false} QueuedRouteResolves(config: seq<Route>, byName: map<string, Route>, rcpts: seq<Recipient>,
                                               def: string, r: Route, row: Row, item: Item, stores: Stores)
    requires NamesDistinct(config) && ByName(config, byName)
    requires forall k :: 0 <= k < |rcpts| ==> rcpts[k].route in config
    requires r in AsyncRoutes(Distinct(rcpts), def) && RowFor(row, r, item, stores)
    ensures row.route in byName && byName[row.route] == r && row.payload.route == r.name
    ensures exists k :: 0 <= k < |rcpts| && rcpts[k].route == r
  {
    DividedExactly(rcpts, config, def, r);
  }

  // --- from the first callback to the webhook ---

  /** `r` is configured, and the session presented a password that passes against its own credential. */
  ghost predicate Authorised(realm: Realm, cs: seq<Callback>, r: Route) {
    && r in realm.routes
    && exists i ::
      0 <= i < |cs| && cs[i].Auth? && cs[i].username == r.username &&
      (if r.passwordBcrypt != "" then realm.bcrypt(r.passwordBcrypt, cs[i].password) else r.password == cs[i].password)
  }

  lemma {:induction false} FannedIsAuthorised(realm: Realm, logging: bool, def: string, cs: seq<Callback>, r: Route)
    requires Established(realm, logging, def) && CollisionFree(realm.routes)
    requires r in Distinct(Play(realm, cs).rcpts)
    ensures Authorised(realm, cs, r)
  {
    var rcpts := Play(realm, cs).rcpts;
    AuthenticationIsMandatory(realm, logging, def, cs);
    assert forall k :: 0 <= k < |rcpts| ==> Owned(realm, cs, rcpts[k]);
    ListedExactly(rcpts, realm.routes, r);
    var k :| 0 <= k < |rcpts| && rcpts[k].route == r;
    RecipientsHoldCredentials(realm, logging, def, cs, rcpts[k]);
  }

  /**
   Whatever callbacks came before, a message's webhook calls, all of them or those
   up to a failure, go only to routes whose own credential the session has met.
   */
  lemma {:induction false} CallsAreAuthorised(realm: Realm, logging: bool, def: string, cs: seq<Callback>, n: nat,
                                              before: Seen, after: Seen, item: Item, sends: Sends, keeps: bool, i: nat)
    requires Established(realm, logging, def) && CollisionFree(realm.routes)
    requires n <= |SyncRoutes(Distinct(Play(realm, cs).rcpts), def)|
    requires Tried(before, after, SyncRoutes(Distinct(Play(realm, cs).rcpts), def)[..n], item, sends, keeps)
    requires |before.attempts| <= i < |after.attempts|
    ensures Authorised(realm, cs, after.attempts[i].route) && IsSync(after.attempts[i].route, def)
  {
    var syncs := SyncRoutes(Distinct(Play(realm, cs).rcpts), def);
    var r := syncs[i - |before.attempts|];
    assert r in syncs;
    assert AttemptOf(after.attempts[|before.attempts| + (i - |before.attempts|)], syncs[..n][i - |before.attempts|], item, sends);
    FannedIsAuthorised(realm, logging, def, cs, r);
  }

  /** And so do its queued jobs, which name a route that resolves to one such. */
  lemma {:induction false} RowsAreAuthorised(realm: Realm, logging: bool, def: string, cs: seq<Callback>, n: nat,
                                             before: Table, after: Table, item: Item, stores: Stores, id: int,
                                             byName: map<string, Route>)
    requires Established(realm, logging, def) && CollisionFree(realm.routes) && ByName(realm.routes, byName)
    requires n <= |AsyncRoutes(Distinct(Play(realm, cs).rcpts), def)|
    requires Queued(before, after, AsyncRoutes(Distinct(Play(realm, cs).rcpts), def)[..n], item, stores)
    requires before.lastId < id <= after.lastId
    ensures id in after.rows && after.rows[id].route in byName
    ensures Authorised(realm, cs, byName[after.rows[id].route]) && IsAsync(byName[after.rows[id].route], def)
  {
    var asyncs := AsyncRoutes(Distinct(Play(realm, cs).rcpts), def);
    var k := id - before.lastId - 1;
    var r := asyncs[k];
    assert r in asyncs;
    assert QueuedAt(after, before.lastId + 1 + k, asyncs[..n][k], item, stores);
    FannedIsAuthorised(realm, logging, def, cs, r);
  }

  // --- and on through the worker ---

  /** One configuration in use: the server built from it, the worker's route map, and the sessions there have been. */
  datatype Deployment = Deployment(realm: Realm, logging: bool, def: string, sessions: set<seq<Callback>>, routes: map<string, Route>)

  ghost predicate Deployed(d: Deployment) {
    Established(d.realm, d.logging, d.def) && ByName(d.realm.routes, d.routes)
  }

  /** Some session had a recipient whose async route has this name. */
  ghost predicate ArrivesFor(d: Deployment, name: string) {
    exists cs, r :: cs in d.sessions && r in AsyncRoutes(Distinct(Play(d.realm, cs).rcpts), d.def) && r.name == name
  }

  /** What arrives was queued by a session, and a restart keeps the routes. */
  ghost predicate FedBy(l: Label, d: Deployment) {
    && (l.Arrive? ==> ArrivesFor(d, l.route))
    && (l.Crash? ==> l.restart.routes == d.routes)
  }

  /** The route with that name is configured, async, and its credential was met in some session. */
  ghost predicate SessionRoute(d: Deployment, name: string) {
    && name in d.routes && IsAsync(d.routes[name], d.def)
    && exists cs :: cs in d.sessions && Authorised(d.realm, cs, d.routes[name])
  }

  /** `l` is the arrival of the job that `r` is queued for. */
  ghost predicate ArrivalOf(l: Label, r: Route, item: Item, stores: Stores) {
    && l.Arrive? && l.accepted && l.messageId == item.id && l.route == r.name && l.now == stores(r.name).now
    && Carries(l.payload, item.id, item.receivedAt, r, item.letter)
  }

  lemma {:induction false} InsertLast(q: Table, ls: seq<Label>, l: Label)
    requires l.Arrive? && l.accepted
    ensures InsertAll(q, ls + [l]) == Inserted(InsertAll(q, ls), l.messageId, l.route, l.payload, Millis(l.now))
    decreases ls
  {
    if ls == [] {
      assert ls + [l] == [l] && [l][1..] == [];
    } else {
      assert (ls + [l])[1..] == ls[1..] + [l];
      var first := ls[0];
      InsertLast(if first.Arrive? && first.accepted
        then Inserted(q, first.messageId, first.route, first.payload, Millis(first.now)) else q, ls[1..], l);
    }
  }

  /** The table before the last of some new rows. */
  lemma {:induction false} LastInserted(before: Table, after: Table, routes: seq<Route>, item: Item, stores: Stores) returns (mid: Table, l: Label)
    requires SoundTable(before) && routes != [] && Queued(before, after, routes, item, stores)
    ensures Queued(before, mid, routes[..|routes| - 1], item, stores) && ArrivalOf(l, routes[|routes| - 1], item, stores)
    ensures after == Inserted(mid, l.messageId, l.route, l.payload, Millis(l.now))
  {
    var k := |routes| - 1;
    assert QueuedAt(after, before.lastId + 1 + k, routes[k], item, stores);
    var row := after.rows[after.lastId];
    mid := Table(after.rows - {after.lastId}, after.lastId - 1);
    l := Arrive(row.messageId, row.route, row.payload, stores(routes[k].name).now, true);
    forall i | 0 <= i < k
      ensures QueuedAt(mid, before.lastId + 1 + i, routes[..k][i], item, stores)
    {
      assert QueuedAt(after, before.lastId + 1 + i, routes[i], item, stores);
    }
    assert after.rows == mid.rows[after.lastId := row];
  }

  /**
   The rows a message adds are arrivals like any others, one for each route in
   order, so whatever holds of runs with arrivals at any point holds of sessions
   whose inserts interleave with the worker and with each other.
   */
  lemma {:induction false} QueuedIsArrivals(before: Table, after: Table, routes: seq<Route>, item: Item, stores: Stores) returns (ls: seq<Label>)
    requires SoundTable(before) && Queued(before, after, routes, item, stores)
    ensures after == InsertAll(before, ls) && |ls| == |routes|
    ensures forall i :: 0 <= i < |ls| ==> ArrivalOf(ls[i], routes[i], item, stores)
    decreases |routes|
  {
    if routes == [] {
      ls := [];
      TablesEqual(before, after);
    } else {
      var mid, l := LastInserted(before, after, routes, item, stores);
      var init := QueuedIsArrivals(before, mid, routes[..|routes| - 1], item, stores);
      InsertLast(before, init, l);
      ls := init + [l];
    }
  }

  /** The steps that log the sync deliveries of `routes`. */
  function InlineSteps(routes: seq<Route>, item: Item, sends: Sends): (r: seq<Label>)
    ensures |r| == |routes| && forall i :: 0 <= i < |r| ==> r[i].Inline?
  {
    if routes == [] then []
    else
      var last := routes[|routes| - 1];
      var x := sends(last.name);
      InlineSteps(routes[..|routes| - 1], item, sends) +
      [Inline(Record(item.id, last.name, 1, x.wire.Code(), x.wire.Ok(), x.wire.Error()), x.logged)]
  }

  lemma {:induction false} InlineLast(settings: Settings, ls: seq<Label>, l: Label)
    ensures InlineAll(settings, ls + [l]) == InlineAll(settings, ls) + InlineAll(settings, [l])
    decreases ls
  {
    if ls == [] {
      assert ls + [l] == [l];
    } else {
      assert (ls + [l])[1..] == ls[1..] + [l];
      InlineLast(settings, ls[1..], l);
    }
  }

  lemma {:induction false} SyncLogIsInline(settings: Settings, routes: seq<Route>, item: Item, sends: Sends)
    ensures InlineAll(settings, InlineSteps(routes, item, sends)) ==
      if settings.logContent then SyncLog(routes, item, sends) else multiset{}
    decreases |routes|
  {
    if routes != [] {
      var init := routes[..|routes| - 1];
      SyncLogIsInline(settings, init, item, sends);
      var steps := InlineSteps(routes, item, sends);
      InlineLast(settings, InlineSteps(init, item, sends), steps[|init|]);
      assert [steps[|init|]][1..] == [];
    }
  }

  /** And the log entries of a message's sync deliveries are such steps of the sessions beside the worker. */
  lemma TriedIsInline(settings: Settings, before: Seen, after: Seen, routes: seq<Route>, item: Item, sends: Sends) returns (ls: seq<Label>)
    requires Tried(before, after, routes, item, sends, settings.logContent)
    ensures after.log == before.log + InlineAll(settings, ls)
    ensures |ls| == |routes| && forall i :: 0 <= i < |ls| ==> ls[i].Inline?
  {
    ls := InlineSteps(routes, item, sends);
    SyncLogIsInline(settings, routes, item, sends);
  }

  /** The arrivals of a session are fed by it, all of them or those up to a refusal. */
  lemma {:induction false} SessionFeeds(d: Deployment, cs: seq<Callback>, n: nat, item: Item, stores: Stores, ls: seq<Label>)
    requires cs in d.sessions && n <= |AsyncRoutes(Distinct(Play(d.realm, cs).rcpts), d.def)| && |ls| == n
    requires forall i :: 0 <= i < n ==> ArrivalOf(ls[i], AsyncRoutes(Distinct(Play(d.realm, cs).rcpts), d.def)[..n][i], item, stores)
    ensures forall i :: 0 <= i < n ==> FedBy(ls[i], d)
  {
    var asyncs := AsyncRoutes(Distinct(Play(d.realm, cs).rcpts), d.def);
    forall i | 0 <= i < n
      ensures FedBy(ls[i], d)
    {
      assert ArrivalOf(ls[i], asyncs[..n][i], item, stores) && asyncs[i] in asyncs;
    }
  }

  /** A session's async routes are found under their names in the worker's map. */
  lemma {:induction false} ArrivalResolves(d: Deployment, name: string)
    requires Deployed(d) && ArrivesFor(d, name)
    ensures name in d.routes
    ensures CollisionFree(d.realm.routes) ==> SessionRoute(d, name)
  {
    var cs, r :| cs in d.sessions && r in AsyncRoutes(Distinct(Play(d.realm, cs).rcpts), d.def) && r.name == name;
    var rcpts := Play(d.realm, cs).rcpts;
    AuthenticationIsMandatory(d.realm, d.logging, d.def, cs);
    assert forall k :: 0 <= k < |rcpts| ==> Owned(d.realm, cs, rcpts[k]);
    DividedExactly(rcpts, d.realm.routes, d.def, r);
    assert r in d.realm.routes;
    if CollisionFree(d.realm.routes) {
      FannedIsAuthorised(d.realm, d.logging, d.def, cs, r);
    }
  }

  /** The running routes are the deployment's, everything that arrived came from a session, and nothing was dropped. */
  ghost predicate SessionFed(s: Worker.State, d: Deployment) {
    && s.settings.routes == d.routes
    && (forall e :: e in s.trace && e.Arrived? ==> ArrivesFor(d, e.route))
    && (forall e :: e in s.trace ==> !e.Dropped?)
  }

  /** A job in a goroutine arrived once, so it has a route. */
  lemma {:induction false} JobHasRoute(s: Worker.State, t: nat, d: Deployment)
    requires LossInv(s) && SessionFed(s, d) && t in s.tasks && Deployed(d)
    ensures s.tasks[t].job.route in d.routes
  {
    var j := s.tasks[t].job;
    assert Genuine(s.trace, j);
    var e := Arrived(j.id, j.messageId, j.route, j.payload);
    assert e in s.trace && e.Arrived?;
    ArrivalResolves(d, j.route);
  }

  /** Arrivals and drops enter the trace by their own steps only. */
  lemma {:induction false} NewEvents(s: Worker.State, l: Label, e: Event)
    requires Sound(s) && Enabled(s, l) && e in Next(s, l).trace && e !in s.trace
    ensures e.Arrived? ==> l.Arrive? && e.route == l.route
    ensures e.Dropped? ==> l.Write? && s.tasks[l.task].stage.Ready?
  {
    if l.Write? {
      assert SoundJob(s.tasks[l.task].job, s.table.lastId);
    }
  }

  lemma {:induction false} SessionFedStep(s: Worker.State, l: Label, d: Deployment)
    requires Sound(s) && LossInv(s) && SessionFed(s, d) && Enabled(s, l) && Deployed(d) && FedBy(l, d)
    ensures SessionFed(Next(s, l), d)
  {
    if l.Write? {
      JobHasRoute(s, l.task, d);
    }
    forall e | e in Next(s, l).trace
      ensures e.Arrived? ==> ArrivesFor(d, e.route)
      ensures !e.Dropped?
    {
      if e !in s.trace {
        NewEvents(s, l, e);
      }
    }
    RoutesStay(s, l, d);
  }

  lemma {:induction false} RoutesStay(s: Worker.State, l: Label, d: Deployment)
    requires Sound(s) && Enabled(s, l) && s.settings.routes == d.routes && FedBy(l, d)
    ensures Next(s, l).settings.routes == d.routes
  {
    if l.Write? {
      assert SoundJob(s.tasks[l.task].job, s.table.lastId);
    }
  }

  lemma {:induction false} SessionFedRun(s: Worker.State, ls: seq<Label>, d: Deployment)
    requires Sound(s) && LossInv(s) && SessionFed(s, d) && Runnable(s, ls) && Deployed(d)
    requires forall i :: 0 <= i < |ls| ==> FedBy(ls[i], d)
    ensures SessionFed(After(s, ls), d)
    decreases ls
  {
    if ls != [] {
      SoundStep(s, ls[0]);
      LossStep(s, ls[0]);
      SessionFedStep(s, ls[0], d);
      SessionFedRun(Next(s, ls[0]), ls[1..], d);
    }
  }

  /**
   In every run fed by sessions, crashes and cancellation included, every attempt
   of the worker is for a configured async route whose own credential some session
   has met.
   */
  lemma {:induction false} WorkerCallsAreAuthorised(settings: Settings, ls: seq<Label>, d: Deployment, e: Event)
    requires Deployed(d) && CollisionFree(d.realm.routes) && settings.routes == d.routes
    requires Runnable(Start(settings), ls) && forall i :: 0 <= i < |ls| ==> FedBy(ls[i], d)
    requires e in After(Start(settings), ls).trace && e.Called?
    ensures SessionRoute(d, e.job.route)
  {
    SessionFedRun(Start(settings), ls, d);
    CallsAreGenuine(settings, ls, e);
    var a := Arrived(e.job.id, e.job.messageId, e.job.route, e.job.payload);
    assert a in After(Start(settings), ls).trace && a.Arrived?;
    ArrivalResolves(d, e.job.route);
  }

  /** And no job is ever dropped for an unknown route. */
  lemma {:induction false} NeverDropped(settings: Settings, ls: seq<Label>, d: Deployment)
    requires Deployed(d) && settings.routes == d.routes
    requires Runnable(Start(settings), ls) && forall i :: 0 <= i < |ls| ==> FedBy(ls[i], d)
    ensures forall e :: e in After(Start(settings), ls).trace ==> !e.Dropped?
  {
    SessionFedRun(Start(settings), ls, d);
  }
}
