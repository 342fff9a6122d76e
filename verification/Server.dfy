/** The session object and the LOGIN exchange that drives its authentication. */
module Server {
  import opened Wrappers
  import opened Config
  import opened Router
  import opened Fanout
  import opened Payloads
  import opened Backoff
  import opened Queue
  import opened Delivery
  import opened Session
  import Letters = Mail
  import Login
  import Recipients

  /** What chance decides about one sync delivery and about one enqueue. */
  datatype Sending = Sending(marshals: bool, wire: Wire, logged: bool)
  datatype Storing = Storing(marshals: bool, now: int, accepted: bool)

  type Sends = string -> Sending
  type Stores = string -> Storing

  datatype Answer = Accepted | Refusal(code: int) | ReadError

  predicate Sent(r: Route, sends: Sends) {
    sends(r.name).marshals && sends(r.name).wire.Ok()
  }

  predicate Stored(r: Route, stores: Stores) {
    stores(r.name).marshals && stores(r.name).accepted
  }

  predicate AllSent(routes: seq<Route>, sends: Sends) {
    forall i :: 0 <= i < |routes| ==> Sent(routes[i], sends)
  }

  predicate AllStored(routes: seq<Route>, stores: Stores) {
    forall i :: 0 <= i < |routes| ==> Stored(routes[i], stores)
  }

  /** The message being handed on: its id, time and content. */
  datatype Item = Item(id: string, receivedAt: int, letter: Letters.Letter)

  ghost predicate AttemptOf(p: Attempted, r: Route, item: Item, sends: Sends) {
    p.route == r && Carries(p.payload, item.id, item.receivedAt, r, item.letter) && p.wire == sends(r.name).wire
  }

  /** What the deliverer has to show: attempts made, and deliveries on record. */
  datatype Seen = Seen(attempts: seq<Attempted>, log: multiset<Record>)

  /** The log entries of one sync delivery each, all of them attempt 1. */
  function SyncLog(routes: seq<Route>, item: Item, sends: Sends): multiset<Record> {
    if routes == [] then multiset{}
    else
      var r := routes[|routes| - 1];
      SyncLog(routes[..|routes| - 1], item, sends) +
      if sends(r.name).logged
      then multiset{Record(item.id, r.name, 1, sends(r.name).wire.Code(), sends(r.name).wire.Ok(), sends(r.name).wire.Error())}
      else multiset{}
  }

  /** Exactly one attempt for each of `routes`, in order, after those in `before`, and its log entry. */
  ghost predicate Tried(before: Seen, after: Seen, routes: seq<Route>, item: Item, sends: Sends, keeps: bool) {
    && |after.attempts| == |before.attempts| + |routes| && after.attempts[..|before.attempts|] == before.attempts
    && (forall i :: 0 <= i < |routes| ==> AttemptOf(after.attempts[|before.attempts| + i], routes[i], item, sends))
    && after.log == before.log + if keeps then SyncLog(routes, item, sends) else multiset{}
  }

  /** Successful deliveries all became HTTP requests. */
  lemma {:induction false} SuccessIsOnWire(before: Seen, after: Seen, routes: seq<Route>, item: Item, sends: Sends, keeps: bool)
    requires Tried(before, after, routes, item, sends, keeps) && AllSent(routes, sends)
    ensures OnWire(after.attempts) == OnWire(before.attempts) + after.attempts[|before.attempts|..]
  {
    var more := after.attempts[|before.attempts|..];
    assert after.attempts == before.attempts + more;
    forall i | 0 <= i < |more|
      ensures !more[i].wire.BadRequest?
    {
      assert AttemptOf(after.attempts[|before.attempts| + i], routes[i], item, sends) && Sent(routes[i], sends);
    }
    BuiltIsOnWire(before.attempts, more);
  }

  ghost predicate RowFor(row: Row, r: Route, item: Item, stores: Stores) {
    && row.messageId == item.id && row.route == r.name && row.attempts == 0
    && row.nextAttemptAt == row.createdAt == Millis(stores(r.name).now)
    && Carries(row.payload, item.id, item.receivedAt, r, item.letter)
  }

  ghost predicate QueuedAt(q: Table, id: int, r: Route, item: Item, stores: Stores) {
    id in q.rows && RowFor(q.rows[id], r, item, stores)
  }

  /** Exactly one new row for each of `routes`, under consecutive new ids, and no other change. */
  ghost predicate Queued(before: Table, after: Table, routes: seq<Route>, item: Item, stores: Stores) {
    && after.lastId == before.lastId + |routes|
    && (forall i :: 0 <= i < |routes| ==> QueuedAt(after, before.lastId + 1 + i, routes[i], item, stores))
    && (forall id :: id <= before.lastId || id > after.lastId ==>
      (id in after.rows <==> id in before.rows) && (id in before.rows ==> after.rows[id] == before.rows[id]))
  }

  lemma TriedOneMore(before: Seen, after: Seen, p: Attempted, more: multiset<Record>, routes: seq<Route>, r: Route, item: Item, sends: Sends, keeps: bool)
    requires Tried(before, after, routes, item, sends, keeps) && AttemptOf(p, r, item, sends)
    requires more == if keeps && sends(r.name).logged
      then multiset{Record(item.id, r.name, 1, p.wire.Code(), p.wire.Ok(), p.wire.Error())} else multiset{}
    ensures Tried(before, Seen(after.attempts + [p], after.log + more), routes + [r], item, sends, keeps)
  {
    assert (after.attempts + [p])[..|before.attempts|] == after.attempts[..|before.attempts|];
    assert (routes + [r])[..|routes|] == routes;
  }

  lemma QueuedOneMore(before: Table, after: Table, payload: Payload, routes: seq<Route>, r: Route, item: Item, stores: Stores)
    requires Queued(before, after, routes, item, stores)
    requires Carries(payload, item.id, item.receivedAt, r, item.letter)
    ensures Queued(before, Inserted(after, item.id, r.name, payload, Millis(stores(r.name).now)), routes + [r], item, stores)
  {
    var all := routes + [r];
    var q := Inserted(after, item.id, r.name, payload, Millis(stores(r.name).now));
    assert all[|routes|] == r;
    forall i | 0 <= i < |all|
      ensures QueuedAt(q, before.lastId + 1 + i, all[i], item, stores)
    {
      if i < |routes| {
        assert all[i] == routes[i];
        assert QueuedAt(after, before.lastId + 1 + i, routes[i], item, stores);
      }
    }
  }

  function Addresses(rcpts: seq<Recipient>): seq<string> {
    if rcpts == [] then [] else Addresses(rcpts[..|rcpts| - 1]) + [rcpts[|rcpts| - 1].addr]
  }

  function Names(routes: seq<Route>): (r: seq<string>)
    ensures |r| == |routes|
    ensures forall i :: 0 <= i < |r| ==> r[i] == routes[i].name
  {
    if routes == [] then [] else Names(routes[..|routes| - 1]) + [routes[|routes| - 1].name]
  }

  /** `order` names the routes of `list`, and `routes` leads from each name to its route. */
  ghost predicate Listed(list: seq<Route>, order: seq<string>, routes: map<string, Route>) {
    && order == Names(list)
    && (forall i :: 0 <= i < |order| ==> order[i] in routes && routes[order[i]] == list[i])
    && (forall n :: n in routes ==> Has(list, n))
  }

  lemma ListOneMore(list: seq<Route>, order: seq<string>, routes: map<string, Route>, r: Route)
    requires Listed(list, order, routes)
    ensures r.name in routes <==> Has(list, r.name)
    ensures r.name !in routes ==> Listed(list + [r], order + [r.name], routes[r.name := r])
  {
    assert forall k :: 0 <= k < |list| ==> list[k].name in routes;
    forall n | n in routes || n == r.name
      ensures Has(list + [r], n)
    {
      HasLonger(list, r, n);
    }
    assert (list + [r])[..|list|] == list;
  }

  class Connection {
    const realm: Realm
    const deliverer: Deliverer
    const defaultMode: string
    var username: string
    var sender: string
    var rcpts: seq<Recipient>

    constructor (realm: Realm, deliverer: Deliverer, defaultMode: string)
      ensures this.realm == realm && this.deliverer == deliverer && this.defaultMode == defaultMode
      ensures View() == NEW
    {
      this.realm, this.deliverer, this.defaultMode := realm, deliverer, defaultMode;
      username, sender, rcpts := "", "", [];
    }

    ghost function View(): Session.State
      reads this
    {
      State(username, sender, rcpts)
    }

    /** One credential check, from PLAIN or from LOGIN. */
    method Authenticate(name: string, password: string) returns (ok: bool)
      modifies this`username
      ensures ok <==>
        && name in realm.users
        && (if realm.users[name].passwordBcrypt != "" then realm.bcrypt(realm.users[name].passwordBcrypt, password)
            else realm.users[name].password == password)
      ensures username == if ok then name else old(username)
      ensures View() == OnAuth(realm, old(View()), name, password)
    {
      if name !in realm.users {
        return false;
      }
      if !CheckPassword(realm.users[name], realm.bcrypt, password) {
        return false;
      }
      username := name;
      return true;
    }

    method Mail(address: string) returns (a: Answer)
      modifies this`sender
      ensures a == if old(username) == "" then Refusal(530) else Accepted
      ensures sender == if old(username) == "" then old(sender) else address
      ensures View() == OnMail(old(View()), address)
    {
      if username == "" {
        return Refusal(530);
      }
      sender := address;
      return Accepted;
    }

    method Rcpt(address: string) returns (a: Answer)
      modifies this`rcpts
      ensures a.Accepted? <==> FindRoute(realm.routes, realm.fold, username, address).Some?
      ensures !a.Accepted? ==> a == Refusal(550) && rcpts == old(rcpts)
      ensures a.Accepted? ==>
        rcpts == old(rcpts) + [Recipient(address, FindRoute(realm.routes, realm.fold, username, address).value)]
      ensures View() == OnRcpt(realm, old(View()), address)
    {
      var found := FindRoute(realm.routes, realm.fold, username, address);
      if found.None? {
        return Refusal(550);
      }
      rcpts := rcpts + [Recipient(address, found.value)];
      return Accepted;
    }

    method Reset()
      modifies this`sender, this`rcpts
      ensures sender == "" && rcpts == []
      ensures View() == OnReset(old(View()))
    {
      sender := "";
      rcpts := [];
    }

    /** Whether this connection's store keeps a delivery log. */
    function Keeps(): bool
      reads this
    {
      deliverer.settings.logContent
    }

    ghost function Shown(): Seen
      reads this, deliverer, deliverer.store
    {
      Seen(deliverer.attempts, deliverer.store.deliveries)
    }

    method RecipientAddresses() returns (addresses: seq<string>)
      ensures |addresses| == |rcpts| && forall i :: 0 <= i < |rcpts| ==> addresses[i] == rcpts[i].addr
      ensures addresses == Addresses(rcpts)
    {
      addresses := [];
      for i := 0 to |rcpts|
        invariant |addresses| == i && forall j :: 0 <= j < i ==> addresses[j] == rcpts[j].addr
        invariant addresses == Addresses(rcpts[..i])
      {
        assert rcpts[..i + 1][..i] == rcpts[..i];
        addresses := addresses + [rcpts[i].addr];
      }
      assert rcpts[..|rcpts|] == rcpts;
    }

    /** Distinct matched routes in first-seen order, through a list of names and a map. */
    method DistinctRoutes() returns (order: seq<string>, routes: map<string, Route>)
      ensures Listed(Distinct(rcpts), order, routes)
    {
      order, routes := [], map[];
      for i := 0 to |rcpts|
        invariant Listed(Distinct(rcpts[..i]), order, routes)
      {
        var r := rcpts[i].route;
        assert rcpts[..i + 1][..i] == rcpts[..i];
        ListOneMore(Distinct(rcpts[..i]), order, routes, r);
        if r.name !in routes {
          routes := routes[r.name := r];
          order := order + [r.name];
        }
      }
      assert rcpts[..|rcpts|] == rcpts;
    }

    /** The three ways a message can end once its body has been read. */
    ghost predicate Outcome(a: Answer, before: Seen, queueBefore: Table, item: Item, sends: Sends, stores: Stores)
      reads this, deliverer, deliverer.store
    {
      var syncs, asyncs := SyncRoutes(Distinct(rcpts), defaultMode), AsyncRoutes(Distinct(rcpts), defaultMode);
      && (a.Accepted? <==> AllSent(syncs, sends) && AllStored(asyncs, stores))
      && (!a.Accepted? ==> a == Refusal(451))
      && (!AllSent(syncs, sends) ==>
        deliverer.store.table == queueBefore && Stopped(Distinct(rcpts), before, item, sends))
      && (AllSent(syncs, sends) ==>
        && Tried(before, Shown(), syncs, item, sends, Keeps())
        && exists k :: 0 <= k <= |asyncs| && StoredUpTo(asyncs, k, queueBefore, item, stores))
    }

    /** Sync route `k` failed: those before it succeeded, none after it was tried. */
    ghost predicate StoppedAt(syncs: seq<Route>, k: nat, before: Seen, item: Item, sends: Sends)
      requires k < |syncs|
      reads this, deliverer, deliverer.store
    {
      && AllSent(syncs[..k], sends) && !Sent(syncs[k], sends)
      && Tried(before, Shown(), if sends(syncs[k].name).marshals then syncs[..k + 1] else syncs[..k], item, sends, Keeps())
    }

    /** Some sync route of the list failed, and the list was followed up to it and no further. */
    ghost predicate Stopped(fan: seq<Route>, before: Seen, item: Item, sends: Sends)
      reads this, deliverer, deliverer.store
    {
      var syncs := SyncRoutes(fan, defaultMode);
      !AllSent(syncs, sends) && exists k :: 0 <= k < |syncs| && StoppedAt(syncs, k, before, item, sends)
    }

    /** Exactly the first `k` async routes were queued, all of them or up to the first refusal. */
    ghost predicate StoredUpTo(asyncs: seq<Route>, k: nat, queueBefore: Table, item: Item, stores: Stores)
      requires k <= |asyncs|
      reads deliverer.store
    {
      && AllStored(asyncs[..k], stores) && (k < |asyncs| ==> !Stored(asyncs[k], stores))
      && Queued(queueBefore, deliverer.store.table, asyncs[..k], item, stores)
    }

    /** The message as stored: its recipients and its distinct routes joined into one column each. */
    ghost function Capture(item: Item): StoredMessage
      reads this
    {
      var l := item.letter;
      StoredMessage(Millis(item.receivedAt), l.sender, Recipients.Join(", ", l.rcpt), Recipients.Join(",", Names(Distinct(rcpts))), l.subject, |l.raw|, username, l.raw)
    }

    /** Logs the message before anything is delivered; a refused write changes nothing else. */
    method KeepMessage(order: seq<string>, m: Letters.Message, id: string, now: int, logged: bool)
      requires deliverer.Valid() && m.sender == sender && order == Names(Distinct(rcpts))
      modifies deliverer.store`messages
      ensures Keeps() && logged ==>
        && id in deliverer.store.messages
        && var kept := deliverer.store.messages[id];
        && kept.sender == sender && kept.username == username && kept.subject == m.subject
        && kept.raw == m.raw && kept.size == |m.raw| && kept.receivedAt == Millis(now)
        && kept.rcpt == Recipients.Join(", ", m.rcpt) && kept.routes == Recipients.Join(",", order)
      ensures deliverer.store.messages ==
        if Keeps() && logged
        then old(deliverer.store.messages)[id := Capture(Item(id, now, m.Value()))] else old(deliverer.store.messages)
    {
      deliverer.store.LogMessage(id,
        StoredMessage(Millis(now), sender, Recipients.Join(", ", m.rcpt), Recipients.Join(",", order), m.subject, |m.raw|, username, m.raw), logged);
    }

    /** One sync delivery, after those to `done`. */
    method SendOne(route: Route, m: Letters.Message, id: string, now: int,
                   ghost before: Seen, ghost done: seq<Route>, ghost item: Item, sends: Sends) returns (ok: bool)
      requires deliverer.Valid() && item == Item(id, now, m.Value()) && Tried(before, Shown(), done, item, sends, Keeps())
      modifies deliverer`attempts, deliverer.store`deliveries
      ensures deliverer.Valid() && ok == Sent(route, sends)
      ensures Tried(before, Shown(), if sends(route.name).marshals then done + [route] else done, item, sends, Keeps())
    {
      var payload := BuildPayload(id, now, route, m);
      var x := sends(route.name);
      ghost var soFar := Shown();
      var code, error := deliverer.DeliverSync(route, payload, x.marshals, x.wire, x.logged);
      if x.marshals {
        ghost var entry := if Keeps() && x.logged
          then multiset{Record(id, route.name, 1, x.wire.Code(), x.wire.Ok(), x.wire.Error())} else multiset{};
        TriedOneMore(before, soFar, Attempted(route, payload, x.wire), entry, done, route, item, sends, Keeps());
        assert Shown() == Seen(soFar.attempts + [Attempted(route, payload, x.wire)], soFar.log + entry);
      }
      return error.None?;
    }

    /** Parses the body that was read, under the session's envelope. */
    method ReadMessage(raw: string, decoded: Option<(seq<Letters.Field>, Letters.Entity)>) returns (m: Letters.Message)
      ensures m.sender == sender && m.rcpt == Addresses(rcpts) && m.raw == raw
      ensures Letters.Reads(m.Value(), decoded)
    {
      var addresses := RecipientAddresses();
      m := new Letters.Message.Parse(sender, addresses, raw, decoded);
    }

    /** Sync routes, inline and in order, stopping at the first failure; async ones are set aside. */
    method DeliverFirst(order: seq<string>, routes: map<string, Route>, m: Letters.Message, id: string, now: int,
                        ghost fan: seq<Route>, ghost item: Item, sends: Sends)
      returns (ok: bool, asyncRoutes: seq<Route>)
      requires deliverer.Valid() && item == Item(id, now, m.Value())
      requires |order| == |fan| && forall i :: 0 <= i < |order| ==> order[i] in routes && routes[order[i]] == fan[i]
      modifies deliverer`attempts, deliverer.store`deliveries
      ensures deliverer.Valid()
      ensures if ok then SyncedUpTo(fan, |fan|, old(Shown()), item, sends) else Stopped(fan, old(Shown()), item, sends)
      ensures ok ==> asyncRoutes == AsyncRoutes(fan, defaultMode)
    {
      ghost var before := Shown();
      asyncRoutes := [];
      for i := 0 to |order|
        invariant deliverer.Valid()
        invariant asyncRoutes == AsyncRoutes(fan[..i], defaultMode)
        invariant SyncedUpTo(fan, i, before, item, sends)
      {
        var route := routes[order[i]];
        NextRoute(fan, i, defaultMode);
        if route.HasWebhook() {
          if route.EffectiveMode(defaultMode) == SYNC {
            var sent := SendOne(route, m, id, now, before, SyncRoutes(fan[..i], defaultMode), item, sends);
            if !sent {
              StopHere(fan, i, before, item, sends);
              return false, asyncRoutes;
            }
            assert SyncedUpTo(fan, i + 1, before, item, sends) by { SyncedOneMore(fan, i, before, item, sends); }
          } else {
            asyncRoutes := asyncRoutes + [route];
          }
        }
      }
      assert fan[..|order|] == fan;
      return true, asyncRoutes;
    }

    /** The sync routes among the first `i` have all been delivered. */
    ghost predicate SyncedUpTo(fan: seq<Route>, i: nat, before: Seen, item: Item, sends: Sends)
      requires i <= |fan|
      reads this, deliverer, deliverer.store
    {
      var done := SyncRoutes(fan[..i], defaultMode);
      AllSent(done, sends) && Tried(before, Shown(), done, item, sends, Keeps())
    }

    lemma {:induction false} SyncedOneMore(fan: seq<Route>, i: nat, before: Seen, item: Item, sends: Sends)
      requires i < |fan| && IsSync(fan[i], defaultMode) && Sent(fan[i], sends)
      requires AllSent(SyncRoutes(fan[..i], defaultMode), sends)
      requires Tried(before, Shown(), SyncRoutes(fan[..i], defaultMode) + [fan[i]], item, sends, Keeps())
      ensures SyncedUpTo(fan, i + 1, before, item, sends)
    {
      NextRoute(fan, i, defaultMode);
    }

    lemma {:induction false} StopHere(fan: seq<Route>, i: nat, before: Seen, item: Item, sends: Sends)
      requires i < |fan| && IsSync(fan[i], defaultMode) && !Sent(fan[i], sends)
      requires AllSent(SyncRoutes(fan[..i], defaultMode), sends)
      requires
        var done := SyncRoutes(fan[..i], defaultMode);
        Tried(before, Shown(), if sends(fan[i].name).marshals then done + [fan[i]] else done, item, sends, Keeps())
      ensures Stopped(fan, before, item, sends)
    {
      SyncPrefix(fan, i, defaultMode);
      assert StoppedAt(SyncRoutes(fan, defaultMode), |SyncRoutes(fan[..i], defaultMode)|, before, item, sends);
    }

    /** Queues for async routes in order, stopping at the first refusal. */
    method QueueRest(asyncRoutes: seq<Route>, m: Letters.Message, id: string, now: int, ghost item: Item, stores: Stores) returns (ok: bool)
      requires item == Item(id, now, m.Value())
      modifies deliverer.store`table
      ensures ok <==> AllStored(asyncRoutes, stores)
      ensures exists k :: 0 <= k <= |asyncRoutes| && StoredUpTo(asyncRoutes, k, old(deliverer.store.table), item, stores)
    {
      for i := 0 to |asyncRoutes|
        invariant AllStored(asyncRoutes[..i], stores)
        invariant Queued(old(deliverer.store.table), deliverer.store.table, asyncRoutes[..i], item, stores)
      {
        var route := asyncRoutes[i];
        var payload := BuildPayload(id, now, route, m);
        var x := stores(route.name);
        ghost var soFar := deliverer.store.table;
        ok := deliverer.Enqueue(payload, x.marshals, x.now, x.accepted);
        if !ok {
          assert StoredUpTo(asyncRoutes, i, old(deliverer.store.table), item, stores);
          return;
        }
        QueuedOneMore(old(deliverer.store.table), soFar, payload, asyncRoutes[..i], route, item, stores);
        assert asyncRoutes[..i + 1] == asyncRoutes[..i] + [route];
      }
      assert asyncRoutes[..|asyncRoutes|] == asyncRoutes;
      assert StoredUpTo(asyncRoutes, |asyncRoutes|, old(deliverer.store.table), item, stores);
      ok := true;
    }

    /** Sync routes first; async ones only when those have all succeeded. */
    method HandOn(order: seq<string>, routes: map<string, Route>, m: Letters.Message, id: string, now: int,
                  ghost item: Item, sends: Sends, stores: Stores) returns (a: Answer)
      requires deliverer.Valid() && item == Item(id, now, m.Value()) && Listed(Distinct(rcpts), order, routes)
      modifies deliverer`attempts, deliverer.store`deliveries, deliverer.store`table
      ensures deliverer.Valid() && !a.ReadError?
      ensures Outcome(a, old(Shown()), old(deliverer.store.table), item, sends, stores)
    {
      var ok, asyncRoutes := DeliverFirst(order, routes, m, id, now, Distinct(rcpts), item, sends);
      if !ok {
        return Refusal(451);
      }
      assert Distinct(rcpts)[..|order|] == Distinct(rcpts);
      ok := QueueRest(asyncRoutes, m, id, now, item, stores);
      return if ok then Accepted else Refusal(451);
    }

    /**
     Takes a message: logs it, delivers to sync routes first and queues for async
     ones only when those have all succeeded. `read` is None when the body could
     not be read.
     */
    method Data(read: Option<string>, decoded: Option<(seq<Letters.Field>, Letters.Entity)>, id: string, now: int,
                logged: bool, sends: Sends, stores: Stores)
      returns (a: Answer, ghost item: Item)
      requires deliverer.Valid()
      modifies deliverer`attempts, deliverer.store`messages, deliverer.store`deliveries, deliverer.store`table
      ensures deliverer.Valid() && View() == old(View())
      ensures a.ReadError? <==> read.None?
      ensures a.ReadError? ==> Shown() == old(Shown()) && deliverer.store.table == old(deliverer.store.table)
      ensures read.Some? ==>
        && item.id == id && item.receivedAt == now
        && item.letter.sender == sender && item.letter.rcpt == Addresses(rcpts) && item.letter.raw == read.value
        && Letters.Reads(item.letter, decoded)
        && Outcome(a, old(Shown()), old(deliverer.store.table), item, sends, stores)
      ensures deliverer.store.messages ==
        if read.Some? && Keeps() && logged
        then old(deliverer.store.messages)[id := Capture(item)] else old(deliverer.store.messages)
    {
      if read.None? {
        item := *;
        return ReadError, item;
      }
      var m := ReadMessage(read.value, decoded);
      item := Item(id, now, m.Value());
      var order, routes := DistinctRoutes();
      KeepMessage(order, m, id, now, logged);
      a := HandOn(order, routes, m, id, now, item, sends, stores);
    }
  }

  /** The LOGIN exchange, checking credentials through the session it belongs to. */
  class LoginServer {
    const connection: Connection
    var username: string
    var haveUser: bool

    constructor (connection: Connection)
      ensures this.connection == connection && View() == Login.FRESH
    {
      this.connection, username, haveUser := connection, "", false;
    }

    ghost function View(): Login.Exchange
      reads this
    {
      Login.Exchange(username, haveUser)
    }

    /** One client response: a prompt back, or a credential check that ends the exchange. */
    method Next(response: string) returns (challenge: Option<string>, done: bool, failed: bool)
      modifies this`username, this`haveUser, connection`username
      ensures View() == Login.Advanced(old(View()), response)
      ensures Login.React(old(View()), response) ==
        if old(haveUser) then Login.Check(old(username), response)
        else Login.Prompt(if response == "" then "Username:" else "Password:")
      ensures match Login.React(old(View()), response)
        case Prompt(text) =>
          challenge == Some(text) && !done && !failed && connection.View() == old(connection.View())
        case Check(name, password) =>
          && challenge == None && done == connection.realm.Proves(name, password) && failed == !done
          && connection.View() == OnAuth(connection.realm, old(connection.View()), name, password)
    {
      if !haveUser {
        if |response| == 0 {
          return Some("Username:"), false, false;
        }
        username := response;
        haveUser := true;
        return Some("Password:"), false, false;
      }
      var ok := connection.Authenticate(username, response);
      return None, ok, !ok;
    }
  }

  lemma {:induction false} NextRoute(fan: seq<Route>, i: nat, def: string)
    requires i < |fan|
    ensures SyncRoutes(fan[..i + 1], def) == if IsSync(fan[i], def) then SyncRoutes(fan[..i], def) + [fan[i]] else SyncRoutes(fan[..i], def)
    ensures AsyncRoutes(fan[..i + 1], def) == if IsAsync(fan[i], def) then AsyncRoutes(fan[..i], def) + [fan[i]] else AsyncRoutes(fan[..i], def)
  {
    assert fan[..i + 1][..i] == fan[..i] && fan[..i + 1][i] == fan[i];
  }

  /** The sync routes of a list begin with those of its prefix, and the next sync route follows. */
  lemma {:induction false} SyncPrefix(fan: seq<Route>, i: nat, def: string)
    requires i < |fan| && IsSync(fan[i], def)
    ensures var all, k := SyncRoutes(fan, def), |SyncRoutes(fan[..i], def)|;
      k < |all| && all[..k] == SyncRoutes(fan[..i], def) && all[k] == fan[i] && all[..k + 1] == SyncRoutes(fan[..i], def) + [fan[i]]
  {
    SyncPrefixes(fan, i + 1, def);
    NextRoute(fan, i, def);
    PrefixSnoc(SyncRoutes(fan[..i], def), fan[i], SyncRoutes(fan, def));
  }

  lemma PrefixSnoc<T>(part: seq<T>, x: T, all: seq<T>)
    requires part + [x] <= all
    ensures |part| < |all| && all[..|part|] == part && all[|part|] == x && all[..|part| + 1] == part + [x]
  {
    assert all[..|part| + 1] == part + [x];
    assert all[..|part|] == (part + [x])[..|part|];
  }

  lemma PrefixOfPrefix<T>(a: seq<T>, b: seq<T>, c: seq<T>)
    requires a <= b <= c
    ensures a <= c
  {
  }

  lemma {:induction false} SyncPrefixes(fan: seq<Route>, i: nat, def: string)
    requires i <= |fan|
    ensures SyncRoutes(fan[..i], def) <= SyncRoutes(fan, def)
    decreases |fan| - i
  {
    if i < |fan| {
      SyncPrefixes(fan, i + 1, def);
      NextRoute(fan, i, def);
      PrefixOfPrefix(SyncRoutes(fan[..i], def), SyncRoutes(fan[..i + 1], def), SyncRoutes(fan, def));
    } else {
      assert fan[..i] == fan;
    }
  }
}
