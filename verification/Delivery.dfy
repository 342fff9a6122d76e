/**
 One webhook attempt, what it means for a queued job, and the component that
 performs deliveries against the store.
 */
module Delivery {
  import opened Wrappers
  import opened Config
  import opened Payloads
  import opened Backoff
  import opened Queue

  const STATUS_ERROR := "webhook returned status "

  /** A number as text. */
  function Decimal(n: int): string
    decreases if n < 0 then 1 - n else n
  {
    if n < 0 then "-" + Decimal(-n)
    else if n < 10 then ['0' + n as char]
    else Decimal(n / 10) + ['0' + (n % 10) as char]
  }

  /** The number that decimal digits stand for. */
  function Numeral(digits: string): int {
    if digits == "" then 0
    else Numeral(digits[..|digits| - 1]) * 10 + (digits[|digits| - 1] as int - '0' as int)
  }

  /** Digits only, no leading zero, and they stand for the number. */
  lemma {:induction false} DecimalReads(n: nat)
    ensures Numeral(Decimal(n)) == n && Decimal(n) != "" && (n > 0 ==> Decimal(n)[0] != '0')
    ensures forall c :: c in Decimal(n) ==> '0' <= c <= '9'
    decreases n
  {
    if n >= 10 {
      DecimalReads(n / 10);
      assert Decimal(n)[..|Decimal(n)| - 1] == Decimal(n / 10);
    } else {
      assert Decimal(n)[..0] == "";
    }
  }

  /** What one HTTP exchange came to. */
  datatype Wire =
    | BadRequest(reason: string)
    | TransportError(reason: string)
    | Status(code: int)
  {
    /** Accepted by the endpoint: a 2xx status. */
    predicate Ok() {
      Status? && 200 <= code < 300
    }

    function Code(): int {
      if Status? then code else 0
    }

    function Error(): string {
      if Ok() then "" else if Status? then STATUS_ERROR + Decimal(code) else reason
    }
  }

  /** What a running process knows: its routes by name, its delivery settings, whether it logs content. */
  datatype Settings = Settings(routes: map<string, Route>, delivery: DeliverySettings, logContent: bool)

  /** Everything that chance decides for one job: reply, log write, clock reading, queue write. */
  datatype Outcome = Outcome(wire: Wire, logged: bool, now: int, accepted: bool)

  datatype Fate =
    | Unroutable
    | Delivered
    | GivenUp
    | Retry(attempts: int, nextAttemptAt: int)

  /** The time of the next try, as stored. */
  function NextTry(s: Settings, attempt: int, now: int): int
    requires attempt >= 1
  {
    Millis(now + Delay(s.delivery.retryBackoff, attempt))
  }

  function FateOf(s: Settings, j: Job, o: Outcome): Fate
    requires j.attempts >= 0
  {
    if j.route !in s.routes then Unroutable
    else if o.wire.Ok() then Delivered
    else if j.attempts + 1 >= s.delivery.maxRetries then GivenUp
    else Retry(j.attempts + 1, NextTry(s, j.attempts + 1, o.now))
  }

  /** The status line said 200 to 299. */
  predicate Answered2xx(w: Wire) {
    match w
    case Status(c) => 200 <= c < 300
    case _ => false
  }

  /** If the row is there it is kept for another attempt, with this count and time and nothing else changed. */
  ghost predicate RetriedAs(q: Table, r: Table, id: int, attempts: int, nextAttemptAt: int) {
    if id in q.rows
    then id in r.rows && r.rows[id] == q.rows[id].(attempts := attempts, nextAttemptAt := nextAttemptAt)
    else id !in r.rows
  }

  /** The queue write a fate asks for. */
  function Settle(q: Table, id: int, f: Fate): Table {
    match f
    case Retry(attempts, next) => Rescheduled(q, id, attempts, next)
    case _ => Deleted(q, id)
  }

  function RecordOf(j: Job, w: Wire): Record {
    Record(j.messageId, j.route, j.attempts + 1, w.Code(), w.Ok(), w.Error())
  }

  /** The log entries one handled job leaves. */
  function Logged(s: Settings, j: Job, o: Outcome): multiset<Record> {
    if j.route in s.routes && s.logContent && o.logged then multiset{RecordOf(j, o.wire)} else multiset{}
  }

  /** The queue after one job has been handled from start to end. */
  function Handled(s: Settings, q: Table, j: Job, o: Outcome): Table
    requires j.attempts >= 0
  {
    if o.accepted then Settle(q, j.id, FateOf(s, j, o)) else q
  }

  /**
   What handling one job does to the queue. An accepted write removes its row when it
   has no route, was answered 2xx or has had its last attempt, and otherwise keeps it
   for its next time; a refused one changes nothing. No other row is touched.
   */
  ghost predicate HandledAs(s: Settings, q: Table, r: Table, j: Job, o: Outcome)
    requires j.attempts >= 0
  {
    && (!o.accepted ==> r == q)
    && r.lastId == q.lastId && OthersKept(q, r, j.id)
    && (o.accepted && (j.route !in s.routes || Answered2xx(o.wire) || j.attempts + 1 >= s.delivery.maxRetries) ==> j.id !in r.rows)
    && (o.accepted && j.route in s.routes && !Answered2xx(o.wire) && j.attempts + 1 < s.delivery.maxRetries ==>
      RetriedAs(q, r, j.id, j.attempts + 1, Millis(o.now + Delay(s.delivery.retryBackoff, j.attempts + 1))))
  }

  lemma HandledExactly(s: Settings, q: Table, j: Job, o: Outcome)
    requires j.attempts >= 0
    ensures HandledAs(s, q, Handled(s, q, j, o), j, o)
  {
  }

  /** And to the log: a record of the attempt, if one was made and it could be logged. */
  ghost predicate LoggedAs(s: Settings, before: multiset<Record>, after: multiset<Record>, j: Job, o: Outcome) {
    if j.route in s.routes && s.logContent && o.logged
    then after == before +
      multiset{Record(j.messageId, j.route, j.attempts + 1, if o.wire.Status? then o.wire.code else 0, Answered2xx(o.wire), o.wire.Error())}
    else after == before
  }

  lemma LoggedExactly(s: Settings, before: multiset<Record>, j: Job, o: Outcome)
    ensures LoggedAs(s, before, before + Logged(s, j, o), j, o)
  {
  }

  /** One attempt at a webhook. With `BadRequest` the request could not be built and nothing was sent. */
  datatype Attempted = Attempted(route: Route, payload: Payload, wire: Wire)

  /** The attempts that became HTTP requests. */
  function OnWire(attempts: seq<Attempted>): seq<Attempted> {
    if attempts == [] then []
    else OnWire(attempts[..|attempts| - 1]) + Request(attempts[|attempts| - 1])
  }

  function Request(a: Attempted): seq<Attempted> {
    if a.wire.BadRequest? then [] else [a]
  }

  lemma OnWireSnoc(attempts: seq<Attempted>, last: Attempted)
    ensures OnWire(attempts + [last]) == OnWire(attempts) + Request(last)
  {
    assert (attempts + [last])[..|attempts|] == attempts;
  }

  lemma Associates<T>(a: seq<T>, b: seq<T>, x: T)
    ensures a + (b + [x]) == (a + b) + [x]
  {
  }

  lemma {:induction false} BuiltIsOnWire(before: seq<Attempted>, more: seq<Attempted>)
    requires forall i :: 0 <= i < |more| ==> !more[i].wire.BadRequest?
    ensures OnWire(before + more) == OnWire(before) + more
    decreases |more|
  {
    if more == [] {
      assert before + more == before;
    } else {
      var init, last := more[..|more| - 1], more[|more| - 1];
      BuiltIsOnWire(before, init);
      assert more == init + [last];
      Associates(before, init, last);
      Associates(OnWire(before), init, last);
      OnWireSnoc(before + init, last);
    }
  }

  class Deliverer {
    const settings: Settings
    const store: Store
    var attempts: seq<Attempted>

    ghost predicate Valid()
      reads this
    {
      store.logContent == settings.logContent
    }

    constructor (settings: Settings, store: Store)
      requires store.logContent == settings.logContent
      ensures Valid() && this.settings == settings && this.store == store && attempts == []
    {
      this.settings, this.store, attempts := settings, store, [];
    }

    /** One attempt; a request that cannot be built is not sent, and any status outside 200..299 is an error. */
    method Attempt(route: Route, payload: Payload, wire: Wire) returns (code: int, error: Option<string>)
      modifies this`attempts
      ensures attempts == old(attempts) + [Attempted(route, payload, wire)]
      ensures OnWire(attempts) == OnWire(old(attempts)) + if wire.BadRequest? then [] else [Attempted(route, payload, wire)]
      ensures error.None? <==> wire.Status? && 200 <= wire.code < 300
      ensures code == match wire { case Status(c) => c case _ => 0 }
      ensures error.GetOr("") == match wire {
        case BadRequest(reason) => reason
        case TransportError(reason) => reason
        case Status(c) => if 200 <= c < 300 then "" else "webhook returned status " + Decimal(c)
      }
      ensures code == wire.Code() && error.GetOr("") == wire.Error()
    {
      OnWireSnoc(attempts, Attempted(route, payload, wire));
      attempts := attempts + [Attempted(route, payload, wire)];
      match wire
      case BadRequest(reason) => return 0, Some(reason);
      case TransportError(reason) => return 0, Some(reason);
      case Status(c) =>
        if c < 200 || c >= 300 {
          return c, Some(STATUS_ERROR + Decimal(c));
        }
        return c, None;
    }

    /** Posts at once, logs attempt 1 and reports the result. Marshalling may fail before anything is sent. */
    method DeliverSync(route: Route, payload: Payload, marshals: bool, wire: Wire, logged: bool) returns (code: int, error: Option<string>)
      requires Valid()
      modifies this`attempts, store`deliveries
      ensures Valid()
      ensures attempts == if marshals then old(attempts) + [Attempted(route, payload, wire)] else old(attempts)
      ensures OnWire(attempts) ==
        OnWire(old(attempts)) + if marshals && !wire.BadRequest? then [Attempted(route, payload, wire)] else []
      ensures store.deliveries == old(store.deliveries) +
        (if marshals && settings.logContent && logged
         then multiset{Record(payload.messageId, route.name, 1, wire.Code(), wire.Ok(), wire.Error())} else multiset{})
      ensures error.None? <==> marshals && wire.Ok()
      ensures code == if marshals then wire.Code() else 0
    {
      if !marshals {
        return 0, Some("marshal");
      }
      code, error := Attempt(route, payload, wire);
      store.LogDelivery(Record(payload.messageId, route.name, 1, code, error.None?, error.GetOr("")), logged);
    }

    /** Stores the payload for the worker. */
    method Enqueue(payload: Payload, marshals: bool, now: int, accepted: bool) returns (ok: bool)
      modifies store`table
      ensures ok <==> marshals && accepted
      ensures store.table == if ok then Inserted(old(store.table), payload.messageId, payload.route, payload, Millis(now)) else old(store.table)
    {
      if !marshals {
        return false;
      }
      ok := store.Enqueue(payload.messageId, payload.route, payload, now, accepted);
    }

    /**
     Handles one claimed job from start to end when nothing else runs: the
     reference that the interleaved worker is compared with.
     */
    method Process(j: Job, o: Outcome)
      requires Valid() && j.attempts >= 0
      modifies this`attempts, store`table, store`deliveries
      ensures Valid()
      ensures store.table == Handled(settings, old(store.table), j, o)
      ensures HandledAs(settings, old(store.table), store.table, j, o)
      ensures store.deliveries == old(store.deliveries) + Logged(settings, j, o)
      ensures LoggedAs(settings, old(store.deliveries), store.deliveries, j, o)
      ensures attempts == if j.route in settings.routes
        then old(attempts) + [Attempted(settings.routes[j.route], j.payload, o.wire)] else old(attempts)
    {
      HandledExactly(settings, store.table, j, o);
      LoggedExactly(settings, store.deliveries, j, o);
      if j.route !in settings.routes {
        var _ := store.CompleteJob(j.id, o.accepted);
      } else {
        var attempt := j.attempts + 1;
        var code, error := Attempt(settings.routes[j.route], j.payload, o.wire);
        store.LogDelivery(Record(j.messageId, j.route, attempt, code, error.None?, error.GetOr("")), o.logged);
        if error.None? {
          var _ := store.CompleteJob(j.id, o.accepted);
        } else if attempt >= settings.delivery.maxRetries {
          var _ := store.CompleteJob(j.id, o.accepted);
        } else {
          var backoff := Wrap64(settings.delivery.retryBackoff * ShiftOne(attempt - 1));
          var _ := store.RescheduleJob(j.id, attempt, o.now + backoff, o.accepted);
        }
      }
    }
  }
}
