/**
 The durable delivery queue and the delivery log. Each SQL statement is one
 atomic step on the tables, which the database may also refuse.
 */
module Queue {
  import opened Wrappers
  import opened Payloads
  import opened Backoff

  /** Times in rows are milliseconds. */
  datatype Row = Row(messageId: string, route: string, payload: Payload, attempts: int, nextAttemptAt: int, createdAt: int)

  datatype Job = Job(id: int, messageId: string, route: string, payload: Payload, attempts: int)

  /** AUTOINCREMENT: ids are never reused, so `lastId` outlives the rows. */
  datatype Table = Table(rows: map<int, Row>, lastId: int)

  /** A delivery log entry, without its own id and timestamp. */
  datatype Record = Record(messageId: string, route: string, attempt: int, code: int, success: bool, error: string)

  /** A stored message; recipients are joined into one column, and the time is in milliseconds. */
  datatype StoredMessage = StoredMessage(
    receivedAt: int, sender: string, rcpt: string, routes: string, subject: string, size: nat, username: string, raw: string)

  const EMPTY := Table(map[], 0)

  function JobOf(id: int, r: Row): Job {
    Job(id, r.messageId, r.route, r.payload, r.attempts)
  }

  function Inserted(q: Table, messageId: string, route: string, payload: Payload, nowMillis: int): Table {
    Table(q.rows[q.lastId + 1 := Row(messageId, route, payload, 0, nowMillis, nowMillis)], q.lastId + 1)
  }

  function Deleted(q: Table, id: int): Table {
    q.(rows := q.rows - {id})
  }

  function Rescheduled(q: Table, id: int, attempts: int, nextMillis: int): Table {
    if id in q.rows
    then q.(rows := q.rows[id := q.rows[id].(attempts := attempts, nextAttemptAt := nextMillis)])
    else q
  }

  predicate Due(q: Table, id: int, nowMillis: int) {
    id in q.rows && q.rows[id].nextAttemptAt <= nowMillis
  }

  ghost predicate Taken(jobs: seq<Job>, id: int) {
    exists i :: 0 <= i < |jobs| && jobs[i].id == id
  }

  /**
   `jobs` is a possible answer to "rows due, earliest first, at most `limit`".
   Nothing is said about the order of rows due at the same time.
   */
  ghost predicate IsClaim(q: Table, nowMillis: int, limit: int, jobs: seq<Job>) {
    && (limit >= 0 ==> |jobs| <= limit)
    && (forall i :: 0 <= i < |jobs| ==> Due(q, jobs[i].id, nowMillis) && jobs[i] == JobOf(jobs[i].id, q.rows[jobs[i].id]))
    && (forall i, j :: 0 <= i < j < |jobs| ==>
      jobs[i].id != jobs[j].id && q.rows[jobs[i].id].nextAttemptAt <= q.rows[jobs[j].id].nextAttemptAt)
    && (forall id :: Due(q, id, nowMillis) && !Taken(jobs, id) ==>
      |jobs| == limit && forall i :: 0 <= i < |jobs| ==> q.rows[jobs[i].id].nextAttemptAt <= q.rows[id].nextAttemptAt)
  }

  /** Every row but `id` is in `r` as it is in `q`. */
  ghost predicate OthersKept(q: Table, r: Table, id: int) {
    forall other :: other != id ==> (other in r.rows <==> other in q.rows) && (other in q.rows ==> r.rows[other] == q.rows[other])
  }

  datatype Fault = NoFault | QueryFails | ScanFails(at: nat) | IterationFails

  /** `b` is due no later than any of `ids`. */
  predicate Earliest(q: Table, ids: set<int>, b: int) {
    b in ids && b in q.rows && forall o :: o in ids && o in q.rows ==> q.rows[b].nextAttemptAt <= q.rows[o].nextAttemptAt
  }

  lemma Member<T>(ids: set<T>) returns (x: T)
    requires |ids| > 0
    ensures x in ids
  {
    var y :| y in ids;
    x := y;
  }

  lemma EarliestExists(q: Table, ids: set<int>) returns (b: int)
    requires |ids| > 0 && ids <= q.rows.Keys
    ensures Earliest(q, ids, b)
    decreases |ids|
  {
    b := Member(ids);
    var rest := ids - {b};
    if |rest| > 0 {
      var c := EarliestExists(q, rest);
      if q.rows[c].nextAttemptAt < q.rows[b].nextAttemptAt {
        b := c;
      }
    }
  }

  /** Midway through a selection: `jobs` picked in order, `left` still to choose from. */
  ghost predicate Selecting(q: Table, nowMillis: int, jobs: seq<Job>, left: set<int>) {
    && (forall i :: 0 <= i < |jobs| ==> Due(q, jobs[i].id, nowMillis) && jobs[i] == JobOf(jobs[i].id, q.rows[jobs[i].id]))
    && (forall i, j :: 0 <= i < j < |jobs| ==>
      jobs[i].id != jobs[j].id && q.rows[jobs[i].id].nextAttemptAt <= q.rows[jobs[j].id].nextAttemptAt)
    && (forall id :: id in left ==> Due(q, id, nowMillis) && !Taken(jobs, id))
    && (forall id :: Due(q, id, nowMillis) && !Taken(jobs, id) ==> id in left)
    && (forall i, id :: 0 <= i < |jobs| && id in left ==> q.rows[jobs[i].id].nextAttemptAt <= q.rows[id].nextAttemptAt)
  }

  lemma SelectOne(q: Table, nowMillis: int, jobs: seq<Job>, left: set<int>, best: int)
    requires Selecting(q, nowMillis, jobs, left) && Earliest(q, left, best)
    ensures Selecting(q, nowMillis, jobs + [JobOf(best, q.rows[best])], left - {best})
  {
    var longer := jobs + [JobOf(best, q.rows[best])];
    assert longer[|jobs|].id == best;
    forall id
      ensures Taken(longer, id) <==> Taken(jobs, id) || id == best
    {
      if Taken(jobs, id) {
        var i :| 0 <= i < |jobs| && jobs[i].id == id;
        assert longer[i].id == id;
      }
    }
    forall i | 0 <= i < |jobs|
      ensures longer[i] == jobs[i] && jobs[i].id != best
    {
      assert Taken(jobs, jobs[i].id);
    }
  }

  class Store {
    var table: Table
    var deliveries: multiset<Record>
    var messages: map<string, StoredMessage>
    const logContent: bool

    constructor (logContent: bool)
      ensures table == EMPTY && deliveries == multiset{} && messages == map[] && this.logContent == logContent
    {
      this.logContent := logContent;
      table, deliveries, messages := EMPTY, multiset{}, map[];
    }

    /** Records an accepted message, replacing one of the same id; a no-op when content logging is off. */
    method LogMessage(id: string, m: StoredMessage, accepted: bool)
      modifies this`messages
      ensures messages == if logContent && accepted then old(messages)[id := m] else old(messages)
    {
      if !logContent {
        return;
      }
      if accepted {
        messages := messages[id := m];
      }
    }

    /** Adds a job due at once. */
    method Enqueue(messageId: string, route: string, payload: Payload, now: int, accepted: bool) returns (ok: bool)
      modifies this`table
      ensures ok == accepted
      ensures ok ==>
        && table.lastId == old(table).lastId + 1 && table.lastId in table.rows
        && table.rows[table.lastId] == Row(messageId, route, payload, 0, Millis(now), Millis(now))
        && OthersKept(old(table), table, table.lastId)
      ensures table == if ok then Inserted(old(table), messageId, route, payload, Millis(now)) else old(table)
    {
      var nowMillis := Millis(now);
      if !accepted {
        return false;
      }
      var id := table.lastId + 1;
      table := Table(table.rows[id := Row(messageId, route, payload, 0, nowMillis, nowMillis)], id);
      return true;
    }

    /** The SELECT: picks an earliest due row again and again, up to the limit. */
    method SelectDue(nowMillis: int, limit: int) returns (rows: seq<Job>)
      ensures IsClaim(table, nowMillis, limit, rows)
    {
      var q := table;
      rows := [];
      var left := set id | id in q.rows && q.rows[id].nextAttemptAt <= nowMillis;
      while left != {} && (limit < 0 || |rows| < limit)
        invariant limit >= 0 ==> |rows| <= limit
        invariant Selecting(q, nowMillis, rows, left)
        decreases left
      {
        ghost var earliest := EarliestExists(q, left);
        var best :| best in left && Earliest(q, left, best);
        SelectOne(q, nowMillis, rows, left, best);
        rows := rows + [JobOf(best, q.rows[best])];
        left := left - {best};
      }
    }

    /** Reads the selected rows one by one; marks nothing. */
    method ClaimDue(now: int, limit: int, fault: Fault) returns (r: Option<seq<Job>>)
      ensures r.Some? ==> IsClaim(table, Millis(now), limit, r.value)
      ensures r.Some? ==> forall j :: j in r.value ==>
        && j.id in table.rows && table.rows[j.id].nextAttemptAt <= Millis(now)
        && j.messageId == table.rows[j.id].messageId && j.route == table.rows[j.id].route
        && j.payload == table.rows[j.id].payload && j.attempts == table.rows[j.id].attempts
      ensures r.Some? ==> forall id :: id in table.rows && table.rows[id].nextAttemptAt <= Millis(now) ==>
        Taken(r.value, id) || |r.value| == limit
      ensures fault.NoFault? ==> r.Some?
      ensures fault.QueryFails? || fault.IterationFails? ==> r.None?
      ensures fault.ScanFails? && r.Some? ==> |r.value| <= fault.at
    {
      if fault.QueryFails? {
        return None;
      }
      var rows := SelectDue(Millis(now), limit);
      var jobs: seq<Job> := [];
      for i := 0 to |rows|
        invariant jobs == rows[..i]
        invariant fault.ScanFails? ==> i <= fault.at
      {
        if fault.ScanFails? && fault.at == i {
          return None;
        }
        jobs := jobs + [rows[i]];
      }
      if fault.IterationFails? {
        return None;
      }
      return Some(jobs);
    }

    method CompleteJob(id: int, accepted: bool) returns (ok: bool)
      modifies this`table
      ensures ok == accepted
      ensures ok ==> id !in table.rows && table.lastId == old(table).lastId && OthersKept(old(table), table, id)
      ensures table == if ok then Deleted(old(table), id) else old(table)
    {
      if accepted {
        table := table.(rows := map i | i in table.rows && i != id :: table.rows[i]);
      }
      return accepted;
    }

    method RescheduleJob(id: int, attempts: int, next: int, accepted: bool) returns (ok: bool)
      modifies this`table
      ensures ok == accepted
      ensures ok ==> table.lastId == old(table).lastId && OthersKept(old(table), table, id)
      ensures ok && id in old(table).rows ==>
        && id in table.rows
        && table.rows[id] == old(table).rows[id].(attempts := attempts, nextAttemptAt := Millis(next))
      ensures ok && id !in old(table).rows ==> id !in table.rows
      ensures table == if ok then Rescheduled(old(table), id, attempts, Millis(next)) else old(table)
    {
      if accepted && id in table.rows {
        var row := table.rows[id].(attempts := attempts, nextAttemptAt := Millis(next));
        table := table.(rows := table.rows[id := row]);
      }
      return accepted;
    }

    /** A no-op when content logging is off. */
    method LogDelivery(r: Record, accepted: bool)
      modifies this`deliveries
      ensures deliveries == if logContent && accepted then old(deliveries) + multiset{r} else old(deliveries)
    {
      if !logContent {
        return;
      }
      if accepted {
        deliveries := deliveries + multiset{r};
      }
    }
  }
}
