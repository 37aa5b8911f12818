/**
 The table of observed traces that three pollers share: a conditional upsert that reports a row only
 when it was inserted or changed, and a retry budget for traces that are still incomplete.
 */
module TraceDedup {
  import opened Wrappers

  type TraceId = string

  const RETRIES: nat := 10
  const FETCH_LIMIT: nat := 100
  const NO_HEIGHT: int := -1

  /** The observed content of a trace: the columns an upsert compares. */
  datatype Version = Version(isIncomplete: bool, startLt: int, endLt: int, transactions: seq<string>)

  datatype Trace = Trace(traceId: TraceId, version: Version)

  /** `updatedAt` stays empty until a change is stored. */
  datatype Row = Row(version: Version, retries: int, updatedAt: Option<int>)

  type Rows = map<TraceId, Row>

  /** The time at each database call of a poll. */
  type Clock = nat -> int

  predicate Changes(rows: Rows, t: Trace) {
    t.traceId in rows ==> rows[t.traceId].version != t.version
  }

  /** A new row gets the default budget; a changed row keeps its own; an unchanged row is left alone. */
  function Written(rows: Rows, t: Trace, now: int): Rows {
    if t.traceId !in rows then rows[t.traceId := Row(t.version, RETRIES, None)]
    else if Changes(rows, t) then rows[t.traceId := Row(t.version, rows[t.traceId].retries, Some(now))]
    else rows
  }

  function Spent(rows: Rows, id: TraceId): Rows {
    if id in rows then rows[id := rows[id].(retries := rows[id].retries - 1)] else rows
  }

  predicate Retriable(rows: Rows, id: TraceId) {
    id in rows && rows[id].retries > 0 && rows[id].version.isIncomplete
  }

  /** A poller passes a trace on when the upsert reports a change and the trace is complete. */
  predicate Emits(rows: Rows, t: Trace) {
    Changes(rows, t) && !t.version.isIncomplete
  }

  function WrittenAll(rows: Rows, ts: seq<Trace>, clock: Clock): Rows {
    if ts == [] then rows else Written(WrittenAll(rows, ts[..|ts| - 1], clock), ts[|ts| - 1], clock(|ts| - 1))
  }

  /** The traces a poll of `ts` finds new and complete. */
  function Unseen(rows: Rows, ts: seq<Trace>, clock: Clock): seq<Trace> {
    if ts == [] then []
    else
      var t, before := ts[|ts| - 1], ts[..|ts| - 1];
      Unseen(rows, before, clock) + if Emits(WrittenAll(rows, before, clock), t) then [t] else []
  }

  /** What a retry poll leaves behind: budgets spent on incomplete traces, complete ones stored. */
  function Retried(rows: Rows, ts: seq<Trace>, clock: Clock): Rows {
    if ts == [] then rows
    else
      var t, before := ts[|ts| - 1], Retried(rows, ts[..|ts| - 1], clock);
      if t.version.isIncomplete then Spent(before, t.traceId) else Written(before, t, clock(|ts| - 1))
  }

  function UnseenOnRetry(rows: Rows, ts: seq<Trace>, clock: Clock): seq<Trace> {
    if ts == [] then []
    else
      var t, before := ts[|ts| - 1], ts[..|ts| - 1];
      UnseenOnRetry(rows, before, clock) + if Emits(Retried(rows, before, clock), t) then [t] else []
  }

  /** Row `a` may be fetched before row `b`: least recently updated first, never updated before all others. */
  predicate NotLater(rows: Rows, a: TraceId, b: TraceId) {
    && a in rows && b in rows
    && var x, y := rows[a].updatedAt, rows[b].updatedAt;
    x.None? || (y.Some? && x.value <= y.value)
  }

  lemma {:induction false} OldestExists(rows: Rows, ids: set<TraceId>) returns (oldest: TraceId)
    requires ids != {} && ids <= rows.Keys
    ensures oldest in ids && forall id | id in ids :: NotLater(rows, oldest, id)
    decreases |ids|
  {
    var one :| one in ids;
    oldest := one;
    if ids - {one} != {} {
      var rest := OldestExists(rows, ids - {one});
      oldest := if NotLater(rows, one, rest) then one else rest;
      assert forall id | id in ids :: id == one || id in ids - {one};
    } else {
      assert forall id | id in ids :: id == one || id in ids - {one};
    }
  }

  predicate IsMaxLt(m: int, ts: seq<Trace>) {
    (exists t :: t in ts && t.version.endLt == m) && forall t | t in ts :: t.version.endLt <= m
  }

  method MaxLt(traces: seq<Trace>) returns (m: int)
    requires traces != []
    ensures IsMaxLt(m, traces)
  {
    m := traces[0].version.endLt;
    for i := 1 to |traces|
      invariant IsMaxLt(m, traces[..i])
    {
      ghost var was := m;
      if traces[i].version.endLt > m {
        m := traces[i].version.endLt;
      }
      MaxSnoc(was, traces[..i], traces[i]);
      assert traces[..i + 1] == traces[..i] + [traces[i]];
    }
    assert traces[..|traces|] == traces;
  }

  lemma MaxSnoc(m: int, ts: seq<Trace>, t: Trace)
    requires IsMaxLt(m, ts)
    ensures IsMaxLt(if t.version.endLt > m then t.version.endLt else m, ts + [t])
  {
    var k :| k in ts && k.version.endLt == m;
    assert k in ts + [t] && t in ts + [t];
  }

  class TraceTable {
    var rows: Rows

    constructor ()
      ensures rows == map[]
    {
      rows := map[];
    }

    method UpsertAndReturnIfChanged(t: Trace, now: int) returns (r: Option<Row>)
      modifies this
      ensures rows == Written(old(rows), t, now)
      ensures r == if Changes(old(rows), t) then Some(rows[t.traceId]) else None
      ensures r.Some? <==> t.traceId !in old(rows) || old(rows)[t.traceId].version != t.version
      ensures rows == if r.Some? then old(rows)[t.traceId := r.value] else old(rows)
      ensures r.Some? ==> r.value == if t.traceId in old(rows) then Row(t.version, old(rows)[t.traceId].retries, Some(now))
                                     else Row(t.version, 10, None)
    {
      if t.traceId !in rows {
        rows := rows[t.traceId := Row(t.version, RETRIES, None)];
        return Some(rows[t.traceId]);
      }
      if rows[t.traceId].version == t.version {
        return None;
      }
      rows := rows[t.traceId := rows[t.traceId].(version := t.version, updatedAt := Some(now))];
      return Some(rows[t.traceId]);
    }

    method DecreaseRetry(id: TraceId)
      modifies this
      ensures rows == Spent(old(rows), id)
      ensures rows == if id in old(rows) then old(rows)[id := old(rows)[id].(retries := old(rows)[id].retries - 1)] else old(rows)
    {
      if id in rows {
        rows := rows[id := rows[id].(retries := rows[id].retries - 1)];
      }
    }

    /** Up to `limit` rows that are incomplete and have budget left, the least recently updated first. */
    method FetchRetry(limit: nat) returns (ids: seq<TraceId>)
      ensures |ids| <= limit
      ensures forall id | id in ids :: Retriable(rows, id)
      ensures forall i, j | 0 <= i < j < |ids| :: ids[i] != ids[j] && NotLater(rows, ids[i], ids[j])
      ensures forall id, other | id in ids && Retriable(rows, other) && other !in ids :: NotLater(rows, id, other)
      ensures |ids| < limit ==> forall id :: Retriable(rows, id) ==> id in ids
      ensures forall id | id in ids :: id in rows && rows[id].retries > 0 && rows[id].version.isIncomplete
      ensures |ids| < limit ==>
                forall id | id in rows && rows[id].retries > 0 && rows[id].version.isIncomplete :: id in ids
      ensures forall i, j | 0 <= i < j < |ids| :: rows[ids[j]].updatedAt.None? ==> rows[ids[i]].updatedAt.None?
      ensures forall i, j | 0 <= i < j < |ids| && rows[ids[i]].updatedAt.Some? && rows[ids[j]].updatedAt.Some? ::
                rows[ids[i]].updatedAt.value <= rows[ids[j]].updatedAt.value
    {
      ids := [];
      var left := set id | id in rows && Retriable(rows, id);
      while left != {} && |ids| < limit
        invariant |ids| <= limit
        invariant forall id | id in ids :: Retriable(rows, id) && id !in left
        invariant forall id | id in left :: Retriable(rows, id)
        invariant forall i, j | 0 <= i < j < |ids| :: ids[i] != ids[j] && NotLater(rows, ids[i], ids[j])
        invariant forall id, other | id in ids && other in left :: NotLater(rows, id, other)
        invariant forall id :: Retriable(rows, id) ==> id in ids || id in left
        decreases |left|
      {
        ghost var witnessed := OldestExists(rows, left);
        var id :| id in left && forall other | other in left :: NotLater(rows, id, other);
        ids, left := ids + [id], left - {id};
      }
    }
  }

  /** The outcome of the network call; `errorAt` is the database call of a poll that fails, if any. */
  datatype Response = Traces(traces: seq<Trace>) | ClientError

  function Handled(ts: seq<Trace>, errorAt: nat): seq<Trace> {
    if errorAt < |ts| then ts[..errorAt] else ts
  }

  class Subscriber {
    var latestLt: int
    const table: TraceTable

    constructor (table: TraceTable, stored: Option<int>)
      ensures this.table == table && latestLt == if stored.Some? then stored.value else NO_HEIGHT
    {
      this.table := table;
      latestLt := if stored.Some? then stored.value else NO_HEIGHT;
    }

    /** `dropped` are the traces that a failing poll found new and complete and hands to nobody. */
    method PollAccount(response: Response, clock: Clock, errorAt: nat)
      returns (r: Result<seq<Trace>, string>, ghost dropped: seq<Trace>)
      modifies this, table
      ensures response.ClientError? ==> r.Err? && table.rows == old(table.rows) && latestLt == old(latestLt) && dropped == []
      ensures response.Traces? ==>
                && table.rows == WrittenAll(old(table.rows), Handled(response.traces, errorAt), clock)
                && (r.Err? <==> errorAt < |response.traces|)
                && (if r.Ok? then r.value else dropped) == Unseen(old(table.rows), Handled(response.traces, errorAt), clock)
                && (r.Ok? ==> dropped == [])
                && (if response.traces == [] then latestLt == old(latestLt) else IsMaxLt(latestLt, response.traces))
    {
      if response.ClientError? {
        return Err("client error"), [];
      }
      var traces := response.traces;
      if traces != [] {
        latestLt := MaxLt(traces);
      }
      var unseen: seq<Trace> := [];
      for i := 0 to |traces|
        invariant i <= errorAt
        invariant table.rows == WrittenAll(old(table.rows), traces[..i], clock)
        invariant unseen == Unseen(old(table.rows), traces[..i], clock)
        invariant if traces == [] then latestLt == old(latestLt) else IsMaxLt(latestLt, traces)
      {
        if i == errorAt {
          return Err("database error"), unseen;
        }
        assert traces[..i + 1][..i] == traces[..i];
        var row := table.UpsertAndReturnIfChanged(traces[i], clock(i));
        if row.Some? && !traces[i].version.isIncomplete {
          unseen := unseen + [traces[i]];
        }
      }
      assert traces[..|traces|] == traces;
      return Ok(unseen), [];
    }
  }

  class RetrySubscriber {
    const table: TraceTable

    constructor (table: TraceTable)
      ensures this.table == table
    {
      this.table := table;
    }

    /** `answers` stands for the network: the traces returned for the ids fetched. */
    method PollAccount(answers: seq<TraceId> -> Response, clock: Clock, errorAt: nat)
      returns (r: Result<seq<Trace>, string>, ids: seq<TraceId>, ghost dropped: seq<Trace>)
      modifies table
      ensures |ids| <= 100 && forall id | id in ids :: Retriable(old(table.rows), id)
      ensures |ids| < 100 ==> forall id :: Retriable(old(table.rows), id) ==> id in ids
      ensures ids == [] ==> r == Ok([]) && table.rows == old(table.rows)
      ensures ids != [] && answers(ids).ClientError? ==> r.Err? && table.rows == old(table.rows)
      ensures ids != [] && answers(ids).Traces? ==>
                && table.rows == Retried(old(table.rows), Handled(answers(ids).traces, errorAt), clock)
                && (r.Err? <==> errorAt < |answers(ids).traces|)
                && (if r.Ok? then r.value else dropped) == UnseenOnRetry(old(table.rows), Handled(answers(ids).traces, errorAt), clock)
                && (r.Ok? ==> dropped == [])
    {
      ids := table.FetchRetry(FETCH_LIMIT);
      if ids == [] {
        return Ok([]), ids, [];
      }
      var response := answers(ids);
      if response.ClientError? {
        return Err("client error"), ids, [];
      }
      var traces := response.traces;
      var unseen: seq<Trace> := [];
      for i := 0 to |traces|
        invariant i <= errorAt
        invariant table.rows == Retried(old(table.rows), traces[..i], clock)
        invariant unseen == UnseenOnRetry(old(table.rows), traces[..i], clock)
      {
        if i == errorAt {
          return Err("database error"), ids, unseen;
        }
        assert traces[..i + 1][..i] == traces[..i];
        if traces[i].version.isIncomplete {
          table.DecreaseRetry(traces[i].traceId);
        } else {
          var row := table.UpsertAndReturnIfChanged(traces[i], clock(i));
          if row.Some? {
            unseen := unseen + [traces[i]];
          }
        }
      }
      assert traces[..|traces|] == traces;
      return Ok(unseen), ids, [];
    }
  }
}
