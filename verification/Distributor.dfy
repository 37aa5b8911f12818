/** The task distributor: a cursor into the task log, and a loop that routes each task to one of two queues. */
module Distributor {
  import opened Wrappers

  type TaskId = string

  datatype TaskKind = Verify | Execute | GatewayTx | ConstructProof | ReactToWasmEvent | Refund
    | ReactToExpiredSigningSession | ReactToRetriablePoll | Unknown

  datatype Task = Task(id: TaskId, kind: TaskKind)

  datatype Config = Config(refundsEnabled: bool, includerTasks: seq<TaskKind>, ingestorTasks: seq<TaskKind>)

  function DefaultConfig(refundsEnabled: bool): Config {
    Config(refundsEnabled, [Refund, GatewayTx],
           [Verify, ConstructProof, ReactToWasmEvent, ReactToRetriablePoll, ReactToExpiredSigningSession])
  }

  type Filter = Option<seq<TaskKind>>

  datatype Destination = Includer | Ingestor | Nowhere

  /** Where a task belongs. */
  function Route(c: Config, filter: Filter, t: Task): Destination {
    if filter.Some? && t.kind !in filter.value then Nowhere
    else if t.kind == Refund && !c.refundsEnabled then Nowhere
    else if t.kind in c.includerTasks then Includer
    else if t.kind in c.ingestorTasks then Ingestor
    else Nowhere
  }

  /** The relayer's own configuration, without a filter: two kinds for the includer, five for the ingestor, two dropped. */
  lemma DefaultRoutes(refundsEnabled: bool, t: Task)
    ensures var to := Route(DefaultConfig(refundsEnabled), None, t);
            && (to == Includer <==> t.kind == GatewayTx || (t.kind == Refund && refundsEnabled))
            && (to == Ingestor <==>
                t.kind in {Verify, ConstructProof, ReactToWasmEvent, ReactToRetriablePoll, ReactToExpiredSigningSession})
            && (to == Nowhere <==> t.kind == Execute || t.kind == Unknown || (t.kind == Refund && !refundsEnabled))
  {
  }

  /** A filter only takes tasks away, those whose kind it does not name. */
  lemma FilterOnlyDrops(c: Config, kinds: seq<TaskKind>, t: Task)
    ensures Route(c, Some(kinds), t) == if t.kind in kinds then Route(c, None, t) else Nowhere
  {
  }

  /** The tasks that belong to one destination, in order. */
  function Routed(c: Config, filter: Filter, ts: seq<Task>, to: Destination): seq<Task> {
    if ts == [] then []
    else
      var before, t := Routed(c, filter, ts[..|ts| - 1], to), ts[|ts| - 1];
      if Route(c, filter, t) == to then before + [t] else before
  }

  function Ids(ts: seq<Task>): (ids: seq<TaskId>)
    ensures |ids| == |ts| && forall i | 0 <= i < |ts| :: ids[i] == ts[i].id
  {
    seq(|ts|, i requires 0 <= i < |ts| => ts[i].id)
  }

  // ----- The task log -----

  predicate DistinctIds(log: seq<Task>) {
    forall i, j | 0 <= i < j < |log| :: log[i].id != log[j].id
  }

  /** The cursor after the first `pos` tasks. */
  predicate At(log: seq<Task>, pos: nat, cursor: Option<TaskId>) {
    pos <= |log| && cursor == if pos == 0 then None else Some(log[pos - 1].id)
  }

  /** A cursor that is at most `pos` tasks into the log: resuming there skips nothing. */
  ghost predicate NotBeyond(log: seq<Task>, pos: nat, cursor: Option<TaskId>) {
    exists q: nat :: q <= pos && At(log, q, cursor)
  }

  /** The stored cursor after the tasks from `pos` to `next`: left as it was, or that of one of them. */
  ghost predicate StoredSince(log: seq<Task>, pos: nat, next: nat, was: Option<TaskId>, now: Option<TaskId>) {
    now == was || exists q: nat :: pos < q <= next && At(log, q, now)
  }

  lemma StoredSinceIsNotBeyond(log: seq<Task>, pos: nat, next: nat, was: Option<TaskId>, now: Option<TaskId>)
    requires pos <= next && NotBeyond(log, pos, was) && StoredSince(log, pos, next, was, now)
    ensures NotBeyond(log, next, now)
  {
    if now == was {
      var q: nat :| q <= pos && At(log, q, was);
      assert q <= next && At(log, q, now);
    } else {
      var q: nat :| pos < q <= next && At(log, q, now);
    }
  }

  /** What the API has to offer after a cursor; nothing for a cursor it does not know. */
  function Tail(log: seq<Task>, cursor: Option<TaskId>): seq<Task> {
    if cursor.None? then log
    else if log == [] then []
    else if log[0].id == cursor.value then log[1..]
    else Tail(log[1..], cursor)
  }

  lemma {:induction false} TailStartsAtCursor(log: seq<Task>, pos: nat, cursor: Option<TaskId>)
    requires DistinctIds(log) && At(log, pos, cursor)
    ensures Tail(log, cursor) == log[pos..]
  {
    if pos == 1 {
    } else if pos > 1 {
      assert log[0].id != log[pos - 1].id;
      TailStartsAtCursor(log[1..], pos - 1, cursor);
    }
  }

  /** One request: it fails, or yields up to `count` tasks after the cursor. */
  datatype Fetch = Yields(count: nat) | Fails

  function Batch(log: seq<Task>, cursor: Option<TaskId>, count: nat): seq<Task> {
    var tail := Tail(log, cursor);
    if count < |tail| then tail[..count] else tail
  }

  lemma BatchIsNextSlice(log: seq<Task>, pos: nat, cursor: Option<TaskId>, count: nat)
    requires DistinctIds(log) && At(log, pos, cursor)
    ensures Batch(log, cursor, count) == log[pos..Advance(log, pos, Yields(count))]
  {
    TailStartsAtCursor(log, pos, cursor);
  }

  lemma RoutedSnoc(c: Config, filter: Filter, ts: seq<Task>, t: Task)
    ensures forall to :: Routed(c, filter, ts + [t], to)
                         == if Route(c, filter, t) == to then Routed(c, filter, ts, to) + [t] else Routed(c, filter, ts, to)
  {
    assert (ts + [t])[..|ts|] == ts;
  }

  lemma {:induction false} RoutedJoin(c: Config, filter: Filter, a: seq<Task>, b: seq<Task>, to: Destination)
    ensures Routed(c, filter, a + b, to) == Routed(c, filter, a, to) + Routed(c, filter, b, to)
    decreases |b|
  {
    if b == [] {
      assert a + b == a;
    } else {
      assert (a + b)[..|a + b| - 1] == a + b[..|b| - 1];
      RoutedJoin(c, filter, a, b[..|b| - 1], to);
    }
  }

  /** How one round is answered, and which of its cursor writes succeed. */
  datatype RoundPlan = RoundPlan(fetch: Fetch, stores: nat -> bool)

  function Advance(log: seq<Task>, pos: nat, fetch: Fetch): (next: nat)
    requires pos <= |log|
    ensures pos <= next <= |log|
  {
    if fetch.Yields? && fetch.count < |log| - pos then pos + fetch.count
    else if fetch.Yields? then |log| else pos
  }

  function Reached(log: seq<Task>, pos: nat, rounds: seq<RoundPlan>): (next: nat)
    requires pos <= |log|
    ensures pos <= next <= |log|
  {
    if rounds == [] then pos
    else Advance(log, Reached(log, pos, rounds[..|rounds| - 1]), rounds[|rounds| - 1].fetch)
  }

  lemma ReachedMore(log: seq<Task>, pos: nat, rounds: seq<RoundPlan>, i: nat)
    requires pos <= |log| && i < |rounds|
    ensures Reached(log, pos, rounds[..i + 1]) == Advance(log, Reached(log, pos, rounds[..i]), rounds[i].fetch)
  {
    assert rounds[..i + 1][..i] == rounds[..i];
  }

  /** What the loop does with a task, one after the other: record it, write the cursor, publish or drop it. */
  datatype Step = Record | Write(ok: bool) | Publish

  function StepsOf(n: nat, stores: nat -> bool): seq<Step> {
    if n == 0 then [] else StepsOf(n - 1, stores) + [Record] + [Write(stores(n - 1))] + [Publish]
  }

  lemma StepsJoin(history: seq<Step>, n: nat, stores: nat -> bool)
    ensures history + StepsOf(n, stores) + [Record] + [Write(stores(n))] + [Publish] == history + StepsOf(n + 1, stores)
  {
  }

  datatype RecoverySettings = RecoverySettings(fromTaskId: Option<TaskId>, toTaskId: TaskId, tasksFilter: Filter)

  class Distributor {
    const config: Config
    var recovery: Option<RecoverySettings>
    var lastTaskId: Option<TaskId>
    var storedTaskId: Option<TaskId>
    var includer: seq<Task>
    var ingestor: seq<Task>
    ghost var history: seq<Step>

    constructor (stored: Option<TaskId>, refundsEnabled: bool)
      ensures lastTaskId == storedTaskId == stored && includer == ingestor == [] && recovery == None
      ensures config == DefaultConfig(refundsEnabled)
    {
      config := DefaultConfig(refundsEnabled);
      lastTaskId, storedTaskId := stored, stored;
      includer, ingestor, recovery, history := [], [], None, [];
    }

    /** Recovery starts at `fromTaskId`, which is stored first; without one the database keeps its cursor. */
    static method NewWithRecoverySettings(stored: Option<TaskId>, settings: RecoverySettings, refundsEnabled: bool, storeOk: bool)
      returns (r: Result<Distributor, string>)
      ensures r.Ok? <==> settings.fromTaskId.None? || storeOk
      ensures r.Ok? ==>
                && fresh(r.value) && r.value.config == DefaultConfig(refundsEnabled) && r.value.recovery == Some(settings)
                && r.value.lastTaskId == settings.fromTaskId && r.value.includer == r.value.ingestor == []
                && r.value.storedTaskId == if settings.fromTaskId.Some? then settings.fromTaskId else stored
    {
      var d := new Distributor(stored, refundsEnabled);
      d.recovery, d.lastTaskId := Some(settings), settings.fromTaskId;
      var written := d.StoreLastTaskId(storeOk);
      return if written.Ok? then Ok(d) else Err(written.error);
    }

    method StoreLastTaskId(ok: bool) returns (r: Result<(), string>)
      modifies this`storedTaskId, this`history
      ensures r.Ok? <==> lastTaskId.None? || ok
      ensures storedTaskId == if lastTaskId.Some? && ok then lastTaskId else old(storedTaskId)
      ensures history == old(history) + [Write(ok)]
    {
      history := history + [Write(ok)];
      if lastTaskId.Some? {
        if !ok {
          return Err("Failed to store last_task_id");
        }
        storedTaskId := lastTaskId;
      }
      return Ok(());
    }

    /** Skip the task, or publish it to the queue of the first list that supports its kind. */
    method Dispatch(task: Task, filter: Filter)
      modifies this`includer, this`ingestor, this`history
      ensures includer == if Route(config, filter, task) == Includer then old(includer) + [task] else old(includer)
      ensures ingestor == if Route(config, filter, task) == Ingestor then old(ingestor) + [task] else old(ingestor)
      ensures var passes := (filter.Some? ==> task.kind in filter.value) && (task.kind == Refund ==> config.refundsEnabled);
              && includer == (if passes && task.kind in config.includerTasks then old(includer) + [task] else old(includer))
              && ingestor == (if passes && task.kind in config.ingestorTasks && task.kind !in config.includerTasks
                              then old(ingestor) + [task] else old(ingestor))
      ensures history == old(history) + [Publish]
    {
      history := history + [Publish];
      if filter.Some? && task.kind !in filter.value {
        return;
      }
      if task.kind == Refund && !config.refundsEnabled {
        return;
      }
      if task.kind in config.includerTasks {
        includer := includer + [task];
      } else if task.kind in config.ingestorTasks {
        ingestor := ingestor + [task];
      }
    }

    /** One task: recorded as the last one, its cursor written, and only then published. */
    method HandleTask(task: Task, storeOk: bool, filter: Filter)
      modifies this`lastTaskId, this`storedTaskId, this`includer, this`ingestor, this`history
      ensures lastTaskId == Some(task.id) && storedTaskId == if storeOk then Some(task.id) else old(storedTaskId)
      ensures includer == if Route(config, filter, task) == Includer then old(includer) + [task] else old(includer)
      ensures ingestor == if Route(config, filter, task) == Ingestor then old(ingestor) + [task] else old(ingestor)
      ensures history == old(history) + [Record] + [Write(storeOk)] + [Publish]
    {
      lastTaskId, history := Some(task.id), history + [Record];
      var _ := StoreLastTaskId(storeOk);
      Dispatch(task, filter);
    }

    /** One round over the tasks fetched; `stores` says which cursor writes succeed. */
    method Work(tasks: Option<seq<Task>>, stores: nat -> bool, filter: Filter) returns (r: Result<seq<TaskId>, string>)
      modifies this`lastTaskId, this`storedTaskId, this`includer, this`ingestor, this`history
      ensures r.Ok? <==> tasks.Some?
      ensures tasks.None? ==> lastTaskId == old(lastTaskId) && storedTaskId == old(storedTaskId)
                              && includer == old(includer) && ingestor == old(ingestor)
      ensures history == old(history) + if tasks.Some? then StepsOf(|tasks.value|, stores) else []
      ensures tasks.Some? ==>
                && r.value == Ids(tasks.value)
                && Published(config, filter, tasks.value, old(includer), old(ingestor), includer, ingestor)
                && lastTaskId == (if tasks.value == [] then old(lastTaskId) else Some(tasks.value[|tasks.value| - 1].id))
                && storedTaskId == LastStored(old(storedTaskId), tasks.value, stores)
    {
      if tasks.None? {
        return Err("Failed to get tasks");
      }
      var ts := tasks.value;
      var processed: seq<TaskId> := [];
      for i := 0 to |ts|
        invariant processed == Ids(ts)[..i]
        invariant history == old(history) + StepsOf(i, stores)
        invariant Published(config, filter, ts[..i], old(includer), old(ingestor), includer, ingestor)
        invariant lastTaskId == if i == 0 then old(lastTaskId) else Some(ts[i - 1].id)
        invariant storedTaskId == LastStored(old(storedTaskId), ts[..i], stores)
      {
        processed := processed + [ts[i].id];
        LastStoredSnoc(old(storedTaskId), ts, i, stores);
        PublishedOneMore(config, filter, ts, i, old(includer), old(ingestor), includer, ingestor);
        HandleTask(ts[i], stores(i), filter);
        StepsJoin(old(history), i, stores);
      }
      assert ts[..|ts|] == ts;
      return Ok(processed);
    }

    /** A round against the log: the API answers with the tasks after the cursor, or fails. */
    method Round(log: seq<Task>, fetch: Fetch, stores: nat -> bool, filter: Filter, ghost pos: nat)
      returns (r: Result<seq<TaskId>, string>, ghost next: nat)
      requires DistinctIds(log) && At(log, pos, lastTaskId)
      modifies this`lastTaskId, this`storedTaskId, this`includer, this`ingestor, this`history
      ensures r.Ok? <==> fetch.Yields?
      ensures pos <= next <= |log| && At(log, next, lastTaskId)
      ensures next == Advance(log, pos, fetch)
      ensures r.Ok? ==> r.value == Ids(log[pos..next])
      ensures Published(config, filter, log[pos..next], old(includer), old(ingestor), includer, ingestor)
      ensures StoredSince(log, pos, next, old(storedTaskId), storedTaskId)
    {
      next := pos;
      if fetch.Fails? {
        r := Work(None, stores, filter);
        return;
      }
      next := Advance(log, pos, fetch);
      BatchIsNextSlice(log, pos, lastTaskId, fetch.count);
      CursorMoves(log, pos, next, storedTaskId, stores);
      var ts := Batch(log, lastTaskId, fetch.count);
      r := Work(Some(ts), stores, filter);
    }

    /** A round that continues what was published and stored since `from`. */
    method NextRound(log: seq<Task>, round: RoundPlan, filter: Filter, ghost from: nat, ghost pos: nat,
                     ghost inc: seq<Task>, ghost ing: seq<Task>, ghost stored: Option<TaskId>)
      returns (r: Result<seq<TaskId>, string>, ghost next: nat)
      requires DistinctIds(log) && from <= pos && At(log, pos, lastTaskId)
      requires StoredSince(log, from, pos, stored, storedTaskId)
      requires Published(config, filter, log[from..pos], inc, ing, includer, ingestor)
      modifies this`lastTaskId, this`storedTaskId, this`includer, this`ingestor, this`history
      ensures r.Ok? <==> round.fetch.Yields?
      ensures next == Advance(log, pos, round.fetch) && At(log, next, lastTaskId)
      ensures StoredSince(log, from, next, stored, storedTaskId)
      ensures r.Ok? ==> r.value == Ids(log[pos..next])
      ensures Published(config, filter, log[from..next], inc, ing, includer, ingestor)
    {
      ghost var inc', ing', stored' := includer, ingestor, storedTaskId;
      r, next := Round(log, round.fetch, round.stores, filter, pos);
      SegmentsJoin(log, from, pos, next);
      PublishedThen(config, filter, log[from..pos], log[pos..next], inc, ing, inc', ing', includer, ingestor);
      StoredThen(log, from, pos, next, stored, stored', storedTaskId);
    }

    /** Any number of rounds: the queues hold the routed projections of the log segment passed over. */
    method Run(log: seq<Task>, rounds: seq<RoundPlan>, ghost pos: nat) returns (ghost next: nat)
      requires DistinctIds(log) && At(log, pos, lastTaskId)
      modifies this`lastTaskId, this`storedTaskId, this`includer, this`ingestor, this`history
      ensures next == Reached(log, pos, rounds) && At(log, next, lastTaskId)
      ensures StoredSince(log, pos, next, old(storedTaskId), storedTaskId)
      ensures Published(config, None, log[pos..next], old(includer), old(ingestor), includer, ingestor)
    {
      next := pos;
      for i := 0 to |rounds|
        invariant next == Reached(log, pos, rounds[..i]) && At(log, next, lastTaskId)
        invariant StoredSince(log, pos, next, old(storedTaskId), storedTaskId)
        invariant Published(config, None, log[pos..next], old(includer), old(ingestor), includer, ingestor)
      {
        ReachedMore(log, pos, rounds, i);
        var r;
        r, next := NextRound(log, rounds[i], None, pos, next, old(includer), old(ingestor), old(storedTaskId));
      }
      assert rounds[..|rounds|] == rounds;
    }

    /** Without settings nothing happens. */
    method RunRecovery(log: seq<Task>, rounds: seq<RoundPlan>, ghost pos: nat)
      returns (recovered: bool, used: nat, ghost next: nat)
      requires DistinctIds(log) && At(log, pos, lastTaskId)
      modifies this`lastTaskId, this`storedTaskId, this`includer, this`ingestor, this`history
      ensures used <= |rounds| && next == Reached(log, pos, rounds[..used]) && At(log, next, lastTaskId)
      ensures StoredSince(log, pos, next, old(storedTaskId), storedTaskId)
      ensures recovery.None? ==> !recovered && used == 0 && includer == old(includer) && ingestor == old(ingestor)
      ensures recovery.Some? ==>
                && Published(config, recovery.value.tasksFilter, log[pos..next], old(includer), old(ingestor), includer, ingestor)
                && (recovered || used == |rounds|)
                && Recovered(log, pos, rounds, used, recovery.value.toTaskId, recovered)
    {
      if recovery.None? {
        return false, 0, pos;
      }
      recovered, used, next := Recover(log, rounds, recovery.value, pos);
    }

    /** Recovery stops after the first round whose batch contains the target. */
    method Recover(log: seq<Task>, rounds: seq<RoundPlan>, settings: RecoverySettings, ghost pos: nat)
      returns (recovered: bool, used: nat, ghost next: nat)
      requires DistinctIds(log) && At(log, pos, lastTaskId)
      modifies this`lastTaskId, this`storedTaskId, this`includer, this`ingestor, this`history
      ensures used <= |rounds| && next == Reached(log, pos, rounds[..used]) && At(log, next, lastTaskId)
      ensures StoredSince(log, pos, next, old(storedTaskId), storedTaskId)
      ensures Published(config, settings.tasksFilter, log[pos..next], old(includer), old(ingestor), includer, ingestor)
      ensures recovered || used == |rounds|
      ensures Recovered(log, pos, rounds, used, settings.toTaskId, recovered)
    {
      next, used, recovered := pos, 0, false;
      while used < |rounds| && !recovered
        invariant used <= |rounds| && next == Reached(log, pos, rounds[..used]) && At(log, next, lastTaskId)
        invariant StoredSince(log, pos, next, old(storedTaskId), storedTaskId)
        invariant Published(config, settings.tasksFilter, log[pos..next], old(includer), old(ingestor), includer, ingestor)
        invariant Recovered(log, pos, rounds, used, settings.toTaskId, recovered)
        decreases |rounds| - used, !recovered
      {
        ghost var mid := next;
        ReachedMore(log, pos, rounds, used);
        var r;
        r, next := NextRound(log, rounds[used], settings.tasksFilter, pos, mid, old(includer), old(ingestor), old(storedTaskId));
        TargetInLastBatch(log, pos, mid, rounds[used].fetch, settings.toTaskId);
        recovered := r.Ok? && settings.toTaskId in r.value;
        used := used + 1;
      }
    }
  }

  /** The tasks `ts` were passed on: both queues grew by their share of them. */
  ghost predicate Published(c: Config, filter: Filter, ts: seq<Task>, inc: seq<Task>, ing: seq<Task>,
                            inc': seq<Task>, ing': seq<Task>) {
    inc' == inc + Routed(c, filter, ts, Includer) && ing' == ing + Routed(c, filter, ts, Ingestor)
  }

  lemma PublishedOneMore(c: Config, filter: Filter, ts: seq<Task>, i: nat, inc: seq<Task>, ing: seq<Task>,
                         inc': seq<Task>, ing': seq<Task>)
    requires i < |ts| && Published(c, filter, ts[..i], inc, ing, inc', ing')
    ensures Published(c, filter, ts[..i + 1], inc, ing,
                      if Route(c, filter, ts[i]) == Includer then inc' + [ts[i]] else inc',
                      if Route(c, filter, ts[i]) == Ingestor then ing' + [ts[i]] else ing')
  {
    assert ts[..i + 1] == ts[..i] + [ts[i]];
    RoutedSnoc(c, filter, ts[..i], ts[i]);
  }

  lemma PublishedThen(c: Config, filter: Filter, a: seq<Task>, b: seq<Task>, inc: seq<Task>, ing: seq<Task>,
                      inc': seq<Task>, ing': seq<Task>, inc'': seq<Task>, ing'': seq<Task>)
    requires Published(c, filter, a, inc, ing, inc', ing') && Published(c, filter, b, inc', ing', inc'', ing'')
    ensures Published(c, filter, a + b, inc, ing, inc'', ing'')
  {
    RoutedJoin(c, filter, a, b, Includer);
    RoutedJoin(c, filter, a, b, Ingestor);
  }

  lemma SegmentsJoin(log: seq<Task>, a: nat, b: nat, d: nat)
    requires a <= b <= d <= |log|
    ensures log[a..d] == log[a..b] + log[b..d]
  {
  }

  /** After `used` rounds: the target was passed exactly if recovered, and then by the last round. */
  predicate Recovered(log: seq<Task>, pos: nat, rounds: seq<RoundPlan>, used: nat, id: TaskId, recovered: bool)
    requires pos <= |log| && used <= |rounds|
  {
    && (recovered <==> id in Ids(log[pos..Reached(log, pos, rounds[..used])]))
    && (recovered ==> used > 0 && id !in Ids(log[pos..Reached(log, pos, rounds[..used - 1])]))
  }

  lemma TargetInLastBatch(log: seq<Task>, from: nat, pos: nat, fetch: Fetch, id: TaskId)
    requires from <= pos <= |log| && id !in Ids(log[from..pos])
    ensures var next := Advance(log, pos, fetch);
            id in Ids(log[from..next]) <==> fetch.Yields? && id in Ids(log[pos..next])
  {
    JoinedIds(log, from, pos, Advance(log, pos, fetch), id);
  }

  lemma JoinedIds(log: seq<Task>, a: nat, b: nat, d: nat, id: TaskId)
    requires a <= b <= d <= |log|
    ensures id in Ids(log[a..d]) <==> id in Ids(log[a..b]) || id in Ids(log[b..d])
  {
    IdsOfSegment(log, a, b, id);
    IdsOfSegment(log, b, d, id);
    IdsOfSegment(log, a, d, id);
  }

  lemma IdsOfSegment(log: seq<Task>, a: nat, b: nat, id: TaskId)
    requires a <= b <= |log|
    ensures id in Ids(log[a..b]) <==> exists k: nat :: a <= k < b && log[k].id == id
  {
    if id in Ids(log[a..b]) {
      var i :| 0 <= i < b - a && Ids(log[a..b])[i] == id;
      assert log[a + i].id == id;
    }
    if k: nat :| a <= k < b && log[k].id == id {
      assert Ids(log[a..b])[k - a] == id;
    }
  }

  /** The cursor of the last task whose write succeeded. */
  function LastStored(was: Option<TaskId>, ts: seq<Task>, stores: nat -> bool): Option<TaskId> {
    if ts == [] then was
    else if stores(|ts| - 1) then Some(ts[|ts| - 1].id)
    else LastStored(was, ts[..|ts| - 1], stores)
  }

  lemma LastStoredSnoc(was: Option<TaskId>, ts: seq<Task>, i: nat, stores: nat -> bool)
    requires i < |ts|
    ensures LastStored(was, ts[..i + 1], stores) == if stores(i) then Some(ts[i].id) else LastStored(was, ts[..i], stores)
  {
    assert ts[..i + 1][..i] == ts[..i];
  }

  lemma {:induction false} CursorMoves(log: seq<Task>, pos: nat, next: nat, was: Option<TaskId>, stores: nat -> bool)
    requires pos <= next <= |log|
    ensures StoredSince(log, pos, next, was, LastStored(was, log[pos..next], stores))
    decreases next
  {
    if pos < next {
      if stores(next - pos - 1) {
        assert At(log, next, Some(log[next - 1].id));
      } else {
        assert log[pos..next][..next - pos - 1] == log[pos..next - 1];
        CursorMoves(log, pos, next - 1, was, stores);
      }
    }
  }

  lemma StoredThen(log: seq<Task>, a: nat, b: nat, d: nat, was: Option<TaskId>, mid: Option<TaskId>, now: Option<TaskId>)
    requires a <= b <= d && StoredSince(log, a, b, was, mid) && StoredSince(log, b, d, mid, now)
    ensures StoredSince(log, a, d, was, now)
  {
    if now != mid {
      var q: nat :| b < q <= d && At(log, q, now);
      assert a < q;
    } else if mid != was {
      var q: nat :| a < q <= b && At(log, q, mid);
      assert At(log, q, now) && q <= d;
    }
  }

  // ----- How far a recovery goes -----

  lemma {:induction false} ReachedGrows(log: seq<Task>, pos: nat, rounds: seq<RoundPlan>, u: nat, v: nat)
    requires pos <= |log| && u <= v <= |rounds|
    ensures Reached(log, pos, rounds[..u]) <= Reached(log, pos, rounds[..v])
    decreases v
  {
    if u < v {
      ReachedMore(log, pos, rounds, v - 1);
      ReachedGrows(log, pos, rounds, u, v - 1);
    }
  }

  /** A recovered run went to the end of the first batch that ends beyond the target. */
  lemma RecoveryEnds(log: seq<Task>, pos: nat, rounds: seq<RoundPlan>, used: nat, k: nat)
    requires DistinctIds(log) && pos <= k < |log| && used <= |rounds|
    requires Recovered(log, pos, rounds, used, log[k].id, true)
    ensures Reached(log, pos, rounds[..used - 1]) <= k < Reached(log, pos, rounds[..used])
  {
    IdsOfSegment(log, pos, Reached(log, pos, rounds[..used]), log[k].id);
    IdsOfSegment(log, pos, Reached(log, pos, rounds[..used - 1]), log[k].id);
  }

  /** A recovered run passes over no task beyond the target exactly when some batch ends at the target. */
  lemma RecoveryIsExactIffBatchEndsAtTarget(log: seq<Task>, pos: nat, rounds: seq<RoundPlan>, used: nat, k: nat)
    requires DistinctIds(log) && pos <= k < |log| && used <= |rounds|
    requires Recovered(log, pos, rounds, used, log[k].id, true)
    ensures Reached(log, pos, rounds[..used]) == k + 1
            <==> exists u: nat :: u <= |rounds| && Reached(log, pos, rounds[..u]) == k + 1
  {
    RecoveryEnds(log, pos, rounds, used, k);
    if u: nat :| u <= |rounds| && Reached(log, pos, rounds[..u]) == k + 1 {
      if u < used {
        ReachedGrows(log, pos, rounds, u, used - 1);
      } else {
        ReachedGrows(log, pos, rounds, used, u);
      }
    }
  }

  /** One large batch passes over every task beyond the target. */
  lemma RecoveryCanOvershoot(log: seq<Task>, pos: nat, k: nat, stores: nat -> bool) returns (rounds: seq<RoundPlan>)
    requires DistinctIds(log) && pos <= k < |log|
    ensures |rounds| == 1 && Recovered(log, pos, rounds, 1, log[k].id, true)
    ensures Reached(log, pos, rounds[..1]) == |log|
  {
    rounds := [RoundPlan(Yields(|log|), stores)];
    assert rounds[..0] == [] && rounds[..1] == rounds;
    ReachedMore(log, pos, rounds, 0);
    IdsOfSegment(log, pos, |log|, log[k].id);
  }

  // ----- What the projections are -----

  /** Every occurrence of a task goes to exactly one destination. */
  lemma {:induction false} RoutedIsAPartition(c: Config, filter: Filter, ts: seq<Task>)
    ensures multiset(Routed(c, filter, ts, Includer)) + multiset(Routed(c, filter, ts, Ingestor))
            + multiset(Routed(c, filter, ts, Nowhere)) == multiset(ts)
  {
    if ts != [] {
      var before, t := ts[..|ts| - 1], ts[|ts| - 1];
      RoutedIsAPartition(c, filter, before);
      assert ts == before + [t];
      match Route(c, filter, t)
      case Includer =>
      case Ingestor =>
      case Nowhere =>
    }
  }

  lemma {:induction false} RoutedBelongs(c: Config, filter: Filter, ts: seq<Task>, to: Destination)
    ensures forall t | t in Routed(c, filter, ts, to) :: Route(c, filter, t) == to
  {
    if ts != [] {
      RoutedBelongs(c, filter, ts[..|ts| - 1], to);
    }
  }

  predicate InOrder(ts: seq<Task>, r: seq<Task>, at: seq<nat>) {
    && |at| == |r|
    && (forall i | 0 <= i < |at| :: at[i] < |ts| && ts[at[i]] == r[i])
    && forall i, j | 0 <= i < j < |at| :: at[i] < at[j]
  }

  /** Published tasks keep the order of the log. */
  lemma {:induction false} RoutedKeepsOrder(c: Config, filter: Filter, ts: seq<Task>, to: Destination) returns (at: seq<nat>)
    ensures InOrder(ts, Routed(c, filter, ts, to), at)
  {
    at := [];
    if ts != [] {
      at := RoutedKeepsOrder(c, filter, ts[..|ts| - 1], to);
      if Route(c, filter, ts[|ts| - 1]) == to {
        at := at + [|ts| - 1];
      }
    }
  }

  /** With distinct ids each task of the segment is published exactly once, to its queue alone, or to none. */
  lemma PublishedExactlyOnce(c: Config, filter: Filter, log: seq<Task>, a: nat, b: nat, k: nat)
    requires DistinctIds(log) && a <= k < b <= |log|
    ensures var t, inc, ing := log[k], Routed(c, filter, log[a..b], Includer), Routed(c, filter, log[a..b], Ingestor);
            && multiset(inc)[t] == (if Route(c, filter, t) == Includer then 1 else 0)
            && multiset(ing)[t] == (if Route(c, filter, t) == Ingestor then 1 else 0)
  {
    var t, ts := log[k], log[a..b];
    RoutedIsAPartition(c, filter, ts);
    OccursOnce(log, a, b, k);
    RoutedBelongs(c, filter, ts, Includer);
    RoutedBelongs(c, filter, ts, Ingestor);
    RoutedBelongs(c, filter, ts, Nowhere);
  }

  lemma OccursOnce(log: seq<Task>, a: nat, b: nat, k: nat)
    requires DistinctIds(log) && a <= k < b <= |log|
    ensures multiset(log[a..b])[log[k]] == 1
  {
    var before, after := log[a..k], log[k + 1..b];
    assert log[a..b] == before + [log[k]] + after;
    assert log[k] !in before && log[k] !in after;
  }
}
