/**
 The XRPL queued-transaction monitor: rows with a status, a retry count and the time of the last
 check, polled with exponential backoff up to a retry cap. Times are microseconds on one clock.
 */
module QueuedTxMonitor {
  import opened Wrappers
  import opened Powers

  type Hash = string

  const SECOND: int := 1_000_000
  const MAX_RETRIES: nat := 20

  datatype Status = Queued | Confirmed | Dropped | Expired

  datatype Row = Row(account: string, sequence: int, status: Status, retries: nat, lastChecked: Option<int>)

  type Rows = map<Hash, Row>

  /** What the ledger node answers for a transaction. */
  datatype Reply = Found(validated: Option<bool>) | ApiError(code: string) | OtherError

  datatype TxStatus = TxConfirmed | TxQueued | TxDropped

  function CheckTransactionStatus(reply: Reply): (r: Result<TxStatus, string>)
    ensures r == Ok(TxConfirmed) <==> reply == Found(Some(true))
    ensures r == Ok(TxDropped) <==> reply == ApiError("txnNotFound")
    ensures r.Err? <==> reply == OtherError || (reply.ApiError? && reply.code != "txnNotFound")
  {
    match reply
    case Found(validated) => if validated == Some(true) then Ok(TxConfirmed) else Ok(TxQueued)
    case ApiError(code) => if code == "txnNotFound" then Ok(TxDropped) else Err("client error")
    case OtherError => Err("client error")
  }

  /** Ten seconds, doubled for every retry. */
  function Backoff(retries: nat): int {
    SECOND * Pow2(retries) * 10
  }

  predicate Ready(row: Row, now: int) {
    row.status == Queued && (row.lastChecked.None? || row.lastChecked.value < now - Backoff(row.retries))
  }

  predicate Inconclusive(reply: Reply) {
    CheckTransactionStatus(reply).Err? || CheckTransactionStatus(reply) == Ok(TxQueued)
  }

  /** A row after the monitor has dealt with it; past the cap it expires without being queried. */
  function Dealt(row: Row, reply: Reply, at: int): Row {
    if row.retries >= MAX_RETRIES then row.(status := Expired, lastChecked := Some(at))
    else if Inconclusive(reply) then row.(retries := row.retries + 1, lastChecked := Some(at))
    else row.(status := if CheckTransactionStatus(reply) == Ok(TxConfirmed) then Confirmed else Dropped, lastChecked := Some(at))
  }

  function Stored(rows: Rows, h: Hash, account: string, sequence: int, now: int): Rows {
    rows[h := if h in rows then rows[h].(account := account, sequence := sequence)
              else Row(account, sequence, Queued, 0, Some(now))]
  }

  class QueuedTransactions {
    var rows: Rows

    constructor ()
      ensures rows == map[]
    {
      rows := map[];
    }

    method GetReadyForCheck(now: int) returns (hs: seq<Hash>)
      ensures forall h :: h in hs <==> h in rows && Ready(rows[h], now)
      ensures forall h | h in rows ::
                h in hs <==> rows[h].status == Queued
                             && (rows[h].lastChecked.Some? ==> now - rows[h].lastChecked.value > 10_000_000 * Pow2(rows[h].retries))
      ensures forall i, j | 0 <= i < j < |hs| :: hs[i] != hs[j]
    {
      hs := [];
      var left := rows.Keys;
      while left != {}
        invariant left <= rows.Keys
        invariant forall h :: h in hs <==> h in rows && h !in left && Ready(rows[h], now)
        invariant forall i, j | 0 <= i < j < |hs| :: hs[i] != hs[j]
        decreases |left|
      {
        var h :| h in left;
        if Ready(rows[h], now) {
          hs := hs + [h];
        }
        left := left - {h};
      }
    }

    method UpdateStatus(h: Hash, status: Status, now: int)
      modifies this
      ensures rows == if h in old(rows)
                      then old(rows)[h := old(rows)[h].(status := status, lastChecked := Some(now))] else old(rows)
    {
      if h in rows {
        rows := rows[h := rows[h].(status := status, lastChecked := Some(now))];
      }
    }

    method IncrementRetry(h: Hash, now: int)
      modifies this
      ensures rows == if h in old(rows)
                      then old(rows)[h := old(rows)[h].(retries := old(rows)[h].retries + 1, lastChecked := Some(now))]
                      else old(rows)
    {
      if h in rows {
        rows := rows[h := rows[h].(retries := rows[h].retries + 1, lastChecked := Some(now))];
      }
    }

    method Store(h: Hash, account: string, sequence: int, now: int)
      modifies this
      ensures rows == Stored(old(rows), h, account, sequence, now)
      ensures rows == old(rows)[h := if h in old(rows) then old(rows)[h].(account := account, sequence := sequence)
                                     else Row(account, sequence, Queued, 0, Some(now))]
    {
      if h in rows {
        rows := rows[h := rows[h].(account := account, sequence := sequence)];
      } else {
        rows := rows[h := Row(account, sequence, Queued, 0, Some(now))];
      }
    }
  }

  /** Exactly the rows of `done` have been dealt with. */
  ghost predicate DealtWith(before: Rows, after: Rows, done: set<Hash>, answer: Hash -> Reply, at: Hash -> int) {
    && after.Keys == before.Keys
    && forall h | h in before :: after[h] == if h in done then Dealt(before[h], answer(h), at(h)) else before[h]
  }

  lemma DealtWithOneMore(before: Rows, rows: Rows, done: set<Hash>, answer: Hash -> Reply, at: Hash -> int, h: Hash)
    requires DealtWith(before, rows, done, answer, at) && h in before && h !in done
    ensures rows[h] == before[h]
    ensures DealtWith(before, rows[h := Dealt(rows[h], answer(h), at(h))], done + {h}, answer, at)
  {
  }

  class Monitor {
    const model: QueuedTransactions

    constructor (model: QueuedTransactions)
      ensures this.model == model
    {
      this.model := model;
    }

    method Deal(h: Hash, reply: Reply, at: int)
      requires h in model.rows && model.rows[h].status == Queued
      modifies model
      ensures model.rows == old(model.rows)[h := Dealt(old(model.rows)[h], reply, at)]
      ensures var was, now := old(model.rows)[h], model.rows[h];
              && now.account == was.account && now.sequence == was.sequence && now.lastChecked == Some(at)
              && (now.status == Expired <==> was.retries >= 20)
              && (was.retries < 20 ==> (now.status == Confirmed <==> reply == Found(Some(true))))
              && (was.retries < 20 ==> (now.status == Dropped <==> reply == ApiError("txnNotFound")))
              && now.retries == if now.status == Queued then was.retries + 1 else was.retries
    {
      if model.rows[h].retries >= MAX_RETRIES {
        model.UpdateStatus(h, Expired, at);
        return;
      }
      var status := CheckTransactionStatus(reply);
      match status {
        case Ok(TxConfirmed) => model.UpdateStatus(h, Confirmed, at);
        case Ok(TxQueued) => model.IncrementRetry(h, at);
        case Ok(TxDropped) => model.UpdateStatus(h, Dropped, at);
        case Err(_) => model.IncrementRetry(h, at);
      }
    }

    /** One round: `answer` is the ledger node, `at` the time of each update, `errorAt` the update that fails, if any. */
    method CheckQueuedTransactions(now: int, answer: Hash -> Reply, at: Hash -> int, errorAt: nat)
      returns (r: Result<(), string>, ghost done: set<Hash>)
      modifies model
      ensures forall h | h in done :: h in old(model.rows) && Ready(old(model.rows)[h], now)
      ensures r.Ok? ==> forall h | h in old(model.rows) && Ready(old(model.rows)[h], now) :: h in done
      ensures |done| <= errorAt && (r.Err? ==> |done| == errorAt)
      ensures DealtWith(old(model.rows), model.rows, done, answer, at)
    {
      done := {};
      var hs := model.GetReadyForCheck(now);
      for i := 0 to |hs|
        invariant i <= errorAt && |done| == i
        invariant forall j | 0 <= j < |hs| :: hs[j] in done <==> j < i
        invariant forall h | h in done :: h in hs
        invariant DealtWith(old(model.rows), model.rows, done, answer, at)
      {
        var h := hs[i];
        assert h in hs;
        if i == errorAt {
          return Err("database error"), done;
        }
        DealtWithOneMore(old(model.rows), model.rows, done, answer, at, h);
        Deal(h, answer(h), at(h));
        done := done + {h};
      }
      return Ok(()), done;
    }
  }

  // ----- Runs -----

  datatype Check = Check(reply: Reply, at: int)

  /** `batch`: rows fetched at `fetchedAt` and still to be dealt with; the other fields are history. */
  datatype State = State(rows: Rows, now: int, batch: seq<Hash>, fetchedAt: int,
                         storedAt: map<Hash, int>, checks: map<Hash, seq<Check>>,
                         queries: multiset<Hash>, failed: multiset<Hash>)

  datatype Step =
    | Pass(time: nat)
    | Store(h: Hash, account: string, sequence: int)
    | Fetch(hs: seq<Hash>)
    | Deal(reply: Reply)          // query the first of the batch and record the outcome
    | DealFails(reply: Reply)     // query it, fail to record, give up the round

  predicate Enabled(s: State, step: Step) {
    match step
    case Fetch(hs) =>
      && s.batch == [] && (forall i, j | 0 <= i < j < |hs| :: hs[i] != hs[j])
      && forall h | h in hs :: h in s.rows && Ready(s.rows[h], s.now)
    case Deal(_) => s.batch != [] && s.batch[0] in s.rows
    case DealFails(_) => s.batch != [] && s.batch[0] in s.rows
    case _ => true
  }

  function ChecksOf(s: State, h: Hash): seq<Check> {
    if h in s.checks then s.checks[h] else []
  }

  /** The node is asked unless the retries are used up. */
  function Query(row: Row, h: Hash): multiset<Hash> {
    if row.retries >= MAX_RETRIES then multiset{} else multiset{h}
  }

  function Apply(s: State, step: Step): State
    requires Enabled(s, step)
  {
    match step
    case Pass(time) => s.(now := s.now + time)
    case Store(h, account, sequence) =>
      s.(rows := Stored(s.rows, h, account, sequence, s.now),
         storedAt := if h in s.rows then s.storedAt else s.storedAt[h := s.now])
    case Fetch(hs) => s.(batch := hs, fetchedAt := s.now)
    case Deal(reply) =>
      var h := s.batch[0];
      s.(rows := s.rows[h := Dealt(s.rows[h], reply, s.now)], batch := s.batch[1..],
         queries := s.queries + Query(s.rows[h], h),
         checks := if s.rows[h].retries >= MAX_RETRIES then s.checks
                   else s.checks[h := ChecksOf(s, h) + [Check(reply, s.now)]])
    case DealFails(_) =>
      var h := s.batch[0];
      s.(batch := [], queries := s.queries + Query(s.rows[h], h), failed := s.failed + multiset{h})
  }

  predicate PossibleRun(s: State, steps: seq<Step>)
    decreases |steps|
  {
    steps != [] ==> Enabled(s, steps[0]) && PossibleRun(Apply(s, steps[0]), steps[1..])
  }

  function Run(s: State, steps: seq<Step>): State
    requires PossibleRun(s, steps)
    decreases |steps|
  {
    if steps == [] then s else Run(Apply(s, steps[0]), steps[1..])
  }

  predicate Init(s: State) {
    s.rows == map[] && s.batch == [] && s.checks == map[] && s.storedAt == map[] && s.queries == s.failed == multiset{}
  }

  // ----- What holds of every row -----

  /** The status is what the checks so far say, and the retry count counts the inconclusive ones. */
  predicate StatusFollowsChecks(row: Row, checks: seq<Check>) {
    match row.status
    case Queued => |checks| == row.retries <= MAX_RETRIES && AllInconclusive(checks)
    case Expired => |checks| == row.retries == MAX_RETRIES && AllInconclusive(checks)
    case Confirmed =>
      && |checks| == row.retries + 1 <= MAX_RETRIES && AllInconclusive(checks[..|checks| - 1])
      && checks[|checks| - 1].reply == Found(Some(true))
    case Dropped =>
      && |checks| == row.retries + 1 <= MAX_RETRIES && AllInconclusive(checks[..|checks| - 1])
      && checks[|checks| - 1].reply == ApiError("txnNotFound")
  }

  predicate AllInconclusive(checks: seq<Check>) {
    forall c | c in checks :: Inconclusive(c.reply)
  }

  /** The earliest time at which the n-th check can be over. */
  function Earliest(t0: int, n: nat): int {
    t0 + SECOND * 10 * (Pow2(n) - 1)
  }

  predicate ChecksBackOff(t0: int, checks: seq<Check>) {
    forall n | 0 <= n < |checks| :: checks[n].at > Earliest(t0, n + 1)
  }

  predicate RowOk(s: State, h: Hash) {
    s.queries[h] <= |ChecksOf(s, h)| + s.failed[h] &&
    if h in s.rows then
      h in s.storedAt && HistoryOk(s.rows[h], s.storedAt[h], ChecksOf(s, h))
    else h !in s.checks
  }

  /** A row against its checks, for a transaction stored at `t0`. */
  predicate HistoryOk(row: Row, t0: int, checks: seq<Check>) {
    && StatusFollowsChecks(row, checks) && ChecksBackOff(t0, checks)
    && (row.status == Queued ==> row.lastChecked.Some? && row.lastChecked.value >= Earliest(t0, row.retries))
  }

  predicate BatchOk(s: State) {
    && s.fetchedAt <= s.now
    && (forall i, j | 0 <= i < j < |s.batch| :: s.batch[i] != s.batch[j])
    && forall h | h in s.batch :: h in s.rows && Ready(s.rows[h], s.fetchedAt)
  }

  ghost predicate Inv(s: State) {
    (s.batch != [] ==> BatchOk(s)) && forall h :: RowOk(s, h)
  }

  lemma NextEarliest(t0: int, last: int, n: nat, now: int)
    requires last >= Earliest(t0, n) && last < now - Backoff(n)
    ensures now > Earliest(t0, n + 1)
  {
    assert Pow2(n + 1) == 2 * Pow2(n);
  }

  lemma DealtFollowsChecks(row: Row, before: seq<Check>, reply: Reply, at: int)
    requires row.status == Queued && StatusFollowsChecks(row, before)
    ensures StatusFollowsChecks(Dealt(row, reply, at), ChecksAfter(row, before, reply, at))
  {
    assert (before + [Check(reply, at)])[..|before|] == before;
  }

  function ChecksAfter(row: Row, before: seq<Check>, reply: Reply, at: int): seq<Check> {
    if row.retries < MAX_RETRIES then before + [Check(reply, at)] else before
  }

  lemma DealtKeepsHistory(row: Row, t0: int, before: seq<Check>, reply: Reply, fetchedAt: int, at: int)
    requires HistoryOk(row, t0, before) && Ready(row, fetchedAt) && fetchedAt <= at
    ensures HistoryOk(Dealt(row, reply, at), t0, ChecksAfter(row, before, reply, at))
  {
    NextEarliest(t0, row.lastChecked.value, row.retries, fetchedAt);
    DealtFollowsChecks(row, before, reply, at);
  }

  lemma DealKeepsRow(s: State, reply: Reply, h: Hash)
    requires Enabled(s, Deal(reply)) && BatchOk(s) && RowOk(s, h)
    ensures RowOk(Apply(s, Deal(reply)), h)
  {
    if h == s.batch[0] {
      assert h in s.batch;
      DealtKeepsHistory(s.rows[h], s.storedAt[h], ChecksOf(s, h), reply, s.fetchedAt, s.now);
      assert ChecksOf(Apply(s, Deal(reply)), h) == ChecksAfter(s.rows[h], ChecksOf(s, h), reply, s.now);
    }
  }

  lemma StepKeepsRow(s: State, step: Step, h: Hash)
    requires Enabled(s, step) && Inv(s)
    ensures RowOk(Apply(s, step), h)
  {
    assert RowOk(s, h);
    match step
    case Deal(reply) => DealKeepsRow(s, reply, h);
    case _ =>
  }

  lemma StepKeepsBatch(s: State, step: Step)
    requires Enabled(s, step) && (s.batch != [] ==> BatchOk(s))
    ensures Apply(s, step).batch != [] ==> BatchOk(Apply(s, step))
  {
    match step
    case Deal(reply) =>
      assert forall i | 0 <= i < |s.batch[1..]| :: s.batch[1..][i] == s.batch[i + 1];
    case _ =>
  }

  lemma StepKeepsInv(s: State, step: Step)
    requires Enabled(s, step) && Inv(s)
    ensures Inv(Apply(s, step))
  {
    StepKeepsBatch(s, step);
    forall h
      ensures RowOk(Apply(s, step), h)
    {
      StepKeepsRow(s, step, h);
    }
  }

  lemma {:induction false} RunKeepsInv(s: State, steps: seq<Step>)
    requires PossibleRun(s, steps) && Inv(s)
    ensures Inv(Run(s, steps))
    decreases |steps|
  {
    if steps != [] {
      StepKeepsInv(s, steps[0]);
      RunKeepsInv(Apply(s, steps[0]), steps[1..]);
    }
  }

  /** In every run the status is exactly what the recorded checks say. */
  lemma StatusIsOutcomeOfChecks(s: State, steps: seq<Step>, h: Hash)
    requires Init(s) && PossibleRun(s, steps) && h in Run(s, steps).rows
    ensures StatusFollowsChecks(Run(s, steps).rows[h], ChecksOf(Run(s, steps), h))
  {
    RunKeepsInv(s, steps);
    assert RowOk(Run(s, steps), h);
  }

  /** At most twenty queries per transaction, plus one for every update that failed. */
  lemma QueriedAtMostTwentyTimes(s: State, steps: seq<Step>, h: Hash)
    requires Init(s) && PossibleRun(s, steps)
    ensures Run(s, steps).queries[h] <= 20 + Run(s, steps).failed[h]
    ensures |ChecksOf(Run(s, steps), h)| <= 20
  {
    RunKeepsInv(s, steps);
    assert RowOk(Run(s, steps), h);
  }

  /** The n-th check of a transaction stored at `t0` is recorded after t0 + 10 * (2^n - 1) seconds. */
  lemma NthCheckIsLate(s: State, steps: seq<Step>, h: Hash, n: nat)
    requires Init(s) && PossibleRun(s, steps) && 0 < n <= |ChecksOf(Run(s, steps), h)|
    ensures h in Run(s, steps).storedAt
    ensures ChecksOf(Run(s, steps), h)[n - 1].at > Run(s, steps).storedAt[h] + 10_000_000 * (Pow2(n) - 1)
  {
    RunKeepsInv(s, steps);
    assert RowOk(Run(s, steps), h);
  }

  predicate SameOutcome(s: State, s': State, h: Hash) {
    && h in s.rows && h in s'.rows && s'.rows[h].status == s.rows[h].status && s'.rows[h].retries == s.rows[h].retries
    && s'.rows[h].lastChecked == s.rows[h].lastChecked && ChecksOf(s', h) == ChecksOf(s, h)
  }

  lemma StepKeepsTerminal(s: State, step: Step, h: Hash)
    requires Enabled(s, step) && Inv(s) && h in s.rows && s.rows[h].status != Queued
    ensures SameOutcome(s, Apply(s, step), h)
  {
    match step
    case Deal(_) => assert s.batch[0] in s.batch;
    case _ =>
  }

  lemma {:induction false} RunKeepsTerminal(s: State, steps: seq<Step>, h: Hash)
    requires PossibleRun(s, steps) && Inv(s) && h in s.rows && s.rows[h].status != Queued
    ensures SameOutcome(s, Run(s, steps), h)
    decreases |steps|
  {
    if steps != [] {
      StepKeepsInv(s, steps[0]);
      StepKeepsTerminal(s, steps[0], h);
      RunKeepsTerminal(Apply(s, steps[0]), steps[1..], h);
    }
  }

  /** Confirmed, Dropped and Expired are never left, even when the transaction is stored again. */
  lemma TerminalStatusIsForever(s: State, steps: seq<Step>, more: seq<Step>, h: Hash)
    requires Init(s) && PossibleRun(s, steps) && PossibleRun(Run(s, steps), more)
    requires h in Run(s, steps).rows && Run(s, steps).rows[h].status != Queued
    ensures SameOutcome(Run(s, steps), Run(Run(s, steps), more), h)
  {
    RunKeepsInv(s, steps);
    RunKeepsTerminal(Run(s, steps), more, h);
  }
}
