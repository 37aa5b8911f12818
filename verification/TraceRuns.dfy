/**
 The pollers interleaved, one database call at a time: which observations are passed on, which are
 dropped because their poll fails later, and how often a trace is retried.
 */
module TraceRuns {
  import opened Wrappers
  import opened TraceDedup

  /** `pending`: ids the retry poller fetched and has no answer handled for; the rest is history. */
  datatype State = State(rows: Rows, pending: set<TraceId>, observed: seq<Trace>, emitted: seq<Trace>,
                         dropped: seq<Trace>, found: multiset<TraceId>)

  /** A call is `reported` if the poll it belongs to goes on to succeed. */
  datatype Step =
    | Observe(t: Trace, now: int, reported: bool)     // gateway or gas service poller
    | Fetch(ids: set<TraceId>)                        // retry poller
    | Answer(t: Trace, now: int, reported: bool)
    | EndBatch

  predicate Enabled(s: State, step: Step) {
    match step
    case Observe(_, _, _) => true
    case Fetch(ids) => s.pending == {} && |ids| <= FETCH_LIMIT && forall id | id in ids :: Retriable(s.rows, id)
    case Answer(t, _, _) => t.traceId in s.pending
    case EndBatch => true
  }

  function Upserted(s: State, t: Trace, now: int, reported: bool): State {
    s.(rows := Written(s.rows, t, now), observed := s.observed + [t],
       emitted := if Emits(s.rows, t) && reported then s.emitted + [t] else s.emitted,
       dropped := if Emits(s.rows, t) && !reported then s.dropped + [t] else s.dropped)
  }

  function Apply(s: State, step: Step): State
    requires Enabled(s, step)
  {
    match step
    case Observe(t, now, reported) => Upserted(s, t, now, reported)
    case Fetch(ids) => s.(pending := ids)
    case Answer(t, now, reported) =>
      var s' := s.(pending := s.pending - {t.traceId});
      if t.version.isIncomplete
      then s'.(rows := Spent(s.rows, t.traceId), found := s.found + multiset{t.traceId})
      else Upserted(s', t, now, reported)
    case EndBatch => s.(pending := {})
  }

  predicate PossibleRun(s: State, steps: seq<Step>)
    decreases |steps|
  {
    steps != [] ==> Enabled(s, steps[0]) && PossibleRun(Apply(s, steps[0]), steps[1..])
  }

  function Run(s: State, steps: seq<Step>): State
    requires PossibleRun(s, steps)
    decreases |steps|
  {
    if steps == [] then s else Run(Apply(s, steps[0]), steps[1..])
  }

  predicate Init(s: State) {
    s == State(map[], {}, [], [], [], multiset{})
  }

  /** Every call belongs to a poll that succeeds. */
  predicate AllReported(steps: seq<Step>) {
    forall step | step in steps :: (step.Observe? ==> step.reported) && (step.Answer? ==> step.reported)
  }

  // ----- What is passed on -----

  /** The versions of one trace in a list of traces. */
  function Of(ts: seq<Trace>, id: TraceId): seq<Version> {
    if ts == [] then []
    else Of(ts[..|ts| - 1], id) + if ts[|ts| - 1].traceId == id then [ts[|ts| - 1].version] else []
  }

  function Stored(rows: Rows, id: TraceId): Option<Version> {
    if id in rows then Some(rows[id].version) else None
  }

  /** What is stored after `vs`, if `was` was stored before. */
  function Latest(was: Option<Version>, vs: seq<Version>): Option<Version> {
    if vs == [] then was else Some(vs[|vs| - 1])
  }

  predicate Fresh(was: Option<Version>, v: Version) {
    !v.isIncomplete && was != Some(v)
  }

  /** The complete versions that differ from the one stored just before them. */
  function Edges(was: Option<Version>, vs: seq<Version>): seq<Version> {
    if vs == [] then []
    else
      var before, v := vs[..|vs| - 1], vs[|vs| - 1];
      Edges(was, before) + if Fresh(Latest(was, before), v) then [v] else []
  }

  /** The history of `s` is no shorter than that of `s0`. */
  predicate Extends(s0: State, s: State) {
    |s0.observed| <= |s.observed| && |s0.emitted| <= |s.emitted| && |s0.dropped| <= |s.dropped|
  }

  function Since(ts: seq<Trace>, n: nat, id: TraceId): seq<Version>
    requires n <= |ts|
  {
    Of(ts[n..], id)
  }

  function ObservedSince(s0: State, s: State, id: TraceId): seq<Version>
    requires Extends(s0, s)
  {
    Since(s.observed, |s0.observed|, id)
  }

  function EmittedSince(s0: State, s: State, id: TraceId): seq<Version>
    requires Extends(s0, s)
  {
    Since(s.emitted, |s0.emitted|, id)
  }

  function DroppedSince(s0: State, s: State, id: TraceId): seq<Version>
    requires Extends(s0, s)
  {
    Since(s.dropped, |s0.dropped|, id)
  }

  /** Since `s0` every new complete version was either emitted or dropped. */
  predicate Accounts(s0: State, s: State, id: TraceId) {
    && Extends(s0, s)
    && AccountsFor(Stored(s0.rows, id), Stored(s.rows, id), ObservedSince(s0, s, id),
                   EmittedSince(s0, s, id), DroppedSince(s0, s, id))
  }

  /** Emitted and dropped together are the edges; with nothing dropped, in the same order. */
  predicate Covers(emitted: seq<Version>, dropped: seq<Version>, edges: seq<Version>) {
    multiset(emitted) + multiset(dropped) == multiset(edges) && (dropped == [] ==> emitted == edges)
  }

  lemma CoversOneMore(emitted: seq<Version>, dropped: seq<Version>, edges: seq<Version>, v: Version)
    requires Covers(emitted, dropped, edges)
    ensures Covers(emitted + [v], dropped, edges + [v]) && Covers(emitted, dropped + [v], edges + [v])
  {
  }

  lemma OfSnoc(ts: seq<Trace>, t: Trace, id: TraceId)
    ensures Of(ts + [t], id) == if t.traceId == id then Of(ts, id) + [t.version] else Of(ts, id)
  {
    assert (ts + [t])[..|ts|] == ts;
  }

  lemma SinceSnoc(ts: seq<Trace>, t: Trace, id: TraceId, n: nat)
    requires n <= |ts|
    ensures Since(ts + [t], n, id) == if t.traceId == id then Since(ts, n, id) + [t.version] else Since(ts, n, id)
  {
    assert (ts + [t])[n..] == ts[n..] + [t];
    OfSnoc(ts[n..], t, id);
  }

  lemma EdgesSnoc(was: Option<Version>, vs: seq<Version>, v: Version)
    ensures Edges(was, vs + [v]) == if Fresh(Latest(was, vs), v) then Edges(was, vs) + [v] else Edges(was, vs)
  {
    assert (vs + [v])[..|vs|] == vs;
  }

  /** What `Accounts` says of one trace, in terms of the lists alone. */
  predicate AccountsFor(was: Option<Version>, now: Option<Version>, vs: seq<Version>, emitted: seq<Version>, dropped: seq<Version>) {
    now == Latest(was, vs) && Covers(emitted, dropped, Edges(was, vs))
  }

  lemma AccountsOneMore(was: Option<Version>, now: Option<Version>, vs: seq<Version>, emitted: seq<Version>,
                        dropped: seq<Version>, v: Version, reported: bool)
    requires AccountsFor(was, now, vs, emitted, dropped)
    ensures AccountsFor(was, Some(v), vs + [v],
                        if Fresh(now, v) && reported then emitted + [v] else emitted,
                        if Fresh(now, v) && !reported then dropped + [v] else dropped)
  {
    EdgesSnoc(was, vs, v);
    CoversOneMore(emitted, dropped, Edges(was, vs), v);
  }

  lemma AccountsIntro(s0: State, s: State, id: TraceId, vs: seq<Version>, emitted: seq<Version>, dropped: seq<Version>)
    requires Extends(s0, s) && ObservedSince(s0, s, id) == vs
    requires EmittedSince(s0, s, id) == emitted && DroppedSince(s0, s, id) == dropped
    requires AccountsFor(Stored(s0.rows, id), Stored(s.rows, id), vs, emitted, dropped)
    ensures Accounts(s0, s, id)
  {
  }

  lemma UpsertSince(s0: State, s: State, t: Trace, now: int, reported: bool, id: TraceId)
    requires Extends(s0, s)
    ensures var s', mine, v := Upserted(s, t, now, reported), t.traceId == id, t.version;
            var isNew := mine && Fresh(Stored(s.rows, id), v);
            && Extends(s0, s') && Stored(s'.rows, id) == (if mine then Some(v) else Stored(s.rows, id))
            && ObservedSince(s0, s', id) == (if mine then ObservedSince(s0, s, id) + [v] else ObservedSince(s0, s, id))
            && EmittedSince(s0, s', id)
               == (if isNew && reported then EmittedSince(s0, s, id) + [v] else EmittedSince(s0, s, id))
            && DroppedSince(s0, s', id)
               == (if isNew && !reported then DroppedSince(s0, s, id) + [v] else DroppedSince(s0, s, id))
  {
    SinceSnoc(s.observed, t, id, |s0.observed|);
    SinceSnoc(s.emitted, t, id, |s0.emitted|);
    SinceSnoc(s.dropped, t, id, |s0.dropped|);
  }

  lemma UpsertAccounts(s0: State, s: State, t: Trace, now: int, reported: bool, id: TraceId)
    requires Accounts(s0, s, id)
    ensures Accounts(s0, Upserted(s, t, now, reported), id)
  {
    var s', v := Upserted(s, t, now, reported), t.version;
    var vs, emitted, dropped := ObservedSince(s0, s, id), EmittedSince(s0, s, id), DroppedSince(s0, s, id);
    UpsertSince(s0, s, t, now, reported, id);
    if t.traceId == id {
      AccountsOneMore(Stored(s0.rows, id), Stored(s.rows, id), vs, emitted, dropped, v, reported);
      var isNew := Fresh(Stored(s.rows, id), v);
      AccountsIntro(s0, s', id, vs + [v], if isNew && reported then emitted + [v] else emitted,
                    if isNew && !reported then dropped + [v] else dropped);
    } else {
      AccountsIntro(s0, s', id, vs, emitted, dropped);
    }
  }

  lemma StepAccounts(s0: State, s: State, step: Step, id: TraceId)
    requires Enabled(s, step) && Accounts(s0, s, id)
    ensures Accounts(s0, Apply(s, step), id)
  {
    match step
    case Observe(t, now, reported) => UpsertAccounts(s0, s, t, now, reported, id);
    case Answer(t, now, reported) =>
      var taken := s.(pending := s.pending - {t.traceId});
      SameHistory(s0, s, taken, id);
      if t.version.isIncomplete {
        SameHistory(s0, s, Apply(s, step), id);
      } else {
        UpsertAccounts(s0, taken, t, now, reported, id);
      }
    case _ => SameHistory(s0, s, Apply(s, step), id);
  }

  lemma SameHistory(s0: State, s: State, s': State, id: TraceId)
    requires Accounts(s0, s, id) && Stored(s'.rows, id) == Stored(s.rows, id)
    requires s'.observed == s.observed && s'.emitted == s.emitted && s'.dropped == s.dropped
    ensures Accounts(s0, s', id)
  {
  }

  lemma {:induction false} RunAccounts(s0: State, s: State, steps: seq<Step>, id: TraceId)
    requires PossibleRun(s, steps) && Accounts(s0, s, id)
    ensures Accounts(s0, Run(s, steps), id)
    decreases |steps|
  {
    if steps != [] {
      StepAccounts(s0, s, steps[0], id);
      RunAccounts(s0, Apply(s, steps[0]), steps[1..], id);
    }
  }

  lemma {:induction false} ReportedRunDropsNothing(s: State, steps: seq<Step>)
    requires PossibleRun(s, steps) && AllReported(steps)
    ensures Run(s, steps).dropped == s.dropped
    decreases |steps|
  {
    if steps != [] {
      assert steps[0] in steps;
      ReportedRunDropsNothing(Apply(s, steps[0]), steps[1..]);
    }
  }

  /**
   From any table, however the pollers interleave and whichever polls fail, the new complete versions
   of a trace are exactly those emitted and those dropped.
   */
  lemma EveryEdgeIsEmittedOrDropped(s: State, steps: seq<Step>, id: TraceId)
    requires PossibleRun(s, steps)
    ensures var e := Run(s, steps);
            && Extends(s, e)
            && multiset(EmittedSince(s, e, id)) + multiset(DroppedSince(s, e, id))
               == multiset(Edges(Stored(s.rows, id), ObservedSince(s, e, id)))
  {
    RunAccounts(s, s, steps, id);
  }

  /** When no poll fails a trace is emitted, in order, once per complete version that is new. */
  lemma EmissionsAreEdges(s: State, steps: seq<Step>, id: TraceId)
    requires PossibleRun(s, steps) && AllReported(steps)
    ensures Extends(s, Run(s, steps))
    ensures EmittedSince(s, Run(s, steps), id) == Edges(Stored(s.rows, id), ObservedSince(s, Run(s, steps), id))
  {
    RunAccounts(s, s, steps, id);
    ReportedRunDropsNothing(s, steps);
  }

  /** The same from the empty table, over the whole history. */
  lemma EmissionsFromStart(s: State, steps: seq<Step>, id: TraceId)
    requires Init(s) && PossibleRun(s, steps) && AllReported(steps)
    ensures Of(Run(s, steps).emitted, id) == Edges(None, Of(Run(s, steps).observed, id))
  {
    EmissionsAreEdges(s, steps, id);
    var e := Run(s, steps);
    assert e.observed[0..] == e.observed && e.emitted[0..] == e.emitted;
  }

  // ----- The retry budget -----

  predicate WithinBudget(s: State, id: TraceId) {
    && (id in s.rows ==> 0 <= s.rows[id].retries == RETRIES - s.found[id])
    && (id !in s.rows ==> s.found[id] == 0)
    && (id in s.pending ==> id in s.rows && s.rows[id].retries > 0)
  }

  lemma {:induction false} RunKeepsBudget(s: State, steps: seq<Step>, id: TraceId)
    requires PossibleRun(s, steps) && WithinBudget(s, id)
    ensures WithinBudget(Run(s, steps), id)
    decreases |steps|
  {
    if steps != [] {
      RunKeepsBudget(Apply(s, steps[0]), steps[1..], id);
    }
  }

  /** A trace is found still incomplete on retry at most as often as its first budget, never more. */
  lemma RetriesStayWithinBudget(s: State, steps: seq<Step>, id: TraceId)
    requires Init(s) && PossibleRun(s, steps)
    ensures var e := Run(s, steps);
            && e.found[id] <= 10
            && (id in e.rows ==> e.rows[id].retries + e.found[id] == 10 && e.rows[id].retries >= 0)
  {
    RunKeepsBudget(s, steps, id);
  }

  // ----- Exactly one emission -----

  /** Incomplete versions around one block of a single complete version. */
  ghost predicate OneBlock(vs: seq<Version>) {
    exists i, j :: 0 <= i < j <= |vs| && Block(vs, i, j)
  }

  predicate Block(vs: seq<Version>, i: nat, j: nat)
    requires i < j <= |vs|
  {
    && !vs[i].isIncomplete
    && (forall k | i <= k < j :: vs[k] == vs[i])
    && forall k | 0 <= k < |vs| && !(i <= k < j) :: vs[k].isIncomplete
  }

  lemma {:induction false} NoEdgeIffAllIncomplete(vs: seq<Version>)
    ensures Edges(None, vs) == [] <==> forall v | v in vs :: v.isIncomplete
    decreases |vs|
  {
    if vs != [] {
      var before, v := vs[..|vs| - 1], vs[|vs| - 1];
      NoEdgeIffAllIncomplete(before);
      assert vs == before + [v];
      assert before != [] ==> before[|before| - 1] in before;
    }
  }

  /** One emission exactly when the complete observations are one block of the same version. */
  lemma {:induction false} OneEdgeIffOneBlock(vs: seq<Version>)
    ensures |Edges(None, vs)| == 1 <==> OneBlock(vs)
    decreases |vs|
  {
    if vs != [] {
      OneEdgeIffOneBlock(vs[..|vs| - 1]);
      NoEdgeIffAllIncomplete(vs[..|vs| - 1]);
      if |Edges(None, vs)| == 1 {
        OneEdgeGivesBlock(vs);
      }
      if OneBlock(vs) {
        BlockGivesOneEdge(vs);
      }
    }
  }

  lemma BlockOfPrefix(vs: seq<Version>, i: nat, j: nat)
    requires i < j < |vs|
    ensures Block(vs, i, j) <==> Block(vs[..|vs| - 1], i, j) && vs[|vs| - 1].isIncomplete
  {
    assert forall k | 0 <= k < |vs| - 1 :: vs[k] == vs[..|vs| - 1][k];
  }

  lemma BlockGrows(vs: seq<Version>, i: nat)
    requires i < |vs| - 1
    ensures Block(vs, i, |vs|) <==> Block(vs[..|vs| - 1], i, |vs| - 1) && vs[|vs| - 1] == vs[|vs| - 2]
  {
    assert forall k | 0 <= k < |vs| - 1 :: vs[k] == vs[..|vs| - 1][k];
  }

  lemma FirstBlock(vs: seq<Version>)
    requires vs != [] && !vs[|vs| - 1].isIncomplete
    requires forall v | v in vs[..|vs| - 1] :: v.isIncomplete
    ensures Block(vs, |vs| - 1, |vs|)
  {
    var before := vs[..|vs| - 1];
    assert forall k | 0 <= k < |before| :: before[k] in before;
  }

  lemma OneEdgeGivesBlock(vs: seq<Version>)
    requires vs != [] && |Edges(None, vs)| == 1
    requires |Edges(None, vs[..|vs| - 1])| == 1 <==> OneBlock(vs[..|vs| - 1])
    requires Edges(None, vs[..|vs| - 1]) == [] <==> forall v | v in vs[..|vs| - 1] :: v.isIncomplete
    ensures OneBlock(vs)
  {
    var n := |vs| - 1;
    if Edges(None, vs[..n]) == [] {
      FirstBlock(vs);
    } else {
      var i, j :| 0 <= i < j <= n && Block(vs[..n], i, j);
      if vs[n].isIncomplete {
        BlockOfPrefix(vs, i, j);
      } else {
        assert vs[n] == vs[n - 1];
        assert j == n by {
          assert !vs[..n][n - 1].isIncomplete;
        }
        BlockGrows(vs, i);
      }
    }
  }

  lemma BlockGivesOneEdge(vs: seq<Version>)
    requires vs != [] && OneBlock(vs)
    requires |Edges(None, vs[..|vs| - 1])| == 1 <==> OneBlock(vs[..|vs| - 1])
    requires Edges(None, vs[..|vs| - 1]) == [] <==> forall v | v in vs[..|vs| - 1] :: v.isIncomplete
    ensures |Edges(None, vs)| == 1
  {
    var n := |vs| - 1;
    var before := vs[..n];
    var i, j :| 0 <= i < j <= |vs| && Block(vs, i, j);
    if i == n {
      assert forall v | v in before :: v.isIncomplete;
    } else if j == n + 1 {
      BlockGrows(vs, i);
    } else {
      BlockOfPrefix(vs, i, j);
    }
  }

  /** Exactly once, if and only if the complete observations form one block of equal versions. */
  lemma EmittedOnceIffOneBlock(s: State, steps: seq<Step>, id: TraceId)
    requires Init(s) && PossibleRun(s, steps) && AllReported(steps)
    ensures |Of(Run(s, steps).emitted, id)| == 1 <==> OneBlock(Of(Run(s, steps).observed, id))
  {
    EmissionsFromStart(s, steps, id);
    OneEdgeIffOneBlock(Of(Run(s, steps).observed, id));
  }

  /** Incomplete versions followed by one fixed complete version, seen at least once. */
  lemma SettledTraceIsEmittedOnce(s: State, steps: seq<Step>, id: TraceId, n: nat)
    requires Init(s) && PossibleRun(s, steps) && AllReported(steps)
    requires var vs := Of(Run(s, steps).observed, id);
             && n < |vs| && !vs[n].isIncomplete && (forall k | 0 <= k < n :: vs[k].isIncomplete)
             && forall k | n <= k < |vs| :: vs[k] == vs[n]
    ensures Of(Run(s, steps).emitted, id) == [Of(Run(s, steps).observed, id)[n]]
  {
    var vs := Of(Run(s, steps).observed, id);
    assert Block(vs, n, |vs|);
    EmittedOnceIffOneBlock(s, steps, id);
    EmissionsFromStart(s, steps, id);
    EdgesComeFrom(vs, n);
    assert Edges(None, vs)[0] in Edges(None, vs);
  }

  lemma {:induction false} EdgesComeFrom(vs: seq<Version>, n: nat)
    requires n < |vs| && !vs[n].isIncomplete && (forall k | 0 <= k < n :: vs[k].isIncomplete)
    requires forall k | n <= k < |vs| :: vs[k] == vs[n]
    ensures forall v | v in Edges(None, vs) :: v == vs[n]
    decreases |vs|
  {
    if n == |vs| - 1 {
      NoEdgeIffAllIncomplete(vs[..n]);
    } else {
      EdgesComeFrom(vs[..|vs| - 1], n);
    }
  }

  // ----- Polls are runs -----

  lemma {:induction false} RunThen(s: State, steps: seq<Step>, step: Step)
    requires PossibleRun(s, steps) && Enabled(Run(s, steps), step)
    ensures PossibleRun(s, steps + [step]) && Run(s, steps + [step]) == Apply(Run(s, steps), step)
    decreases |steps|
  {
    if steps == [] {
      assert (steps + [step])[1..] == [];
    } else {
      assert (steps + [step])[0] == steps[0] && (steps + [step])[1..] == steps[1..] + [step];
      RunThen(Apply(s, steps[0]), steps[1..], step);
    }
  }

  /** The state a poll leaves; one that fails before its end hands over nothing. */
  function AfterPoll(s: State, ts: seq<Trace>, clock: Clock, reported: bool): State {
    var unseen := Unseen(s.rows, ts, clock);
    s.(rows := WrittenAll(s.rows, ts, clock), observed := s.observed + ts,
       emitted := if reported then s.emitted + unseen else s.emitted,
       dropped := if reported then s.dropped else s.dropped + unseen)
  }

  lemma UpsertOneMore(s: State, ts: seq<Trace>, clock: Clock, reported: bool)
    requires ts != []
    ensures AfterPoll(s, ts, clock, reported)
            == Upserted(AfterPoll(s, ts[..|ts| - 1], clock, reported), ts[|ts| - 1], clock(|ts| - 1), reported)
  {
    var n := |ts| - 1;
    var before := AfterPoll(s, ts[..n], clock, reported);
    assert s.observed + ts == before.observed + [ts[n]];
    UnseenOneMore(s.rows, ts, clock);
  }

  lemma UnseenOneMore(rows: Rows, ts: seq<Trace>, clock: Clock)
    requires ts != []
    ensures var n := |ts| - 1;
            Unseen(rows, ts, clock) == if Emits(WrittenAll(rows, ts[..n], clock), ts[n])
                                       then Unseen(rows, ts[..n], clock) + [ts[n]] else Unseen(rows, ts[..n], clock)
  {
  }

  /** A poll's calls; `reported` says whether the poll got to its end. */
  lemma {:induction false} PollIsRun(s: State, ts: seq<Trace>, clock: Clock, reported: bool) returns (steps: seq<Step>)
    ensures PossibleRun(s, steps) && (forall step | step in steps :: step.Observe? && step.reported == reported)
    ensures Run(s, steps) == AfterPoll(s, ts, clock, reported)
    decreases |ts|
  {
    steps := [];
    if ts != [] {
      var n := |ts| - 1;
      steps := PollIsRun(s, ts[..n], clock, reported);
      UpsertOneMore(s, ts, clock, reported);
      RunThen(s, steps, Observe(ts[n], clock(n), reported));
      steps := steps + [Observe(ts[n], clock(n), reported)];
    }
  }

  function CompleteOnes(ts: seq<Trace>): seq<Trace> {
    if ts == [] then []
    else
      var before, t := CompleteOnes(ts[..|ts| - 1]), ts[|ts| - 1];
      if t.version.isIncomplete then before else before + [t]
  }

  function IncompleteIds(ts: seq<Trace>): multiset<TraceId> {
    if ts == [] then multiset{}
    else
      var before, t := IncompleteIds(ts[..|ts| - 1]), ts[|ts| - 1];
      if t.version.isIncomplete then before + multiset{t.traceId} else before
  }

  function AfterRetry(s: State, ts: seq<Trace>, clock: Clock, reported: bool): State {
    var unseen := UnseenOnRetry(s.rows, ts, clock);
    s.(rows := Retried(s.rows, ts, clock), pending := s.pending - set t | t in ts :: t.traceId,
       observed := s.observed + CompleteOnes(ts), found := s.found + IncompleteIds(ts),
       emitted := if reported then s.emitted + unseen else s.emitted,
       dropped := if reported then s.dropped else s.dropped + unseen)
  }

  lemma IdsOneMore(ts: seq<Trace>)
    requires ts != []
    ensures (set t | t in ts :: t.traceId) == (set t | t in ts[..|ts| - 1] :: t.traceId) + {ts[|ts| - 1].traceId}
  {
    var before, last := ts[..|ts| - 1], ts[|ts| - 1];
    assert forall t :: t in ts <==> t in before || t == last by {
      assert ts == before + [last];
    }
  }

  lemma RetriedOneMore(rows: Rows, ts: seq<Trace>, clock: Clock)
    requires ts != []
    ensures var t, before := ts[|ts| - 1], Retried(rows, ts[..|ts| - 1], clock);
            && Retried(rows, ts, clock) == (if t.version.isIncomplete then Spent(before, t.traceId) else Written(before, t, clock(|ts| - 1)))
            && IncompleteIds(ts) == (if t.version.isIncomplete then IncompleteIds(ts[..|ts| - 1]) + multiset{t.traceId}
                                     else IncompleteIds(ts[..|ts| - 1]))
  {
  }

  lemma AfterOneMore(s: State, ts: seq<Trace>, clock: Clock, reported: bool)
    requires ts != [] && ts[|ts| - 1].traceId in AfterRetry(s, ts[..|ts| - 1], clock, reported).pending
    ensures AfterRetry(s, ts, clock, reported)
            == Apply(AfterRetry(s, ts[..|ts| - 1], clock, reported), Answer(ts[|ts| - 1], clock(|ts| - 1), reported))
  {
    var before, t := ts[..|ts| - 1], ts[|ts| - 1];
    IdsOneMore(ts);
    CompleteOneMore(s, ts);
    RetriedOneMore(s.rows, ts, clock);
    UnseenOnRetryOneMore(s.rows, ts, clock);
    assert s.pending - (set u | u in ts :: u.traceId) == s.pending - (set u | u in before :: u.traceId) - {t.traceId};
    if t.version.isIncomplete {
      assert s.found + IncompleteIds(ts) == s.found + IncompleteIds(before) + multiset{t.traceId};
    }
  }

  lemma CompleteOneMore(s: State, ts: seq<Trace>)
    requires ts != []
    ensures var n := |ts| - 1;
            s.observed + CompleteOnes(ts)
            == if ts[n].version.isIncomplete then s.observed + CompleteOnes(ts[..n]) else s.observed + CompleteOnes(ts[..n]) + [ts[n]]
  {
  }

  lemma UnseenOnRetryOneMore(rows: Rows, ts: seq<Trace>, clock: Clock)
    requires ts != []
    ensures var n := |ts| - 1;
            UnseenOnRetry(rows, ts, clock) == if Emits(Retried(rows, ts[..n], clock), ts[n])
                                              then UnseenOnRetry(rows, ts[..n], clock) + [ts[n]] else UnseenOnRetry(rows, ts[..n], clock)
  {
  }

  /** A retry poll over its fetched ids, each answered at most once, is a run of answers. */
  lemma {:induction false} RetryPollIsRun(s: State, ts: seq<Trace>, clock: Clock, reported: bool) returns (steps: seq<Step>)
    requires forall t | t in ts :: t.traceId in s.pending
    requires forall i, j | 0 <= i < j < |ts| :: ts[i].traceId != ts[j].traceId
    ensures PossibleRun(s, steps) && (forall step | step in steps :: step.Answer? && step.reported == reported)
    ensures Run(s, steps) == AfterRetry(s, ts, clock, reported)
    decreases |ts|
  {
    steps := [];
    if ts != [] {
      var n := |ts| - 1;
      steps := RetryPollIsRun(s, ts[..n], clock, reported);
      assert ts[n] in ts;
      AfterOneMore(s, ts, clock, reported);
      RunThen(s, steps, Answer(ts[n], clock(n), reported));
      steps := steps + [Answer(ts[n], clock(n), reported)];
    }
  }

  /** A stale incomplete version stored in between makes a trace be emitted twice. */
  lemma StaleVersionEmitsAgain(s: State, id: TraceId, stale: Version, complete: Version) returns (steps: seq<Step>)
    requires Init(s) && stale.isIncomplete && !complete.isIncomplete
    ensures PossibleRun(s, steps) && AllReported(steps)
    ensures Of(Run(s, steps).observed, id) == [complete, stale, complete]
    ensures Of(Run(s, steps).emitted, id) == [complete, complete]
  {
    var c, i := Trace(id, complete), Trace(id, stale);
    steps := PollIsRun(s, [c, i, c], _ => 0, true);
    EmissionsFromStart(s, steps, id);
    OfThree(Run(s, steps).observed, c, i);
    TwoEdges(stale, complete);
  }

  lemma OfThree(ts: seq<Trace>, c: Trace, i: Trace)
    requires c.traceId == i.traceId && ts == [c] + [i] + [c]
    ensures Of(ts, c.traceId) == [c.version, i.version, c.version]
  {
    assert [c] == [] + [c];
    OfSnoc([], c, c.traceId);
    OfSnoc([c], i, c.traceId);
    OfSnoc([c] + [i], c, c.traceId);
  }

  lemma TwoEdges(stale: Version, complete: Version)
    requires stale.isIncomplete && !complete.isIncomplete
    ensures Edges(None, [complete, stale, complete]) == [complete, complete]
  {
    EdgesSnoc(None, [], complete);
    EdgesSnoc(None, [complete], stale);
    EdgesSnoc(None, [complete, stale], complete);
    assert [complete, stale, complete] == [complete, stale] + [complete] && [complete, stale] == [complete] + [stale];
    assert [complete] == [] + [complete];
  }

  // ----- Polls that fail -----

  /** A poll finds something new exactly when some trace is new and complete when its turn comes. */
  lemma {:induction false} UnseenIffSomeEmits(rows: Rows, ts: seq<Trace>, clock: Clock)
    ensures Unseen(rows, ts, clock) != [] <==> exists i :: 0 <= i < |ts| && EmitsInTurn(rows, ts, clock, i)
    decreases |ts|
  {
    if ts != [] {
      var n := |ts| - 1;
      UnseenIffSomeEmits(rows, ts[..n], clock);
      forall i | 0 <= i < n
        ensures EmitsInTurn(rows, ts, clock, i) <==> EmitsInTurn(rows, ts[..n], clock, i)
      {
        assert ts[..n][..i] == ts[..i];
      }
      if Emits(WrittenAll(rows, ts[..n], clock), ts[n]) {
        assert EmitsInTurn(rows, ts, clock, n);
      }
    }
  }

  predicate EmitsInTurn(rows: Rows, ts: seq<Trace>, clock: Clock, i: nat)
    requires i < |ts|
  {
    Emits(WrittenAll(rows, ts[..i], clock), ts[i])
  }

  /** No version is new and complete against the one stored just before it. */
  predicate NothingFresh(was: Option<Version>, vs: seq<Version>) {
    forall j | 0 <= j < |vs| :: !FreshAt(was, vs, j)
  }

  predicate FreshAt(was: Option<Version>, vs: seq<Version>, j: nat)
    requires j < |vs|
  {
    Fresh(if j == 0 then was else Some(vs[j - 1]), vs[j])
  }

  lemma {:induction false} NoEdgeIffNothingFresh(was: Option<Version>, vs: seq<Version>)
    ensures Edges(was, vs) == [] <==> NothingFresh(was, vs)
    decreases |vs|
  {
    if vs != [] {
      var n := |vs| - 1;
      NoEdgeIffNothingFresh(was, vs[..n]);
      forall j | 0 <= j < n
        ensures FreshAt(was, vs, j) <==> FreshAt(was, vs[..n], j)
      {
      }
      assert FreshAt(was, vs, n) <==> Fresh(Latest(was, vs[..n]), vs[n]);
    }
  }

  /** From any state, in every run without a failing poll: silence exactly when no later version is new and complete. */
  lemma SilentIffNothingFresh(s: State, steps: seq<Step>, id: TraceId)
    requires PossibleRun(s, steps) && AllReported(steps)
    ensures Extends(s, Run(s, steps))
    ensures EmittedSince(s, Run(s, steps), id) == []
            <==> NothingFresh(Stored(s.rows, id), ObservedSince(s, Run(s, steps), id))
  {
    EmissionsAreEdges(s, steps, id);
    NoEdgeIffNothingFresh(Stored(s.rows, id), ObservedSince(s, Run(s, steps), id));
  }

  lemma {:induction false} StoresLast(rows: Rows, ts: seq<Trace>, clock: Clock, t: Trace)
    requires t in ts && forall i, j | 0 <= i < j < |ts| :: ts[i].traceId != ts[j].traceId
    ensures Stored(WrittenAll(rows, ts, clock), t.traceId) == Some(t.version)
    decreases |ts|
  {
    var n := |ts| - 1;
    if ts[n] != t {
      var i :| 0 <= i < |ts| && ts[i] == t;
      assert ts[..n][i] == t;
      StoresLast(rows, ts[..n], clock, t);
    }
  }

  lemma {:induction false} UnseenWereHandled(rows: Rows, ts: seq<Trace>, clock: Clock, t: Trace)
    requires t in Unseen(rows, ts, clock)
    ensures t in ts
    decreases |ts|
  {
    if !Emits(WrittenAll(rows, ts[..|ts| - 1], clock), ts[|ts| - 1]) || ts[|ts| - 1] != t {
      UnseenWereHandled(rows, ts[..|ts| - 1], clock, t);
    }
  }

  /**
   A failing poll stores its first traces and drops the new complete ones among them. Each of these is
   never emitted afterwards, in any run in which no further poll fails, exactly when no later
   observation is a complete version different from the one stored just before it.
   */
  lemma DroppedTraceStaysSilentIffNothingFresh(
      s: State, ts: seq<Trace>, clock: Clock, errorAt: nat, t: Trace, steps: seq<Step>)
    requires errorAt < |ts| && t in Unseen(s.rows, Handled(ts, errorAt), clock)
    requires forall i, j | 0 <= i < j < |ts| :: ts[i].traceId != ts[j].traceId
    requires PossibleRun(AfterPoll(s, Handled(ts, errorAt), clock, false), steps) && AllReported(steps)
    ensures var s0 := AfterPoll(s, Handled(ts, errorAt), clock, false);
            var e := Run(s0, steps);
            && t in s0.dropped && s0.emitted == s.emitted && Extends(s0, e)
            && (EmittedSince(s0, e, t.traceId) == [] <==> NothingFresh(Some(t.version), ObservedSince(s0, e, t.traceId)))
  {
    UnseenWereHandled(s.rows, Handled(ts, errorAt), clock, t);
    StoresLast(s.rows, Handled(ts, errorAt), clock, t);
    SilentIffNothingFresh(AfterPoll(s, Handled(ts, errorAt), clock, false), steps, t.traceId);
  }

  /** A poll of two new complete traces fails at the second; polling both again emits only the second. */
  lemma FailedPollLosesTrace(s: State, t: Trace, u: Trace) returns (steps: seq<Step>)
    requires Init(s) && t.traceId != u.traceId && !t.version.isIncomplete && !u.version.isIncomplete
    ensures PossibleRun(s, steps)
    ensures var e := Run(s, steps); e.observed == [t, t, u] && e.emitted == [u] && e.dropped == [t]
  {
    var fails := PollIsRun(s, [t], _ => 0, false);
    var s1 := Run(s, fails);
    assert [t][..0] == [] && Unseen(s.rows, [t], _ => 0) == [t] by {
      assert WrittenAll(s.rows, [], _ => 0) == s.rows;
    }
    var again := PollIsRun(s1, [t, u], _ => 0, true);
    RepollFindsOnlyNew(s1.rows, t, u, _ => 0);
    RunsJoin(s, fails, again);
    steps := fails + again;
  }

  lemma RepollFindsOnlyNew(rows: Rows, t: Trace, u: Trace, clock: Clock)
    requires Stored(rows, t.traceId) == Some(t.version) && u.traceId !in rows && !u.version.isIncomplete
    ensures Unseen(rows, [t, u], clock) == [u]
  {
    assert [t, u][..1] == [t] && [t][..0] == [];
    assert WrittenAll(rows, [], clock) == rows && Unseen(rows, [], clock) == [];
    assert WrittenAll(rows, [t], clock) == rows && Unseen(rows, [t], clock) == [];
  }

  lemma {:induction false} RunsJoin(s: State, a: seq<Step>, b: seq<Step>)
    requires PossibleRun(s, a) && PossibleRun(Run(s, a), b)
    ensures PossibleRun(s, a + b) && Run(s, a + b) == Run(Run(s, a), b)
    decreases |a|
  {
    if a == [] {
      assert a + b == b;
    } else {
      assert (a + b)[0] == a[0] && (a + b)[1..] == a[1..] + b;
      RunsJoin(Apply(s, a[0]), a[1..], b);
    }
  }
}
