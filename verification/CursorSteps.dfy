/**
 The distributor's loop one step at a time, so that it can stop anywhere: a task is recorded, its
 cursor is written, and only then is it published.
 */
module CursorSteps {
  import opened Wrappers
  import opened Distributor

  datatype Phase = Ready | Recorded | Written

  /** `done` tasks of the log have been passed over completely; the queues hold what was published since the start. */
  datatype State = State(
    done: nat, phase: Phase, lastTaskId: Option<TaskId>, storedTaskId: Option<TaskId>,
    includer: seq<Task>, ingestor: seq<Task>)

  /** The log read, and how its tasks are routed. */
  datatype Setting = Setting(log: seq<Task>, config: Config, filter: Filter)

  predicate Enabled(g: Setting, s: State, step: Step) {
    match step
    case Record => s.phase == Ready && s.done < |g.log|
    case Write(_) => s.phase == Recorded
    case Publish => s.phase == Written && s.done < |g.log|
  }

  function Apply(g: Setting, s: State, step: Step): State
    requires Enabled(g, s, step)
  {
    match step
    case Record => s.(phase := Recorded, lastTaskId := Some(g.log[s.done].id))
    case Write(ok) => s.(phase := Written, storedTaskId := if ok then s.lastTaskId else s.storedTaskId)
    case Publish =>
      var t := g.log[s.done];
      s.(phase := Ready, done := s.done + 1,
         includer := if Route(g.config, g.filter, t) == Includer then s.includer + [t] else s.includer,
         ingestor := if Route(g.config, g.filter, t) == Ingestor then s.ingestor + [t] else s.ingestor)
  }

  predicate PossibleRun(g: Setting, s: State, steps: seq<Step>)
    decreases |steps|
  {
    steps != [] ==> Enabled(g, s, steps[0]) && PossibleRun(g, Apply(g, s, steps[0]), steps[1..])
  }

  function Run(g: Setting, s: State, steps: seq<Step>): State
    requires PossibleRun(g, s, steps)
    decreases |steps|
  {
    if steps == [] then s else Run(g, Apply(g, s, steps[0]), steps[1..])
  }

  /** A process starts at `pos`, with nothing published; a recovery may find any cursor stored. */
  predicate Start(g: Setting, s: State, pos: nat) {
    s.done == pos && s.phase == Ready && At(g.log, pos, s.lastTaskId) && s.includer == s.ingestor == []
  }

  /** A task after `pos` that has a queue, is not in it, and lies before the stored cursor: a restart skips it. */
  predicate Skipped(g: Setting, s: State, pos: nat, k: nat, q: nat) {
    && pos <= k < q && At(g.log, q, s.storedTaskId) && Route(g.config, g.filter, g.log[k]) != Nowhere
    && g.log[k] !in s.includer && g.log[k] !in s.ingestor
  }

  ghost predicate CursorAhead(g: Setting, s: State, pos: nat) {
    exists k: nat, q: nat :: Skipped(g, s, pos, k, q)
  }

  /** The cursor write of the task in hand succeeded, its publish is due, and it has a queue. */
  predicate WrittenNotPublished(g: Setting, s: State) {
    && s.phase == Written && s.done < |g.log| && s.storedTaskId == Some(g.log[s.done].id)
    && Route(g.config, g.filter, g.log[s.done]) != Nowhere
  }

  predicate Inv(g: Setting, s: State, pos: nat) {
    && pos <= s.done <= |g.log|
    && s.includer == Routed(g.config, g.filter, g.log[pos..s.done], Includer)
    && s.ingestor == Routed(g.config, g.filter, g.log[pos..s.done], Ingestor)
    && (if s.phase == Ready then At(g.log, s.done, s.lastTaskId)
        else s.done < |g.log| && s.lastTaskId == Some(g.log[s.done].id))
  }

  /** The stored cursor is not beyond the tasks passed over, the task in hand apart. */
  ghost predicate StoredInv(g: Setting, s: State) {
    || NotBeyond(g.log, s.done, s.storedTaskId)
    || (s.phase == Written && s.done < |g.log| && s.storedTaskId == Some(g.log[s.done].id))
  }

  lemma StepKeepsInv(g: Setting, s: State, step: Step, pos: nat)
    requires Enabled(g, s, step) && Inv(g, s, pos)
    ensures Inv(g, Apply(g, s, step), pos)
  {
    if step.Publish? {
      assert g.log[pos..s.done + 1] == g.log[pos..s.done] + [g.log[s.done]];
      RoutedSnoc(g.config, g.filter, g.log[pos..s.done], g.log[s.done]);
    }
  }

  lemma StepKeepsStored(g: Setting, s: State, step: Step, pos: nat)
    requires Enabled(g, s, step) && Inv(g, s, pos) && StoredInv(g, s)
    ensures StoredInv(g, Apply(g, s, step))
  {
    if step.Publish? {
      var s' := Apply(g, s, step);
      if NotBeyond(g.log, s.done, s.storedTaskId) {
        var q: nat :| q <= s.done && At(g.log, q, s.storedTaskId);
        assert q <= s'.done && At(g.log, q, s'.storedTaskId);
      } else {
        assert At(g.log, s'.done, s'.storedTaskId);
      }
    }
  }

  lemma {:induction false} RunKeepsInv(g: Setting, s: State, steps: seq<Step>, pos: nat)
    requires PossibleRun(g, s, steps) && Inv(g, s, pos)
    ensures Inv(g, Run(g, s, steps), pos) && (StoredInv(g, s) ==> StoredInv(g, Run(g, s, steps)))
    decreases |steps|
  {
    if steps != [] {
      StepKeepsInv(g, s, steps[0], pos);
      if StoredInv(g, s) {
        StepKeepsStored(g, s, steps[0], pos);
      }
      RunKeepsInv(g, Apply(g, s, steps[0]), steps[1..], pos);
    }
  }

  lemma AtIsUnique(log: seq<Task>, p: nat, q: nat, cursor: Option<TaskId>)
    requires DistinctIds(log) && At(log, p, cursor) && At(log, q, cursor)
    ensures p == q
  {
  }

  /** A task that belongs to a queue is in it exactly when its turn has come. */
  lemma PublishedIffPassed(g: Setting, s: State, pos: nat, k: nat)
    requires DistinctIds(g.log) && Inv(g, s, pos) && pos <= k < |g.log|
    requires Route(g.config, g.filter, g.log[k]) != Nowhere
    ensures g.log[k] in s.includer || g.log[k] in s.ingestor <==> k < s.done
  {
    var ts, t := g.log[pos..s.done], g.log[k];
    RoutedIsAPartition(g.config, g.filter, ts);
    if k < s.done {
      PublishedExactlyOnce(g.config, g.filter, g.log, pos, s.done, k);
    } else {
      assert t !in ts;
      assert multiset(ts)[t] == 0;
    }
  }

  lemma SkippedIffNotReached(g: Setting, s: State, pos: nat, k: nat, q: nat)
    requires DistinctIds(g.log) && Inv(g, s, pos)
    ensures Skipped(g, s, pos, k, q) <==> NotReached(g, s, k, q)
  {
    if pos <= k < |g.log| && Route(g.config, g.filter, g.log[k]) != Nowhere {
      PublishedIffPassed(g, s, pos, k);
    }
  }

  /** A task with a queue that the loop has not come past, before the stored cursor. */
  predicate NotReached(g: Setting, s: State, k: nat, q: nat) {
    s.done <= k < q && At(g.log, q, s.storedTaskId) && Route(g.config, g.filter, g.log[k]) != Nowhere
  }

  /** Wherever the loop stops, whatever was stored at its start: a restart skips exactly the tasks not yet reached. */
  lemma CursorAheadIffNotReached(g: Setting, s: State, pos: nat, steps: seq<Step>)
    requires DistinctIds(g.log) && Start(g, s, pos) && PossibleRun(g, s, steps)
    ensures CursorAhead(g, Run(g, s, steps), pos) <==> exists k: nat, q: nat :: NotReached(g, Run(g, s, steps), k, q)
  {
    assert g.log[pos..pos] == [];
    RunKeepsInv(g, s, steps, pos);
    forall k: nat, q: nat
      ensures Skipped(g, Run(g, s, steps), pos, k, q) <==> NotReached(g, Run(g, s, steps), k, q)
    {
      SkippedIffNotReached(g, Run(g, s, steps), pos, k, q);
    }
  }

  lemma NotReachedIsInHand(g: Setting, s: State, pos: nat, k: nat, q: nat)
    requires DistinctIds(g.log) && Inv(g, s, pos) && StoredInv(g, s) && NotReached(g, s, k, q)
    ensures WrittenNotPublished(g, s)
  {
    if q' : nat :| q' <= s.done && At(g.log, q', s.storedTaskId) {
      AtIsUnique(g.log, q, q', s.storedTaskId);
    } else {
      assert At(g.log, s.done + 1, s.storedTaskId);
      AtIsUnique(g.log, q, s.done + 1, s.storedTaskId);
    }
  }

  /**
   Started with a stored cursor that is not beyond `pos`, wherever the loop stops: the cursor is beyond
   a task that was never published exactly when the write of the task in hand succeeded, its publish
   is due, and it has a queue.
   */
  lemma CursorAheadIffWrittenNotPublished(g: Setting, s: State, pos: nat, steps: seq<Step>)
    requires DistinctIds(g.log) && Start(g, s, pos) && NotBeyond(g.log, pos, s.storedTaskId) && PossibleRun(g, s, steps)
    ensures CursorAhead(g, Run(g, s, steps), pos) <==> WrittenNotPublished(g, Run(g, s, steps))
  {
    var e := Run(g, s, steps);
    assert g.log[pos..pos] == [];
    RunKeepsInv(g, s, steps, pos);
    CursorAheadIffNotReached(g, s, pos, steps);
    if WrittenNotPublished(g, e) {
      assert NotReached(g, e, e.done, e.done + 1);
    }
    if k: nat, q: nat :| NotReached(g, e, k, q) {
      NotReachedIsInHand(g, e, pos, k, q);
    }
  }

  lemma {:induction false} RunThen(g: Setting, s: State, steps: seq<Step>, step: Step)
    requires PossibleRun(g, s, steps) && Enabled(g, Run(g, s, steps), step)
    ensures PossibleRun(g, s, steps + [step]) && Run(g, s, steps + [step]) == Apply(g, Run(g, s, steps), step)
    decreases |steps|
  {
    if steps == [] {
      assert (steps + [step])[1..] == [];
    } else {
      assert (steps + [step])[0] == steps[0] && (steps + [step])[1..] == steps[1..] + [step];
      RunThen(g, Apply(g, s, steps[0]), steps[1..], step);
    }
  }

  lemma TaskIsRun(g: Setting, s: State, steps: seq<Step>, ok: bool) returns (more: seq<Step>)
    requires PossibleRun(g, s, steps)
    requires Run(g, s, steps).phase == Ready && Run(g, s, steps).done < |g.log|
    ensures more == steps + [Record] + [Write(ok)] + [Publish] && PossibleRun(g, s, more)
    ensures var m, e := Run(g, s, steps), Run(g, s, more);
            var t := g.log[m.done];
            && e.phase == Ready && e.done == m.done + 1 && e.lastTaskId == Some(t.id)
            && e.storedTaskId == (if ok then Some(t.id) else m.storedTaskId)
            && e.includer == (if Route(g.config, g.filter, t) == Includer then m.includer + [t] else m.includer)
            && e.ingestor == (if Route(g.config, g.filter, t) == Ingestor then m.ingestor + [t] else m.ingestor)
  {
    RunThen(g, s, steps, Record);
    more := steps + [Record];
    RunThen(g, s, more, Write(ok));
    more := more + [Write(ok)];
    RunThen(g, s, more, Publish);
    more := more + [Publish];
  }

  /** What a round over `ts` leaves. */
  ghost predicate AfterRound(g: Setting, s: State, e: State, ts: seq<Task>, stores: nat -> bool) {
    && e.phase == Ready && e.done == s.done + |ts|
    && Published(g.config, g.filter, ts, s.includer, s.ingestor, e.includer, e.ingestor)
    && e.storedTaskId == LastStored(s.storedTaskId, ts, stores)
    && e.lastTaskId == if ts == [] then s.lastTaskId else Some(ts[|ts| - 1].id)
  }

  lemma AfterOneMore(g: Setting, s: State, m: State, e: State, ts: seq<Task>, stores: nat -> bool)
    requires ts != [] && AfterRound(g, s, m, ts[..|ts| - 1], stores)
    requires var t := ts[|ts| - 1];
             && e.phase == Ready && e.done == m.done + 1 && e.lastTaskId == Some(t.id)
             && e.storedTaskId == (if stores(|ts| - 1) then Some(t.id) else m.storedTaskId)
             && e.includer == (if Route(g.config, g.filter, t) == Includer then m.includer + [t] else m.includer)
             && e.ingestor == (if Route(g.config, g.filter, t) == Ingestor then m.ingestor + [t] else m.ingestor)
    ensures AfterRound(g, s, e, ts, stores)
  {
    PublishedOneMore(g.config, g.filter, ts, |ts| - 1, s.includer, s.ingestor, m.includer, m.ingestor);
    assert ts[..|ts|] == ts;
  }

  /** A round over the next `n` tasks is a run of these steps, with the queues and cursors the round leaves. */
  lemma {:induction false} RoundIsRun(g: Setting, s: State, n: nat, stores: nat -> bool)
    requires s.phase == Ready && s.done + n <= |g.log|
    ensures PossibleRun(g, s, StepsOf(n, stores))
    ensures AfterRound(g, s, Run(g, s, StepsOf(n, stores)), g.log[s.done..s.done + n], stores)
    decreases n
  {
    var ts := g.log[s.done..s.done + n];
    if n > 0 {
      var before := StepsOf(n - 1, stores);
      RoundIsRun(g, s, n - 1, stores);
      assert ts[..n - 1] == g.log[s.done..s.done + n - 1];
      var steps := TaskIsRun(g, s, before, stores(n - 1));
      AfterOneMore(g, s, Run(g, s, before), Run(g, s, steps), ts, stores);
    }
  }

  /** A run that stops between the write and the publish: a restart at the stored cursor never publishes the task. */
  lemma StopBeforePublishSkipsTask(g: Setting, s: State, pos: nat) returns (steps: seq<Step>)
    requires DistinctIds(g.log) && Start(g, s, pos) && pos < |g.log| && Route(g.config, g.filter, g.log[pos]) != Nowhere
    ensures PossibleRun(g, s, steps)
    ensures var e := Run(g, s, steps);
            && g.log[pos] !in e.includer && g.log[pos] !in e.ingestor
            && At(g.log, pos + 1, e.storedTaskId) && Tail(g.log, e.storedTaskId) == g.log[pos + 1..]
  {
    RunThen(g, s, [], Record);
    RunThen(g, s, [Record], Write(true));
    steps := [Record] + [Write(true)];
    TailStartsAtCursor(g.log, pos + 1, Run(g, s, steps).storedTaskId);
  }
}
