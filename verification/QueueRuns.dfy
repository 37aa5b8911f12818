/** Whole runs of the queue protocol: what is conserved, what can be lost, and how a run ends. */
module QueueRuns {
  import opened Wrappers
  import opened QueueProtocol

  lemma {:induction false} NoRetryCountsRun(s: State, steps: seq<Step>)
    requires NoRetryCounts(s) && PossibleRun(s, steps)
    ensures NoRetryCounts(Run(s, steps))
    decreases |steps|
  {
    if steps != [] {
      NoRetryCountsStep(s, steps[0]);
      NoRetryCountsRun(Apply(s, steps[0]), steps[1..]);
    }
  }

  /** The retry limit is dead code: publishing replaces the header table that would carry the count. */
  lemma DeadLetterIsUnreachable(s: State, steps: seq<Step>, tag: Tag, ok: bool)
    requires Init(s) && PossibleRun(s, steps)
    ensures Run(s, steps).dead == multiset{}
    ensures !Enabled(Run(s, steps), DeadLetter(tag, ok))
  {
    NoRetryCountsRun(s, steps);
  }

  // ----- Whole runs -----

  /** How often, over a run, `x` gained a copy. */
  function Gains(s: State, steps: seq<Step>, x: Item): nat
    requires PossibleRun(s, steps)
    decreases |steps|
  {
    if steps == [] then 0
    else Bit(Accepts(steps[0], x)) + Bit(Duplicates(s, steps[0], x)) + Gains(Apply(s, steps[0]), steps[1..], x)
  }

  /** How often, over a run, `x` lost one. */
  function Losses(s: State, steps: seq<Step>, x: Item): nat
    requires PossibleRun(s, steps)
    decreases |steps|
  {
    if steps == [] then 0
    else Bit(Completes(s, steps[0], x)) + Bit(Dropped(s, steps[0]) == Some(x)) + Losses(Apply(s, steps[0]), steps[1..], x)
  }

  lemma {:induction false} RunConservesCopies(s: State, steps: seq<Step>, x: Item)
    requires NoRetryCounts(s) && PossibleRun(s, steps)
    ensures Copies(Run(s, steps), x) + Losses(s, steps, x) == Copies(s, x) + Gains(s, steps, x)
    decreases |steps|
  {
    if steps != [] {
      StepConservesCopies(s, steps[0], x);
      NoRetryCountsStep(s, steps[0]);
      RunConservesCopies(Apply(s, steps[0]), steps[1..], x);
    }
  }

  /** Every accepted item is processed or still has a copy somewhere. */
  ghost predicate NothingLost(s: State) {
    forall x | x in s.accepted :: x in s.processed || Copies(s, x) > 0
  }

  predicate LosesLastCopy(s: State, step: Step)
    requires Enabled(s, step)
  {
    var x := Dropped(s, step);
    x.Some? && x.value in s.accepted && x.value !in s.processed && Copies(s, x.value) == 1
  }

  lemma StepMarks(s: State, step: Step, x: Item)
    requires Enabled(s, step)
    ensures x in Apply(s, step).accepted <==> x in s.accepted || Accepts(step, x)
    ensures x in s.processed || Completes(s, step, x) ==> x in Apply(s, step).processed
  {
    var s' := Apply(s, step);
    match step
    case Publish(y) => assert s'.accepted == s.accepted + {y};
    case Done(tag, _) => assert s'.processed == s.processed + {s.deliveries[tag].msg.item};
    case _ => assert s'.processed == s.processed && s'.accepted == s.accepted;
  }

  lemma StepKeepsItem(s: State, step: Step, x: Item)
    requires NoRetryCounts(s) && Enabled(s, step)
    requires x in Apply(s, step).accepted && (x in s.accepted ==> x in s.processed || Copies(s, x) > 0)
    ensures x in Apply(s, step).processed || Copies(Apply(s, step), x) > 0 || (LosesLastCopy(s, step) && Dropped(s, step) == Some(x))
  {
    StepMarks(s, step, x);
    StepConservesCopies(s, step, x);
  }

  /** A step loses an item exactly when it drops the last copy of one that was not processed. */
  lemma StepLosesIffLastCopyDropped(s: State, step: Step)
    requires NoRetryCounts(s) && Enabled(s, step) && NothingLost(s)
    ensures NothingLost(Apply(s, step)) <==> !LosesLastCopy(s, step)
  {
    forall x | x in Apply(s, step).accepted
      ensures x in Apply(s, step).processed || Copies(Apply(s, step), x) > 0 || (LosesLastCopy(s, step) && Dropped(s, step) == Some(x))
    {
      StepKeepsItem(s, step, x);
    }
    if LosesLastCopy(s, step) {
      StepConservesCopies(s, step, Dropped(s, step).value);
    }
  }

  /** No step of the run drops a last copy. */
  predicate KeepsLastCopies(s: State, steps: seq<Step>)
    requires PossibleRun(s, steps)
    decreases |steps|
  {
    steps != [] ==> !LosesLastCopy(s, steps[0]) && KeepsLastCopies(Apply(s, steps[0]), steps[1..])
  }

  lemma {:induction false} RunLosesNothing(s: State, steps: seq<Step>)
    requires NoRetryCounts(s) && NothingLost(s) && PossibleRun(s, steps) && KeepsLastCopies(s, steps)
    ensures NothingLost(Run(s, steps))
    decreases |steps|
  {
    if steps != [] {
      StepLosesIffLastCopyDropped(s, steps[0]);
      NoRetryCountsStep(s, steps[0]);
      RunLosesNothing(Apply(s, steps[0]), steps[1..]);
    }
  }

  /** No force acknowledgement takes effect while being reported as failed. */
  predicate NoLostForceAck(steps: seq<Step>) {
    forall step | step in steps && step.ForceAck? :: step.acked ==> step.ok
  }

  /** Without a shutdown, only the lost reply of a force acknowledgement drops an item, whatever else fails. */
  lemma {:induction false} NothingDroppedBeforeShutdown(s: State, steps: seq<Step>)
    requires !s.shutdown && !s.exited && PossibleRun(s, steps) && Shutdown !in steps && NoLostForceAck(steps)
    ensures KeepsLastCopies(s, steps)
    decreases |steps|
  {
    if steps != [] {
      assert steps[0] in steps;
      NothingDroppedBeforeShutdown(Apply(s, steps[0]), steps[1..]);
    }
  }

  lemma AcceptedItemsSurvive(s: State, steps: seq<Step>)
    requires Init(s) && PossibleRun(s, steps)
    requires KeepsLastCopies(s, steps) || (Shutdown !in steps && NoLostForceAck(steps))
    ensures NothingLost(Run(s, steps))
  {
    if Shutdown !in steps && NoLostForceAck(steps) {
      NothingDroppedBeforeShutdown(s, steps);
    }
    RunLosesNothing(s, steps);
  }

  predicate FitsBuffer(s: State) {
    |s.buffer| <= BUFFER_SIZE
  }

  /** The buffer never holds more than its thousand items. */
  lemma {:induction false} BufferStaysBounded(s: State, steps: seq<Step>)
    requires PossibleRun(s, steps) && FitsBuffer(s)
    ensures FitsBuffer(Run(s, steps)) && |Run(s, steps).buffer| <= 1000
    decreases |steps|
  {
    if steps != [] {
      BufferStaysBounded(Apply(s, steps[0]), steps[1..]);
    }
  }

  // ----- Graceful exit -----

  predicate ExitIsClean(s: State) {
    s.exited ==> s.shutdown && s.buffer == [] && s.inHand.None?
  }

  predicate LoopShape(s: State) {
    && ExitIsClean(s)
    && (s.checking ==> s.inHand.None? && !s.exited)
    && (s.inHand.Some? ==> !s.exited)
  }

  lemma {:induction false} ExitOnlyWithEmptyBuffer(s: State, steps: seq<Step>)
    requires LoopShape(s) && PossibleRun(s, steps)
    ensures ExitIsClean(Run(s, steps)) && LoopShape(Run(s, steps))
    decreases |steps|
  {
    if steps != [] {
      ExitOnlyWithEmptyBuffer(Apply(s, steps[0]), steps[1..]);
    }
  }

  // ----- A run that loses an item -----

  lemma {:induction false} RunThen(s: State, steps: seq<Step>, step: Step)
    requires PossibleRun(s, steps) && Enabled(Run(s, steps), step)
    ensures PossibleRun(s, steps + [step]) && Run(s, steps + [step]) == Apply(Run(s, steps), step)
    decreases |steps|
  {
    if steps == [] {
      assert (steps + [step])[1..] == [];
    } else {
      assert (steps + [step])[0] == steps[0] && (steps + [step])[1..] == steps[1..] + [step];
      RunThen(Apply(s, steps[0]), steps[1..], step);
    }
  }

  /** Publishes are confirmed, acks arrive, and the broker takes nothing back. */
  predicate Succeeds(step: Step) {
    match step
    case Confirm(_, ok) => ok
    case TakeBack(_) => false
    case Done(_, ok) => ok
    case ForceAck(_, _, ok) => ok
    case PublishRetryFails(_, _, _) => false
    case AckPublished(_, ok) => ok
    case _ => true
  }

  lemma PublishReachesMain(s: State) returns (steps: seq<Step>)
    requires Init(s)
    ensures PossibleRun(s, steps) && (forall step | step in steps :: Succeeds(step) && step != Shutdown)
    ensures Run(s, steps) == s.(main := multiset{Message(7, 0)}, accepted := {7}, checking := true)
  {
    steps := [];
    RunThen(s, steps, Publish(7));
    steps := steps + [Publish(7)];
    RunThen(s, steps, Take);
    steps := steps + [Take];
    RunThen(s, steps, Confirm(true, true));
    steps := steps + [Confirm(true, true)];
    assert Run(s, steps).main == multiset{Message(7, 0)};
  }

  lemma LoopExitsWithDeliveryOut(s: State) returns (steps: seq<Step>)
    requires Init(s)
    ensures PossibleRun(s, steps) && (forall step | step in steps :: Succeeds(step))
    ensures Run(s, steps) == s.(shutdown := true, exited := true, accepted := {7},
                                deliveries := map[0 := Delivery(Message(7, 0), Working, true)])
  {
    var m := Message(7, 0);
    steps := PublishReachesMain(s);
    RunThen(s, steps, Deliver(0, m));
    steps := steps + [Deliver(0, m)];
    assert Run(s, steps).main == multiset{};
    RunThen(s, steps, Shutdown);
    steps := steps + [Shutdown];
    RunThen(s, steps, Check);
    steps := steps + [Check];
  }

  /** With every publish and ack successful, a graceful shutdown can still drop an item. */
  lemma LateRequeueLosesItem(s: State) returns (steps: seq<Step>)
    requires Init(s)
    ensures PossibleRun(s, steps) && (forall step | step in steps :: Succeeds(step))
    ensures 7 in Run(s, steps).accepted && 7 !in Run(s, steps).processed && Copies(Run(s, steps), 7) == 0
    ensures !NothingLost(Run(s, steps))
  {
    var exits := LoopExitsWithDeliveryOut(s);
    AckThenLateRequeue(s, exits);
    steps := exits + [ForceAck(0, true, true)] + [Requeue(7)];
  }

  lemma AckThenLateRequeue(s: State, steps: seq<Step>)
    requires Init(s) && PossibleRun(s, steps)
    requires Run(s, steps) == s.(shutdown := true, exited := true, accepted := {7},
                                 deliveries := map[0 := Delivery(Message(7, 0), Working, true)])
    ensures var all := steps + [ForceAck(0, true, true)] + [Requeue(7)];
            && PossibleRun(s, all)
            && Run(s, all).accepted == {7} && Run(s, all).processed == {} && Copies(Run(s, all), 7) == 0
  {
    RunThen(s, steps, ForceAck(0, true, true));
    var acked := steps + [ForceAck(0, true, true)];
    assert Run(s, acked).deliveries == map[] && Run(s, acked).requeue == multiset{7};
    RunThen(s, acked, Requeue(7));
    assert Holders(map[], 7) == {};
  }

  /** Long before any shutdown, a force acknowledgement whose reply is lost drops its item. */
  lemma LostForceAckLosesItem(s: State) returns (steps: seq<Step>)
    requires Init(s)
    ensures PossibleRun(s, steps) && Shutdown !in steps
    ensures 7 in Run(s, steps).accepted && 7 !in Run(s, steps).processed && Copies(Run(s, steps), 7) == 0
  {
    steps := PublishReachesMain(s);
    RunThen(s, steps, Deliver(0, Message(7, 0)));
    steps := steps + [Deliver(0, Message(7, 0))];
    assert Run(s, steps).main == multiset{};
    RunThen(s, steps, ForceAck(0, true, false));
    steps := steps + [ForceAck(0, true, false)];
    assert Run(s, steps).deliveries == map[];
    assert Holders(map[], 7) == {};
  }

  // ----- A failed item comes back -----

  lemma RetryIsPublished(s: State, tag: Tag) returns (steps: seq<Step>)
    requires Handles(s, tag, Working) && s.deliveries[tag].attached && s.deliveries[tag].msg.retryCount <= MAX_RETRIES
    ensures PossibleRun(s, steps)
    ensures Run(s, steps) == s.(retry := s.retry + Fresh(s.deliveries[tag].msg.item), deliveries := s.deliveries - {tag})
  {
    steps := [];
    RunThen(s, steps, PublishRetry(tag));
    steps := steps + [PublishRetry(tag)];
    RunThen(s, steps, AckPublished(tag, true));
    steps := steps + [AckPublished(tag, true)];
    assert Run(s, steps).deliveries == s.deliveries - {tag};
  }

  /** A failed item comes back after its delay with no retry count, so it can fail again without end. */
  lemma RetriedItemIsDeliveredAgain(s: State, tag: Tag, again: Tag) returns (steps: seq<Step>)
    requires Handles(s, tag, Working) && s.deliveries[tag].attached && s.deliveries[tag].msg.retryCount <= MAX_RETRIES
    requires again !in s.deliveries
    ensures PossibleRun(s, steps)
    ensures Run(s, steps)
            == s.(deliveries := (s.deliveries - {tag})[again := Delivery(Message(s.deliveries[tag].msg.item, 0), Working, true)])
  {
    var m := Message(s.deliveries[tag].msg.item, 0);
    var published := RetryIsPublished(s, tag);
    ExpiredIsDelivered(Run(s, published), m, again);
    RunThen(s, published, Expire(m));
    RunThen(s, published + [Expire(m)], Deliver(again, m));
    steps := published + [Expire(m)] + [Deliver(again, m)];
    assert s.retry + multiset{m} - multiset{m} == s.retry;
  }

  lemma ExpiredIsDelivered(s: State, m: Message, again: Tag)
    requires m in s.retry && again !in s.deliveries
    ensures Enabled(s, Expire(m)) && Enabled(Apply(s, Expire(m)), Deliver(again, m))
    ensures Apply(Apply(s, Expire(m)), Deliver(again, m))
            == s.(retry := s.retry - multiset{m}, deliveries := s.deliveries[again := Delivery(m, Working, true)])
  {
    assert s.main + multiset{m} - multiset{m} == s.main;
  }
}
