/**
 The code that drives the queue, run without interruption: a consumer's handler and the buffer loop,
 over their own fields and the broker's. Each is shown to be a run of the queue protocol, with its
 effect on the copies of every item.
 */
module QueueHandlers {
  import opened Wrappers
  import opened QueueProtocol

  /** What processing a delivery came to. */
  datatype Verdict = Processed | Irrelevant | Failed

  /** Outcome of a publish: a confirmed message is stored, an unconfirmed one may be. */
  datatype Outcome = Outcome(stored: bool, confirmed: bool)

  predicate Possible(o: Outcome) {
    o.confirmed ==> o.stored
  }

  /** Outcome of an acknowledgement or rejection: one reported as done took effect, one reported as failed may have. */
  datatype Settled = Settled(applied: bool, ok: bool)

  predicate CanSettle(ds: map<Tag, Delivery>, tag: Tag, a: Settled) {
    tag in ds && (a.ok ==> a.applied) && (a.applied ==> ds[tag].attached)
  }

  /** Item `y` has `d` more copies, every other item as many as before. */
  ghost predicate Shifts(before: State, after: State, y: Item, d: int) {
    forall x :: Copies(after, x) == Copies(before, x) + if x == y then d else 0
  }

  function Net(s: State, step: Step, x: Item): int
    requires Enabled(s, step)
  {
    Bit(Accepts(step, x)) + Bit(Duplicates(s, step, x)) - Bit(Completes(s, step, x)) - Bit(Dropped(s, step) == Some(x))
  }

  lemma StepShifts(s: State, step: Step, y: Item, d: int)
    requires NoRetryCounts(s) && Enabled(s, step)
    requires forall x :: Net(s, step, x) == if x == y then d else 0
    ensures NoRetryCounts(Apply(s, step)) && Shifts(s, Apply(s, step), y, d)
    ensures PossibleRun(s, [step]) && Run(s, [step]) == Apply(s, step)
  {
    NoRetryCountsStep(s, step);
    assert [step][1..] == [];
    forall x
      ensures Copies(Apply(s, step), x) == Copies(s, x) + if x == y then d else 0
    {
      StepConservesCopies(s, step, x);
      assert Net(s, step, x) == if x == y then d else 0;
    }
  }

  /** `after` is reached from `before` by steps of the protocol that move the copies of `y` by `d`. */
  ghost predicate Reaches(before: State, after: State, y: Item, d: int) {
    && NoRetryCounts(after) && Shifts(before, after, y, d)
    && exists steps :: PossibleRun(before, steps) && after == Run(before, steps)
  }

  lemma StepReaches(s: State, step: Step, y: Item, d: int)
    requires NoRetryCounts(s) && Enabled(s, step)
    requires forall x :: Net(s, step, x) == if x == y then d else 0
    ensures Reaches(s, Apply(s, step), y, d)
  {
    StepShifts(s, step, y, d);
  }

  lemma ReachesTwice(s0: State, s1: State, s2: State, y: Item, d: int, e: int)
    requires Reaches(s0, s1, y, d) && Reaches(s1, s2, y, e)
    ensures Reaches(s0, s2, y, d + e)
  {
    var a :| PossibleRun(s0, a) && s1 == Run(s0, a);
    var b :| PossibleRun(s1, b) && s2 == Run(s1, b);
    RunsJoin(s0, a, b);
    assert PossibleRun(s0, a + b);
    ShiftsTwice(s0, s1, s2, y, d, e);
  }

  lemma ShiftsTwice(s0: State, s1: State, s2: State, y: Item, d: int, e: int)
    requires Shifts(s0, s1, y, d) && Shifts(s1, s2, y, e)
    ensures Shifts(s0, s2, y, d + e)
  {
    forall x
      ensures Copies(s2, x) == Copies(s0, x) + if x == y then d + e else 0
    {
      assert Copies(s1, x) == Copies(s0, x) + if x == y then d else 0;
    }
  }

  lemma {:induction false} RunsJoin(s: State, a: seq<Step>, b: seq<Step>)
    requires PossibleRun(s, a) && PossibleRun(Run(s, a), b)
    ensures PossibleRun(s, a + b) && Run(s, a + b) == Run(Run(s, a), b)
    decreases |a|
  {
    if a == [] {
      assert a + b == b;
    } else {
      assert (a + b)[0] == a[0] && (a + b)[1..] == a[1..] + b;
      RunsJoin(Apply(s, a[0]), a[1..], b);
    }
  }

  /** No item has fewer copies than before. */
  ghost predicate Grew(before: State, after: State) {
    forall x :: Copies(after, x) >= Copies(before, x)
  }

  /** What left the buffer is in the main queue. */
  ghost predicate Drained(before: State, after: State) {
    forall x :: InQueue(after.main, x) + multiset(after.buffer)[x] >= InQueue(before.main, x) + multiset(before.buffer)[x]
  }

  lemma GrewThen(s0: State, s1: State, s2: State, y: Item, d: nat)
    requires Grew(s0, s1) && Reaches(s1, s2, y, d)
    ensures Grew(s0, s2)
  {
    forall x
      ensures Copies(s2, x) >= Copies(s0, x)
    {
      assert Copies(s2, x) >= Copies(s1, x) >= Copies(s0, x);
    }
  }

  lemma DrainedThen(s0: State, s1: State, s2: State, o: Outcome)
    requires Drained(s0, s1) && Possible(o) && s1.buffer != []
    requires s2.buffer == s1.buffer[1..] + (if o.confirmed then [] else [s1.buffer[0]])
    requires s2.main == if o.stored then s1.main + Fresh(s1.buffer[0]) else s1.main
    ensures Drained(s0, s2)
  {
    assert s1.buffer == [s1.buffer[0]] + s1.buffer[1..];
    forall x
      ensures InQueue(s2.main, x) + multiset(s2.buffer)[x] >= InQueue(s0.main, x) + multiset(s0.buffer)[x]
    {
      assert InQueue(s1.main, x) + multiset(s1.buffer)[x] >= InQueue(s0.main, x) + multiset(s0.buffer)[x];
      assert multiset(s1.buffer)[x] == Bit(s1.buffer[0] == x) + multiset(s1.buffer[1..])[x];
    }
  }

  // ----- What the handlers do, as protocol steps -----

  /** The oldest item is published, or goes back to the end of the buffer. */
  function AfterPublish(s: State, o: Outcome): State
    requires s.buffer != []
  {
    s.(buffer := s.buffer[1..] + (if o.confirmed then [] else [s.buffer[0]]),
       main := if o.stored then s.main + Fresh(s.buffer[0]) else s.main)
  }

  /** And then the loop ends if it is shutting down and the buffer is empty. */
  function AfterPass(s: State, o: Outcome): State
    requires s.buffer != []
  {
    var s' := AfterPublish(s, o);
    s'.(exited := s.shutdown && s'.buffer == [])
  }

  lemma LoopPassReaches(s: State, o: Outcome)
    requires NoRetryCounts(s) && Enabled(s, Take) && Possible(o) && |s.buffer| <= BUFFER_SIZE && !s.checking && s.inHand.None?
    ensures Reaches(s, AfterPass(s, o), s.buffer[0], Bit(o.stored && !o.confirmed))
  {
    var x, copies := s.buffer[0], Bit(o.stored && !o.confirmed);
    TakeReaches(s);
    var s1 := Apply(s, Take);
    ConfirmReaches(s1, o);
    var s2 := Apply(s1, Confirm(o.stored, o.confirmed));
    CheckReaches(s2, x);
    ReachesTwice(s, s1, s2, x, 0, copies);
    ReachesTwice(s, s2, Apply(s2, Check), x, copies, 0);
    AfterCheck(s, o);
  }

  lemma AfterCheck(s: State, o: Outcome)
    requires Enabled(s, Take) && Possible(o) && |s.buffer| <= BUFFER_SIZE && !s.checking && s.inHand.None? && !s.exited
    ensures var s2 := Apply(Apply(s, Take), Confirm(o.stored, o.confirmed)); Apply(s2, Check) == AfterPass(s, o)
  {
  }

  lemma TakeReaches(s: State)
    requires NoRetryCounts(s) && Enabled(s, Take)
    ensures Reaches(s, Apply(s, Take), s.buffer[0], 0)
  {
    StepReaches(s, Take, s.buffer[0], 0);
  }

  lemma ConfirmReaches(s: State, o: Outcome)
    requires NoRetryCounts(s) && Enabled(s, Confirm(o.stored, o.confirmed))
    ensures Reaches(s, Apply(s, Confirm(o.stored, o.confirmed)), s.inHand.value, Bit(o.stored && !o.confirmed))
  {
    StepReaches(s, Confirm(o.stored, o.confirmed), s.inHand.value, Bit(o.stored && !o.confirmed));
  }

  lemma CheckReaches(s: State, x: Item)
    requires NoRetryCounts(s) && Enabled(s, Check)
    ensures Reaches(s, Apply(s, Check), x, 0)
  {
    StepReaches(s, Check, x, 0);
  }

  /** The deliveries once a call has settled `tag`, or has failed to. */
  function Left(ds: map<Tag, Delivery>, tag: Tag, applied: bool): map<Tag, Delivery>
    requires tag in ds
  {
    if applied then ds - {tag} else ds[tag := ds[tag].(phase := Stuck)]
  }

  /** Acknowledged first, then sent to the buffer, which drops it once its loop is gone. */
  lemma TailReaches(s: State, tag: Tag, a: Settled, s': State)
    requires NoRetryCounts(s) && Handles(s, tag, Working) && CanSettle(s.deliveries, tag, a) && s.requeue == multiset{}
    requires a.ok && !s.exited ==> |s.buffer| < BUFFER_SIZE
    requires var x := s.deliveries[tag].msg.item;
             s' == s.(deliveries := Left(s.deliveries, tag, a.applied),
                      buffer := if a.ok && !s.exited then s.buffer + [x] else s.buffer)
    ensures Reaches(s, s', s.deliveries[tag].msg.item, TailChange(a, s.exited))
  {
    var x := s.deliveries[tag].msg.item;
    ForceAckReaches(s, tag, a);
    var s1 := Apply(s, ForceAck(tag, a.applied, a.ok));
    if a.ok {
      RequeueReaches(s1, x);
      assert multiset{x} - multiset{x} == multiset{};
      assert s' == Apply(s1, Requeue(x));
      ReachesTwice(s, s1, s', x, 0, 0 - Bit(s1.exited));
    }
  }

  lemma ForceAckReaches(s: State, tag: Tag, a: Settled)
    requires NoRetryCounts(s) && Handles(s, tag, Working) && CanSettle(s.deliveries, tag, a)
    ensures Reaches(s, Apply(s, ForceAck(tag, a.applied, a.ok)), s.deliveries[tag].msg.item, 0 - Bit(a.applied && !a.ok))
  {
    StepReaches(s, ForceAck(tag, a.applied, a.ok), s.deliveries[tag].msg.item, 0 - Bit(a.applied && !a.ok));
  }

  lemma RequeueReaches(s: State, x: Item)
    requires NoRetryCounts(s) && Enabled(s, Requeue(x))
    ensures Reaches(s, Apply(s, Requeue(x)), x, 0 - Bit(s.exited))
  {
    StepReaches(s, Requeue(x), x, 0 - Bit(s.exited));
  }

  function AfterRetry(s: State, tag: Tag, applied: bool): State
    requires tag in s.deliveries
  {
    s.(retry := s.retry + Fresh(s.deliveries[tag].msg.item), deliveries := Left(s.deliveries, tag, applied))
  }

  lemma RetryReaches(s: State, tag: Tag, applied: bool)
    requires NoRetryCounts(s) && Handles(s, tag, Working) && CanReach(s, tag, applied)
    ensures Reaches(s, AfterRetry(s, tag, applied), s.deliveries[tag].msg.item, Bit(!applied))
  {
    var x, lost: nat := s.deliveries[tag].msg.item, Bit(!s.deliveries[tag].attached);
    PublishRetryReaches(s, tag);
    var s1 := Apply(s, PublishRetry(tag));
    AckPublishedReaches(s1, tag, applied);
    RetrySteps(s, tag, applied);
    ReachesTwice(s, s1, AfterRetry(s, tag, applied), x, lost, Bit(!applied) - lost);
  }

  lemma RetrySteps(s: State, tag: Tag, applied: bool)
    requires NoRetryCounts(s) && Handles(s, tag, Working) && CanReach(s, tag, applied)
    ensures Apply(Apply(s, PublishRetry(tag)), AckPublished(tag, applied)) == AfterRetry(s, tag, applied)
  {
    var published := s.deliveries[tag := s.deliveries[tag].(phase := Published)];
    assert published - {tag} == s.deliveries - {tag};
    assert published[tag := published[tag].(phase := Stuck)] == s.deliveries[tag := s.deliveries[tag].(phase := Stuck)];
  }

  lemma PublishRetryReaches(s: State, tag: Tag)
    requires NoRetryCounts(s) && Handles(s, tag, Working)
    ensures Reaches(s, Apply(s, PublishRetry(tag)), s.deliveries[tag].msg.item, Bit(!s.deliveries[tag].attached))
  {
    StepReaches(s, PublishRetry(tag), s.deliveries[tag].msg.item, Bit(!s.deliveries[tag].attached));
  }

  lemma AckPublishedReaches(s: State, tag: Tag, applied: bool)
    requires NoRetryCounts(s) && Enabled(s, AckPublished(tag, applied))
    ensures Reaches(s, Apply(s, AckPublished(tag, applied)), s.deliveries[tag].msg.item,
                    Bit(!applied && s.deliveries[tag].attached))
  {
    StepReaches(s, AckPublished(tag, applied), s.deliveries[tag].msg.item, Bit(!applied && s.deliveries[tag].attached));
  }

  function AfterRejection(s: State, tag: Tag, stored: bool, applied: bool): State
    requires tag in s.deliveries
  {
    var m := s.deliveries[tag].msg;
    s.(retry := if stored then s.retry + Fresh(m.item) else s.retry,
       main := if applied then s.main + multiset{m} else s.main,
       deliveries := Left(s.deliveries, tag, applied))
  }

  lemma RetryFailsReaches(s: State, tag: Tag, stored: bool, applied: bool)
    requires NoRetryCounts(s) && Handles(s, tag, Working) && CanReach(s, tag, applied)
    ensures Reaches(s, AfterRejection(s, tag, stored, applied), s.deliveries[tag].msg.item, Bit(stored))
  {
    StepReaches(s, PublishRetryFails(tag, stored, applied), s.deliveries[tag].msg.item, Bit(stored));
  }

  lemma DoneReaches(s: State, tag: Tag, applied: bool, s': State)
    requires NoRetryCounts(s) && Handles(s, tag, Working) && CanReach(s, tag, applied)
    requires s' == s.(processed := s.processed + {s.deliveries[tag].msg.item}, deliveries := Left(s.deliveries, tag, applied))
    ensures Reaches(s, s', s.deliveries[tag].msg.item, 0 - Bit(applied))
  {
    StepReaches(s, Done(tag, applied), s.deliveries[tag].msg.item, 0 - Bit(applied));
  }

  // ----- The handlers -----

  /** The broker's side of one queue. */
  class Broker {
    var main: multiset<Message>
    var retry: multiset<Message>
    var dead: multiset<Message>
    var deliveries: map<Tag, Delivery>

    constructor ()
      ensures main == retry == dead == multiset{} && deliveries == map[]
    {
      main, retry, dead, deliveries := multiset{}, multiset{}, multiset{}, map[];
    }

    method BasicPublish(m: Message, toRetry: bool, o: Outcome) returns (ok: bool)
      modifies this`main, this`retry
      ensures ok == o.confirmed
      ensures main == if o.stored && !toRetry then old(main) + multiset{m} else old(main)
      ensures retry == if o.stored && toRetry then old(retry) + multiset{m} else old(retry)
    {
      if o.stored {
        if toRetry {
          retry := retry + multiset{m};
        } else {
          main := main + multiset{m};
        }
      }
      return o.confirmed;
    }

    method Ack(tag: Tag, a: Settled) returns (ok: bool)
      requires CanSettle(deliveries, tag, a)
      modifies this`deliveries
      ensures ok == a.ok && deliveries == Left(old(deliveries), tag, a.applied)
    {
      deliveries := if a.applied then deliveries - {tag} else deliveries[tag := deliveries[tag].(phase := Stuck)];
      return a.ok;
    }

    method Nack(tag: Tag, requeue: bool, a: Settled) returns (ok: bool)
      requires CanSettle(deliveries, tag, a)
      modifies this`deliveries, this`main, this`dead
      ensures ok == a.ok && deliveries == Left(old(deliveries), tag, a.applied)
      ensures main == if a.applied && requeue then old(main) + multiset{old(deliveries)[tag].msg} else old(main)
      ensures dead == if a.applied && !requeue then old(dead) + multiset{old(deliveries)[tag].msg} else old(dead)
    {
      if a.applied {
        if requeue {
          main := main + multiset{deliveries[tag].msg};
        } else {
          dead := dead + multiset{deliveries[tag].msg};
        }
      }
      deliveries := if a.applied then deliveries - {tag} else deliveries[tag := deliveries[tag].(phase := Stuck)];
      return a.ok;
    }
  }

  function TailChange(a: Settled, exited: bool): int {
    if a.ok then 0 - Bit(exited) else 0 - Bit(a.applied)
  }

  /** The change in the copies of the delivered item. */
  function CopiesChange(verdict: Verdict, publish: Outcome, a: Settled, exited: bool): int {
    match verdict
    case Processed => 0 - Bit(a.applied)
    case Irrelevant => TailChange(a, exited)
    case Failed => if publish.confirmed then Bit(!a.applied) else Bit(publish.stored)
  }

  /**
   Where the item goes, place by place. A failed delivery enters the retry queue exactly if its publish was
   stored, and goes back to the main queue exactly if the publish was not confirmed and the rejection
   took effect; an irrelevant one goes to the end of the buffer exactly if its ack was reported and the
   loop still runs; a processed one goes nowhere.
   */
  predicate HandedBack(s: State, s': State, tag: Tag, verdict: Verdict, publish: Outcome, a: Settled)
    requires tag in s.deliveries
  {
    var m := s.deliveries[tag].msg;
    && s'.retry == (if verdict == Failed && publish.stored then s.retry + multiset{Message(m.item, 0)} else s.retry)
    && s'.main == (if verdict == Failed && !publish.confirmed && a.applied then s.main + multiset{m} else s.main)
    && s'.buffer == (if verdict == Irrelevant && a.ok && !s.exited then s.buffer + [m.item] else s.buffer)
    && s'.dead == s.dead && s'.shutdown == s.shutdown && s'.exited == s.exited
  }

  class Queue {
    const broker: Broker
    var buffer: seq<Item>
    var shutdown: bool
    var exited: bool
    ghost var accepted: set<Item>
    ghost var processed: set<Item>

    constructor (broker: Broker)
      ensures this.broker == broker && buffer == [] && !shutdown && !exited && accepted == processed == {}
    {
      this.broker := broker;
      buffer, shutdown, exited := [], false, false;
      accepted, processed := {}, {};
    }

    /** The protocol state between two handlers. */
    ghost function Abs(): State
      reads this, broker
    {
      State(buffer, None, false, shutdown, exited, multiset{}, broker.main, broker.retry, broker.dead,
            broker.deliveries, accepted, processed)
    }

    /** A delivery that a handler may take up, and the outcome of the call that settles it. */
    ghost predicate Ready(tag: Tag, a: Settled)
      reads this, broker
    {
      NoRetryCounts(Abs()) && Handles(Abs(), tag, Working) && CanSettle(broker.deliveries, tag, a)
    }

    /** Sends an item to the buffer; without its loop the channel is closed and the item is gone. */
    method Publish(x: Item)
      requires !exited ==> |buffer| < BUFFER_SIZE     // the send waits for room
      modifies this`buffer
      ensures buffer == if exited then old(buffer) else old(buffer) + [x]
    {
      if !exited {
        buffer := buffer + [x];
      }
    }

    /** Publishes with a fresh header table. */
    method PublishItem(x: Item, toRetry: bool, o: Outcome) returns (ok: bool)
      modifies broker`main, broker`retry
      ensures ok == o.confirmed
      ensures broker.main == if o.stored && !toRetry then old(broker.main) + Fresh(x) else old(broker.main)
      ensures broker.retry == if o.stored && toRetry then old(broker.retry) + Fresh(x) else old(broker.retry)
    {
      ok := broker.BasicPublish(Message(x, 0), toRetry, o);
    }

    /** Acknowledge, then put the item at the tail of the buffer. */
    method RepublishAtTail(tag: Tag, a: Settled) returns (r: Result<(), string>)
      requires Ready(tag, a) && (a.ok && !exited ==> |buffer| < BUFFER_SIZE)
      modifies this`buffer, broker
      ensures r.Ok? <==> a.ok
      ensures Reaches(old(Abs()), Abs(), old(broker.deliveries)[tag].msg.item, TailChange(a, exited))
      ensures broker.deliveries == Left(old(broker.deliveries), tag, a.applied)
      ensures HandedBack(old(Abs()), Abs(), tag, Irrelevant, Outcome(false, false), a)
    {
      ghost var s := Abs();
      var x := broker.deliveries[tag].msg.item;
      var acked := broker.Ack(tag, a);
      if acked {
        Publish(x);
      }
      TailReaches(s, tag, a, Abs());
      return if acked then Ok(()) else Err("Failed to ack message");
    }

    /** Publish to the retry queue, then acknowledge; if the publish fails, reject for redelivery. */
    method RepublishForRetry(tag: Tag, publish: Outcome, a: Settled) returns (r: Result<(), string>)
      requires Ready(tag, a) && Possible(publish)
      modifies broker
      ensures r.Ok? <==> a.ok && publish.confirmed
      ensures Reaches(old(Abs()), Abs(), old(broker.deliveries)[tag].msg.item,
                      if publish.confirmed then Bit(!a.applied) else Bit(publish.stored))
      ensures broker.deliveries == Left(old(broker.deliveries), tag, a.applied)
      ensures HandedBack(old(Abs()), Abs(), tag, Failed, publish, a)
    {
      if publish.confirmed {
        RetryReaches(Abs(), tag, a.applied);
      } else {
        RetryFailsReaches(Abs(), tag, publish.stored, a.applied);
      }
      r := PublishAndSettle(tag, publish, a);
    }

    method PublishAndSettle(tag: Tag, publish: Outcome, a: Settled) returns (r: Result<(), string>)
      requires CanSettle(broker.deliveries, tag, a) && Possible(publish)
      modifies broker
      ensures r.Ok? <==> a.ok && publish.confirmed
      ensures Abs() == if publish.confirmed then AfterRetry(old(Abs()), tag, a.applied)
                       else AfterRejection(old(Abs()), tag, publish.stored, a.applied)
    {
      var published := PublishItem(broker.deliveries[tag].msg.item, true, publish);
      if !published {
        var _ := broker.Nack(tag, true, a);
        return Err("Failed to republish item");
      }
      var acked := broker.Ack(tag, a);
      return if acked then Ok(()) else Err("Failed to ack message");
    }

    /** To the tail of the buffer when forced, else to the retry queue: the retry limit is never exceeded. */
    method Republish(tag: Tag, forceRequeue: bool, publish: Outcome, a: Settled) returns (r: Result<(), string>)
      requires Ready(tag, a) && Possible(publish) && (forceRequeue && a.ok && !exited ==> |buffer| < BUFFER_SIZE)
      modifies this`buffer, broker
      ensures r.Ok? <==> a.ok && (forceRequeue || publish.confirmed)
      ensures Reaches(old(Abs()), Abs(), old(broker.deliveries)[tag].msg.item,
                      CopiesChange(if forceRequeue then Irrelevant else Failed, publish, a, exited))
      ensures broker.deliveries == Left(old(broker.deliveries), tag, a.applied)
      ensures HandedBack(old(Abs()), Abs(), tag, if forceRequeue then Irrelevant else Failed, publish, a)
    {
      if forceRequeue {
        r := RepublishAtTail(tag, a);
      } else if broker.deliveries[tag].msg.retryCount > MAX_RETRIES {
        assert false;
      } else {
        r := RepublishForRetry(tag, publish, a);
      }
    }

    /** One delivery: ack it when processed, requeue it when irrelevant, retry it when it failed. */
    method OnDelivery(tag: Tag, verdict: Verdict, publish: Outcome, a: Settled)
      requires Ready(tag, a) && Possible(publish)
      requires verdict == Irrelevant && a.ok && !exited ==> |buffer| < BUFFER_SIZE
      modifies this`buffer, this`processed, broker
      ensures Reaches(old(Abs()), Abs(), old(broker.deliveries)[tag].msg.item, CopiesChange(verdict, publish, a, exited))
      ensures processed == if verdict == Processed then old(processed) + {old(broker.deliveries)[tag].msg.item} else old(processed)
      ensures broker.deliveries == Left(old(broker.deliveries), tag, a.applied)
      ensures HandedBack(old(Abs()), Abs(), tag, verdict, publish, a)
    {
      if verdict != Processed {
        var _ := Republish(tag, verdict == Irrelevant, publish, a);
        return;
      }
      ghost var s := Abs();
      processed := processed + {broker.deliveries[tag].msg.item};
      var _ := broker.Ack(tag, a);
      DoneReaches(s, tag, a.applied, Abs());
    }

    /** One pass of the buffer loop: publish the oldest item, put it back if that fails, then look at the flag. */
    method LoopPass(publish: Outcome)
      requires NoRetryCounts(Abs()) && !exited && buffer != [] && |buffer| <= BUFFER_SIZE && Possible(publish)
      modifies this`buffer, this`exited, broker`main, broker`retry
      ensures Reaches(old(Abs()), Abs(), old(buffer)[0], Bit(publish.stored && !publish.confirmed))
      ensures buffer == old(buffer)[1..] + (if publish.confirmed then [] else [old(buffer)[0]])
      ensures broker.main == if publish.stored then old(broker.main) + Fresh(old(buffer)[0]) else old(broker.main)
      ensures broker.retry == old(broker.retry)
      ensures exited <==> shutdown && buffer == []
    {
      LoopPassReaches(Abs(), publish);
      PublishOldest(publish);
      if shutdown && BUFFER_SIZE - |buffer| >= BUFFER_SIZE {
        exited := true;
      }
    }

    method PublishOldest(publish: Outcome)
      requires buffer != []
      modifies this`buffer, broker`main, broker`retry
      ensures Abs() == AfterPublish(old(Abs()), publish)
    {
      var x := buffer[0];
      buffer := buffer[1..];
      var ok := PublishItem(x, false, publish);
      if !ok {
        buffer := buffer + [x];
      }
    }

    /** The loop during a shutdown, with no new items: it exits exactly when it has published everything. */
    method Drain(publishes: seq<Outcome>) returns (used: nat)
      requires NoRetryCounts(Abs()) && !exited && shutdown && buffer != [] && |buffer| <= BUFFER_SIZE
      requires forall o | o in publishes :: Possible(o)
      modifies this`buffer, this`exited, broker`main, broker`retry
      ensures used <= |publishes| && (used < |publishes| ==> exited)
      ensures exited <==> buffer == []
      ensures |buffer| + Confirmed(publishes[..used]) == |old(buffer)|
      ensures Grew(old(Abs()), Abs()) && Drained(old(Abs()), Abs())
    {
      used := 0;
      while used < |publishes| && !exited
        invariant used <= |publishes| && |buffer| <= BUFFER_SIZE && NoRetryCounts(Abs())
        invariant exited <==> buffer == []
        invariant |buffer| + Confirmed(publishes[..used]) == |old(buffer)|
        invariant Grew(old(Abs()), Abs()) && Drained(old(Abs()), Abs())
      {
        ghost var s := Abs();
        var o := publishes[used];
        LoopPass(o);
        GrewThen(old(Abs()), s, Abs(), s.buffer[0], Bit(o.stored && !o.confirmed));
        DrainedThen(old(Abs()), s, Abs(), o);
        ConfirmedSnoc(publishes, used);
        used := used + 1;
      }
    }
  }

  function Confirmed(os: seq<Outcome>): nat {
    if os == [] then 0 else Confirmed(os[..|os| - 1]) + Bit(os[|os| - 1].confirmed)
  }

  lemma ConfirmedSnoc(os: seq<Outcome>, n: nat)
    requires n < |os|
    ensures Confirmed(os[..n + 1]) == Confirmed(os[..n]) + Bit(os[n].confirmed)
  {
    assert os[..n + 1][..n] == os[..n];
  }
}
