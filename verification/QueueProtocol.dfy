/**
 One relayer queue: the in-memory buffer and its loop, the broker's main, retry and dead-letter
 queues, and the consumers that acknowledge or republish. Publishing, acknowledging and rejecting may
 fail; the broker may take back a delivery at any time. Crashes and the forced cancel are not modelled.
 */
module QueueProtocol {
  import opened Wrappers

  const BUFFER_SIZE: nat := 1000
  const MAX_RETRIES: nat := 3

  type Item = nat
  type Tag = nat

  /** A message as the broker holds it; `retryCount` is the `x-retry-count` header, 0 when absent. */
  datatype Message = Message(item: Item, retryCount: nat)

  /** Where a consumer is with a delivery; `Published`: a copy is in the retry queue, the ack is still due. */
  datatype Phase = Working | Published | Stuck

  /** A delivery is attached until the broker removes or takes back its message. */
  datatype Delivery = Delivery(msg: Message, phase: Phase, attached: bool)

  datatype State = State(
    buffer: seq<Item>,
    inHand: Option<Item>,          // taken by the buffer loop, publish under way
    checking: bool,                // the loop is about to look at the shutdown flag
    shutdown: bool,
    exited: bool,
    requeue: multiset<Item>,       // acknowledged, on its way back into the buffer
    main: multiset<Message>,
    retry: multiset<Message>,
    dead: multiset<Message>,
    deliveries: map<Tag, Delivery>,
    accepted: set<Item>,
    processed: set<Item>)

  /** `acked` and `nacked`: the call took effect at the broker; `ok`: the consumer was told so. */
  datatype Step =
    | Publish(x: Item)                               // accepted into the buffer
    | Take                                           // the loop receives an item
    | Confirm(stored: bool, ok: bool)                // outcome of the loop's publish
    | Check                                          // the loop looks at the shutdown flag
    | Shutdown
    | Expire(m: Message)                             // retry delay over
    | Deliver(tag: Tag, m: Message)
    | TakeBack(tag: Tag)                             // channel lost, the broker requeues
    | Done(tag: Tag, acked: bool)                    // processed, then acknowledged
    | ForceAck(tag: Tag, acked: bool, ok: bool)      // irrelevant task: acknowledge first
    | Requeue(x: Item)                               // and then send to the buffer
    | DeadLetter(tag: Tag, nacked: bool)
    | PublishRetry(tag: Tag)                         // confirmed copy in the retry queue
    | PublishRetryFails(tag: Tag, stored: bool, nacked: bool)
    | AckPublished(tag: Tag, acked: bool)
    | Abandon(tag: Tag)                              // the payload does not decode

  predicate Handles(s: State, tag: Tag, phase: Phase) {
    tag in s.deliveries && s.deliveries[tag].phase == phase
  }

  /** An acknowledgement only succeeds on an attached delivery. */
  predicate CanReach(s: State, tag: Tag, ok: bool)
    requires tag in s.deliveries
  {
    ok ==> s.deliveries[tag].attached
  }

  predicate Enabled(s: State, step: Step) {
    match step
    case Publish(x) => !s.exited && |s.buffer| < BUFFER_SIZE
    case Take => !s.exited && !s.checking && s.inHand.None? && s.buffer != []
    case Confirm(stored, ok) => s.inHand.Some? && (ok ==> stored) && (!ok ==> |s.buffer| < BUFFER_SIZE)
    case Check => s.checking
    case Shutdown => true
    case Expire(m) => m in s.retry
    case Deliver(tag, m) => tag !in s.deliveries && m in s.main
    case TakeBack(tag) => tag in s.deliveries && s.deliveries[tag].attached
    case Done(tag, ok) => Handles(s, tag, Working) && CanReach(s, tag, ok)
    case ForceAck(tag, acked, ok) => Handles(s, tag, Working) && CanReach(s, tag, acked) && (ok ==> acked)
    case Requeue(x) => x in s.requeue && (!s.exited ==> |s.buffer| < BUFFER_SIZE)
    case DeadLetter(tag, ok) =>
      Handles(s, tag, Working) && s.deliveries[tag].msg.retryCount > MAX_RETRIES && CanReach(s, tag, ok)
    case PublishRetry(tag) => Handles(s, tag, Working) && s.deliveries[tag].msg.retryCount <= MAX_RETRIES
    case PublishRetryFails(tag, _, ok) =>
      Handles(s, tag, Working) && s.deliveries[tag].msg.retryCount <= MAX_RETRIES && CanReach(s, tag, ok)
    case AckPublished(tag, ok) => Handles(s, tag, Published) && CanReach(s, tag, ok)
    case Abandon(tag) => Handles(s, tag, Working)
  }

  function Enter(s: State, tag: Tag, phase: Phase): State
    requires tag in s.deliveries
  {
    s.(deliveries := s.deliveries[tag := s.deliveries[tag].(phase := phase)])
  }

  function Remove(s: State, tag: Tag): State {
    s.(deliveries := s.deliveries - {tag})
  }

  /** Acknowledged if the call succeeded, otherwise left with the broker. */
  function Acked(s: State, tag: Tag, ok: bool): State
    requires tag in s.deliveries
  {
    if ok then Remove(s, tag) else Enter(s, tag, Stuck)
  }

  /** Publishing writes a fresh header table, so the retry count is gone. */
  function Fresh(x: Item): multiset<Message> {
    multiset{Message(x, 0)}
  }

  function Apply(s: State, step: Step): State
    requires Enabled(s, step)
  {
    match step
    case Publish(x) => s.(buffer := s.buffer + [x], accepted := s.accepted + {x})
    case Take => s.(inHand := Some(s.buffer[0]), buffer := s.buffer[1..])
    case Confirm(stored, ok) =>
      s.(inHand := None, checking := true,
         main := if stored then s.main + Fresh(s.inHand.value) else s.main,
         buffer := if ok then s.buffer else s.buffer + [s.inHand.value])
    case Check =>
      if s.shutdown && BUFFER_SIZE - |s.buffer| >= BUFFER_SIZE then s.(checking := false, exited := true)
      else s.(checking := false)
    case Shutdown => s.(shutdown := true)
    case Expire(m) => s.(retry := s.retry - multiset{m}, main := s.main + multiset{m})
    case Deliver(tag, m) =>
      s.(main := s.main - multiset{m}, deliveries := s.deliveries[tag := Delivery(m, Working, true)])
    case TakeBack(tag) =>
      s.(main := s.main + multiset{s.deliveries[tag].msg},
         deliveries := s.deliveries[tag := s.deliveries[tag].(attached := false)])
    case Done(tag, ok) => Acked(s.(processed := s.processed + {s.deliveries[tag].msg.item}), tag, ok)
    case ForceAck(tag, acked, ok) =>
      Acked(if ok then s.(requeue := s.requeue + multiset{s.deliveries[tag].msg.item}) else s, tag, acked)
    case Requeue(x) =>
      s.(requeue := s.requeue - multiset{x}, buffer := if s.exited then s.buffer else s.buffer + [x])
    case DeadLetter(tag, ok) =>
      Acked(if ok then s.(dead := s.dead + multiset{s.deliveries[tag].msg}) else s, tag, ok)
    case PublishRetry(tag) => Enter(s.(retry := s.retry + Fresh(s.deliveries[tag].msg.item)), tag, Published)
    case PublishRetryFails(tag, stored, ok) =>
      var s1 := if stored then s.(retry := s.retry + Fresh(s.deliveries[tag].msg.item)) else s;
      Acked(if ok then s1.(main := s1.main + multiset{s.deliveries[tag].msg}) else s1, tag, ok)
    case AckPublished(tag, ok) => Acked(s, tag, ok)
    case Abandon(tag) => Enter(s, tag, Stuck)
  }

  predicate PossibleRun(s: State, steps: seq<Step>)
    decreases |steps|
  {
    steps != [] ==> Enabled(s, steps[0]) && PossibleRun(Apply(s, steps[0]), steps[1..])
  }

  function Run(s: State, steps: seq<Step>): State
    requires PossibleRun(s, steps)
    decreases |steps|
  {
    if steps == [] then s else Run(Apply(s, steps[0]), steps[1..])
  }

  predicate Init(s: State) {
    s == State([], None, false, false, false, multiset{}, multiset{}, multiset{}, multiset{}, map[], {}, {})
  }

  // ----- Copies of an item -----

  function Bit(b: bool): nat {
    if b then 1 else 0
  }

  /** The delivery still stands for its item: with the broker, and not yet replaced by a retry copy. */
  predicate Holds(d: Delivery, x: Item) {
    d.attached && d.phase != Published && d.msg.item == x
  }

  function Holders(ds: map<Tag, Delivery>, x: Item): set<Tag> {
    set tag | tag in ds && Holds(ds[tag], x)
  }

  function InQueue(q: multiset<Message>, x: Item): nat {
    q[Message(x, 0)]
  }

  /** Copies of `x` in the buffer, in the loop's hand, on the way back to the buffer, and with the broker. */
  function Copies(s: State, x: Item): nat {
    multiset(s.buffer)[x] + Bit(s.inHand == Some(x)) + s.requeue[x]
    + InQueue(s.main, x) + InQueue(s.retry, x) + InQueue(s.dead, x) + |Holders(s.deliveries, x)|
  }

  predicate NoCountsIn(q: multiset<Message>) {
    forall m | m in q :: m.retryCount == 0
  }

  predicate NoCountsTaken(ds: map<Tag, Delivery>) {
    forall tag | tag in ds :: ds[tag].msg.retryCount == 0
  }

  /** No message carries a retry count, so none was ever dead-lettered. */
  predicate NoRetryCounts(s: State) {
    NoCountsIn(s.main) && NoCountsIn(s.retry) && NoCountsTaken(s.deliveries) && s.dead == multiset{}
  }

  /** The steps that leave one more copy of `x` behind without accepting it. */
  predicate Duplicates(s: State, step: Step, x: Item)
    requires Enabled(s, step)
  {
    match step
    case Confirm(stored, ok) => stored && !ok && s.inHand == Some(x)           // stored, but not confirmed
    case PublishRetryFails(tag, stored, _) => stored && s.deliveries[tag].msg.item == x
    case AckPublished(tag, ok) =>                                              // republished, but not acked
      !ok && s.deliveries[tag].attached && s.deliveries[tag].msg.item == x
    case TakeBack(tag) => s.deliveries[tag].phase == Published && s.deliveries[tag].msg.item == x
    case PublishRetry(tag) => !s.deliveries[tag].attached && s.deliveries[tag].msg.item == x
    case _ => false
  }

  predicate Accepts(step: Step, x: Item) {
    step == Publish(x)
  }

  /** The acknowledgement that follows successful processing. */
  predicate Completes(s: State, step: Step, x: Item)
    requires Enabled(s, step)
  {
    step.Done? && step.acked && s.deliveries[step.tag].phase == Working && s.deliveries[step.tag].msg.item == x
  }

  /**
   The item a step lets go of: a force requeue sent to the buffer after its loop is gone, or one whose
   acknowledgement took effect but was reported as failed.
   */
  function Dropped(s: State, step: Step): Option<Item>
    requires Enabled(s, step)
  {
    match step
    case Requeue(x) => if s.exited then Some(x) else None
    case ForceAck(tag, acked, ok) => if acked && !ok then Some(s.deliveries[tag].msg.item) else None
    case _ => None
  }

  lemma HoldersAfterRemoval(ds: map<Tag, Delivery>, tag: Tag, x: Item)
    requires tag in ds
    ensures |Holders(ds - {tag}, x)| + Bit(Holds(ds[tag], x)) == |Holders(ds, x)|
  {
    var before := Holders(ds, x);
    assert Holders(ds - {tag}, x) == before - {tag};
    assert tag in before ==> before == (before - {tag}) + {tag};
  }

  lemma HoldersAfterUpdate(ds: map<Tag, Delivery>, tag: Tag, d: Delivery, x: Item)
    ensures |Holders(ds[tag := d], x)| + Bit(tag in ds && Holds(ds[tag], x)) == |Holders(ds, x)| + Bit(Holds(d, x))
  {
    HoldersAfterRemoval(ds[tag := d], tag, x);
    assert ds[tag := d] - {tag} == ds - {tag};
    if tag in ds {
      HoldersAfterRemoval(ds, tag, x);
    } else {
      assert ds - {tag} == ds;
    }
  }

  predicate LoopStep(step: Step) {
    step.Publish? || step.Take? || step.Confirm? || step.Check? || step.Shutdown? || step.Requeue?
  }

  predicate BrokerStep(step: Step) {
    step.Expire? || step.Deliver? || step.TakeBack?
  }

  lemma ConfirmCopies(s: State, stored: bool, ok: bool, x: Item)
    requires Enabled(s, Confirm(stored, ok))
    ensures Copies(Apply(s, Confirm(stored, ok)), x) == Copies(s, x) + Bit(stored && !ok && s.inHand == Some(x))
  {
    var y, s' := s.inHand.value, Apply(s, Confirm(stored, ok));
    assert InQueue(s'.main, x) == InQueue(s.main, x) + Bit(stored && x == y);
    assert multiset(s'.buffer)[x] == multiset(s.buffer)[x] + Bit(!ok && x == y);
  }

  lemma RequeueCopies(s: State, y: Item, x: Item)
    requires Enabled(s, Requeue(y))
    ensures Copies(Apply(s, Requeue(y)), x) + Bit(y == x && s.exited) == Copies(s, x)
  {
    var s' := Apply(s, Requeue(y));
    assert s'.requeue[x] + Bit(y == x) == s.requeue[x];
    assert multiset(s'.buffer)[x] == multiset(s.buffer)[x] + Bit(y == x && !s.exited);
  }

  lemma LoopStepCopies(s: State, step: Step, x: Item)
    requires Enabled(s, step) && LoopStep(step)
    ensures Copies(Apply(s, step), x) + Bit(Dropped(s, step) == Some(x))
            == Copies(s, x) + Bit(Accepts(step, x)) + Bit(Duplicates(s, step, x))
  {
    match step
    case Take => assert s.buffer == [s.buffer[0]] + s.buffer[1..];
    case Requeue(y) => RequeueCopies(s, y, x);
    case Confirm(stored, ok) => ConfirmCopies(s, stored, ok, x);
    case _ =>
  }

  lemma BrokerStepCopies(s: State, step: Step, x: Item)
    requires NoRetryCounts(s) && Enabled(s, step) && BrokerStep(step)
    ensures Copies(Apply(s, step), x) == Copies(s, x) + Bit(Duplicates(s, step, x))
  {
    match step
    case Deliver(tag, m) => HoldersAfterUpdate(s.deliveries, tag, Delivery(m, Working, true), x);
    case TakeBack(tag) => HoldersAfterUpdate(s.deliveries, tag, s.deliveries[tag].(attached := false), x);
    case _ =>
  }

  /** An acknowledged delivery stops holding its item; one left behind holds it again. */
  lemma AckedCopies(s: State, tag: Tag, ok: bool, x: Item)
    requires tag in s.deliveries
    ensures Copies(Acked(s, tag, ok), x) + Bit(Holds(s.deliveries[tag], x))
            == Copies(s, x) + Bit(!ok && s.deliveries[tag].attached && s.deliveries[tag].msg.item == x)
  {
    if ok {
      HoldersAfterRemoval(s.deliveries, tag, x);
    } else {
      HoldersAfterUpdate(s.deliveries, tag, s.deliveries[tag].(phase := Stuck), x);
    }
  }

  lemma PublishRetryCopies(s: State, tag: Tag, x: Item)
    requires Enabled(s, PublishRetry(tag))
    ensures Copies(Apply(s, PublishRetry(tag)), x) == Copies(s, x) + Bit(Duplicates(s, PublishRetry(tag), x))
  {
    HoldersAfterUpdate(s.deliveries, tag, s.deliveries[tag].(phase := Published), x);
  }

  lemma PublishRetryFailsCopies(s: State, tag: Tag, stored: bool, ok: bool, x: Item)
    requires NoRetryCounts(s) && Enabled(s, PublishRetryFails(tag, stored, ok))
    ensures Copies(Apply(s, PublishRetryFails(tag, stored, ok)), x)
            == Copies(s, x) + Bit(stored && s.deliveries[tag].msg.item == x)
  {
    var d := s.deliveries[tag];
    assert d.msg == Message(d.msg.item, 0);
    var s1 := if stored then s.(retry := s.retry + Fresh(d.msg.item)) else s;
    assert Copies(s1, x) == Copies(s, x) + Bit(stored && d.msg.item == x);
    var s2 := if ok then s1.(main := s1.main + Fresh(d.msg.item)) else s1;
    assert Copies(s2, x) == Copies(s1, x) + Bit(ok && d.msg.item == x);
    AckedCopies(s2, tag, ok, x);
  }

  lemma ConsumerStepCopies(s: State, step: Step, x: Item)
    requires NoRetryCounts(s) && Enabled(s, step) && !LoopStep(step) && !BrokerStep(step)
    ensures Copies(Apply(s, step), x) + Bit(Completes(s, step, x)) + Bit(Dropped(s, step) == Some(x))
            == Copies(s, x) + Bit(Duplicates(s, step, x))
  {
    match step
    case Done(tag, ok) => AckedCopies(s.(processed := s.processed + {s.deliveries[tag].msg.item}), tag, ok, x);
    case ForceAck(tag, acked, ok) =>
      AckedCopies(if ok then s.(requeue := s.requeue + multiset{s.deliveries[tag].msg.item}) else s, tag, acked, x);
    case DeadLetter(tag, ok) => assert false;
    case PublishRetry(tag) => PublishRetryCopies(s, tag, x);
    case PublishRetryFails(tag, stored, ok) => PublishRetryFailsCopies(s, tag, stored, ok, x);
    case AckPublished(tag, ok) => AckedCopies(s, tag, ok, x);
    case Abandon(tag) => AckedCopies(s, tag, false, x);
  }

  /** One step: an item gains a copy by acceptance or a failed call, and loses one by completion or by being dropped. */
  lemma StepConservesCopies(s: State, step: Step, x: Item)
    requires NoRetryCounts(s) && Enabled(s, step)
    ensures Copies(Apply(s, step), x) + Bit(Completes(s, step, x)) + Bit(Dropped(s, step) == Some(x))
            == Copies(s, x) + Bit(Accepts(step, x)) + Bit(Duplicates(s, step, x))
  {
    if LoopStep(step) {
      LoopStepCopies(s, step, x);
    } else if BrokerStep(step) {
      BrokerStepCopies(s, step, x);
    } else {
      ConsumerStepCopies(s, step, x);
    }
  }

  lemma BrokerStepNoRetryCounts(s: State, step: Step)
    requires NoRetryCounts(s) && Enabled(s, step) && BrokerStep(step)
    ensures NoRetryCounts(Apply(s, step))
  {
    match step
    case Expire(m) =>
      assert Apply(s, step).deliveries == s.deliveries;
    case Deliver(tag, m) =>
      DeliveryNoCount(s.deliveries, tag, Delivery(m, Working, true));
    case TakeBack(tag) =>
      DeliveryNoCount(s.deliveries, tag, s.deliveries[tag].(attached := false));
  }

  lemma DeliveryNoCount(ds: map<Tag, Delivery>, tag: Tag, d: Delivery)
    requires NoCountsTaken(ds) && d.msg.retryCount == 0
    ensures NoCountsTaken(ds[tag := d]) && NoCountsTaken(ds - {tag})
  {
  }

  lemma LoopStepNoRetryCounts(s: State, step: Step)
    requires NoRetryCounts(s) && Enabled(s, step) && LoopStep(step)
    ensures NoRetryCounts(Apply(s, step))
  {
  }

  lemma ConsumerStepNoRetryCounts(s: State, step: Step)
    requires NoRetryCounts(s) && Enabled(s, step) && !LoopStep(step) && !BrokerStep(step)
    ensures NoRetryCounts(Apply(s, step)) && !step.DeadLetter?
  {
    var ds, tag := s.deliveries, step.tag;
    var s' := Apply(s, step);
    DeliveryNoCount(ds, tag, ds[tag].(phase := Stuck));
    DeliveryNoCount(ds, tag, ds[tag].(phase := Published));
    assert NoCountsIn(s.retry + Fresh(ds[tag].msg.item)) && NoCountsIn(s.main + multiset{ds[tag].msg});
    assert s'.retry == s.retry || s'.retry == s.retry + Fresh(ds[tag].msg.item);
    assert s'.main == s.main || s'.main == s.main + multiset{ds[tag].msg};
  }

  lemma NoRetryCountsStep(s: State, step: Step)
    requires NoRetryCounts(s) && Enabled(s, step)
    ensures NoRetryCounts(Apply(s, step)) && !step.DeadLetter?
  {
    if LoopStep(step) {
      LoopStepNoRetryCounts(s, step);
    } else if BrokerStep(step) {
      BrokerStepNoRetryCounts(s, step);
    } else {
      ConsumerStepNoRetryCounts(s, step);
    }
  }
}
