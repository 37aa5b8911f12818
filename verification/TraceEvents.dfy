/** The events of a parsed trace, and the declarative reading of how they come about. */
module TraceEvents {
  import opened Wrappers
  import opened Traces
  import opened TraceParser
  import GasCalculator

  datatype Event =
    | CallEvent(eventId: string, messageId: string, call: CallLog)
    | GasCreditEvent(eventId: string, messageId: string, refundAddress: Address, tokenId: Option<Address>, amount: nat)
    | ApprovedEvent(eventId: string, approved: ApprovedLog, cost: nat)
    | ExecutedEvent(eventId: string, executed: ExecutedLog, cost: nat)
    | RefundedEvent(eventId: string, refunded: RefundedLog, cost: nat)
    | CannotExecuteEvent(messageId: string, sourceChain: string, details: string)

  /** The event of a parser; a gas payment needs the message id of the call it pays for. */
  function EventOf(p: Parser, messageId: Option<string>): Option<Event> {
    match p
    case Call(tx, log) =>
      if tx.messageId.Some? && log.payload.Some? then Some(CallEvent(tx.hash, tx.messageId.value, log)) else None
    case Executed(tx, log) => Some(ExecutedEvent(tx.hash, log, 0))
    case Approved(tx, log) => Some(ApprovedEvent(tx.hash, log, 0))
    case Paid(tx, log) =>
      if messageId.Some?
      then Some(GasCreditEvent(tx.hash + "-gas", messageId.value, log.refundAddress, log.minter, log.amount))
      else None
    case Added(tx, log) =>
      Some(GasCreditEvent(tx.hash + "-gas", log.messageId, log.refundAddress, log.minter, log.amount))
    case Refunded(tx, log) => Some(RefundedEvent(tx.hash, log, 0))
    case InsufficientGas(id, sourceChain, traceId) => Some(CannotExecuteEvent(id, sourceChain, traceId))
  }

  /** Gas totals of the trace and the number of approvals they are spread over. */
  datatype Gas = Gas(total: nat, refund: nat, approved: nat)

  /** Price conversion from a jetton to native coins. */
  type Conversion = (Address, nat) -> Option<nat>

  /** The event with its costs filled in and jetton amounts converted. */
  function Settle(e: Event, gas: Gas, convert: Conversion): Option<Event>
    requires e.ApprovedEvent? ==> gas.approved > 0
  {
    match e
    case GasCreditEvent(_, _, _, tokenId, amount) =>
      if tokenId.None? then Some(e)
      else
        var native := convert(tokenId.value, amount);
        if native.None? then None else Some(e.(tokenId := None, amount := native.value))
    case ApprovedEvent(id, log, _) => Some(ApprovedEvent(id, log, gas.total / gas.approved))
    case ExecutedEvent(id, log, _) => Some(ExecutedEvent(id, log, gas.total))
    case RefundedEvent(id, log, _) => Some(RefundedEvent(id, log, gas.refund))
    case _ => Some(e)
  }

  /** All values of a list, or nothing if one is missing. */
  function Sequence<T>(os: seq<Option<T>>): (r: Option<seq<T>>)
    ensures r.Some? <==> forall i | 0 <= i < |os| :: os[i].Some?
    ensures r.Some? ==> |r.value| == |os| && forall i | 0 <= i < |os| :: r.value[i] == os[i].value
  {
    if os == [] then Some([])
    else
      var before, last := Sequence(os[..|os| - 1]), os[|os| - 1];
      if before.Some? && last.Some? then Some(before.value + [last.value]) else None
  }

  // ----- What the events should be -----

  /** No earlier call has the same key. */
  predicate FirstOfItsKey(calls: seq<Parser>, i: nat)
    requires i < |calls| && forall j | 0 <= j < |calls| :: calls[j].Call?
  {
    forall j | 0 <= j < i :: calls[j].call.key != calls[i].call.key
  }

  /** The last payment with the key, if there is one. */
  function LastPayment(payments: seq<Parser>, key: MatchingKey): (r: Option<nat>)
    requires forall i | 0 <= i < |payments| :: payments[i].Paid?
    ensures r.None? <==> forall j | 0 <= j < |payments| :: payments[j].paid.key != key
    ensures r.Some? ==>
              && r.value < |payments| && payments[r.value].paid.key == key
              && forall j | r.value < j < |payments| :: payments[j].paid.key != key
  {
    if payments == [] then None
    else if payments[|payments| - 1].paid.key == key then Some(|payments| - 1)
    else LastPayment(payments[..|payments| - 1], key)
  }

  /** The payment credited at a call: the last one with its key, if the call is the first with that key. */
  function CreditedPayment(col: Collected, i: nat): Option<nat>
    requires Sorted(col) && i < |col.calls|
  {
    if FirstOfItsKey(col.calls, i) then LastPayment(col.payments, col.calls[i].call.key) else None
  }

  /** A call's event and, right after it, the credit of its payment under the call's message id. */
  function EventsOfCall(col: Collected, i: nat): seq<Option<Event>>
    requires Sorted(col) && i < |col.calls|
  {
    var credited := CreditedPayment(col, i);
    [EventOf(col.calls[i], None)] +
    if credited.Some? then [EventOf(col.payments[credited.value], col.calls[i].tx.messageId)] else []
  }

  function EventsOfCalls(col: Collected, n: nat): seq<Option<Event>>
    requires Sorted(col) && n <= |col.calls|
  {
    if n == 0 then [] else EventsOfCalls(col, n - 1) + EventsOfCall(col, n - 1)
  }

  function EventsOfOthers(others: seq<Parser>): (es: seq<Option<Event>>)
    ensures |es| == |others| && forall i | 0 <= i < |others| :: es[i] == EventOf(others[i], None)
  {
    seq(|others|, i requires 0 <= i < |others| => EventOf(others[i], None))
  }

  function RawEvents(col: Collected): seq<Option<Event>>
    requires Sorted(col)
  {
    EventsOfCalls(col, |col.calls|) + EventsOfOthers(col.others)
  }

  /** Only approvals make approval events, so whenever one is settled there is an approval to divide by. */
  predicate Divisible(es: seq<Event>, gas: Gas) {
    forall i | 0 <= i < |es| && es[i].ApprovedEvent? :: gas.approved > 0
  }

  function SettleAll(es: seq<Event>, gas: Gas, convert: Conversion): (r: seq<Option<Event>>)
    requires Divisible(es, gas)
    ensures |r| == |es| && forall i | 0 <= i < |es| :: r[i] == Settle(es[i], gas, convert)
  {
    seq(|es|, i requires 0 <= i < |es| => Settle(es[i], gas, convert))
  }

  /** No payment is credited at two calls. */
  lemma NoPaymentIsCreditedTwice(col: Collected, i: nat, j: nat)
    requires Sorted(col) && i < j < |col.calls|
    ensures CreditedPayment(col, i).Some? && CreditedPayment(col, j).Some? ==>
              CreditedPayment(col, i) != CreditedPayment(col, j)
  {
  }

  lemma {:induction false} PaymentMapHoldsLast(payments: seq<Parser>, key: MatchingKey)
    requires forall i | 0 <= i < |payments| :: payments[i].Paid?
    ensures key in PaymentMap(payments) <==> LastPayment(payments, key).Some?
    ensures key in PaymentMap(payments) ==> PaymentMap(payments)[key] == payments[LastPayment(payments, key).value]
  {
    if payments != [] {
      PaymentMapHoldsLast(payments[..|payments| - 1], key);
    }
  }

  // ----- The loops that produce them -----

  lemma {:induction false} EventsOfCallsGrow(col: Collected, n: nat, m: nat)
    requires Sorted(col) && n <= m <= |col.calls|
    ensures EventsOfCalls(col, n) <= EventsOfCalls(col, m)
    decreases m
  {
    if n < m {
      EventsOfCallsGrow(col, n, m - 1);
    }
  }

  lemma SequenceFails<T>(os: seq<Option<T>>, more: seq<Option<T>>)
    requires os <= more && Sequence(os).None?
    ensures Sequence(more).None?
  {
    var i :| 0 <= i < |os| && os[i].None?;
    assert more[i] == os[i];
  }

  /** One of the first `n` calls has the key. */
  predicate Taken(col: Collected, n: nat, key: MatchingKey)
    requires Sorted(col) && n <= |col.calls|
  {
    exists j :: 0 <= j < n && col.calls[j].call.key == key
  }

  /** The payments still in the map once the first `n` calls have taken theirs out. */
  ghost predicate Remaining(credits: map<MatchingKey, Parser>, col: Collected, n: nat)
    requires Sorted(col) && n <= |col.calls|
  {
    && (forall key :: key in credits <==> LastPayment(col.payments, key).Some? && !Taken(col, n, key))
    && (forall key | key in credits :: credits[key] == col.payments[LastPayment(col.payments, key).value])
  }

  lemma PaymentMapIsRemaining(col: Collected)
    requires Sorted(col)
    ensures Remaining(PaymentMap(col.payments), col, 0)
  {
    forall key ensures key in PaymentMap(col.payments) <==> LastPayment(col.payments, key).Some? && !Taken(col, 0, key) {
      PaymentMapHoldsLast(col.payments, key);
    }
    forall key | key in PaymentMap(col.payments)
      ensures PaymentMap(col.payments)[key] == col.payments[LastPayment(col.payments, key).value]
    {
      PaymentMapHoldsLast(col.payments, key);
    }
  }

  lemma TakenNext(col: Collected, i: nat, key: MatchingKey)
    requires Sorted(col) && i < |col.calls|
    ensures Taken(col, i + 1, key) <==> Taken(col, i, key) || key == col.calls[i].call.key
  {
  }

  /** At each call the map holds a payment under its key exactly when that payment is to be credited here. */
  lemma RemainingAtCall(credits: map<MatchingKey, Parser>, col: Collected, i: nat)
    requires Sorted(col) && i < |col.calls| && Remaining(credits, col, i)
    ensures var key := col.calls[i].call.key;
            && (key in credits <==> CreditedPayment(col, i).Some?)
            && (key in credits ==> credits[key] == col.payments[CreditedPayment(col, i).value])
            && Remaining(credits - {key}, col, i + 1)
  {
    var key := col.calls[i].call.key;
    assert FirstOfItsKey(col.calls, i) <==> !Taken(col, i, key);
    forall k ensures k in credits - {key} <==> LastPayment(col.payments, k).Some? && !Taken(col, i + 1, k) {
      TakenNext(col, i, k);
    }
  }

  predicate AllPresent<T(==)>(os: seq<Option<T>>, values: seq<T>) {
    |os| == |values| && forall i | 0 <= i < |os| :: os[i] == Some(values[i])
  }

  lemma SequenceOfPresent<T>(os: seq<Option<T>>, values: seq<T>)
    requires AllPresent(os, values)
    ensures Sequence(os) == Some(values)
  {
    assert Sequence(os).value == values;
  }

  /** A call that fails makes the whole list fail. */
  lemma FailingCall(col: Collected, i: nat)
    requires Sorted(col) && i < |col.calls| && EventOf(col.calls[i], None).None?
    ensures Sequence(EventsOfCalls(col, |col.calls|)).None?
  {
    assert EventsOfCalls(col, i + 1)[|EventsOfCalls(col, i)|].None?;
    EventsOfCallsGrow(col, i + 1, |col.calls|);
    SequenceFails(EventsOfCalls(col, i + 1), EventsOfCalls(col, |col.calls|));
  }

  lemma PresentConcat<T>(a: seq<Option<T>>, x: seq<T>, b: seq<Option<T>>, y: seq<T>)
    requires AllPresent(a, x) && AllPresent(b, y)
    ensures AllPresent(a + b, x + y)
  {
  }

  /** One call: its event and the credit taken out of the map, or nothing if the event fails. */
  method EmitCall(call: Parser, credits: map<MatchingKey, Parser>, ghost col: Collected, ghost i: nat)
    returns (added: Option<seq<Event>>, rest: map<MatchingKey, Parser>)
    requires Sorted(col) && i < |col.calls| && call == col.calls[i] && Remaining(credits, col, i)
    ensures added.None? ==> EventOf(call, None).None?
    ensures added.Some? ==> AllPresent(EventsOfCall(col, i), added.value) && Remaining(rest, col, i + 1)
  {
    var event := EventOf(call, None);
    if event.None? {
      return None, credits;
    }
    RemainingAtCall(credits, col, i);
    added := Some([event.value]);
    if call.call.key in credits {
      added := Some([event.value, EventOf(credits[call.call.key], call.tx.messageId).value]);
    }
    rest := credits - {call.call.key};
  }

  lemma CallEmits(col: Collected, i: nat, events: seq<Event>, added: seq<Event>)
    requires Sorted(col) && i < |col.calls|
    requires AllPresent(EventsOfCalls(col, i), events) && AllPresent(EventsOfCall(col, i), added)
    ensures AllPresent(EventsOfCalls(col, i + 1), events + added)
  {
    PresentConcat(EventsOfCalls(col, i), events, EventsOfCall(col, i), added);
  }

  method EmitCalls(calls: seq<Parser>, payments: map<MatchingKey, Parser>, ghost col: Collected)
    returns (r: Option<seq<Event>>)
    requires Sorted(col) && calls == col.calls && payments == PaymentMap(col.payments)
    ensures r == Sequence(EventsOfCalls(col, |calls|))
  {
    var events: seq<Event>, credits := [], payments;
    PaymentMapIsRemaining(col);
    for i := 0 to |calls|
      invariant Remaining(credits, col, i)
      invariant AllPresent(EventsOfCalls(col, i), events)
    {
      var added, rest := EmitCall(calls[i], credits, col, i);
      if added.None? {
        FailingCall(col, i);
        return None;
      }
      CallEmits(col, i, events, added.value);
      events, credits := events + added.value, rest;
    }
    SequenceOfPresent(EventsOfCalls(col, |calls|), events);
    return Some(events);
  }

  method EmitOthers(others: seq<Parser>) returns (r: Option<seq<Event>>)
    ensures r == Sequence(EventsOfOthers(others))
  {
    var events: seq<Event> := [];
    for i := 0 to |others|
      invariant AllPresent(EventsOfOthers(others)[..i], events)
    {
      var event := EventOf(others[i], None);
      if event.None? {
        assert EventsOfOthers(others)[i].None?;
        return None;
      }
      events := events + [event.value];
    }
    SequenceOfPresent(EventsOfOthers(others), events);
    return Some(events);
  }

  method SettleEvents(es: seq<Event>, gas: Gas, convert: Conversion) returns (r: Option<seq<Event>>)
    requires Divisible(es, gas)
    ensures r == Sequence(SettleAll(es, gas, convert))
  {
    var events: seq<Event> := [];
    for i := 0 to |es|
      invariant AllPresent(SettleAll(es, gas, convert)[..i], events)
    {
      var event := Settle(es[i], gas, convert);
      if event.None? {
        assert SettleAll(es, gas, convert)[i].None?;
        return None;
      }
      events := events + [event.value];
    }
    SequenceOfPresent(SettleAll(es, gas, convert), events);
    return Some(events);
  }

  // ----- Spreading the gas over the approvals -----

  function CountApprovals(es: seq<Option<Event>>): nat {
    if es == [] then 0
    else
      CountApprovals(es[..|es| - 1]) +
      if es[|es| - 1].Some? && es[|es| - 1].value.ApprovedEvent? then 1 else 0
  }

  lemma {:induction false} CountApprovalsConcat(a: seq<Option<Event>>, b: seq<Option<Event>>)
    ensures CountApprovals(a + b) == CountApprovals(a) + CountApprovals(b)
    decreases |b|
  {
    if b == [] {
      assert a + b == a;
    } else {
      assert (a + b)[..|a + b| - 1] == a + b[..|b| - 1];
      CountApprovalsConcat(a, b[..|b| - 1]);
    }
  }

  predicate NoneApproved(es: seq<Option<Event>>) {
    forall i | 0 <= i < |es| && es[i].Some? :: !es[i].value.ApprovedEvent?
  }

  lemma {:induction false} NoApprovals(es: seq<Option<Event>>)
    requires NoneApproved(es)
    ensures CountApprovals(es) == 0
  {
    if es != [] {
      NoApprovals(es[..|es| - 1]);
    }
  }

  lemma CallIsNoApproval(col: Collected, i: nat)
    requires Sorted(col) && i < |col.calls|
    ensures NoneApproved(EventsOfCall(col, i))
  {
  }

  lemma {:induction false} CallsAreNoApprovals(col: Collected, n: nat)
    requires Sorted(col) && n <= |col.calls|
    ensures NoneApproved(EventsOfCalls(col, n))
  {
    if n > 0 {
      CallsAreNoApprovals(col, n - 1);
      CallIsNoApproval(col, n - 1);
    }
  }

  lemma {:induction false} OthersApprovals(others: seq<Parser>)
    ensures CountApprovals(EventsOfOthers(others)) == CountApproved(others)
  {
    if others != [] {
      var n := |others| - 1;
      OthersApprovals(others[..n]);
      assert EventsOfOthers(others)[..n] == EventsOfOthers(others[..n]);
    }
  }

  lemma RawApprovals(col: Collected)
    requires Sorted(col)
    ensures CountApprovals(RawEvents(col)) == CountApproved(col.others)
  {
    CallsAreNoApprovals(col, |col.calls|);
    NoApprovals(EventsOfCalls(col, |col.calls|));
    OthersApprovals(col.others);
    CountApprovalsConcat(EventsOfCalls(col, |col.calls|), EventsOfOthers(col.others));
  }

  lemma {:induction false} CountedApproval(es: seq<Option<Event>>, i: nat)
    requires i < |es| && es[i].Some? && es[i].value.ApprovedEvent?
    ensures CountApprovals(es) > 0
  {
    if i < |es| - 1 {
      CountedApproval(es[..|es| - 1], i);
    }
  }

  /** Dividing the gas by the number of approvals is safe on every trace. */
  lemma DivisionIsSafe(col: Collected, es: seq<Event>, gas: Gas)
    requires Sorted(col) && Sequence(RawEvents(col)) == Some(es) && gas.approved == CountApproved(col.others)
    ensures Divisible(es, gas)
  {
    RawApprovals(col);
    forall i | 0 <= i < |es| && es[i].ApprovedEvent? ensures gas.approved > 0 {
      CountedApproval(RawEvents(col), i);
    }
  }

  function GasOf(c: Config, trace: Trace, col: Collected): Gas {
    var ours := GasCalculator.AddressSet(c.ours);
    Gas(GasCalculator.Clamped(GasCalculator.TraceCost(ours, trace.transactions)),
        GasCalculator.RefundGas(ours, trace.transactions),
        CountApproved(col.others))
  }

  /** The events of a trace, or nothing when any step on the way fails. */
  function ExpectedEvents(order: seq<Kind>, c: Config, trace: Trace, convert: Conversion): Option<seq<Event>> {
    var col := CollectTrace(order, c, trace);
    if col.None? || Sequence(RawEvents(col.value)).None? then None
    else
      var es, gas := Sequence(RawEvents(col.value)).value, GasOf(c, trace, col.value);
      DivisionIsSafe(col.value, es, gas);
      Sequence(SettleAll(es, gas, convert))
  }

  lemma SequenceConcat<T>(a: seq<Option<T>>, b: seq<Option<T>>)
    ensures Sequence(a + b) ==
            if Sequence(a).Some? && Sequence(b).Some? then Some(Sequence(a).value + Sequence(b).value) else None
  {
    if Sequence(a).None? {
      SequenceFails(a, a + b);
    } else if Sequence(b).None? {
      var i :| 0 <= i < |b| && b[i].None?;
      assert (a + b)[|a| + i].None?;
    } else {
      SequenceOfPresent(a + b, Sequence(a).value + Sequence(b).value);
    }
  }

  // ----- What the settled events are, position by position -----

  /** The event keeps everything but its cost, or, for a credit, its token and amount: the token is converted away. */
  predicate Settles(raw: Event, e: Event, convert: Conversion) {
    match raw
    case GasCreditEvent(id, messageId, refundAddress, tokenId, amount) =>
      && e.GasCreditEvent? && e.eventId == id && e.messageId == messageId && e.refundAddress == refundAddress
      && e.tokenId.None?
      && (tokenId.None? ==> e.amount == amount)
      && (tokenId.Some? ==> convert(tokenId.value, amount) == Some(e.amount))
    case ApprovedEvent(id, log, _) => e.ApprovedEvent? && e.eventId == id && e.approved == log
    case ExecutedEvent(id, log, _) => e.ExecutedEvent? && e.eventId == id && e.executed == log
    case RefundedEvent(id, log, _) => e.RefundedEvent? && e.eventId == id && e.refunded == log
    case _ => e == raw
  }

  /** A credit in a token that has no price. */
  predicate Unconvertible(raw: Event, convert: Conversion) {
    raw.GasCreditEvent? && raw.tokenId.Some? && convert(raw.tokenId.value, raw.amount).None?
  }

  function Approvals(es: seq<Event>): set<nat> {
    set i: nat | i < |es| && es[i].ApprovedEvent?
  }

  /**
   An execution is charged the gas of the whole trace, a refund the gas less the refund, an approval
   its share of the whole, rounded down.
   */
  ghost predicate Charged(e: Event, ours: set<Address>, txs: seq<Transaction>, approvals: nat) {
    && (e.ExecutedEvent? ==> GasCalculator.IsGas(e.cost, GasCalculator.TraceCost(ours, txs)))
    && (e.RefundedEvent? ==> GasCalculator.IsRefundGas(e.cost, ours, txs))
    && (e.ApprovedEvent? ==> approvals > 0 && IsShare(e.cost, GasCalculator.TraceCost(ours, txs), approvals))
  }

  ghost predicate IsShare(share: nat, total: int, approvals: nat)
    requires approvals > 0
  {
    exists gas: nat :: gas < 0x1_0000_0000_0000_0000 && GasCalculator.IsGas(gas, total) && share == gas / approvals
  }

  /** The events of a trace, or none, in terms of its parsers alone. */
  ghost predicate Answers(order: seq<Kind>, c: Config, trace: Trace, convert: Conversion, r: Option<seq<Event>>) {
    var col, ours := CollectTrace(order, c, trace), GasCalculator.AddressSet(c.ours);
    if col.None? then r.None?
    else
      var raw := RawEvents(col.value);
      && (r.None? <==> exists i :: 0 <= i < |raw| && (raw[i].None? || Unconvertible(raw[i].value, convert)))
      && (r.Some? ==>
            && |r.value| == |raw|
            && forall i | 0 <= i < |raw| ::
                 && raw[i].Some? && Settles(raw[i].value, r.value[i], convert)
                 && Charged(r.value[i], ours, trace.transactions, |Approvals(r.value)|))
  }

  lemma SettledSettles(e: Event, gas: Gas, convert: Conversion)
    requires e.ApprovedEvent? ==> gas.approved > 0
    ensures Settle(e, gas, convert).None? <==> Unconvertible(e, convert)
    ensures Settle(e, gas, convert).Some? ==> Settles(e, Settle(e, gas, convert).value, convert)
  {
  }

  lemma SettledIsCharged(e: Event, gas: Gas, convert: Conversion, ours: set<Address>, txs: seq<Transaction>)
    requires e.ApprovedEvent? ==> gas.approved > 0
    requires Settle(e, gas, convert).Some?
    requires gas.total == GasCalculator.Clamped(GasCalculator.TraceCost(ours, txs)) && gas.refund == GasCalculator.RefundGas(ours, txs)
    ensures Charged(Settle(e, gas, convert).value, ours, txs, gas.approved)
  {
    GasCalculator.ClampedIsGas(GasCalculator.TraceCost(ours, txs));
    GasCalculator.RefundGasIsRefundGas(ours, txs);
    assert e.ApprovedEvent? ==> IsShare(gas.total / gas.approved, GasCalculator.TraceCost(ours, txs), gas.approved);
  }

  lemma {:induction false} ApprovalsAreCounted(es: seq<Event>, raw: seq<Option<Event>>)
    requires |es| == |raw|
    requires forall i | 0 <= i < |es| :: raw[i].Some? && (raw[i].value.ApprovedEvent? <==> es[i].ApprovedEvent?)
    ensures |Approvals(es)| == CountApprovals(raw)
    decreases |es|
  {
    if es != [] {
      var n := |es| - 1;
      ApprovalsAreCounted(es[..n], raw[..n]);
      if es[n].ApprovedEvent? {
        assert Approvals(es) == Approvals(es[..n]) + {n};
      } else {
        assert Approvals(es) == Approvals(es[..n]);
      }
    }
  }

  lemma SettledAnswers(order: seq<Kind>, c: Config, trace: Trace, convert: Conversion, es: seq<Event>)
    requires CollectTrace(order, c, trace).Some? && Sequence(RawEvents(CollectTrace(order, c, trace).value)) == Some(es)
    ensures Answers(order, c, trace, convert, ExpectedEvents(order, c, trace, convert))
  {
    var col, ours := CollectTrace(order, c, trace).value, GasCalculator.AddressSet(c.ours);
    var raw, gas, r := RawEvents(col), GasOf(c, trace, col), ExpectedEvents(order, c, trace, convert);
    DivisionIsSafe(col, es, gas);
    forall i | 0 <= i < |raw|
      ensures SettleAll(es, gas, convert)[i].None? <==> Unconvertible(raw[i].value, convert)
    {
      SettledSettles(es[i], gas, convert);
    }
    if r.Some? {
      forall i | 0 <= i < |raw|
        ensures Settles(raw[i].value, r.value[i], convert)
        ensures Charged(r.value[i], ours, trace.transactions, gas.approved)
      {
        assert Some(r.value[i]) == Settle(es[i], gas, convert);
        SettledSettles(es[i], gas, convert);
        SettledIsCharged(es[i], gas, convert, ours, trace.transactions);
      }
      RawApprovals(col);
      ApprovalsAreCounted(r.value, raw);
    } else {
      var i :| 0 <= i < |raw| && SettleAll(es, gas, convert)[i].None?;
      assert Unconvertible(raw[i].value, convert);
    }
  }

  /** The declarative reading gives every event its own content and its own cost. */
  lemma ExpectedEventsAnswer(order: seq<Kind>, c: Config, trace: Trace, convert: Conversion)
    ensures Answers(order, c, trace, convert, ExpectedEvents(order, c, trace, convert))
  {
    var col := CollectTrace(order, c, trace);
    if col.Some? && Sequence(RawEvents(col.value)).Some? {
      SettledAnswers(order, c, trace, convert, Sequence(RawEvents(col.value)).value);
    }
  }

  method ParseTraceInOrder(order: seq<Kind>, c: Config, trace: Trace, convert: Conversion) returns (r: Option<seq<Event>>)
    ensures r == ExpectedEvents(order, c, trace, convert)
    ensures Answers(order, c, trace, convert, r)
  {
    ExpectedEventsAnswer(order, c, trace, convert);
    var total := GasCalculator.CalcMessageGas(c.ours, trace.transactions);
    var refund := GasCalculator.CalcMessageGasNativeGasRefunded(c.ours, trace.transactions);
    var built := CreateParsers(order, c, trace);
    if built.None? {
      return None;
    }
    ghost var col := CollectTrace(order, c, trace).value;
    var gas := Gas(total, refund, built.value.approved);
    var calls := EmitCalls(built.value.calls, built.value.credits, col);
    SequenceConcat(EventsOfCalls(col, |col.calls|), EventsOfOthers(col.others));
    if calls.None? {
      return None;
    }
    var others := EmitOthers(built.value.others);
    if others.None? {
      return None;
    }
    DivisionIsSafe(col, calls.value + others.value, gas);
    r := SettleEvents(calls.value + others.value, gas, convert);
  }

  method ParseTrace(c: Config, trace: Trace, convert: Conversion) returns (r: Option<seq<Event>>)
    ensures r == ExpectedEvents(ORDER, c, trace, convert)
    ensures Answers(ORDER, c, trace, convert, r)
  {
    r := ParseTraceInOrder(ORDER, c, trace, convert);
  }

  /** Trying the parsers in any order that keeps the jetton pair gives the same events. */
  lemma AnyOrderGivesSameEvents(order: seq<Kind>, order': seq<Kind>, c: Config, trace: Trace, convert: Conversion)
    requires KeepsJettonOrder(order) && KeepsJettonOrder(order')
    ensures ExpectedEvents(order, c, trace, convert) == ExpectedEvents(order', c, trace, convert)
  {
    AnyOrderCollectsAlike(order, order', c, trace);
  }

  /** What the approval events charge together. */
  function ApprovalCosts(es: seq<Event>): nat {
    if es == [] then 0
    else ApprovalCosts(es[..|es| - 1]) + if es[|es| - 1].ApprovedEvent? then es[|es| - 1].cost else 0
  }

  lemma {:induction false} SettledApprovalCosts(es: seq<Event>, settled: seq<Event>, raw: seq<Option<Event>>, share: nat)
    requires |settled| == |es| == |raw| && forall i | 0 <= i < |es| :: raw[i] == Some(es[i])
    requires forall i | 0 <= i < |es| :: settled[i].ApprovedEvent? <==> es[i].ApprovedEvent?
    requires forall i | 0 <= i < |es| && es[i].ApprovedEvent? :: settled[i].cost == share
    ensures ApprovalCosts(settled) == CountApprovals(raw) * share
    decreases |es|
  {
    if es != [] {
      var n := |es| - 1;
      SettledApprovalCosts(es[..n], settled[..n], raw[..n], share);
    }
  }

  lemma DivisionRemainder(total: nat, n: nat)
    requires n > 0
    ensures n * (total / n) <= total < n * (total / n) + n
  {
    assert total == n * (total / n) + total % n;
  }

  lemma SettledCosts(es: seq<Event>, gas: Gas, convert: Conversion, raw: seq<Option<Event>>)
    requires Sequence(raw) == Some(es) && Divisible(es, gas) && Sequence(SettleAll(es, gas, convert)).Some?
    ensures var share := if gas.approved > 0 then gas.total / gas.approved else 0;
            ApprovalCosts(Sequence(SettleAll(es, gas, convert)).value) == CountApprovals(raw) * share
  {
    var settled := Sequence(SettleAll(es, gas, convert)).value;
    var share := if gas.approved > 0 then gas.total / gas.approved else 0;
    forall i | 0 <= i < |es|
      ensures settled[i].ApprovedEvent? <==> es[i].ApprovedEvent?
      ensures es[i].ApprovedEvent? ==> settled[i].cost == share
    {
      assert Settle(es[i], gas, convert) == Some(settled[i]);
    }
    SettledApprovalCosts(es, settled, raw, share);
  }

  /** Approvals charge at most the gas of the trace, and fall short of it by less than their number. */
  lemma ApprovalsShareTheGas(order: seq<Kind>, c: Config, trace: Trace, convert: Conversion)
    requires ExpectedEvents(order, c, trace, convert).Some?
    ensures var gas := GasOf(c, trace, CollectTrace(order, c, trace).value);
            var charged := ApprovalCosts(ExpectedEvents(order, c, trace, convert).value);
            && (gas.approved == 0 ==> charged == 0)
            && (gas.approved > 0 ==> charged <= gas.total < charged + gas.approved)
  {
    var col := CollectTrace(order, c, trace).value;
    var gas, raw := GasOf(c, trace, col), RawEvents(col);
    var es := Sequence(raw).value;
    DivisionIsSafe(col, es, gas);
    RawApprovals(col);
    SettledCosts(es, gas, convert, raw);
    if gas.approved > 0 {
      DivisionRemainder(gas.total, gas.approved);
    }
  }
}
