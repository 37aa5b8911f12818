/**
 What the trace parser does, told from its input: which transaction gives which parser, in which order
 the parsers stand, and which event each of them becomes.
 */
module TraceLaws {
  import opened Wrappers
  import opened Traces
  import opened TraceParser
  import opened TraceEvents

  // ----- From a transaction to a parser -----

  predicate HasOp(tx: Transaction, op: nat) {
    tx.inMsg.Some? && tx.inMsg.value.opcode == Some(op)
  }

  /** Out-message `i` exists and is a log: it has no destination. */
  predicate IsLog(tx: Transaction, i: nat) {
    i < |tx.outMsgs| && tx.outMsgs[i].destination.None?
  }

  predicate Executes(tx: Transaction, i: nat) {
    i < |tx.outMsgs| && tx.outMsgs[i].opcode == Some(0x0C)
  }

  /** The gateway's log of an execution: it stands beside the execute message, at either place. */
  predicate IsExecution(tx: Transaction) {
    HasOp(tx, 0x05) && ((IsLog(tx, 0) && Executes(tx, 1)) || (!IsLog(tx, 0) && IsLog(tx, 1) && Executes(tx, 0)))
  }

  /** The parser that a transaction gives, by account, op code, log position and the field of the log's body. */
  predicate Gives(c: Config, tx: Transaction, p: Parser) {
    match p
    case Call(t, log) =>
      t == tx && tx.account == c.gateway && HasOp(tx, 0x09) && IsLog(tx, 0) && tx.outMsgs[0].body.call == Some(log)
    case Executed(t, log) =>
      t == tx && tx.account == c.gateway && IsExecution(tx) && tx.inMsg.value.body.executed == Some(log)
    case Approved(t, log) =>
      t == tx && tx.account == c.gateway && HasOp(tx, 0x0D) && IsLog(tx, 0) && tx.outMsgs[0].body.approved == Some(log)
    case Paid(t, log) =>
      && t == tx && tx.account == c.gasService && IsLog(tx, 0)
      && var body := tx.outMsgs[0].body;
      || ((HasOp(tx, 0x1F) || HasOp(tx, 0x45)) && body.nativePaid == Some(log))
      || (HasOp(tx, 0x24) && body.jettonAdded.None? && body.jettonPaid == Some(log))
    case Added(t, log) =>
      && t == tx && tx.account == c.gasService && IsLog(tx, 0)
      && var body := tx.outMsgs[0].body;
      || (HasOp(tx, 0x36) && body.nativeAdded == Some(log))
      || (HasOp(tx, 0x24) && body.jettonAdded == Some(log))
    case Refunded(t, log) =>
      t == tx && tx.account == c.gasService && HasOp(tx, 0x46) && IsLog(tx, 1) && tx.outMsgs[1].body.refunded == Some(log)
    case InsufficientGas(_, _, _) => false
  }

  /** A transaction that is recognized although its body cannot be read: the whole trace fails. */
  predicate IsBroken(c: Config, tx: Transaction) {
    || (tx.account == c.gateway && HasOp(tx, 0x09) && IsLog(tx, 0) && tx.outMsgs[0].body.call.None?)
    || (tx.account == c.gateway && IsExecution(tx) && tx.inMsg.value.body.executed.None?)
    || (tx.account == c.gateway && HasOp(tx, 0x0D) && IsLog(tx, 0) && tx.outMsgs[0].body.approved.None?)
    || (tx.account == c.gasService && (HasOp(tx, 0x1F) || HasOp(tx, 0x45)) && IsLog(tx, 0)
        && tx.outMsgs[0].body.nativePaid.None?)
    || (tx.account == c.gasService && HasOp(tx, 0x36) && IsLog(tx, 0) && tx.outMsgs[0].body.nativeAdded.None?)
    || (tx.account == c.gasService && HasOp(tx, 0x46) && IsLog(tx, 1) && tx.outMsgs[1].body.refunded.None?)
  }

  lemma OrderUnfolds(c: Config, tx: Transaction)
    ensures FirstMatch(ORDER, c, tx) ==
            if Matches(c, tx, CallContract) then Some(CallContract)
            else if Matches(c, tx, MessageExecuted) then Some(MessageExecuted)
            else if Matches(c, tx, MessageApproved) then Some(MessageApproved)
            else if Matches(c, tx, NativeGasPaid) then Some(NativeGasPaid)
            else if Matches(c, tx, NativeGasAdded) then Some(NativeGasAdded)
            else if Matches(c, tx, JettonGasAdded) then Some(JettonGasAdded)
            else if Matches(c, tx, JettonGasPaid) then Some(JettonGasPaid)
            else if Matches(c, tx, NativeGasRefunded) then Some(NativeGasRefunded)
            else None
  {
    var k := FirstMatch(ORDER, c, tx);
    SourceOrderKeepsJettonOrder();
    FirstMatchMatches(ORDER, c, tx);
    AddedBeatsPaid(ORDER, c, tx);
    if k.Some? {
      forall l | Matches(c, tx, l) ensures l == k.value || JettonPair(l, k.value) {
        MatchesExclude(c, tx, l, k.value);
      }
    }
  }

  /** Exactly the transactions that give a parser are read as that parser, and exactly the broken ones fail. */
  lemma ReadingMeans(c: Config, tx: Transaction)
    ensures forall p :: ReadTransaction(ORDER, c, tx) == Read(p) <==> Gives(c, tx, p)
    ensures ReadTransaction(ORDER, c, tx) == Failed <==> IsBroken(c, tx)
  {
    forall p
      ensures ReadTransaction(ORDER, c, tx) == Read(p) <==> Gives(c, tx, p)
    {
      ReadingGives(c, tx, p);
    }
    ReadingFails(c, tx);
  }

  lemma ReadingGives(c: Config, tx: Transaction, p: Parser)
    ensures ReadTransaction(ORDER, c, tx) == Read(p) <==> Gives(c, tx, p)
  {
    OrderUnfolds(c, tx);
    MatchesMean(c, tx);
    ParsesAt(c, tx, p);
  }

  lemma ReadingFails(c: Config, tx: Transaction)
    ensures ReadTransaction(ORDER, c, tx) == Failed <==> IsBroken(c, tx)
  {
    OrderUnfolds(c, tx);
    MatchesMean(c, tx);
  }

  /** Which transactions each kind matches. */
  lemma MatchesMean(c: Config, tx: Transaction)
    ensures Matches(c, tx, CallContract) <==> tx.account == c.gateway && HasOp(tx, 0x09) && IsLog(tx, 0)
    ensures Matches(c, tx, MessageExecuted) <==> tx.account == c.gateway && IsExecution(tx)
    ensures Matches(c, tx, MessageApproved) <==> tx.account == c.gateway && HasOp(tx, 0x0D) && IsLog(tx, 0)
    ensures Matches(c, tx, NativeGasPaid) <==> tx.account == c.gasService && (HasOp(tx, 0x1F) || HasOp(tx, 0x45)) && IsLog(tx, 0)
    ensures Matches(c, tx, NativeGasAdded) <==> tx.account == c.gasService && HasOp(tx, 0x36) && IsLog(tx, 0)
    ensures Matches(c, tx, JettonGasAdded) <==>
            tx.account == c.gasService && HasOp(tx, 0x24) && IsLog(tx, 0) && tx.outMsgs[0].body.jettonAdded.Some?
    ensures Matches(c, tx, JettonGasPaid) <==>
            tx.account == c.gasService && HasOp(tx, 0x24) && IsLog(tx, 0) && tx.outMsgs[0].body.jettonPaid.Some?
    ensures Matches(c, tx, NativeGasRefunded) <==> tx.account == c.gasService && HasOp(tx, 0x46) && IsLog(tx, 1)
  {
  }

  /** Which field each kind reads. */
  lemma ParsesAt(c: Config, tx: Transaction, p: Parser)
    ensures Matches(c, tx, CallContract) ==>
              (Parse(c, tx, CallContract) == Some(p) <==> p.Call? && p.tx == tx && tx.outMsgs[0].body.call == Some(p.call))
    ensures Matches(c, tx, MessageExecuted) ==>
              (Parse(c, tx, MessageExecuted) == Some(p) <==>
               p.Executed? && p.tx == tx && tx.inMsg.value.body.executed == Some(p.executed))
    ensures Matches(c, tx, MessageApproved) ==>
              (Parse(c, tx, MessageApproved) == Some(p) <==>
               p.Approved? && p.tx == tx && tx.outMsgs[0].body.approved == Some(p.approved))
    ensures Matches(c, tx, NativeGasPaid) ==>
              (Parse(c, tx, NativeGasPaid) == Some(p) <==> p.Paid? && p.tx == tx && tx.outMsgs[0].body.nativePaid == Some(p.paid))
    ensures Matches(c, tx, NativeGasAdded) ==>
              (Parse(c, tx, NativeGasAdded) == Some(p) <==> p.Added? && p.tx == tx && tx.outMsgs[0].body.nativeAdded == Some(p.added))
    ensures Matches(c, tx, JettonGasAdded) ==>
              (Parse(c, tx, JettonGasAdded) == Some(p) <==> p.Added? && p.tx == tx && tx.outMsgs[0].body.jettonAdded == Some(p.added))
    ensures Matches(c, tx, JettonGasPaid) ==>
              (Parse(c, tx, JettonGasPaid) == Some(p) <==> p.Paid? && p.tx == tx && tx.outMsgs[0].body.jettonPaid == Some(p.paid))
    ensures Matches(c, tx, NativeGasRefunded) ==>
              (Parse(c, tx, NativeGasRefunded) == Some(p) <==>
               p.Refunded? && p.tx == tx && tx.outMsgs[1].body.refunded == Some(p.refunded))
  {
  }

  // ----- From the transactions to the lists -----

  datatype List = Calls | Payments | Others

  function ListFor(p: Parser): List {
    if p.Call? then Calls else if p.Paid? then Payments else Others
  }

  function ListOf(col: Collected, list: List): seq<Parser> {
    match list
    case Calls => col.calls
    case Payments => col.payments
    case Others => col.others
  }

  /** The parsers of one list stand in transaction order, `at` being their places, and none is left out. */
  predicate InOrder(ps: seq<Parser>, rs: seq<Reading>, at: seq<nat>, list: List) {
    && |at| == |ps|
    && (forall i | 0 <= i < |at| :: at[i] < |rs| && rs[at[i]] == Read(ps[i]))
    && (forall i, j | 0 <= i < j < |at| :: at[i] < at[j])
    && (forall k | 0 <= k < |rs| :: rs[k].Read? && ListFor(rs[k].parser) == list ==> k in at)
  }

  lemma {:induction false} CollectedInOrder(first: Collected, rs: seq<Reading>, list: List) returns (at: seq<nat>)
    requires Sorted(first) && Collect(Some(first), rs).Some?
    ensures var ps := ListOf(Collect(Some(first), rs).value, list);
            ListOf(first, list) <= ps && InOrder(ps[|ListOf(first, list)|..], rs, at, list)
    decreases |rs|
  {
    at := [];
    if rs != [] {
      var n := |rs| - 1;
      at := CollectedInOrder(first, rs[..n], list);
      var k, before := |ListOf(first, list)|, ListOf(Collect(Some(first), rs[..n]).value, list);
      CollectOneMore(first, rs, list);
      InOrderOneMore(before[k..], rs, at, list);
      if rs[n].Read? && ListFor(rs[n].parser) == list {
        at := at + [n];
        SuffixGrows(ListOf(first, list), before, rs[n].parser);
      }
    }
  }

  lemma CollectOneMore(first: Collected, rs: seq<Reading>, list: List)
    requires Sorted(first) && rs != [] && Collect(Some(first), rs).Some?
    ensures var n := |rs| - 1;
            && Collect(Some(first), rs[..n]).Some?
            && ListOf(Collect(Some(first), rs).value, list)
               == if rs[n].Read? && ListFor(rs[n].parser) == list
                  then ListOf(Collect(Some(first), rs[..n]).value, list) + [rs[n].parser]
                  else ListOf(Collect(Some(first), rs[..n]).value, list)
  {
    var n := |rs| - 1;
    assert rs[..n + 1] == rs;
    CollectPrefix(first, rs);
    CollectNext(Some(first), rs, n);
    if rs[n].Read? {
      PlaceIn(Collect(Some(first), rs[..n]).value, rs[n].parser, list);
    }
  }

  lemma CollectPrefix(first: Collected, rs: seq<Reading>)
    requires Sorted(first) && rs != [] && Collect(Some(first), rs).Some?
    ensures Collect(Some(first), rs[..|rs| - 1]).Some? && !rs[|rs| - 1].Failed?
  {
  }

  /** A parser joins its own list, at the end, and no other. */
  lemma PlaceIn(col: Collected, p: Parser, list: List)
    ensures ListOf(Place(col, p), list) == if ListFor(p) == list then ListOf(col, list) + [p] else ListOf(col, list)
  {
  }

  lemma SuffixGrows(start: seq<Parser>, ps: seq<Parser>, p: Parser)
    requires start <= ps
    ensures start <= ps + [p] && (ps + [p])[|start|..] == ps[|start|..] + [p]
  {
  }

  lemma InOrderOneMore(ps: seq<Parser>, rs: seq<Reading>, at: seq<nat>, list: List)
    requires rs != [] && InOrder(ps, rs[..|rs| - 1], at, list)
    ensures var n := |rs| - 1;
            if rs[n].Read? && ListFor(rs[n].parser) == list then InOrder(ps + [rs[n].parser], rs, at + [n], list)
            else InOrder(ps, rs, at, list)
  {
    var n := |rs| - 1;
    assert forall k | 0 <= k < n :: rs[..n][k] == rs[k];
    assert forall k | k in at :: k in at + [n];
    assert n in at + [n];
  }

  /** Building fails exactly on a leading message that cannot be read or a broken transaction. */
  lemma {:induction false} CollectFailsIff(first: Option<Collected>, rs: seq<Reading>)
    requires first.Some? ==> Sorted(first.value)
    ensures Collect(first, rs).None? <==> first.None? || Failed in rs
    decreases |rs|
  {
    if rs != [] {
      CollectFailsIff(first, rs[..|rs| - 1]);
      assert rs == rs[..|rs| - 1] + [rs[|rs| - 1]];
    }
  }

  /** The lists of a trace: calls and payments from its transactions alone, the others after the leading parser. */
  lemma TraceListsInOrder(c: Config, trace: Trace) returns (calls: seq<nat>, payments: seq<nat>, others: seq<nat>)
    requires CollectTrace(ORDER, c, trace).Some?
    ensures var col, rs := CollectTrace(ORDER, c, trace).value, Readings(ORDER, c, trace.transactions);
            && InOrder(col.calls, rs, calls, Calls) && InOrder(col.payments, rs, payments, Payments)
            && var leads := if trace.leading.Matched?
                            then [InsufficientGas(trace.leading.messageId, trace.leading.sourceChain, trace.traceId)] else [];
            leads <= col.others && InOrder(col.others[|leads|..], rs, others, Others)
  {
    var rs := Readings(ORDER, c, trace.transactions);
    CollectFailsIff(First(trace), rs);
    calls := CollectedInOrder(First(trace).value, rs, Calls);
    payments := CollectedInOrder(First(trace).value, rs, Payments);
    others := CollectedInOrder(First(trace).value, rs, Others);
  }

  /** A trace fails to give parsers exactly if its leading message cannot be read or a transaction is broken. */
  lemma TraceFailsIff(c: Config, trace: Trace)
    ensures CollectTrace(ORDER, c, trace).None?
            <==> trace.leading.Unreadable? || exists i :: 0 <= i < |trace.transactions| && IsBroken(c, trace.transactions[i])
  {
    var rs := Readings(ORDER, c, trace.transactions);
    CollectFailsIff(First(trace), rs);
    forall i | 0 <= i < |rs|
      ensures rs[i] == Failed <==> IsBroken(c, trace.transactions[i])
    {
      ReadingMeans(c, trace.transactions[i]);
    }
    if Failed in rs {
      var i :| 0 <= i < |rs| && rs[i] == Failed;
      assert IsBroken(c, trace.transactions[i]);
    }
  }

  // ----- From the lists to the events -----

  /** Payment `p` is credited at call `i`: the last with the key, and the call the first with it. */
  predicate Credits(col: Collected, i: nat, p: nat)
    requires Sorted(col)
  {
    && i < |col.calls| && p < |col.payments|
    && col.payments[p].paid.key == col.calls[i].call.key
    && (forall j | 0 <= j < i :: col.calls[j].call.key != col.calls[i].call.key)
    && (forall q | p < q < |col.payments| :: col.payments[q].paid.key != col.calls[i].call.key)
  }

  /** The event at a place of the list, seen from the parser it belongs to. */
  predicate IsEventOf(e: Option<Event>, p: Parser) {
    match p
    case Call(tx, log) =>
      && (e.Some? <==> tx.messageId.Some? && log.payload.Some?)
      && (e.Some? ==> e.value == CallEvent(tx.hash, tx.messageId.value, log))
    case Executed(tx, log) => e.Some? && e.value.ExecutedEvent? && e.value.eventId == tx.hash && e.value.executed == log
    case Approved(tx, log) => e.Some? && e.value.ApprovedEvent? && e.value.eventId == tx.hash && e.value.approved == log
    case Paid(_, _) => e.None?       // a payment has no event of its own
    case Added(tx, log) =>
      e == Some(GasCreditEvent(tx.hash + "-gas", log.messageId, log.refundAddress, log.minter, log.amount))
    case Refunded(tx, log) => e.Some? && e.value.RefundedEvent? && e.value.eventId == tx.hash && e.value.refunded == log
    case InsufficientGas(id, sourceChain, traceId) => e == Some(CannotExecuteEvent(id, sourceChain, traceId))
  }

  /** The credit of a payment under the message id of the call it pays for. */
  predicate IsCreditOf(e: Option<Event>, payment: Parser, call: Parser) {
    && payment.Paid? && call.Call?
    && (call.tx.messageId.Some? ==>
          var log := payment.paid;
          e == Some(GasCreditEvent(payment.tx.hash + "-gas", call.tx.messageId.value, log.refundAddress, log.minter, log.amount)))
  }

  /**
   The layout of the events: call `i` stands at `at[i]`, followed by one credit exactly if a payment is
   credited there and else by nothing; after the calls come the others, in order.
   */
  ghost predicate LaidOut(col: Collected, raw: seq<Option<Event>>, at: seq<nat>)
    requires Sorted(col)
  {
    var n := |col.calls|;
    && |at| == n + 1 && at[0] == 0 && at[n] + |col.others| == |raw|
    && (forall i | 0 <= i < n :: CallLaidOut(col, raw, at[i], at[i + 1], i))
    && (forall k | 0 <= k < |col.others| :: IsEventOf(raw[at[n] + k], col.others[k]))
  }

  /** The events of call `i` stand from `here` to `next`. */
  ghost predicate CallLaidOut(col: Collected, raw: seq<Option<Event>>, here: nat, next: nat, i: nat)
    requires Sorted(col) && i < |col.calls|
  {
    && here < next <= |raw| && IsEventOf(raw[here], col.calls[i])
    && (next == here + 2 <==> exists p: nat :: Credits(col, i, p))
    && (next == here + 1 <==> forall p: nat :: !Credits(col, i, p))
    && (forall p: nat | Credits(col, i, p) :: here + 1 < |raw| && IsCreditOf(raw[here + 1], col.payments[p], col.calls[i]))
  }

  lemma CreditedIsCredits(col: Collected, i: nat)
    requires Sorted(col) && i < |col.calls|
    ensures forall p: nat :: Credits(col, i, p) <==> CreditedPayment(col, i) == Some(p)
  {
  }

  lemma CallLayout(col: Collected, i: nat)
    requires Sorted(col) && i < |col.calls|
    ensures var es := EventsOfCall(col, i);
            && 1 <= |es| <= 2 && IsEventOf(es[0], col.calls[i])
            && (|es| == 2 <==> exists p: nat :: Credits(col, i, p))
            && (forall p: nat | Credits(col, i, p) :: |es| == 2 && IsCreditOf(es[1], col.payments[p], col.calls[i]))
  {
    CreditedIsCredits(col, i);
  }

  /** The places of the first `n` calls. */
  function Places(col: Collected, n: nat): (at: seq<nat>)
    requires Sorted(col) && n <= |col.calls|
    ensures |at| == n + 1 && forall i | 0 <= i <= n :: at[i] == |EventsOfCalls(col, i)|
  {
    if n == 0 then [0] else Places(col, n - 1) + [|EventsOfCalls(col, n)|]
  }

  lemma RawLayout(col: Collected) returns (at: seq<nat>)
    requires Sorted(col)
    ensures LaidOut(col, RawEvents(col), at)
  {
    var n, raw := |col.calls|, RawEvents(col);
    at := Places(col, n);
    forall i | 0 <= i < n
      ensures CallLaidOut(col, raw, at[i], at[i + 1], i)
    {
      CallPlaced(col, i);
    }
    OthersPlaced(col);
    OwnEvents(col.others);
  }

  lemma OthersPlaced(col: Collected)
    requires Sorted(col)
    ensures JoinedAt(EventsOfCalls(col, |col.calls|), EventsOfOthers(col.others), RawEvents(col))
  {
    JoinIsJoined(EventsOfCalls(col, |col.calls|), EventsOfOthers(col.others));
  }

  predicate JoinedAt<T(==)>(a: seq<T>, b: seq<T>, s: seq<T>) {
    |s| == |a| + |b| && forall k | 0 <= k < |b| :: s[|a| + k] == b[k]
  }

  lemma JoinIsJoined<T>(a: seq<T>, b: seq<T>)
    ensures JoinedAt(a, b, a + b)
  {
  }

  lemma OwnEvents(others: seq<Parser>)
    ensures forall k | 0 <= k < |others| :: IsEventOf(EventsOfOthers(others)[k], others[k])
  {
    forall k | 0 <= k < |others|
      ensures IsEventOf(EventsOfOthers(others)[k], others[k])
    {
      OwnEvent(others[k]);
    }
  }

  lemma OwnEvent(p: Parser)
    ensures IsEventOf(EventOf(p, None), p)
  {
  }

  lemma CallPlaced(col: Collected, i: nat)
    requires Sorted(col) && i < |col.calls|
    ensures CallLaidOut(col, RawEvents(col), |EventsOfCalls(col, i)|, |EventsOfCalls(col, i + 1)|, i)
  {
    CallInRaw(col, i);
    CallLayout(col, i);
  }

  lemma CallInRaw(col: Collected, i: nat)
    requires Sorted(col) && i < |col.calls|
    ensures var here, es, raw := |EventsOfCalls(col, i)|, EventsOfCall(col, i), RawEvents(col);
            && |EventsOfCalls(col, i + 1)| == here + |es| <= |raw|
            && forall k | 0 <= k < |es| :: raw[here + k] == es[k]
  {
    EventsOfCallsGrow(col, i + 1, |col.calls|);
    assert EventsOfCalls(col, i + 1) <= RawEvents(col);
    PrefixAt(EventsOfCalls(col, i), EventsOfCall(col, i), RawEvents(col));
  }

  lemma PrefixAt<T>(a: seq<T>, b: seq<T>, s: seq<T>)
    requires a + b <= s
    ensures |a| + |b| <= |s| && forall k | 0 <= k < |b| :: s[|a| + k] == b[k]
  {
    forall k | 0 <= k < |b|
      ensures s[|a| + k] == b[k]
    {
      assert (a + b)[|a| + k] == b[k];
    }
  }
}
