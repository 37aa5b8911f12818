/** From a trace to events: classify transactions, pair gas payments with calls, spread the gas cost. */
module TraceParser {
  import opened Wrappers
  import opened Traces
  import GasCalculator

  const OP_MESSAGE_APPROVED: nat := 0x0D
  const OP_NULLIFIED_SUCCESSFULLY: nat := 0x05
  const OP_GATEWAY_EXECUTE: nat := 0x0C
  const OP_CALL_CONTRACT: nat := 0x09
  const OP_PAY_GAS: nat := 0x45
  const OP_PAY_NATIVE_GAS_FOR_CONTRACT_CALL: nat := 0x1F
  const OP_ADD_NATIVE_GAS: nat := 0x36
  const OP_NATIVE_REFUND: nat := 0x46
  const OP_USER_BALANCE_SUBTRACTED: nat := 0x24

  datatype Config = Config(gateway: Address, gasService: Address, ours: seq<Address>)

  datatype Kind =
    | CallContract
    | MessageExecuted
    | MessageApproved
    | NativeGasPaid
    | NativeGasAdded
    | JettonGasAdded
    | JettonGasPaid
    | NativeGasRefunded

  /** The order in which the parsers are tried. */
  const ORDER: seq<Kind> := [
    CallContract, MessageExecuted, MessageApproved, NativeGasPaid,
    NativeGasAdded, JettonGasAdded, JettonGasPaid, NativeGasRefunded]

  predicate LogEmitted(tx: Transaction, opcode: nat, index: nat) {
    && tx.inMsg.Some? && tx.inMsg.value.opcode == Some(opcode)
    && index < |tx.outMsgs| && tx.outMsgs[index].destination.None?
  }

  /** The execute message sits beside the log, on whichever of the two positions the log is not. */
  predicate ExecutedMatches(tx: Transaction) {
    var firstLog := LogEmitted(tx, OP_NULLIFIED_SUCCESSFULLY, 0);
    var secondLog := !firstLog && LogEmitted(tx, OP_NULLIFIED_SUCCESSFULLY, 1);
    var index := if firstLog then 1 else 0;
    && (firstLog || secondLog)
    && index < |tx.outMsgs| && tx.outMsgs[index].opcode == Some(OP_GATEWAY_EXECUTE)
  }

  predicate Matches(c: Config, tx: Transaction, k: Kind) {
    match k
    case CallContract => tx.account == c.gateway && LogEmitted(tx, OP_CALL_CONTRACT, 0)
    case MessageExecuted => tx.account == c.gateway && ExecutedMatches(tx)
    case MessageApproved => tx.account == c.gateway && LogEmitted(tx, OP_MESSAGE_APPROVED, 0)
    case NativeGasPaid =>
      && tx.account == c.gasService
      && (LogEmitted(tx, OP_PAY_NATIVE_GAS_FOR_CONTRACT_CALL, 0) || LogEmitted(tx, OP_PAY_GAS, 0))
    case NativeGasAdded => tx.account == c.gasService && LogEmitted(tx, OP_ADD_NATIVE_GAS, 0)
    case JettonGasAdded =>
      && tx.account == c.gasService && LogEmitted(tx, OP_USER_BALANCE_SUBTRACTED, 0)
      && tx.outMsgs[0].body.jettonAdded.Some?
    case JettonGasPaid =>
      && tx.account == c.gasService && LogEmitted(tx, OP_USER_BALANCE_SUBTRACTED, 0)
      && tx.outMsgs[0].body.jettonPaid.Some?
    case NativeGasRefunded => tx.account == c.gasService && LogEmitted(tx, OP_NATIVE_REFUND, 1)
  }

  /** A parser that has read its log. */
  datatype Parser =
    | Call(tx: Transaction, call: CallLog)
    | Executed(tx: Transaction, executed: ExecutedLog)
    | Approved(tx: Transaction, approved: ApprovedLog)
    | Paid(tx: Transaction, paid: PaidLog)
    | Added(tx: Transaction, added: AddedLog)
    | Refunded(tx: Transaction, refunded: RefundedLog)
    | InsufficientGas(messageId: string, sourceChain: string, traceId: string)

  /** Reading the log of a matched transaction; its message index is in bounds because the match says so. */
  function Parse(c: Config, tx: Transaction, k: Kind): (p: Option<Parser>)
    requires Matches(c, tx, k)
    ensures p.Some? ==> (p.value.Call? <==> k.CallContract?) && !p.value.InsufficientGas? && p.value.tx == tx
    ensures p.Some? ==> (p.value.Paid? <==> k.NativeGasPaid? || k.JettonGasPaid?)
    ensures p.Some? ==> (p.value.Approved? <==> k.MessageApproved?)
  {
    match k
    case CallContract =>
      var log := tx.outMsgs[0].body.call; if log.Some? then Some(Call(tx, log.value)) else None
    case MessageExecuted =>
      var log := tx.inMsg.value.body.executed; if log.Some? then Some(Executed(tx, log.value)) else None
    case MessageApproved =>
      var log := tx.outMsgs[0].body.approved; if log.Some? then Some(Approved(tx, log.value)) else None
    case NativeGasPaid =>
      var log := tx.outMsgs[0].body.nativePaid; if log.Some? then Some(Paid(tx, log.value)) else None
    case NativeGasAdded =>
      var log := tx.outMsgs[0].body.nativeAdded; if log.Some? then Some(Added(tx, log.value)) else None
    case JettonGasAdded => Some(Added(tx, tx.outMsgs[0].body.jettonAdded.value))
    case JettonGasPaid => Some(Paid(tx, tx.outMsgs[0].body.jettonPaid.value))
    case NativeGasRefunded =>
      var log := tx.outMsgs[1].body.refunded; if log.Some? then Some(Refunded(tx, log.value)) else None
  }

  /** The first kind of the list that matches. */
  function FirstMatch(order: seq<Kind>, c: Config, tx: Transaction): (k: Option<Kind>)
    ensures k.Some? ==> k.value in order && Matches(c, tx, k.value)
  {
    if order == [] then None
    else if Matches(c, tx, order[0]) then Some(order[0])
    else FirstMatch(order[1..], c, tx)
  }

  // ----- Which parser a transaction gets does not depend on the order of trying them -----

  predicate JettonPair(k: Kind, l: Kind) {
    k in {JettonGasAdded, JettonGasPaid} && l in {JettonGasAdded, JettonGasPaid}
  }

  /** Two different kinds match the same transaction only if they are the two jetton kinds. */
  lemma MatchesExclude(c: Config, tx: Transaction, k: Kind, l: Kind)
    requires Matches(c, tx, k) && Matches(c, tx, l)
    ensures k == l || JettonPair(k, l)
  {
  }

  lemma {:induction false} FirstMatchMatches(order: seq<Kind>, c: Config, tx: Transaction)
    ensures FirstMatch(order, c, tx).None? <==> forall k | k in order :: !Matches(c, tx, k)
    ensures FirstMatch(order, c, tx).Some? ==>
              FirstMatch(order, c, tx).value in order && Matches(c, tx, FirstMatch(order, c, tx).value)
  {
    if order != [] && !Matches(c, tx, order[0]) {
      FirstMatchMatches(order[1..], c, tx);
      assert forall k | k in order :: k == order[0] || k in order[1..];
    }
  }

  /** The list tries every kind, and jetton gas added before jetton gas paid. */
  predicate KeepsJettonOrder(order: seq<Kind>) {
    && (forall k: Kind :: k in order)
    && forall i, j | 0 <= i < |order| && 0 <= j < |order| && order[i] == JettonGasAdded && order[j] == JettonGasPaid :: i < j
  }

  /** A list that tries gas added before gas paid never settles on gas paid where both match. */
  lemma {:induction false} AddedComesFirst(order: seq<Kind>, j: nat, c: Config, tx: Transaction)
    requires j < |order| && order[j] == JettonGasAdded && JettonGasPaid !in order[..j]
    requires Matches(c, tx, JettonGasAdded)
    ensures FirstMatch(order, c, tx) != Some(JettonGasPaid)
  {
    if j > 0 && !Matches(c, tx, order[0]) {
      assert order[..j] == [order[0]] + order[1..][..j - 1];
      AddedComesFirst(order[1..], j - 1, c, tx);
    }
  }

  lemma AddedBeatsPaid(order: seq<Kind>, c: Config, tx: Transaction)
    requires KeepsJettonOrder(order)
    ensures Matches(c, tx, JettonGasAdded) ==> FirstMatch(order, c, tx) != Some(JettonGasPaid)
  {
    assert JettonGasAdded in order;
    var j :| 0 <= j < |order| && order[j] == JettonGasAdded;
    if Matches(c, tx, JettonGasAdded) {
      AddedComesFirst(order, j, c, tx);
    }
  }

  lemma AnyOrderClassifiesAlike(order: seq<Kind>, order': seq<Kind>, c: Config, tx: Transaction)
    requires KeepsJettonOrder(order) && KeepsJettonOrder(order')
    ensures FirstMatch(order, c, tx) == FirstMatch(order', c, tx)
  {
    FirstMatchMatches(order, c, tx);
    FirstMatchMatches(order', c, tx);
    AddedBeatsPaid(order, c, tx);
    AddedBeatsPaid(order', c, tx);
    if FirstMatch(order, c, tx).Some? {
      MatchesExclude(c, tx, FirstMatch(order, c, tx).value, FirstMatch(order', c, tx).value);
    }
  }

  lemma SourceOrderKeepsJettonOrder()
    ensures KeepsJettonOrder(ORDER)
  {
    assert ORDER[0] == CallContract && ORDER[1] == MessageExecuted && ORDER[2] == MessageApproved;
    assert ORDER[3] == NativeGasPaid && ORDER[4] == NativeGasAdded && ORDER[5] == JettonGasAdded;
    assert ORDER[6] == JettonGasPaid && ORDER[7] == NativeGasRefunded;
    forall k: Kind ensures k in ORDER {
      match k
      case CallContract =>
      case _ =>
    }
  }

  // ----- Building the parsers -----

  /** The parser tried once per trace: it does not match, matches an unreadable body, or yields a parser. */
  datatype Leading = NoMatch | Unreadable | Matched(messageId: string, sourceChain: string)

  datatype Trace = Trace(traceId: string, leading: Leading, transactions: seq<Transaction>)

  /** Calls, gas payments and everything else, each in transaction order. */
  datatype Collected = Collected(calls: seq<Parser>, payments: seq<Parser>, others: seq<Parser>)

  function Place(col: Collected, p: Parser): Collected {
    if p.Call? then col.(calls := col.calls + [p])
    else if p.Paid? then col.(payments := col.payments + [p])
    else col.(others := col.others + [p])
  }

  /** What becomes of one transaction: nothing, an error, or a parser. */
  datatype Reading = Skipped | Failed | Read(parser: Parser)

  function ReadTransaction(order: seq<Kind>, c: Config, tx: Transaction): (r: Reading) {
    var k := FirstMatch(order, c, tx);
    if k.None? then Skipped
    else
      var p := Parse(c, tx, k.value);
      if p.None? then Failed else Read(p.value)
  }

  function Readings(order: seq<Kind>, c: Config, txs: seq<Transaction>): (rs: seq<Reading>)
    ensures |rs| == |txs|
    ensures forall i | 0 <= i < |txs| :: rs[i] == ReadTransaction(order, c, txs[i])
  {
    if txs == [] then [] else Readings(order, c, txs[..|txs| - 1]) + [ReadTransaction(order, c, txs[|txs| - 1])]
  }

  function First(trace: Trace): Option<Collected> {
    match trace.leading
    case NoMatch => Some(Collected([], [], []))
    case Unreadable => None
    case Matched(messageId, sourceChain) =>
      Some(Collected([], [], [InsufficientGas(messageId, sourceChain, trace.traceId)]))
  }

  predicate Sorted(col: Collected) {
    && (forall i | 0 <= i < |col.calls| :: col.calls[i].Call?)
    && (forall i | 0 <= i < |col.payments| :: col.payments[i].Paid?)
  }

  /** The parsers gathered from the readings, unless one of them failed. */
  function Collect(first: Option<Collected>, rs: seq<Reading>): (r: Option<Collected>)
    requires first.Some? ==> Sorted(first.value)
    ensures r.Some? ==> Sorted(r.value)
  {
    if rs == [] then first
    else
      var before := Collect(first, rs[..|rs| - 1]);
      if before.None? then None
      else
        match rs[|rs| - 1]
        case Skipped => before
        case Failed => None
        case Read(p) => Some(Place(before.value, p))
  }

  function CollectTrace(order: seq<Kind>, c: Config, trace: Trace): (r: Option<Collected>)
    ensures r.Some? ==> Sorted(r.value)
  {
    Collect(First(trace), Readings(order, c, trace.transactions))
  }

  /** Any order of trying that keeps the jetton pair builds the same parsers. */
  lemma AnyOrderCollectsAlike(order: seq<Kind>, order': seq<Kind>, c: Config, trace: Trace)
    requires KeepsJettonOrder(order) && KeepsJettonOrder(order')
    ensures CollectTrace(order, c, trace) == CollectTrace(order', c, trace)
  {
    forall i | 0 <= i < |trace.transactions|
      ensures ReadTransaction(order, c, trace.transactions[i]) == ReadTransaction(order', c, trace.transactions[i])
    {
      AnyOrderClassifiesAlike(order, order', c, trace.transactions[i]);
    }
    assert Readings(order, c, trace.transactions) == Readings(order', c, trace.transactions);
  }

  /** Inserting the payments one by one under their keys. */
  function PaymentMap(payments: seq<Parser>): map<MatchingKey, Parser>
    requires forall i | 0 <= i < |payments| :: payments[i].Paid?
  {
    if payments == [] then map[]
    else
      var last := payments[|payments| - 1];
      PaymentMap(payments[..|payments| - 1])[last.paid.key := last]
  }

  function CountApproved(ps: seq<Parser>): nat {
    if ps == [] then 0 else CountApproved(ps[..|ps| - 1]) + if ps[|ps| - 1].Approved? then 1 else 0
  }

  method ReadOne(order: seq<Kind>, c: Config, tx: Transaction) returns (r: Reading)
    ensures r == ReadTransaction(order, c, tx)
  {
    for i := 0 to |order|
      invariant FirstMatch(order, c, tx) == FirstMatch(order[i..], c, tx)
    {
      if Matches(c, tx, order[i]) {
        var p := Parse(c, tx, order[i]);
        return if p.None? then Failed else Read(p.value);
      }
      assert order[i..][1..] == order[i + 1..];
    }
    return Skipped;
  }

  /** Calls, the payments under their keys, the other parsers, and how many of those are approvals. */
  datatype Built = Built(calls: seq<Parser>, credits: map<MatchingKey, Parser>, others: seq<Parser>, approved: nat)

  function Build(col: Collected): Built
    requires Sorted(col)
  {
    Built(col.calls, PaymentMap(col.payments), col.others, CountApproved(col.others))
  }

  method AddParser(b: Built, p: Parser, ghost col: Collected) returns (r: Built)
    requires Sorted(col) && b == Build(col)
    ensures r == Build(Place(col, p))
  {
    r := b;
    if p.Call? {
      r := r.(calls := b.calls + [p]);
    } else if p.Paid? {
      assert (col.payments + [p])[..|col.payments|] == col.payments;
      r := r.(credits := b.credits[p.paid.key := p]);
    } else {
      assert (col.others + [p])[..|col.others|] == col.others;
      r := r.(others := b.others + [p]);
      if p.Approved? {
        r := r.(approved := b.approved + 1);
      }
    }
  }

  function BuildOption(col: Option<Collected>): Option<Built>
    requires col.Some? ==> Sorted(col.value)
  {
    if col.Some? then Some(Build(col.value)) else None
  }

  method AddTransactions(order: seq<Kind>, c: Config, txs: seq<Transaction>, start: Built, ghost first: Collected)
    returns (r: Option<Built>)
    requires Sorted(first) && start == Build(first)
    ensures r == BuildOption(Collect(Some(first), Readings(order, c, txs)))
  {
    ghost var rs := Readings(order, c, txs);
    ghost var col := first;
    var b := start;
    for i := 0 to |txs|
      invariant Sorted(col) && Collect(Some(first), rs[..i]) == Some(col) && b == Build(col)
    {
      var reading := ReadOne(order, c, txs[i]);
      CollectNext(Some(first), rs, i);
      if reading.Failed? {
        CollectFailsOn(Some(first), rs, i + 1);
        return None;
      } else if reading.Read? {
        b := AddParser(b, reading.parser, col);
        col := Place(col, reading.parser);
      }
    }
    assert rs[..|txs|] == rs;
    return Some(b);
  }

  lemma CollectNext(first: Option<Collected>, rs: seq<Reading>, i: nat)
    requires first.Some? ==> Sorted(first.value)
    requires i < |rs| && Collect(first, rs[..i]).Some?
    ensures Collect(first, rs[..i + 1]) ==
            match rs[i]
            case Skipped => Collect(first, rs[..i])
            case Failed => None
            case Read(p) => Some(Place(Collect(first, rs[..i]).value, p))
  {
    assert rs[..i + 1][..i] == rs[..i];
  }

  method CreateParsers(order: seq<Kind>, c: Config, trace: Trace) returns (r: Option<Built>)
    ensures r == BuildOption(CollectTrace(order, c, trace))
  {
    var none := Collected([], [], []);
    match trace.leading {
      case NoMatch =>
        r := AddTransactions(order, c, trace.transactions, Built([], map[], [], 0), none);
      case Unreadable =>
        CollectFailsOn(None, Readings(order, c, trace.transactions), 0);
        r := None;
      case Matched(messageId, sourceChain) =>
        var p := InsufficientGas(messageId, sourceChain, trace.traceId);
        var b := AddParser(Built([], map[], [], 0), p, none);
        r := AddTransactions(order, c, trace.transactions, b, Place(none, p));
    }
  }

  lemma {:induction false} CollectFailsOn(first: Option<Collected>, rs: seq<Reading>, n: nat)
    requires first.Some? ==> Sorted(first.value)
    requires n <= |rs| && Collect(first, rs[..n]).None?
    ensures Collect(first, rs).None?
    decreases |rs|
  {
    if n < |rs| {
      assert rs[..|rs| - 1][..n] == rs[..n];
      CollectFailsOn(first, rs[..|rs| - 1], n);
    } else {
      assert rs[..n] == rs;
    }
  }
}
