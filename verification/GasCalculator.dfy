/** What a trace cost us: fees and value leaving our accounts, less value coming in. */
module GasCalculator {
  import opened Wrappers
  import opened Traces

  const U64: int := 0x1_0000_0000_0000_0000

  function Amount(text: Option<int>): int {
    if text.Some? then text.value else 0
  }

  /** What one message adds to the cost of the accounts in `ours`. */
  function MessageCost(ours: set<Address>, account: Address, m: OutMsg): int {
    (if account in ours then Amount(m.fwdFee) else 0) +
    (if m.destination.None? then 0
     else if account in ours && m.destination.value !in ours then Amount(m.value)
     else if account !in ours && m.destination.value in ours then -Amount(m.value)
     else 0)
  }

  function MessagesCost(ours: set<Address>, account: Address, msgs: seq<OutMsg>): int {
    if msgs == [] then 0
    else MessagesCost(ours, account, msgs[..|msgs| - 1]) + MessageCost(ours, account, msgs[|msgs| - 1])
  }

  function TransactionCost(ours: set<Address>, tx: Transaction): int {
    (if tx.account in ours then tx.totalFees else 0) + MessagesCost(ours, tx.account, tx.outMsgs)
  }

  /** The single running total that the balance map stands for. */
  function TraceCost(ours: set<Address>, txs: seq<Transaction>): int {
    if txs == [] then 0 else TraceCost(ours, txs[..|txs| - 1]) + TransactionCost(ours, txs[|txs| - 1])
  }

  /** The sum of the values of some keys, in no particular order. */
  ghost function SumOver(m: map<Address, int>, keys: set<Address>): int
    requires keys <= m.Keys
  {
    if keys == {} then 0
    else
      var k :| k in keys;
      m[k] + SumOver(m, keys - {k})
  }

  lemma {:induction false} SumOverSplit(m: map<Address, int>, keys: set<Address>, k: Address)
    requires keys <= m.Keys && k in keys
    ensures SumOver(m, keys) == m[k] + SumOver(m, keys - {k})
  {
    var j :| j in keys && SumOver(m, keys) == m[j] + SumOver(m, keys - {j});
    if j != k {
      SumOverSplit(m, keys - {j}, k);
      SumOverSplit(m, keys - {k}, j);
      assert keys - {j} - {k} == keys - {k} - {j};
    }
  }

  lemma {:induction false} SumOverElsewhere(m: map<Address, int>, keys: set<Address>, k: Address, v: int)
    requires keys <= m.Keys && k !in keys
    ensures SumOver(m[k := v], keys) == SumOver(m, keys)
    decreases keys
  {
    if keys != {} {
      var j :| j in keys;
      SumOverSplit(m, keys, j);
      SumOverSplit(m[k := v], keys, j);
      SumOverElsewhere(m, keys - {j}, k, v);
    }
  }

  lemma {:induction false} SumOfZeros(m: map<Address, int>, keys: set<Address>)
    requires keys <= m.Keys && forall k | k in m :: m[k] == 0
    ensures SumOver(m, keys) == 0
    decreases keys
  {
    if keys != {} {
      var j :| j in keys;
      SumOverSplit(m, keys, j);
      SumOfZeros(m, keys - {j});
    }
  }

  method AddCost(balances: map<Address, int>, account: Address, cost: int) returns (r: map<Address, int>)
    requires account in balances
    ensures r == balances[account := balances[account] + cost] && r.Keys == balances.Keys
    ensures SumOver(r, r.Keys) == SumOver(balances, balances.Keys) + cost
  {
    r := balances[account := balances[account] + cost];
    SumOverSplit(balances, balances.Keys, account);
    SumOverSplit(r, balances.Keys, account);
    SumOverElsewhere(balances, balances.Keys - {account}, account, balances[account] + cost);
  }

  method SumValues(balances: map<Address, int>) returns (total: int)
    ensures total == SumOver(balances, balances.Keys)
  {
    total := 0;
    var rest := balances.Keys;
    while rest != {}
      invariant rest <= balances.Keys
      invariant total + SumOver(balances, rest) == SumOver(balances, balances.Keys)
      decreases rest
    {
      var k :| k in rest;
      SumOverSplit(balances, rest, k);
      total := total + balances[k];
      rest := rest - {k};
    }
  }

  method AddMessages(balances: map<Address, int>, tx: Transaction) returns (r: map<Address, int>)
    ensures r.Keys == balances.Keys
    ensures SumOver(r, r.Keys) == SumOver(balances, balances.Keys) + MessagesCost(balances.Keys, tx.account, tx.outMsgs)
  {
    r := balances;
    for i := 0 to |tx.outMsgs|
      invariant r.Keys == balances.Keys
      invariant SumOver(r, r.Keys) ==
                SumOver(balances, balances.Keys) + MessagesCost(balances.Keys, tx.account, tx.outMsgs[..i])
    {
      var m := tx.outMsgs[i];
      assert tx.outMsgs[..i + 1][..i] == tx.outMsgs[..i];
      if tx.account in r {
        r := AddCost(r, tx.account, Amount(m.fwdFee));
      }
      if m.destination.Some? {
        var dest := m.destination.value;
        if tx.account in r && dest !in r {
          r := AddCost(r, tx.account, Amount(m.value));
        }
        if tx.account !in r && dest in r {
          r := AddCost(r, dest, 0 - Amount(m.value));
        }
      }
    }
    assert tx.outMsgs[..|tx.outMsgs|] == tx.outMsgs;
  }

  function AddressSet(addresses: seq<Address>): set<Address> {
    set a | a in addresses
  }

  /** The per-address balances add up to the scalar cost; repeated addresses make no difference. */
  method Cost(ourAddresses: seq<Address>, txs: seq<Transaction>) returns (total: int)
    ensures total == TraceCost(AddressSet(ourAddresses), txs)
  {
    var ours := AddressSet(ourAddresses);
    var balances := map a | a in ours :: 0;
    SumOfZeros(balances, balances.Keys);
    for i := 0 to |txs|
      invariant balances.Keys == ours
      invariant SumOver(balances, balances.Keys) == TraceCost(ours, txs[..i])
    {
      assert txs[..i + 1][..i] == txs[..i];
      if txs[i].account in balances {
        balances := AddCost(balances, txs[i].account, txs[i].totalFees);
      }
      balances := AddMessages(balances, txs[i]);
    }
    assert txs[..|txs|] == txs;
    total := SumValues(balances);
  }

  /** A positive total, cast to 64 bits; anything else counts as zero. */
  function Clamped(total: int): nat {
    if total > 0 then total % U64 else 0
  }

  /** `gas` is a total as 64-bit gas: nothing below one, itself below 2^64, its low 64 bits above. */
  predicate IsGas(gas: nat, total: int) {
    && (total <= 0 ==> gas == 0)
    && (0 < total < 0x1_0000_0000_0000_0000 ==> gas == total)
    && gas < 0x1_0000_0000_0000_0000 && (total > 0 ==> (total - gas) % 0x1_0000_0000_0000_0000 == 0)
  }

  /** The gas of a trace less what its refund message carries; nothing if there is no such message. */
  predicate IsRefundGas(gas: nat, ours: set<Address>, txs: seq<Transaction>) {
    if |txs| < 3 || txs[2].outMsgs == [] then gas == 0
    else
      var value := txs[2].outMsgs[0].value;
      IsGas(gas, TraceCost(ours, txs) - if value.Some? then value.value else 0)
  }

  lemma ClampedIsGas(total: int)
    ensures IsGas(Clamped(total), total)
  {
    if total > 0 {
      assert total == U64 * (total / U64) + total % U64;
      assert (total - total % U64) % U64 == 0;
    }
  }

  lemma RefundGasIsRefundGas(ours: set<Address>, txs: seq<Transaction>)
    ensures IsRefundGas(RefundGas(ours, txs), ours, txs)
  {
    if HasRefundMessage(txs) {
      ClampedIsGas(TraceCost(ours, txs) - Amount(txs[2].outMsgs[0].value));
    }
  }

  method CalcMessageGas(ourAddresses: seq<Address>, txs: seq<Transaction>) returns (gas: nat)
    ensures gas == Clamped(TraceCost(AddressSet(ourAddresses), txs))
    ensures IsGas(gas, TraceCost(AddressSet(ourAddresses), txs))
  {
    var total := Cost(ourAddresses, txs);
    gas := if total > 0 then total % U64 else 0;
    ClampedIsGas(total);
  }

  /** The trace has a message that carries the refund. */
  predicate HasRefundMessage(txs: seq<Transaction>) {
    |txs| > 2 && txs[2].outMsgs != []
  }

  function RefundGas(ours: set<Address>, txs: seq<Transaction>): nat {
    if HasRefundMessage(txs) then Clamped(TraceCost(ours, txs) - Amount(txs[2].outMsgs[0].value)) else 0
  }

  method CalcMessageGasNativeGasRefunded(ourAddresses: seq<Address>, txs: seq<Transaction>) returns (gas: nat)
    ensures gas == RefundGas(AddressSet(ourAddresses), txs)
    ensures IsRefundGas(gas, AddressSet(ourAddresses), txs)
  {
    RefundGasIsRefundGas(AddressSet(ourAddresses), txs);
    if |txs| <= 2 || txs[2].outMsgs == [] {
      return 0;
    }
    var refund := Amount(txs[2].outMsgs[0].value);
    var balanceDiff := Cost(ourAddresses, txs);
    var total := balanceDiff - refund;
    gas := if total > 0 then total % U64 else 0;
  }

  lemma {:induction false} MessagesCostAdds(a: set<Address>, b: set<Address>, account: Address, msgs: seq<OutMsg>)
    requires a !! b
    ensures MessagesCost(a + b, account, msgs) == MessagesCost(a, account, msgs) + MessagesCost(b, account, msgs)
  {
    if msgs != [] {
      MessagesCostAdds(a, b, account, msgs[..|msgs| - 1]);
    }
  }

  /** Costs of disjoint address sets add up: value moved between the two cancels. */
  lemma {:induction false} TraceCostAdds(a: set<Address>, b: set<Address>, txs: seq<Transaction>)
    requires a !! b
    ensures TraceCost(a + b, txs) == TraceCost(a, txs) + TraceCost(b, txs)
  {
    if txs != [] {
      TraceCostAdds(a, b, txs[..|txs| - 1]);
      MessagesCostAdds(a, b, txs[|txs| - 1].account, txs[|txs| - 1].outMsgs);
    }
  }

  function ForwardFees(msgs: seq<OutMsg>): int {
    if msgs == [] then 0
    else ForwardFees(msgs[..|msgs| - 1]) + if msgs[|msgs| - 1].fwdFee.Some? then msgs[|msgs| - 1].fwdFee.value else 0
  }

  function AllFees(txs: seq<Transaction>): int {
    if txs == [] then 0
    else AllFees(txs[..|txs| - 1]) + txs[|txs| - 1].totalFees + ForwardFees(txs[|txs| - 1].outMsgs)
  }

  predicate AllOurs(ours: set<Address>, txs: seq<Transaction>) {
    forall i | 0 <= i < |txs| ::
      && txs[i].account in ours
      && forall j | 0 <= j < |txs[i].outMsgs| && txs[i].outMsgs[j].destination.Some? ::
           txs[i].outMsgs[j].destination.value in ours
  }

  lemma {:induction false} OwnMessagesCostFees(ours: set<Address>, account: Address, msgs: seq<OutMsg>)
    requires account in ours
    requires forall j | 0 <= j < |msgs| && msgs[j].destination.Some? :: msgs[j].destination.value in ours
    ensures MessagesCost(ours, account, msgs) == ForwardFees(msgs)
  {
    if msgs != [] {
      OwnMessagesCostFees(ours, account, msgs[..|msgs| - 1]);
    }
  }

  /** When every account is ours only fees are spent. */
  lemma {:induction false} OwnTraceCostsFees(ours: set<Address>, txs: seq<Transaction>)
    requires AllOurs(ours, txs)
    ensures TraceCost(ours, txs) == AllFees(txs)
  {
    if txs != [] {
      var last := txs[|txs| - 1];
      OwnTraceCostsFees(ours, txs[..|txs| - 1]);
      OwnMessagesCostFees(ours, last.account, last.outMsgs);
    }
  }

  lemma {:induction false} TraceCostJoin(ours: set<Address>, a: seq<Transaction>, b: seq<Transaction>)
    ensures TraceCost(ours, a + b) == TraceCost(ours, a) + TraceCost(ours, b)
    decreases |b|
  {
    if b == [] {
      assert a + b == a;
    } else {
      assert (a + b)[..|a + b| - 1] == a + b[..|b| - 1];
      TraceCostJoin(ours, a, b[..|b| - 1]);
    }
  }

  lemma TraceCostSplit(ours: set<Address>, txs: seq<Transaction>, i: nat)
    requires i < |txs|
    ensures TraceCost(ours, txs) == TraceCost(ours, txs[..i] + txs[i + 1..]) + TransactionCost(ours, txs[i])
  {
    assert txs == txs[..i + 1] + txs[i + 1..] && txs[..i + 1][..i] == txs[..i];
    TraceCostJoin(ours, txs[..i + 1], txs[i + 1..]);
    TraceCostJoin(ours, txs[..i], txs[i + 1..]);
  }

  lemma RemoveOne(txs: seq<Transaction>, i: nat)
    requires i < |txs|
    ensures multiset(txs[..i] + txs[i + 1..]) == multiset(txs) - multiset{txs[i]}
  {
    assert txs == txs[..i] + [txs[i]] + txs[i + 1..];
  }

  /** The order of the transactions does not matter. */
  lemma {:induction false} TraceCostPermutes(ours: set<Address>, txs: seq<Transaction>, txs': seq<Transaction>)
    requires multiset(txs) == multiset(txs')
    ensures TraceCost(ours, txs) == TraceCost(ours, txs')
    decreases |txs|
  {
    assert |txs| == |multiset(txs)| == |multiset(txs')| == |txs'|;
    if txs != [] {
      var n := |txs| - 1;
      var i := LastIsThere(txs, txs');
      TraceCostPermutes(ours, txs[..n], txs'[..i] + txs'[i + 1..]);
      TraceCostSplit(ours, txs', i);
    }
  }

  lemma LastIsThere(txs: seq<Transaction>, txs': seq<Transaction>) returns (i: nat)
    requires txs != [] && multiset(txs) == multiset(txs')
    ensures i < |txs'| && txs'[i] == txs[|txs| - 1]
    ensures multiset(txs[..|txs| - 1]) == multiset(txs'[..i] + txs'[i + 1..])
  {
    var n := |txs| - 1;
    assert txs[n] in multiset(txs');
    i :| 0 <= i < |txs'| && txs'[i] == txs[n];
    RemoveOne(txs, n);
    RemoveOne(txs', i);
    assert txs[..n] + txs[n + 1..] == txs[..n];
  }

  /** The trace with the value of the refund message set to zero. */
  function WithoutRefund(txs: seq<Transaction>): seq<Transaction>
    requires HasRefundMessage(txs)
  {
    txs[2 := txs[2].(outMsgs := txs[2].outMsgs[0 := txs[2].outMsgs[0].(value := Some(0))])]
  }

  lemma {:induction false} FirstMessageValue(ours: set<Address>, account: Address, msgs: seq<OutMsg>, m: OutMsg)
    requires msgs != []
    ensures MessagesCost(ours, account, msgs[0 := m]) - MessagesCost(ours, account, msgs) ==
            MessageCost(ours, account, m) - MessageCost(ours, account, msgs[0])
  {
    var n := |msgs| - 1;
    if n > 0 {
      FirstMessageValue(ours, account, msgs[..n], m);
      assert msgs[0 := m][..n] == msgs[..n][0 := m];
    } else {
      assert msgs[0 := m] == [m] && msgs[0 := m][..0] == [] && msgs[..0] == [];
    }
  }

  /** Subtracting the refund equals not having sent it exactly when it went from us to others, or was zero. */
  lemma RefundSubtractionIsExact(ours: set<Address>, txs: seq<Transaction>)
    requires HasRefundMessage(txs)
    ensures var m := txs[2].outMsgs[0];
            TraceCost(ours, txs) - Amount(m.value) == TraceCost(ours, WithoutRefund(txs)) <==>
            || (txs[2].account in ours && m.destination.Some? && m.destination.value !in ours)
            || (Amount(m.value) == 0)
  {
    var txs' := WithoutRefund(txs);
    var m := txs[2].outMsgs[0];
    TraceCostSplit(ours, txs, 2);
    TraceCostSplit(ours, txs', 2);
    assert txs'[..2] + txs'[3..] == txs[..2] + txs[3..];
    FirstMessageValue(ours, txs[2].account, txs[2].outMsgs, m.(value := Some(0)));
  }

  /** A refund from us to others is charged as if it had not been sent. */
  lemma RefundGasIsCostWithoutRefund(ours: set<Address>, txs: seq<Transaction>)
    requires HasRefundMessage(txs) && txs[2].account in ours
    requires txs[2].outMsgs[0].destination.Some? && txs[2].outMsgs[0].destination.value !in ours
    ensures RefundGas(ours, txs) == Clamped(TraceCost(ours, WithoutRefund(txs)))
    ensures IsGas(RefundGas(ours, txs), TraceCost(ours, WithoutRefund(txs)))
  {
    ClampedIsGas(TraceCost(ours, WithoutRefund(txs)));
    RefundSubtractionIsExact(ours, txs);
  }
}
