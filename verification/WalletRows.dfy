/**
 The table that keeps one query id per wallet, and the wrapper that advances it.
 A row lives until the expiry written when id 0 was issued; advancing never moves that expiry.
 */
module WalletRows {
  import opened Wrappers
  import opened QueryId

  type Address = string

  const TIMEOUT_BUFFER_MULTIPLIER: int := 3

  /** Times are counted in the unit of the wallet timeout. */
  datatype Row = Row(shift: int, bitnumber: int, expiresAt: int)

  type Rows = map<Address, Row>

  datatype WrapperError = ConstructionError | NoNextQueryId | DatabaseError

  /** A 32-bit two's complement reading of an integer. */
  function AsI32(n: int): (r: int)
    ensures -0x8000_0000 <= r < 0x8000_0000
    ensures (r - n) % 0x1_0000_0000 == 0
  {
    var low := n % 0x1_0000_0000;
    if low < 0x8000_0000 then low else low - 0x1_0000_0000
  }

  /** Seconds a fresh row lives: the timeout cast to `i32`, times three in `i32` arithmetic. */
  function RowLifetime(timeout: nat): int {
    AsI32(AsI32(timeout) * TIMEOUT_BUFFER_MULTIPLIER)
  }

  /** The `u64` timeouts whose row really lives three timeouts. */
  const MAX_TIMEOUT: nat := 715_827_882

  lemma RowLifetimeIsThreeTimeouts(timeout: nat)
    ensures RowLifetime(timeout) == 3 * timeout <==> timeout <= MAX_TIMEOUT
  {
  }

  /** Beyond that it is the 32-bit reading of three timeouts. */
  lemma RowLifetimeWraps(timeout: nat)
    ensures -0x8000_0000 <= RowLifetime(timeout) < 0x8000_0000
    ensures (RowLifetime(timeout) - 3 * timeout) % 0x1_0000_0000 == 0
  {
    TripleKeepsCongruence(timeout, AsI32(timeout), RowLifetime(timeout));
  }

  lemma TripleKeepsCongruence(a: int, b: int, c: int)
    requires (b - a) % 0x1_0000_0000 == 0 && (c - b * 3) % 0x1_0000_0000 == 0
    ensures (c - 3 * a) % 0x1_0000_0000 == 0
  {
    var j, k := (b - a) / 0x1_0000_0000, (c - b * 3) / 0x1_0000_0000;
    assert c - 3 * a == (k + 3 * j) * 0x1_0000_0000;
  }

  predicate Live(rows: Rows, address: Address, now: int) {
    address in rows && rows[address].expiresAt >= now
  }

  function GetQueryId(rows: Rows, address: Address, now: int): (int, int) {
    if Live(rows, address, now) then (rows[address].shift, rows[address].bitnumber) else (-1, -1)
  }

  function UpdateQueryId(rows: Rows, address: Address, shift: int, bitnumber: int): Rows {
    if address in rows then rows[address := Row(shift, bitnumber, rows[address].expiresAt)] else rows
  }

  function UpsertQueryId(rows: Rows, address: Address, shift: int, bitnumber: int, timeout: int, now: int): Rows {
    rows[address := Row(shift, bitnumber, now + timeout)]
  }

  /** The id that follows what was read; a negative reading means there is no live row. */
  function Advance(shift: int, bitnumber: int): Result<Id, WrapperError> {
    if shift < 0 || bitnumber < 0 then Ok(Id(0, 0))
    else if FromShiftAndBitnumber(shift, bitnumber).Err? then Err(ConstructionError)
    else
      var q := FromShiftAndBitnumber(shift, bitnumber).value;
      if !HasNext(q) then Err(NoNextQueryId)
      else if Next(q).Err? then Err(ConstructionError)
      else Ok(Next(q).value)
  }

  /** Id 0 starts a row with a fresh expiry; every other id overwrites the digits only. */
  function WriteBack(rows: Rows, address: Address, id: Id, lifetime: int, now: int): Rows {
    if Encode(id) == 0 then UpsertQueryId(rows, address, id.shift, id.bitnumber, lifetime, now)
    else UpdateQueryId(rows, address, id.shift, id.bitnumber)
  }

  /** One call of the wrapper: the lifetime of a fresh row, the clock at its read and at its write, the fate of both. */
  datatype Call = Call(address: Address, lifetime: int, readAt: int, writeAt: int, readOk: bool, writeOk: bool)

  function Advanced(rows: Rows, c: Call): Result<Id, WrapperError> {
    var (shift, bitnumber) := GetQueryId(rows, c.address, c.readAt);
    if !c.readOk then Err(DatabaseError)
    else if Advance(shift, bitnumber).Ok? && !c.writeOk then Err(DatabaseError)
    else Advance(shift, bitnumber)
  }

  function RowsAfter(rows: Rows, c: Call): Rows {
    if Advanced(rows, c).Ok?
    then WriteBack(rows, c.address, Advanced(rows, c).value, c.lifetime, c.writeAt)
    else rows
  }

  class WalletQueryIdModel {
    var rows: Rows

    constructor ()
      ensures rows == map[]
    {
      rows := map[];
    }

    method Get(address: Address, now: int, up: bool) returns (r: Option<(int, int)>)
      ensures r == if up then Some(GetQueryId(rows, address, now)) else None
      ensures up && address in rows && now <= rows[address].expiresAt ==>
                r == Some((rows[address].shift, rows[address].bitnumber))
      ensures up && (address in rows ==> rows[address].expiresAt < now) ==> r == Some((-1, -1))
    {
      if !up {
        return None;
      }
      if address in rows && rows[address].expiresAt >= now {
        return Some((rows[address].shift, rows[address].bitnumber));
      }
      return Some((-1, -1));
    }

    method Update(address: Address, shift: int, bitnumber: int, up: bool) returns (ok: bool)
      modifies this
      ensures ok == up
      ensures rows == if up then UpdateQueryId(old(rows), address, shift, bitnumber) else old(rows)
      ensures rows == if up && address in old(rows)
                      then old(rows)[address := Row(shift, bitnumber, old(rows)[address].expiresAt)] else old(rows)
    {
      if up && address in rows {
        rows := rows[address := Row(shift, bitnumber, rows[address].expiresAt)];
      }
      ok := up;
    }

    method Upsert(address: Address, shift: int, bitnumber: int, timeout: int, now: int, up: bool) returns (ok: bool)
      modifies this
      ensures ok == up
      ensures rows == if up then UpsertQueryId(old(rows), address, shift, bitnumber, timeout, now) else old(rows)
      ensures rows == if up then old(rows)[address := Row(shift, bitnumber, now + timeout)] else old(rows)
    {
      if up {
        rows := rows[address := Row(shift, bitnumber, now + timeout)];
      }
      ok := up;
    }
  }

  class HighLoadQueryIdDbWrapper {
    const model: WalletQueryIdModel

    constructor (model: WalletQueryIdModel)
      ensures this.model == model
    {
      this.model := model;
    }

    method NextId(address: Address, timeout: nat, readAt: int, writeAt: int, readOk: bool, writeOk: bool)
      returns (r: Result<Id, WrapperError>, ghost c: Call)
      modifies model
      ensures c == Call(address, RowLifetime(timeout), readAt, writeAt, readOk, writeOk)
      ensures r == Advanced(old(model.rows), c)
      ensures model.rows == RowsAfter(old(model.rows), c)
      ensures !readOk || (!writeOk && r.Err?) ==> model.rows == old(model.rows)
      ensures !readOk ==> r == Err(DatabaseError)
      ensures r == Err(DatabaseError) ==> !readOk || !writeOk
    {
      c := Call(address, RowLifetime(timeout), readAt, writeAt, readOk, writeOk);
      var reading := model.Get(address, readAt, readOk);
      if reading.None? {
        return Err(DatabaseError), c;
      }
      var (shift, bitnumber) := reading.value;
      var id := Id(0, 0);
      if shift >= 0 && bitnumber >= 0 {
        var current := FromShiftAndBitnumber(shift, bitnumber);
        if current.Err? {
          return Err(ConstructionError), c;
        }
        if !HasNext(current.value) {
          return Err(NoNextQueryId), c;
        }
        var next := Next(current.value);
        if next.Err? {
          return Err(ConstructionError), c;
        }
        id := next.value;
      }
      var written;
      if Encode(id) == 0 {
        written := model.Upsert(address, id.shift, id.bitnumber, RowLifetime(timeout), writeAt, writeOk);
      } else {
        written := model.Update(address, id.shift, id.bitnumber, writeOk);
      }
      r := if written then Ok(id) else Err(DatabaseError);
    }
  }

  /** The rows left by a run of calls on any wallets. */
  function RunRows(rows: Rows, calls: seq<Call>): Rows
    decreases |calls|
  {
    if calls == [] then rows else RunRows(RowsAfter(rows, calls[0]), calls[1..])
  }

  /** The ids a run issues to one wallet, in order. */
  function Issued(rows: Rows, calls: seq<Call>, address: Address): seq<Id>
    decreases |calls|
  {
    if calls == [] then []
    else
      var rest := Issued(RowsAfter(rows, calls[0]), calls[1..], address);
      if calls[0].address == address && Advanced(rows, calls[0]).Ok?
      then [Advanced(rows, calls[0]).value] + rest
      else rest
  }

  /** How many calls of a run are for one wallet and meet a working database. */
  function Served(calls: seq<Call>, address: Address): nat {
    if calls == [] then 0
    else
      Served(calls[1..], address) +
      if calls[0].address == address && calls[0].readOk && calls[0].writeOk then 1 else 0
  }

  predicate IsAt(q: Id, k: nat) {
    q.Valid() && Ordinal(q) == k
  }

  /** The wallet's row holds the id with ordinal `k`, reached from id 0, and expires at `expiry`. */
  predicate RowAt(rows: Rows, address: Address, k: nat, expiry: int) {
    && k < IDS_PER_EPOCH && address in rows && rows[address].expiresAt == expiry
    && rows[address].shift >= 0 && rows[address].bitnumber >= 0
    && IsAt(Id(rows[address].shift, rows[address].bitnumber), k)
  }

  predicate BeforeExpiry(calls: seq<Call>, address: Address, expiry: int) {
    forall i | 0 <= i < |calls| && calls[i].address == address :: calls[i].readAt <= expiry
  }

  function Min(a: nat, b: nat): nat {
    if a < b then a else b
  }

  lemma AdvanceFromRow(rows: Rows, address: Address, k: nat, expiry: int, now: int)
    requires RowAt(rows, address, k, expiry) && now <= expiry
    ensures var (shift, bitnumber) := GetQueryId(rows, address, now);
            var r := Advance(shift, bitnumber);
            && (r.Err? <==> k + 1 == IDS_PER_EPOCH) && (r.Err? ==> r.error == ConstructionError)
            && (r.Ok? ==> IsAt(r.value, k + 1) && Encode(r.value) != 0)
  {
    StepWithinEpoch(Id(rows[address].shift, rows[address].bitnumber));
  }

  /** A reset, whatever was in the table, issues id 0 and lets the row live for the computed lifetime. */
  lemma ResetStartsEpoch(rows: Rows, c: Call)
    requires !Live(rows, c.address, c.readAt) && c.readOk && c.writeOk
    ensures Advanced(rows, c) == Ok(Id(0, 0))
    ensures RowAt(RowsAfter(rows, c), c.address, 0, c.writeAt + c.lifetime)
  {
  }

  /** Whether a call in the epoch that reached ordinal `k` issues an id. */
  predicate Issues(c: Call, address: Address, k: nat) {
    c.address == address && c.readOk && c.writeOk && k + 1 < IDS_PER_EPOCH
  }

  lemma CallInEpoch(rows: Rows, c: Call, address: Address, k: nat, expiry: int)
    requires RowAt(rows, address, k, expiry) && (c.address == address ==> c.readAt <= expiry)
    ensures c.address == address ==> (Advanced(rows, c).Ok? <==> Issues(c, address, k))
    ensures Issues(c, address, k) ==> IsAt(Advanced(rows, c).value, k + 1) && Encode(Advanced(rows, c).value) != 0
    ensures RowAt(RowsAfter(rows, c), address, if Issues(c, address, k) then k + 1 else k, expiry)
  {
    if c.address == address {
      AdvanceFromRow(rows, address, k, expiry, c.readAt);
    }
  }

  /** The ids have consecutive ordinals from `k` on. */
  predicate Consecutive(ids: seq<Id>, k: nat) {
    forall i | 0 <= i < |ids| :: IsAt(ids[i], k + i)
  }

  /**
   Between a reset and its expiry, whatever other wallets do and whatever calls fail, the wallet
   receives consecutive ids, one per call served, until the last id; the expiry does not move.
   */
  lemma {:induction false} EpochIssuesConsecutiveIds(rows: Rows, calls: seq<Call>, address: Address, k: nat, expiry: int)
    requires RowAt(rows, address, k, expiry) && BeforeExpiry(calls, address, expiry)
    ensures Consecutive(Issued(rows, calls, address), k + 1)
    ensures |Issued(rows, calls, address)| == Min(Served(calls, address), IDS_PER_EPOCH - 1 - k)
    ensures RowAt(RunRows(rows, calls), address, k + |Issued(rows, calls, address)|, expiry)
    decreases |calls|
  {
    if calls != [] {
      var c, rest := calls[0], calls[1..];
      CallInEpoch(rows, c, address, k, expiry);
      var k' := if Issues(c, address, k) then k + 1 else k;
      EpochIssuesConsecutiveIds(RowsAfter(rows, c), rest, address, k', expiry);
    }
  }

  /** The `k`-th id after a reset is shift `k` div 1023, bit `k` mod 1023. */
  lemma EpochIdsInMixedRadix(rows: Rows, reset: Call, calls: seq<Call>, k: nat)
    requires !Live(rows, reset.address, reset.readAt) && reset.readOk && reset.writeOk
    requires BeforeExpiry(calls, reset.address, reset.writeAt + reset.lifetime)
    requires k < |Issued(rows, [reset] + calls, reset.address)|
    ensures Issued(rows, [reset] + calls, reset.address)[k] == Id(k / 1023, k % 1023)
  {
    ResetStartsEpoch(rows, reset);
    var rows' := RowsAfter(rows, reset);
    EpochIssuesConsecutiveIds(rows', calls, reset.address, 0, reset.writeAt + reset.lifetime);
    assert ([reset] + calls)[1..] == calls;
    var ids := Issued(rows', calls, reset.address);
    assert Issued(rows, [reset] + calls, reset.address) == [Id(0, 0)] + ids;
    if k > 0 {
      assert IsAt(ids[k - 1], 1 + (k - 1));
      OrdinalRoundTrip(ids[k - 1], k);
    }
  }

  /** And the number it is sent under is (`k` div 1023) * 1024 + `k` mod 1023. */
  lemma EpochNumbers(rows: Rows, reset: Call, calls: seq<Call>, k: nat)
    requires !Live(rows, reset.address, reset.readAt) && reset.readOk && reset.writeOk
    requires BeforeExpiry(calls, reset.address, reset.writeAt + reset.lifetime)
    requires k < |Issued(rows, [reset] + calls, reset.address)|
    ensures Encode(Issued(rows, [reset] + calls, reset.address)[k]) == (k / 1023) * 1024 + k % 1023
    ensures |Issued(rows, [reset] + calls, reset.address)| <= 8_380_414
  {
    EpochIdsInMixedRadix(rows, reset, calls, k);
    EpochLength(rows, reset, calls);
  }

  lemma EpochLength(rows: Rows, reset: Call, calls: seq<Call>)
    requires !Live(rows, reset.address, reset.readAt) && reset.readOk && reset.writeOk
    requires BeforeExpiry(calls, reset.address, reset.writeAt + reset.lifetime)
    ensures |Issued(rows, [reset] + calls, reset.address)| == 1 + Min(Served(calls, reset.address), 8_380_413)
  {
    ResetStartsEpoch(rows, reset);
    EpochIssuesConsecutiveIds(RowsAfter(rows, reset), calls, reset.address, 0, reset.writeAt + reset.lifetime);
    assert ([reset] + calls)[1..] == calls;
  }

  /** After the last id every call before expiry fails, with a construction error, and changes nothing. */
  lemma ExhaustedEpochFails(rows: Rows, c: Call, expiry: int)
    requires RowAt(rows, c.address, IDS_PER_EPOCH - 1, expiry) && c.readAt <= expiry
    ensures Advanced(rows, c) == Err(if c.readOk then ConstructionError else DatabaseError)
    ensures RowsAfter(rows, c) == rows
  {
    AdvanceFromRow(rows, c.address, IDS_PER_EPOCH - 1, expiry, c.readAt);
  }

  ghost predicate AllReachable(rows: Rows) {
    forall a | a in rows :: exists k: nat :: RowAt(rows, a, k, rows[a].expiresAt)
  }

  /** The dedicated exhaustion error is never reported: rows reached from id 0 stop one id earlier. */
  lemma NoNextQueryIdIsUnreachable(rows: Rows, calls: seq<Call>, c: Call)
    requires AllReachable(rows)
    ensures AllReachable(RunRows(rows, calls))
    ensures Advanced(RunRows(rows, calls), c) != Err(NoNextQueryId)
    decreases |calls|
  {
    if calls == [] {
      if Live(rows, c.address, c.readAt) {
        var expiry := rows[c.address].expiresAt;
        var k: nat :| RowAt(rows, c.address, k, expiry);
        AdvanceFromRow(rows, c.address, k, expiry, c.readAt);
      }
    } else {
      ReachableAfterCall(rows, calls[0]);
      NoNextQueryIdIsUnreachable(RowsAfter(rows, calls[0]), calls[1..], c);
    }
  }

  lemma ReachableAfterCall(rows: Rows, c: Call)
    requires AllReachable(rows)
    ensures AllReachable(RowsAfter(rows, c))
  {
    var rows' := RowsAfter(rows, c);
    forall a | a in rows' ensures exists k: nat :: RowAt(rows', a, k, rows'[a].expiresAt) {
      if a != c.address || rows' == rows {
        var k: nat :| RowAt(rows, a, k, rows[a].expiresAt);
        assert RowAt(rows', a, k, rows'[a].expiresAt);
      } else if Live(rows, a, c.readAt) {
        var k: nat :| RowAt(rows, a, k, rows[a].expiresAt);
        CallInEpoch(rows, c, a, k, rows[a].expiresAt);
        assert RowAt(rows', a, k + 1, rows'[a].expiresAt);
      } else {
        ResetStartsEpoch(rows, c);
        assert RowAt(rows', a, 0, rows'[a].expiresAt);
      }
    }
  }
}
