/** Query ids of a highload-v3 wallet: a shift and a bit number, counted like a two-digit number. */
module QueryId {
  import opened Wrappers

  const MAX_SHIFT: nat := 8191
  const MAX_BITNUMBER: nat := 1022

  /** Ids a wallet can issue between two resets, id 0 included. */
  const IDS_PER_EPOCH: nat := 8_380_414

  datatype Error =
    | InvalidShift(maximum: nat)
    | InvalidBitnumber(maximum: nat)
    | EmergencyOverload
    | ShiftOverflow

  datatype Id = Id(shift: nat, bitnumber: nat) {
    predicate Valid() {
      shift <= MAX_SHIFT && bitnumber <= MAX_BITNUMBER
    }
  }

  function FromShiftAndBitnumber(shift: nat, bitnumber: nat): (r: Result<Id, Error>)
    ensures r.Ok? <==> Id(shift, bitnumber).Valid()
    ensures r.Ok? ==> r.value == Id(shift, bitnumber)
    ensures r.Err? ==> r.error == if shift > 8191 then InvalidShift(8191) else InvalidBitnumber(1022)
  {
    if shift > MAX_SHIFT then Err(InvalidShift(MAX_SHIFT))
    else if bitnumber > MAX_BITNUMBER then Err(InvalidBitnumber(MAX_BITNUMBER))
    else Ok(Id(shift, bitnumber))
  }

  function Next(q: Id): Result<Id, Error> {
    var bitnumber := q.bitnumber + 1;
    if q.shift == MAX_SHIFT && bitnumber == MAX_BITNUMBER - 1 then Err(EmergencyOverload)
    else if bitnumber > MAX_BITNUMBER then
      if q.shift + 1 > MAX_SHIFT then Err(ShiftOverflow)
      else FromShiftAndBitnumber(q.shift + 1, 0)
    else FromShiftAndBitnumber(q.shift, bitnumber)
  }

  predicate HasNext(q: Id) {
    !(q.bitnumber >= MAX_BITNUMBER - 1 && q.shift == MAX_SHIFT)
  }

  /** The number put into the message: `shift << 10` plus the bit number. */
  function Encode(q: Id): nat {
    q.shift * 1024 + q.bitnumber
  }

  /** How many ids precede `q` in issuing order. */
  function Ordinal(q: Id): nat {
    q.shift * 1023 + q.bitnumber
  }

  /** The id that has exactly `k` predecessors. */
  function IdAt(k: nat): Id {
    Id(k / 1023, k % 1023)
  }

  /** The last id reachable from id 0. */
  const LAST_ID := Id(8191, 1020)

  lemma OrdinalRoundTrip(q: Id, k: nat)
    requires q.Valid()
    ensures IdAt(Ordinal(q)) == q
    ensures Ordinal(IdAt(k)) == k
    ensures k < IDS_PER_EPOCH ==> IdAt(k).Valid()
  {
    assert (q.shift * 1023 + q.bitnumber) / 1023 == q.shift;
  }

  /** Advancing is adding one, and it stops at exactly two ids, each with its own error. */
  lemma NextIsSuccessor(q: Id)
    requires q.Valid()
    ensures Next(q).Ok? <==> q != LAST_ID && q != Id(8191, 1022)
    ensures Next(q).Ok? ==> Next(q).value.Valid() && Ordinal(Next(q).value) == Ordinal(q) + 1
    ensures q == LAST_ID ==> Next(q) == Err(EmergencyOverload)
    ensures q == Id(8191, 1022) ==> Next(q) == Err(ShiftOverflow)
  {
  }

  /** The guard and the step it guards disagree on exactly two ids, once in each direction. */
  lemma HasNextDisagreesWithNext(q: Id)
    requires q.Valid()
    ensures (HasNext(q) && Next(q).Err?) <==> q == LAST_ID
    ensures (!HasNext(q) && Next(q).Ok?) <==> q == Id(8191, 1021)
  {
  }

  /** Among the ids reachable from id 0 the guard always lets the step through, and only the last id has no successor. */
  lemma StepWithinEpoch(q: Id)
    requires q.Valid() && Ordinal(q) < IDS_PER_EPOCH
    ensures HasNext(q)
    ensures Next(q).Ok? <==> Ordinal(q) + 1 < IDS_PER_EPOCH
    ensures Next(q).Err? ==> q == LAST_ID && Next(q) == Err(EmergencyOverload)
    ensures Next(q).Ok? ==>
              && Next(q).value.Valid() && Ordinal(Next(q).value) == Ordinal(q) + 1 && Encode(Next(q).value) != 0
  {
  }

  /** The bit number takes the low ten bits of the number and the shift the rest. */
  lemma EncodeReadsBack(q: Id)
    requires q.Valid()
    ensures Encode(q) / 1024 == q.shift && Encode(q) % 1024 == q.bitnumber
  {
    assert (q.shift * 1024 + q.bitnumber) / 1024 == q.shift;
  }

  /** Encoding keeps the issuing order, so distinct ids get distinct numbers, all of 23 bits. */
  lemma EncodeKeepsOrder(p: Id, q: Id)
    requires p.Valid() && q.Valid()
    ensures Encode(p) < Encode(q) <==> Ordinal(p) < Ordinal(q)
    ensures Encode(p) == Encode(q) <==> p == q
    ensures Encode(p) < 0x80_0000
  {
    if p.shift < q.shift {
      assert q.shift >= p.shift + 1;
    } else if q.shift < p.shift {
      assert p.shift >= q.shift + 1;
    }
  }
}
