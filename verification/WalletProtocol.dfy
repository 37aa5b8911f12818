/**
 Any number of workers sharing wallets: each takes a lease, reads and writes the wallet's row,
 sends a message and deletes the lease, one step at a time and in any interleaving. Calls to Redis
 and to the table may fail, with or without effect; a worker may crash anywhere.
 */
module WalletProtocol {
  import opened Wrappers
  import opened QueryId
  import opened WalletRows
  import opened WalletLease

  type Wallet = string
  type WorkerId = nat

  datatype Phase =
    | Acquired
    | HasRead(shift: int, bitnumber: int)
    | HasId(id: Id)
    | Finishing

  datatype Worker =
    | Idle
    | Holding(wallet: Wallet, since: int, phase: Phase)

  /** A message sent: the wallet, how many resets the wallet had seen when the id was issued, the id. */
  datatype Send = Send(wallet: Wallet, epoch: nat, id: Id)

  datatype State = State(
    clock: int,
    keys: Keys,
    rows: Rows,
    resets: map<Wallet, nat>,
    workers: map<WorkerId, Worker>,
    sends: seq<Send>)

  datatype Step =
    | Tick(now: int)
    | Lock(i: WorkerId, wallet: Wallet)
    | LockReplyLost(i: WorkerId, wallet: Wallet)
    | Read(i: WorkerId)
    | Write(i: WorkerId, lifetime: int)
    | WriteReplyLost(i: WorkerId, lifetime: int)
    | Post(i: WorkerId)
    | Fail(i: WorkerId)
    | Release(i: WorkerId)
    | ReleaseFails(i: WorkerId)
    | Crash(i: WorkerId)

  function WorkerOf(s: State, i: WorkerId): Worker {
    if i in s.workers then s.workers[i] else Idle
  }

  function Epoch(s: State, w: Wallet): nat {
    if w in s.resets then s.resets[w] else 0
  }

  predicate Enabled(s: State, step: Step) {
    match step
    case Tick(now) => s.clock <= now
    case Lock(i, w) => WorkerOf(s, i).Idle?
    case LockReplyLost(i, w) => WorkerOf(s, i).Idle?
    case Read(i) => WorkerOf(s, i).Holding? && WorkerOf(s, i).phase.Acquired?
    case Write(i, _) => WorkerOf(s, i).Holding? && WorkerOf(s, i).phase.HasRead?
    case WriteReplyLost(i, _) => WorkerOf(s, i).Holding? && WorkerOf(s, i).phase.HasRead?
    case Post(i) => WorkerOf(s, i).Holding? && WorkerOf(s, i).phase.HasId?
    case Fail(i) => WorkerOf(s, i).Holding?
    case Release(i) => WorkerOf(s, i).Holding? && WorkerOf(s, i).phase.Finishing?
    case ReleaseFails(i) => WorkerOf(s, i).Holding? && WorkerOf(s, i).phase.Finishing?
    case Crash(i) => true
  }

  function Enter(s: State, i: WorkerId, phase: Phase): State
    requires WorkerOf(s, i).Holding?
  {
    s.(workers := s.workers[i := WorkerOf(s, i).(phase := phase)])
  }

  function Leave(s: State, i: WorkerId): State {
    s.(workers := s.workers[i := Idle])
  }

  /** The row written, and one more reset counted when id 0 is issued. */
  function Issue(s: State, w: Wallet, id: Id, lifetime: int): State {
    s.(rows := WriteBack(s.rows, w, id, lifetime, s.clock),
       resets := if Encode(id) == 0 then s.resets[w := Epoch(s, w) + 1] else s.resets)
  }

  function AfterWrite(s: State, i: WorkerId, r: Result<Id, WrapperError>, lifetime: int, replied: bool): State
    requires WorkerOf(s, i).Holding?
  {
    if r.Err? then Enter(s, i, Finishing)
    else Enter(Issue(s, WorkerOf(s, i).wallet, r.value, lifetime), i, if replied then HasId(r.value) else Finishing)
  }

  function Apply(s: State, step: Step): State
    requires Enabled(s, step)
  {
    match step
    case Tick(now) => s.(clock := now)
    case Lock(i, w) =>
      if Leased(s.keys, w, s.clock) then s
      else s.(keys := SetIfAbsent(s.keys, w, s.clock), workers := s.workers[i := Holding(w, s.clock, Acquired)])
    case LockReplyLost(i, w) => s.(keys := SetIfAbsent(s.keys, w, s.clock))
    case Read(i) =>
      var (shift, bitnumber) := GetQueryId(s.rows, WorkerOf(s, i).wallet, s.clock);
      Enter(s, i, HasRead(shift, bitnumber))
    case Write(i, lifetime) =>
      AfterWrite(s, i, Advance(WorkerOf(s, i).phase.shift, WorkerOf(s, i).phase.bitnumber), lifetime, true)
    case WriteReplyLost(i, lifetime) =>
      AfterWrite(s, i, Advance(WorkerOf(s, i).phase.shift, WorkerOf(s, i).phase.bitnumber), lifetime, false)
    case Post(i) =>
      var w := WorkerOf(s, i).wallet;
      Enter(s.(sends := s.sends + [Send(w, Epoch(s, w), WorkerOf(s, i).phase.id)]), i, Finishing)
    case Fail(i) => Enter(s, i, Finishing)
    case Release(i) => Leave(s.(keys := s.keys - {WorkerOf(s, i).wallet}), i)
    case ReleaseFails(i) => Leave(s, i)
    case Crash(i) => Leave(s, i)
  }

  /** Every worker that holds a wallet has held it for less than a lease. */
  ghost predicate Timely(s: State) {
    HeldBelow(s, LEASE_SECONDS)
  }

  /** A run whose steps are possible and that never lets a holder outstay its lease. */
  ghost predicate TimelyRun(s: State, steps: seq<Step>)
    decreases |steps|
  {
    steps != [] ==> Enabled(s, steps[0]) && Timely(Apply(s, steps[0])) && TimelyRun(Apply(s, steps[0]), steps[1..])
  }

  /** Every worker that holds a wallet has held it for less than `bound`. */
  ghost predicate HeldBelow(s: State, bound: int) {
    forall i: WorkerId | WorkerOf(s, i).Holding? :: s.clock < WorkerOf(s, i).since + bound
  }

  /** A possible run in which every holder stays below the bound. */
  ghost predicate RunBelow(s: State, steps: seq<Step>, bound: int)
    decreases |steps|
  {
    steps != [] ==>
      Enabled(s, steps[0]) && HeldBelow(Apply(s, steps[0]), bound) && RunBelow(Apply(s, steps[0]), steps[1..], bound)
  }

  predicate PossibleRun(s: State, steps: seq<Step>)
    decreases |steps|
  {
    steps != [] ==> Enabled(s, steps[0]) && PossibleRun(Apply(s, steps[0]), steps[1..])
  }

  function Run(s: State, steps: seq<Step>): State
    requires PossibleRun(s, steps)
    decreases |steps|
  {
    if steps == [] then s else Run(Apply(s, steps[0]), steps[1..])
  }

  /** No worker holds anything and nothing was sent; keys and rows may be left over from before. */
  ghost predicate Init(s: State) {
    (forall i: WorkerId :: WorkerOf(s, i).Idle?) && s.sends == []
  }

  /** No wallet has two holders. */
  ghost predicate Exclusive(s: State) {
    forall i: WorkerId, j: WorkerId | WorkerOf(s, i).Holding? && WorkerOf(s, j).Holding? && i != j ::
      WorkerOf(s, i).wallet != WorkerOf(s, j).wallet
  }

  /** The lease on a held wallet is the holder's own. */
  ghost predicate OwnLease(s: State) {
    forall i: WorkerId | WorkerOf(s, i).Holding? ::
      && WorkerOf(s, i).wallet in s.keys
      && s.keys[WorkerOf(s, i).wallet] == WorkerOf(s, i).since + LEASE_SECONDS
  }

  predicate RowIs(s: State, w: Wallet, shift: int, bitnumber: int) {
    w in s.rows && s.rows[w].shift == shift && s.rows[w].bitnumber == bitnumber
  }

  /** Between its steps a holder's knowledge of the row stays true, and its id is newer than all sent. */
  predicate Knows(s: State, h: Worker)
    requires h.Holding?
  {
    match h.phase
    case HasRead(shift, bitnumber) => shift >= 0 && bitnumber >= 0 ==> RowIs(s, h.wallet, shift, bitnumber)
    case HasId(id) => id.Valid() && RowIs(s, h.wallet, id.shift, id.bitnumber) && NewerThanSent(s, h.wallet, id)
    case _ => true
  }

  predicate NewerThanSent(s: State, w: Wallet, id: Id) {
    forall k | 0 <= k < |s.sends| && s.sends[k].wallet == w && s.sends[k].epoch == Epoch(s, w) ::
      Ordinal(s.sends[k].id) < Ordinal(id)
  }

  ghost predicate KnowledgeInv(s: State) {
    forall i: WorkerId | WorkerOf(s, i).Holding? :: Knows(s, WorkerOf(s, i))
  }

  /** What was sent since the last reset is not ahead of the row. */
  predicate SendInv(s: State, m: Send) {
    && m.id.Valid() && m.epoch <= Epoch(s, m.wallet)
    && (m.epoch == Epoch(s, m.wallet) ==>
          && m.wallet in s.rows && s.rows[m.wallet].shift >= 0 && s.rows[m.wallet].bitnumber >= 0
          && Ordinal(m.id) <= Ordinal(Id(s.rows[m.wallet].shift, s.rows[m.wallet].bitnumber)))
  }

  predicate SendsInv(s: State) {
    forall k | 0 <= k < |s.sends| :: SendInv(s, s.sends[k])
  }

  /** Ids sent from one wallet between two resets strictly increase. */
  predicate Increasing(s: State) {
    forall k, l | 0 <= k < l < |s.sends| && s.sends[k].wallet == s.sends[l].wallet && s.sends[k].epoch == s.sends[l].epoch ::
      Ordinal(s.sends[k].id) < Ordinal(s.sends[l].id)
  }

  /** No two messages of one wallet between two resets carry the same query id. */
  predicate NoRepeatedId(s: State) {
    forall k, l | 0 <= k < l < |s.sends| && s.sends[k].wallet == s.sends[l].wallet && s.sends[k].epoch == s.sends[l].epoch ::
      Encode(s.sends[k].id) != Encode(s.sends[l].id)
  }

  ghost predicate Inv(s: State) {
    Exclusive(s) && OwnLease(s) && KnowledgeInv(s) && SendsInv(s) && Increasing(s)
  }

  predicate Locks(s: State, step: Step, j: WorkerId) {
    step.Lock? && step.i == j && !Leased(s.keys, step.wallet, s.clock)
  }

  /** Whoever holds a wallet after a step either just locked it or held it before, since the same time. */
  lemma HolderAfterStep(s: State, step: Step, j: WorkerId)
    requires Enabled(s, step) && WorkerOf(Apply(s, step), j).Holding?
    ensures var h, h' := WorkerOf(s, j), WorkerOf(Apply(s, step), j);
            && (Locks(s, step, j) ==> h' == Holding(step.wallet, s.clock, Acquired))
            && (!Locks(s, step, j) ==> h.Holding? && h'.wallet == h.wallet && h'.since == h.since)
            && (step.Tick? || step.i != j ==> h' == h)
  {
  }

  /** A step sets no key that is leased, and deletes only the key of the wallet its worker releases. */
  lemma KeysAfterStep(s: State, step: Step, w: Wallet)
    requires Enabled(s, step) && w in s.keys && s.clock < s.keys[w]
    requires !(step.Release? && WorkerOf(s, step.i).wallet == w)
    ensures w in Apply(s, step).keys && Apply(s, step).keys[w] == s.keys[w]
  {
  }

  lemma LeaseStep(s: State, step: Step)
    requires Exclusive(s) && OwnLease(s) && Timely(s) && Enabled(s, step)
    ensures Exclusive(Apply(s, step)) && OwnLease(Apply(s, step))
  {
    var s' := Apply(s, step);
    forall j: WorkerId | WorkerOf(s', j).Holding?
      ensures && WorkerOf(s', j).wallet in s'.keys
              && s'.keys[WorkerOf(s', j).wallet] == WorkerOf(s', j).since + LEASE_SECONDS
    {
      HolderAfterStep(s, step, j);
      if !Locks(s, step, j) {
        if step.Release? {
          assert j != step.i;
        }
        KeysAfterStep(s, step, WorkerOf(s, j).wallet);
      }
    }
    forall i: WorkerId, j: WorkerId | WorkerOf(s', i).Holding? && WorkerOf(s', j).Holding? && i != j
      ensures WorkerOf(s', i).wallet != WorkerOf(s', j).wallet
    {
      HolderAfterStep(s, step, i);
      HolderAfterStep(s, step, j);
    }
  }

  lemma IssueIsNewer(s: State, w: Wallet, shift: int, bitnumber: int, lifetime: int)
    requires SendsInv(s) && Advance(shift, bitnumber).Ok?
    requires shift >= 0 && bitnumber >= 0 ==> RowIs(s, w, shift, bitnumber)
    ensures var id := Advance(shift, bitnumber).value;
            var s' := Issue(s, w, id, lifetime);
            && id.Valid() && RowIs(s', w, id.shift, id.bitnumber)
            && NewerThanSent(s', w, id) && SendsInv(s')
  {
    var id := Advance(shift, bitnumber).value;
    var s' := Issue(s, w, id, lifetime);
    if shift >= 0 && bitnumber >= 0 {
      NextIsSuccessor(Id(shift, bitnumber));
    }
    forall k | 0 <= k < |s.sends| ensures SendInv(s', s.sends[k]) {
      assert SendInv(s, s.sends[k]);
    }
    forall k | 0 <= k < |s.sends| && s.sends[k].wallet == w && s.sends[k].epoch == Epoch(s', w)
      ensures Ordinal(s.sends[k].id) < Ordinal(id)
    {
      assert SendInv(s, s.sends[k]);
    }
  }

  lemma EnterAfterIssue(s: State, s1: State, i: WorkerId, id: Id, phase: Phase)
    requires WorkerOf(s, i).Holding? && s1 == s.(rows := s1.rows, resets := s1.resets) && Increasing(s)
    requires var w := WorkerOf(s, i).wallet;
             id.Valid() && RowIs(s1, w, id.shift, id.bitnumber) && NewerThanSent(s1, w, id) && SendsInv(s1)
    requires phase == HasId(id) || phase == Finishing
    ensures var s' := Enter(s1, i, phase);
            SendsInv(s') && Increasing(s') && Knows(s', WorkerOf(s', i))
  {
    SameTables(s1, Enter(s1, i, phase));
  }

  lemma WriteStep(s: State, i: WorkerId, lifetime: int, s': State)
    requires Inv(s) && Enabled(s, Write(i, lifetime))
    requires s' == Apply(s, Write(i, lifetime)) || s' == Apply(s, WriteReplyLost(i, lifetime))
    ensures SendsInv(s') && Increasing(s') && Knows(s', WorkerOf(s', i))
  {
    var h := WorkerOf(s, i);
    assert Knows(s, h);
    var r := Advance(h.phase.shift, h.phase.bitnumber);
    if r.Ok? {
      IssueIsNewer(s, h.wallet, h.phase.shift, h.phase.bitnumber, lifetime);
      var s1 := Issue(s, h.wallet, r.value, lifetime);
      EnterAfterIssue(s, s1, i, r.value, HasId(r.value));
      EnterAfterIssue(s, s1, i, r.value, Finishing);
    } else {
      SameTables(s, s');
    }
  }

  lemma SameTables(s: State, s': State)
    requires s'.rows == s.rows && s'.resets == s.resets && s'.sends == s.sends
    ensures SendsInv(s) <==> SendsInv(s')
    ensures forall w, id :: NewerThanSent(s, w, id) <==> NewerThanSent(s', w, id)
  {
    assert forall k | 0 <= k < |s.sends| :: SendInv(s, s.sends[k]) <==> SendInv(s', s.sends[k]);
  }

  lemma PostStep(s: State, i: WorkerId)
    requires Inv(s) && Enabled(s, Post(i))
    ensures SendsInv(Apply(s, Post(i))) && Increasing(Apply(s, Post(i)))
  {
    var s' := Apply(s, Post(i));
    var h := WorkerOf(s, i);
    var m := Send(h.wallet, Epoch(s, h.wallet), h.phase.id);
    assert Knows(s, h) && NewerThanSent(s, h.wallet, m.id);
    assert s'.sends == s.sends + [m];
    forall k | 0 <= k < |s.sends| ensures SendInv(s', s.sends[k]) {
      assert SendInv(s, s.sends[k]);
    }
    assert SendInv(s', m);
  }

  lemma SendsStep(s: State, step: Step)
    requires Inv(s) && Enabled(s, step)
    ensures SendsInv(Apply(s, step)) && Increasing(Apply(s, step))
  {
    if step.Write? || step.WriteReplyLost? {
      WriteStep(s, step.i, step.lifetime, Apply(s, step));
    } else if step.Post? {
      PostStep(s, step.i);
    } else {
      SameTables(s, Apply(s, step));
    }
  }

  /** The wallet's row, its resets and its sends are the same in both states. */
  predicate SameFor(s: State, s': State, w: Wallet) {
    && Epoch(s', w) == Epoch(s, w)
    && (w in s.rows ==> w in s'.rows && s'.rows[w] == s.rows[w])
    && s.sends <= s'.sends
    && forall k | |s.sends| <= k < |s'.sends| :: s'.sends[k].wallet != w
  }

  lemma WriteLeavesOthers(s: State, i: WorkerId, r: Result<Id, WrapperError>, lifetime: int, replied: bool, w: Wallet)
    requires WorkerOf(s, i).Holding? && WorkerOf(s, i).wallet != w
    ensures SameFor(s, AfterWrite(s, i, r, lifetime, replied), w)
  {
    if r.Ok? {
      var s1 := Issue(s, WorkerOf(s, i).wallet, r.value, lifetime);
      assert w in s.rows ==> w in s1.rows && s1.rows[w] == s.rows[w];
      assert Epoch(s1, w) == Epoch(s, w);
    }
  }

  lemma OtherWalletUntouched(s: State, step: Step, w: Wallet)
    requires Enabled(s, step)
    requires step.Write? || step.WriteReplyLost? || step.Post? ==> WorkerOf(s, step.i).wallet != w
    ensures SameFor(s, Apply(s, step), w)
  {
    if step.Write? || step.WriteReplyLost? {
      var h := WorkerOf(s, step.i);
      WriteLeavesOthers(s, step.i, Advance(h.phase.shift, h.phase.bitnumber), step.lifetime, step.Write?, w);
    }
  }

  /** A step of one worker leaves true what the holder of another wallet knows. */
  lemma OthersStillKnow(s: State, step: Step, h: Worker)
    requires Enabled(s, step) && h.Holding? && Knows(s, h)
    requires step.Write? || step.WriteReplyLost? || step.Post? ==> WorkerOf(s, step.i).wallet != h.wallet
    ensures Knows(Apply(s, step), h)
  {
    OtherWalletUntouched(s, step, h.wallet);
    SamePlace(s, Apply(s, step), h);
  }

  lemma SamePlace(s: State, s': State, h: Worker)
    requires h.Holding? && Knows(s, h) && SameFor(s, s', h.wallet)
    ensures Knows(s', h)
  {
    if h.phase.HasId? {
      assert NewerThanSent(s, h.wallet, h.phase.id);
    }
  }

  lemma ActorKnows(s: State, step: Step)
    requires Inv(s) && Enabled(s, step) && !step.Tick? && WorkerOf(Apply(s, step), step.i).Holding?
    ensures Knows(Apply(s, step), WorkerOf(Apply(s, step), step.i))
  {
    if step.Write? || step.WriteReplyLost? {
      WriteStep(s, step.i, step.lifetime, Apply(s, step));
    } else if step.Read? {
    } else {
      assert !WorkerOf(s, step.i).Holding? || !WorkerOf(Apply(s, step), step.i).phase.HasRead?;
    }
  }

  lemma KnowledgeStep(s: State, step: Step)
    requires Inv(s) && Enabled(s, step)
    ensures KnowledgeInv(Apply(s, step))
  {
    var s' := Apply(s, step);
    forall j: WorkerId | WorkerOf(s', j).Holding? ensures Knows(s', WorkerOf(s', j)) {
      HolderAfterStep(s, step, j);
      if step.Tick? || step.i != j {
        assert Knows(s, WorkerOf(s, j));
        OthersStillKnow(s, step, WorkerOf(s, j));
      } else {
        ActorKnows(s, step);
      }
    }
  }

  lemma InvStep(s: State, step: Step)
    requires Inv(s) && Timely(s) && Enabled(s, step)
    ensures Inv(Apply(s, step))
  {
    LeaseStep(s, step);
    SendsStep(s, step);
    KnowledgeStep(s, step);
  }

  lemma {:induction false} InvRun(s: State, steps: seq<Step>)
    requires Inv(s) && Timely(s) && TimelyRun(s, steps)
    ensures PossibleRun(s, steps) && Inv(Run(s, steps)) && Timely(Run(s, steps))
    decreases |steps|
  {
    if steps != [] {
      InvStep(s, steps[0]);
      InvRun(Apply(s, steps[0]), steps[1..]);
    }
  }

  /**
   In every interleaving in which no holder outstays its lease: no wallet ever has two holders, and
   no two messages of one wallet between two resets carry the same query id.
   */
  lemma NoSharedWalletNoRepeatedId(s: State, steps: seq<Step>)
    requires Init(s) && TimelyRun(s, steps)
    ensures PossibleRun(s, steps) && Exclusive(Run(s, steps)) && NoRepeatedId(Run(s, steps))
  {
    InvRun(s, steps);
    var s' := Run(s, steps);
    forall k, l | 0 <= k < l < |s'.sends| && s'.sends[k].wallet == s'.sends[l].wallet && s'.sends[k].epoch == s'.sends[l].epoch
      ensures Encode(s'.sends[k].id) != Encode(s'.sends[l].id)
    {
      assert SendInv(s', s'.sends[k]) && SendInv(s', s'.sends[l]);
      EncodeKeepsOrder(s'.sends[k].id, s'.sends[l].id);
    }
  }

  /** The unconditional delete only ever removes the lease its worker took. */
  lemma ReleaseRemovesOwnLease(s: State, steps: seq<Step>, i: WorkerId)
    requires Init(s) && TimelyRun(s, steps)
    ensures PossibleRun(s, steps)
    ensures var s' := Run(s, steps);
            Enabled(s', Release(i)) ==>
              var h := WorkerOf(s', i);
              && h.wallet in s'.keys && s'.keys[h.wallet] == h.since + LEASE_SECONDS && s'.clock < s'.keys[h.wallet]
              && forall j: WorkerId | WorkerOf(s', j).Holding? && j != i :: WorkerOf(s', j).wallet in Apply(s', Release(i)).keys
  {
    InvRun(s, steps);
    var s' := Run(s, steps);
    if Enabled(s', Release(i)) {
      forall j: WorkerId | WorkerOf(s', j).Holding? && j != i ensures WorkerOf(s', j).wallet in Apply(s', Release(i)).keys {
        KeysAfterStep(s', Release(i), WorkerOf(s', j).wallet);
      }
    }
  }

  // ----- How long a wallet may be held -----

  /** In every run whose holders stay below the bound both promises are kept. */
  ghost predicate SafeBound(bound: int) {
    forall s: State, steps | Init(s) && RunBelow(s, steps, bound) ::
      PossibleRun(s, steps) && Exclusive(Run(s, steps)) && NoRepeatedId(Run(s, steps))
  }

  lemma {:induction false} ShortHoldsAreTimely(s: State, steps: seq<Step>, bound: int)
    requires RunBelow(s, steps, bound) && bound <= LEASE_SECONDS
    ensures TimelyRun(s, steps)
    decreases |steps|
  {
    if steps != [] {
      ShortHoldsAreTimely(Apply(s, steps[0]), steps[1..], bound);
    }
  }

  lemma {:induction false} RunThen(s: State, steps: seq<Step>, step: Step)
    requires PossibleRun(s, steps) && Enabled(Run(s, steps), step)
    ensures PossibleRun(s, steps + [step]) && Run(s, steps + [step]) == Apply(Run(s, steps), step)
    decreases |steps|
  {
    if steps == [] {
      assert steps + [step] == [step];
      assert PossibleRun(Apply(s, step), []);
    } else {
      assert (steps + [step])[1..] == steps[1..] + [step];
      RunThen(Apply(s, steps[0]), steps[1..], step);
    }
  }

  lemma {:induction false} ExtendRun(s: State, steps: seq<Step>, step: Step, bound: int)
    requires RunBelow(s, steps, bound) && PossibleRun(s, steps) && Enabled(Run(s, steps), step)
    requires HeldBelow(Apply(Run(s, steps), step), bound)
    ensures RunBelow(s, steps + [step], bound) && PossibleRun(s, steps + [step])
    ensures Run(s, steps + [step]) == Apply(Run(s, steps), step)
    decreases |steps|
  {
    RunThen(s, steps, step);
    if steps == [] {
      assert RunBelow(Apply(s, step), [], bound);
    } else {
      assert (steps + [step])[1..] == steps[1..] + [step];
      ExtendRun(Apply(s, steps[0]), steps[1..], step, bound);
    }
  }

  lemma OnlyTimeAges(s: State, step: Step, bound: int)
    requires HeldBelow(s, bound) && bound > 0 && Enabled(s, step) && !step.Tick?
    ensures HeldBelow(Apply(s, step), bound)
  {
    forall j: WorkerId | WorkerOf(Apply(s, step), j).Holding?
      ensures Apply(s, step).clock < WorkerOf(Apply(s, step), j).since + bound
    {
      HolderAfterStep(s, step, j);
    }
  }

  /** A holder that read id 0 of a running epoch goes on to send id 1. */
  lemma ReaderSendsNextId(s: State, steps: seq<Step>, i: WorkerId, bound: int) returns (more: seq<Step>)
    requires RunBelow(s, steps, bound) && PossibleRun(s, steps) && HeldBelow(Run(s, steps), bound) && bound > 0
    requires var h := WorkerOf(Run(s, steps), i); h.Holding? && h.phase == HasRead(0, 0)
    ensures RunBelow(s, more, bound) && PossibleRun(s, more) && HeldBelow(Run(s, more), bound)
    ensures var t, t' := Run(s, steps), Run(s, more);
            var h := WorkerOf(t, i);
            && t'.sends == t.sends + [Send(h.wallet, Epoch(t, h.wallet), Id(0, 1))] && t'.resets == t.resets
            && t'.workers == t.workers[i := h.(phase := Finishing)]
  {
    assert Advance(0, 0) == Ok(Id(0, 1));
    var t := Run(s, steps);
    OnlyTimeAges(t, Write(i, 180), bound);
    ExtendRun(s, steps, Write(i, 180), bound);
    more := steps + [Write(i, 180)];
    OnlyTimeAges(Run(s, more), Post(i), bound);
    ExtendRun(s, more, Post(i), bound);
    more := more + [Post(i)];
  }

  /** A free wallet whose running epoch is at id 0 is locked and read. */
  lemma LockerReads(s: State, steps: seq<Step>, i: WorkerId, w: Wallet, bound: int) returns (more: seq<Step>)
    requires RunBelow(s, steps, bound) && PossibleRun(s, steps) && HeldBelow(Run(s, steps), bound) && bound > 0
    requires var t := Run(s, steps);
             && WorkerOf(t, i).Idle? && !Leased(t.keys, w, t.clock)
             && Live(t.rows, w, t.clock) && RowIs(t, w, 0, 0)
    ensures RunBelow(s, more, bound) && PossibleRun(s, more) && HeldBelow(Run(s, more), bound)
    ensures var t := Run(s, steps);
            Run(s, more) == t.(keys := t.keys[w := t.clock + 60],
                               workers := t.workers[i := Holding(w, t.clock, HasRead(0, 0))])
  {
    OnlyTimeAges(Run(s, steps), Lock(i, w), bound);
    ExtendRun(s, steps, Lock(i, w), bound);
    more := steps + [Lock(i, w)];
    OnlyTimeAges(Run(s, more), Read(i), bound);
    ExtendRun(s, more, Read(i), bound);
    more := more + [Read(i)];
  }

  /** A holder that stays a full lease breaks both promises: the same id is sent twice by two holders. */
  lemma OverstayingBreaksThePromises(bound: int) returns (s: State, steps: seq<Step>)
    requires bound > LEASE_SECONDS
    ensures Init(s) && RunBelow(s, steps, bound) && PossibleRun(s, steps)
    ensures !Exclusive(Run(s, steps)) && !NoRepeatedId(Run(s, steps))
  {
    s := State(0, map[], map["w" := Row(0, 0, 180)], map[], map[], []);
    steps := [];
    steps := LockerReads(s, steps, 0, "w", bound);
    assert HeldBelow(Apply(Run(s, steps), Tick(60)), bound);
    ExtendRun(s, steps, Tick(60), bound);
    steps := steps + [Tick(60)];
    steps := LockerReads(s, steps, 1, "w", bound);
    steps := ReaderSendsNextId(s, steps, 0, bound);
    steps := ReaderSendsNextId(s, steps, 1, bound);
    var t := Run(s, steps);
    assert WorkerOf(t, 0) == Holding("w", 0, Finishing) && WorkerOf(t, 1) == Holding("w", 60, Finishing);
    assert |t.sends| == 2 && t.sends[0] == t.sends[1];
  }

  /** The lease is exactly the longest bound on holding that keeps both promises. */
  lemma SafeBoundIsTheLease(bound: int)
    ensures SafeBound(bound) <==> bound <= LEASE_SECONDS
  {
    if bound > LEASE_SECONDS {
      var s, steps := OverstayingBreaksThePromises(bound);
    } else {
      forall s: State, steps | Init(s) && RunBelow(s, steps, bound)
        ensures PossibleRun(s, steps) && Exclusive(Run(s, steps)) && NoRepeatedId(Run(s, steps))
      {
        ShortHoldsAreTimely(s, steps, bound);
        NoSharedWalletNoRepeatedId(s, steps);
      }
    }
  }
}
