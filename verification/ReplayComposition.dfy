/**
 One wallet end to end: every id the table issues is sent to the contract at once, on one clock.
 An epoch runs from one issue of id 0 to the next.
 */
module ReplayComposition {
  import opened Wrappers
  import opened QueryId
  import opened WalletRows
  import opened ReplayFilter

  datatype Attempt = Attempt(now: int, readOk: bool, writeOk: bool, keepsCleanup: bool)

  /** An id issued and sent: in which epoch, started when, and whether the contract took it. */
  datatype Issue = Issue(epoch: nat, start: int, id: Id, at: int, accepted: bool) {
    function Offset(): int {
      at - start
    }
  }

  /** `last` is the ordinal of the id issued last; `log` lists every issue so far. */
  datatype System = System(
    rows: Rows, filter: Filter, clock: int, epoch: nat, start: int, last: nat, log: seq<Issue>)

  /** The system after the table answered `r` and was left with `rows`. */
  function Apply(s: System, timeout: nat, x: Attempt, r: Result<Id, WrapperError>, rows: Rows): System {
    if r.Err? then s.(rows := rows, clock := x.now)
    else
      var reset := r.value == Id(0, 0);
      var epoch := if reset then s.epoch + 1 else s.epoch;
      var start := if reset then x.now else s.start;
      var m := Message(x.now, Encode(r.value), x.keepsCleanup);
      var issue := Issue(epoch, start, r.value, x.now, Accepts(s.filter, timeout, m));
      System(rows, Receive(s.filter, timeout, m), x.now, epoch, start, Ordinal(r.value), s.log + [issue])
  }

  /** A wallet: its address, the timeout its contract uses, and the lifetime its fresh rows get. */
  datatype Wallet = Wallet(address: Address, timeout: nat, lifetime: int) {
    function CallAt(x: Attempt): Call {
      Call(address, lifetime, x.now, x.now, x.readOk, x.writeOk)
    }
  }

  function Step(s: System, w: Wallet, x: Attempt): System {
    Apply(s, w.timeout, x, Advanced(s.rows, w.CallAt(x)), RowsAfter(s.rows, w.CallAt(x)))
  }

  function Steps(s: System, w: Wallet, xs: seq<Attempt>): System
    decreases |xs|
  {
    if xs == [] then s else Steps(Step(s, w, xs[0]), w, xs[1..])
  }

  /** A fresh row lives three timeouts of the contract. */
  predicate Configured(w: Wallet) {
    w.lifetime == 3 * w.timeout
  }

  /** The lifetime the wrapper computes is the configured one exactly when the timeout does not overflow. */
  lemma WrapperConfigures(address: Address, timeout: nat)
    ensures Configured(Wallet(address, timeout, RowLifetime(timeout))) <==> timeout <= MAX_TIMEOUT
  {
    RowLifetimeIsThreeTimeouts(timeout);
  }

  predicate Ordered(clock: int, xs: seq<Attempt>)
    decreases |xs|
  {
    xs != [] ==> clock <= xs[0].now && Ordered(xs[0].now, xs[1..])
  }

  /** A wallet never used: no row, and a contract that remembers nothing. */
  predicate Unused(s: System, address: Address) {
    && address !in s.rows && s.log == [] && s.epoch == 0
    && s.filter.queries == {} && s.filter.oldQueries == {} && s.filter.lastClean <= s.clock
  }

  predicate RowInv(s: System, address: Address, timeout: nat) {
    if s.epoch == 0 then address !in s.rows else RowAt(s.rows, address, s.last, s.start + 3 * timeout)
  }

  predicate EpochInv(s: System) {
    if s.epoch == 0 then s.log == [] else s.start <= s.clock
  }

  /** How an issue is placed against the epoch now running, its start and its last ordinal. */
  predicate Placed(e: Issue, timeout: nat, epoch: nat, start: int, last: nat) {
    && 1 <= e.epoch <= epoch && e.id.Valid() && e.start <= e.at <= e.start + 3 * timeout
    && (e.id == Id(0, 0) ==> e.at == e.start)
    && (e.epoch == epoch ==> e.start == start && Ordinal(e.id) <= last)
    && (e.epoch + 1 == epoch ==> e.start + 3 * timeout < start)
    && (e.epoch + 2 <= epoch ==> e.start + 6 * timeout < start)
  }

  predicate IssueInv(s: System, timeout: nat, e: Issue) {
    Placed(e, timeout, s.epoch, s.start, s.last)
  }

  predicate LogInv(s: System, timeout: nat) {
    forall i | 0 <= i < |s.log| :: IssueInv(s, timeout, s.log[i])
  }

  /** Issue `i` is the acceptance that the contract's knowledge of `id` goes back to. */
  predicate Explains(s: System, timeout: nat, id: nat, i: nat) {
    && i < |s.log| && s.log[i].accepted && Encode(s.log[i].id) == id
    && AcceptedLastAt(s.filter, timeout, id, s.log[i].at)
  }

  ghost predicate FilterInv(s: System, timeout: nat) {
    && s.filter.lastClean <= s.clock
    && forall id | Remembers(s.filter, id) :: exists i: nat :: Explains(s, timeout, id, i)
  }

  /** No issue of the same id in the epoch just before came later after its epoch's start. */
  predicate NoLaterOffsetBefore(log: seq<Issue>, j: nat)
    requires j < |log|
  {
    forall i | 0 <= i < j && log[i].id == log[j].id && log[i].epoch + 1 == log[j].epoch ::
      log[i].Offset() <= log[j].Offset()
  }

  predicate FreshInv(s: System) {
    forall j | 0 <= j < |s.log| && NoLaterOffsetBefore(s.log, j) :: s.log[j].accepted
  }

  predicate OncePerEpoch(log: seq<Issue>) {
    forall i, j | 0 <= i < j < |log| && log[i].epoch == log[j].epoch :: log[i].id != log[j].id
  }

  ghost predicate Inv(s: System, w: Wallet) {
    && RowInv(s, w.address, w.timeout) && EpochInv(s) && LogInv(s, w.timeout)
    && FilterInv(s, w.timeout) && FreshInv(s) && OncePerEpoch(s.log)
  }

  /** What the table may answer: an error, the next id of a live epoch, or id 0 after the epoch's expiry. */
  predicate Answer(s: System, timeout: nat, x: Attempt, r: Result<Id, WrapperError>) {
    r.Ok? ==>
      if r.value == Id(0, 0) then s.epoch > 0 ==> s.start + 3 * timeout < x.now
      else
        s.epoch > 0 && x.now <= s.start + 3 * timeout && r.value.Valid() && Ordinal(r.value) == s.last + 1
  }

  lemma LiveRowAnswers(s: System, w: Wallet, x: Attempt)
    requires RowInv(s, w.address, w.timeout) && s.epoch > 0 && x.now <= s.start + 3 * w.timeout
    ensures var c := w.CallAt(x);
            var r := Advanced(s.rows, c);
            && (r.Ok? ==> IsAt(r.value, s.last + 1))
            && RowAt(RowsAfter(s.rows, c), w.address, if r.Ok? then s.last + 1 else s.last, s.start + 3 * w.timeout)
  {
    CallInEpoch(s.rows, w.CallAt(x), w.address, s.last, s.start + 3 * w.timeout);
  }

  lemma DeadRowAnswers(s: System, w: Wallet, x: Attempt)
    requires RowInv(s, w.address, w.timeout) && Configured(w) && (s.epoch > 0 ==> s.start + 3 * w.timeout < x.now)
    ensures var c := w.CallAt(x);
            var r := Advanced(s.rows, c);
            if x.readOk && x.writeOk
            then r == Ok(Id(0, 0)) && RowAt(RowsAfter(s.rows, c), w.address, 0, x.now + 3 * w.timeout)
            else r.Err? && RowsAfter(s.rows, c) == s.rows
  {
    if x.readOk && x.writeOk {
      ResetStartsEpoch(s.rows, w.CallAt(x));
    }
  }

  lemma TableAnswers(s: System, w: Wallet, x: Attempt)
    requires RowInv(s, w.address, w.timeout) && Configured(w)
    ensures Answer(s, w.timeout, x, Advanced(s.rows, w.CallAt(x)))
    ensures RowInv(Step(s, w, x), w.address, w.timeout)
  {
    if s.epoch > 0 && x.now <= s.start + 3 * w.timeout {
      LiveRowAnswers(s, w, x);
      AppliedInEpoch(s, w, x, Advanced(s.rows, w.CallAt(x)), RowsAfter(s.rows, w.CallAt(x)));
    } else {
      DeadRowAnswers(s, w, x);
    }
  }

  lemma AppliedInEpoch(s: System, w: Wallet, x: Attempt, r: Result<Id, WrapperError>, rows: Rows)
    requires s.epoch > 0 && (r.Ok? ==> IsAt(r.value, s.last + 1))
    requires RowAt(rows, w.address, if r.Ok? then s.last + 1 else s.last, s.start + 3 * w.timeout)
    ensures RowInv(Apply(s, w.timeout, x, r, rows), w.address, w.timeout) && r != Ok(Id(0, 0))
  {
  }

  lemma PlacedAfterReset(e: Issue, timeout: nat, epoch: nat, start: int, last: nat, now: int)
    requires Placed(e, timeout, epoch, start, last) && start + 3 * timeout < now
    ensures Placed(e, timeout, epoch + 1, now, 0)
  {
  }

  lemma AnswerKeepsLog(s: System, timeout: nat, x: Attempt, r: Result<Id, WrapperError>, rows: Rows)
    requires EpochInv(s) && LogInv(s, timeout) && s.clock <= x.now && Answer(s, timeout, x, r)
    ensures EpochInv(Apply(s, timeout, x, r, rows)) && LogInv(Apply(s, timeout, x, r, rows), timeout)
  {
    var s' := Apply(s, timeout, x, r, rows);
    if r.Ok? {
      var e := s'.log[|s.log|];
      assert s'.log == s.log + [e];
      assert Placed(e, timeout, s'.epoch, s'.start, s'.last);
      forall i | 0 <= i < |s.log| ensures Placed(s.log[i], timeout, s'.epoch, s'.start, s'.last) {
        assert IssueInv(s, timeout, s.log[i]);
        if s'.epoch != s.epoch {
          PlacedAfterReset(s.log[i], timeout, s.epoch, s.start, s.last, x.now);
        }
      }
    }
  }

  lemma AnswerKeepsFilter(s: System, timeout: nat, x: Attempt, r: Result<Id, WrapperError>, rows: Rows)
    requires FilterInv(s, timeout) && s.clock <= x.now
    ensures FilterInv(Apply(s, timeout, x, r, rows), timeout)
  {
    var s' := Apply(s, timeout, x, r, rows);
    forall id | Remembers(s'.filter, id) ensures exists i: nat :: Explains(s', timeout, id, i) {
      if r.Err? {
        var i: nat :| Explains(s, timeout, id, i);
        assert Explains(s', timeout, id, i);
      } else {
        var m := Message(x.now, Encode(r.value), x.keepsCleanup);
        if id == m.id && Accepts(s.filter, timeout, m) {
          AcceptanceStarts(s.filter, timeout, m);
          assert Explains(s', timeout, id, |s.log|);
        } else {
          assert Remembers(s.filter, id);
          var i: nat :| Explains(s, timeout, id, i);
          OtherMessageKeeps(s.filter, timeout, m, id, s.log[i].at);
          assert Explains(s', timeout, id, i);
        }
      }
    }
  }

  /** An issue recent enough to be remembered belongs to the running epoch or, at a larger offset, to the one before. */
  lemma RecentIssue(e: Issue, timeout: nat, epoch: nat, start: int, last: nat, now: int)
    requires Placed(e, timeout, epoch, start, last) && start <= now <= e.at + 3 * timeout && e.epoch != epoch
    ensures e.epoch + 1 == epoch && e.Offset() > now - start
  {
  }

  lemma RefusalTracesBack(s: System, timeout: nat, m: Message, id: Id) returns (i: nat)
    requires LogInv(s, timeout) && FilterInv(s, timeout) && id.Valid() && m.id == Encode(id)
    requires !Accepts(s.filter, timeout, m)
    ensures i < |s.log| && s.log[i].id == id && m.now <= s.log[i].at + 3 * timeout
  {
    assert Remembers(s.filter, m.id);
    i :| Explains(s, timeout, m.id, i);
    assert IssueInv(s, timeout, s.log[i]);
    EncodeKeepsOrder(s.log[i].id, id);
    if m.now > s.log[i].at + 3 * timeout {
      ForgottenAt(s.filter, timeout, m.id, s.log[i].at, m.now);
      assert false;
    }
  }

  lemma RecentIssueOfSameId(s: System, timeout: nat, x: Attempt, id: Id, e: Issue)
    requires IssueInv(s, timeout, e) && EpochInv(s) && s.clock <= x.now && Answer(s, timeout, x, Ok(id))
    requires e.id == id && x.now <= e.at + 3 * timeout
    ensures id != Id(0, 0) && e.epoch + 1 == s.epoch && e.Offset() > x.now - s.start
  {
    if id != Id(0, 0) {
      RecentIssue(e, timeout, s.epoch, s.start, s.last, x.now);
    }
  }

  /** A refusal traces back to an acceptance in the epoch just before, at a larger offset. */
  lemma RefusalHasLaterOffsetBefore(s: System, timeout: nat, x: Attempt, id: Id)
    requires EpochInv(s) && LogInv(s, timeout) && FilterInv(s, timeout) && s.clock <= x.now
    requires Answer(s, timeout, x, Ok(id)) && id.Valid()
    requires !Accepts(s.filter, timeout, Message(x.now, Encode(id), x.keepsCleanup))
    ensures id != Id(0, 0)
    ensures !NoLaterOffsetBefore(s.log + [Issue(s.epoch, s.start, id, x.now, false)], |s.log|)
  {
    var i := RefusalTracesBack(s, timeout, Message(x.now, Encode(id), x.keepsCleanup), id);
    assert IssueInv(s, timeout, s.log[i]);
    RecentIssueOfSameId(s, timeout, x, id, s.log[i]);
    var log := s.log + [Issue(s.epoch, s.start, id, x.now, false)];
    assert log[i].Offset() > log[|s.log|].Offset();
  }

  lemma LongerLogKeepsOffsets(log: seq<Issue>, e: Issue, j: nat)
    requires j < |log|
    ensures NoLaterOffsetBefore(log + [e], j) <==> NoLaterOffsetBefore(log, j)
  {
    assert forall i | 0 <= i <= j :: (log + [e])[i] == log[i];
  }

  lemma AnswerKeepsFresh(s: System, timeout: nat, x: Attempt, r: Result<Id, WrapperError>, rows: Rows)
    requires EpochInv(s) && LogInv(s, timeout) && FilterInv(s, timeout) && FreshInv(s)
    requires s.clock <= x.now && Answer(s, timeout, x, r)
    ensures FreshInv(Apply(s, timeout, x, r, rows))
  {
    if r.Ok? {
      var s' := Apply(s, timeout, x, r, rows);
      var e := s'.log[|s.log|];
      assert s'.log == s.log + [e];
      if !e.accepted {
        RefusalHasLaterOffsetBefore(s, timeout, x, r.value);
      }
      forall j | 0 <= j < |s.log| && NoLaterOffsetBefore(s'.log, j) ensures s.log[j].accepted {
        LongerLogKeepsOffsets(s.log, e, j);
      }
    }
  }

  lemma AnswerKeepsOnce(s: System, timeout: nat, x: Attempt, r: Result<Id, WrapperError>, rows: Rows)
    requires LogInv(s, timeout) && OncePerEpoch(s.log) && Answer(s, timeout, x, r)
    ensures OncePerEpoch(Apply(s, timeout, x, r, rows).log)
  {
    if r.Ok? {
      forall i | 0 <= i < |s.log| && r.value == s.log[i].id
        ensures s.log[i].epoch != Apply(s, timeout, x, r, rows).epoch
      {
        assert IssueInv(s, timeout, s.log[i]);
      }
    }
  }

  lemma StepKeepsInv(s: System, w: Wallet, x: Attempt)
    requires Inv(s, w) && Configured(w) && s.clock <= x.now
    ensures Inv(Step(s, w, x), w)
  {
    var r, rows := Advanced(s.rows, w.CallAt(x)), RowsAfter(s.rows, w.CallAt(x));
    TableAnswers(s, w, x);
    AnswerKeepsLog(s, w.timeout, x, r, rows);
    AnswerKeepsFilter(s, w.timeout, x, r, rows);
    AnswerKeepsFresh(s, w.timeout, x, r, rows);
    AnswerKeepsOnce(s, w.timeout, x, r, rows);
  }

  lemma {:induction false} StepsKeepInv(s: System, w: Wallet, xs: seq<Attempt>)
    requires Inv(s, w) && Configured(w) && Ordered(s.clock, xs)
    ensures Inv(Steps(s, w, xs), w)
    decreases |xs|
  {
    if xs != [] {
      StepKeepsInv(s, w, xs[0]);
      assert Step(s, w, xs[0]).clock == xs[0].now;
      StepsKeepInv(Step(s, w, xs[0]), w, xs[1..]);
    }
  }

  /**
   In every run from an unused wallet an issued id is accepted unless the epoch just before issued
   the same id at a larger offset from its start.
   */
  lemma FreshUnlessLaterOffsetBefore(s: System, w: Wallet, xs: seq<Attempt>, j: nat)
    requires Unused(s, w.address) && Configured(w) && Ordered(s.clock, xs)
    requires j < |Steps(s, w, xs).log| && NoLaterOffsetBefore(Steps(s, w, xs).log, j)
    ensures Steps(s, w, xs).log[j].accepted
  {
    StepsKeepInv(s, w, xs);
  }

  /** Id 0 is accepted at every reset. */
  lemma ResetIsAccepted(s: System, w: Wallet, xs: seq<Attempt>, j: nat)
    requires Unused(s, w.address) && Configured(w) && Ordered(s.clock, xs)
    requires j < |Steps(s, w, xs).log| && Steps(s, w, xs).log[j].id == Id(0, 0)
    ensures Steps(s, w, xs).log[j].accepted
  {
    StepsKeepInv(s, w, xs);
    ZeroHasNoLaterOffset(Steps(s, w, xs), w.timeout, j);
  }

  lemma ZeroHasNoLaterOffset(s: System, timeout: nat, j: nat)
    requires LogInv(s, timeout) && j < |s.log| && s.log[j].id == Id(0, 0)
    ensures NoLaterOffsetBefore(s.log, j)
  {
    forall i | 0 <= i <= j && s.log[i].id == s.log[j].id ensures s.log[i].Offset() == 0 {
      assert IssueInv(s, timeout, s.log[i]);
    }
  }

  /** An id that the epoch just before did not issue is accepted, however often older epochs used it. */
  lemma ReissueTwoEpochsLaterIsAccepted(s: System, w: Wallet, xs: seq<Attempt>, j: nat)
    requires Unused(s, w.address) && Configured(w) && Ordered(s.clock, xs)
    requires var log := Steps(s, w, xs).log;
             && j < |log|
             && forall i | 0 <= i < j && log[i].id == log[j].id :: log[i].epoch + 2 <= log[j].epoch
    ensures Steps(s, w, xs).log[j].accepted
  {
    FreshUnlessLaterOffsetBefore(s, w, xs, j);
  }

  lemma ExampleStep(s: System, w: Wallet, x: Attempt, id: Id)
    requires x.readOk && x.writeOk
    requires var (shift, bitnumber) := GetQueryId(s.rows, w.address, x.now); Advance(shift, bitnumber) == Ok(id)
    ensures Step(s, w, x) == Apply(s, w.timeout, x, Ok(id), WriteBack(s.rows, w.address, id, w.lifetime, x.now))
  {
  }

  // ----- Reissues in the next epoch -----

  /** Issue `j` repeats issue `i` of the epoch before, `d` sooner after its epoch's start. */
  predicate Reissues(log: seq<Issue>, i: nat, j: nat, d: int) {
    && i < j < |log| && log[i].id == log[j].id && log[i].epoch + 1 == log[j].epoch
    && log[i].Offset() - log[j].Offset() == d
  }

  /** Every reissue that comes `d` sooner is accepted, in every run of every wallet with this timeout. */
  ghost predicate SafeToReissue(timeout: nat, d: int) {
    forall s: System, w: Wallet, xs, i: nat, j: nat |
      Unused(s, w.address) && Configured(w) && w.timeout == timeout && Ordered(s.clock, xs) && Reissues(Steps(s, w, xs).log, i, j, d) ::
      Steps(s, w, xs).log[j].accepted
  }

  lemma ReissueNotSoonerIsAccepted(s: System, w: Wallet, xs: seq<Attempt>, i: nat, j: nat, d: int)
    requires Unused(s, w.address) && Configured(w) && Ordered(s.clock, xs) && Reissues(Steps(s, w, xs).log, i, j, d)
    ensures d <= 3 * w.timeout
    ensures d <= 0 ==> Steps(s, w, xs).log[j].accepted
  {
    StepsKeepInv(s, w, xs);
    ReissueInLog(Steps(s, w, xs), w.timeout, i, j, d);
  }

  lemma ReissueInLog(s: System, timeout: nat, i: nat, j: nat, d: int)
    requires LogInv(s, timeout) && OncePerEpoch(s.log) && FreshInv(s) && Reissues(s.log, i, j, d)
    ensures d <= 3 * timeout
    ensures d <= 0 ==> s.log[j].accepted
  {
    assert IssueInv(s, timeout, s.log[i]) && IssueInv(s, timeout, s.log[j]);
    if d <= 0 {
      forall k | 0 <= k < j && s.log[k].id == s.log[j].id && s.log[k].epoch + 1 == s.log[j].epoch
        ensures k == i
      {
      }
      assert NoLaterOffsetBefore(s.log, j);
    }
  }

  function At(now: int): Attempt {
    Attempt(now, true, true, true)
  }

  function NewSystem(): System {
    System(map[], Filter({}, {}, 0), 0, 0, 0, 0, [])
  }

  /** Id 0 at time 0 and id 1 at `t1`. */
  lemma FirstEpoch(w: Wallet, t1: int)
    requires Configured(w) && 0 <= t1 <= w.lifetime
    ensures var s := Step(Step(NewSystem(), w, At(0)), w, At(t1));
            && w.address in s.rows && s.rows[w.address] == Row(0, 1, w.lifetime) && s.clock == t1 && s.epoch == 1
            && |s.log| == 2 && s.log[1].id == Id(0, 1) && s.log[1].epoch == 1 && s.log[1].Offset() == t1
            && s.filter == Receive(Receive(Filter({}, {}, 0), w.timeout, Message(0, 0, true)), w.timeout, Message(t1, 1, true))
  {
    ExampleStep(NewSystem(), w, At(0), Id(0, 0));
    ExampleStep(Step(NewSystem(), w, At(0)), w, At(t1), Id(0, 1));
  }

  /** A reset right after the expiry, and id 1 again at `t3`. */
  lemma SecondEpoch(s: System, w: Wallet, t3: int)
    requires Configured(w) && w.lifetime < t3 <= 2 * w.lifetime + 1 && s.epoch == 1
    requires w.address in s.rows && s.rows[w.address] == Row(0, 1, w.lifetime)
    ensures var s' := Step(Step(s, w, At(w.lifetime + 1)), w, At(t3));
            && |s'.log| == |s.log| + 2 && s'.log[..|s.log|] == s.log
            && var e := s'.log[|s.log| + 1];
            && e.id == Id(0, 1) && e.epoch == 2 && e.Offset() == t3 - w.lifetime - 1
            && e.accepted == Accepts(Receive(s.filter, w.timeout, Message(w.lifetime + 1, 0, true)), w.timeout, Message(t3, 1, true))
  {
    ExampleStep(s, w, At(w.lifetime + 1), Id(0, 0));
    ExampleStep(Step(s, w, At(w.lifetime + 1)), w, At(t3), Id(0, 1));
  }

  /** The contract still remembers id 1, accepted at `t1`, when it comes again at `t3`. */
  lemma StillRemembered(timeout: nat, t1: int, t3: int)
    requires (t1 == 3 * timeout && 3 * timeout < t3 <= 5 * timeout) || (t1 == timeout + 1 && 3 * timeout < t3 <= 4 * timeout + 1)
    requires timeout > 0
    ensures var f0 := Receive(Filter({}, {}, 0), timeout, Message(0, 0, true));
            var f1 := Receive(f0, timeout, Message(t1, 1, true));
            !Accepts(Receive(f1, timeout, Message(3 * timeout + 1, 0, true)), timeout, Message(t3, 1, true))
  {
    var f0 := Receive(Filter({}, {}, 0), timeout, Message(0, 0, true));
    assert f0 == Filter({0}, {}, 0);
    var f1 := Receive(f0, timeout, Message(t1, 1, true));
    assert f1.queries == {1} && f1.lastClean == t1;
  }

  lemma FourSteps(s: System, w: Wallet, a: Attempt, b: Attempt, c: Attempt, d: Attempt)
    requires s.clock <= a.now <= b.now <= c.now <= d.now
    ensures Steps(s, w, [a, b, c, d]) == Step(Step(Step(Step(s, w, a), w, b), w, c), w, d)
    ensures Ordered(s.clock, [a, b, c, d])
  {
    assert [a, b, c, d][1..] == [b, c, d] && [b, c, d][1..] == [c, d] && [c, d][1..] == [d];
    assert Ordered(c.now, [d]) && Ordered(b.now, [c, d]) && Ordered(a.now, [b, c, d]);
    var s3 := Step(Step(Step(s, w, a), w, b), w, c);
    assert Steps(s3, w, [d]) == Step(s3, w, d);
    assert Steps(Step(Step(s, w, a), w, b), w, [c, d]) == Step(s3, w, d);
    assert Steps(Step(s, w, a), w, [b, c, d]) == Step(s3, w, d);
  }

  function TwoEpochs(w: Wallet, t1: int, t3: int): seq<Attempt> {
    [At(0), At(t1), At(w.lifetime + 1), At(t3)]
  }

  /** Four steps from a new system: the last one reissues id 1. */
  lemma TwoEpochsEnd(w: Wallet, t1: int, t3: int) returns (s: System)
    requires Configured(w) && 0 <= t1 <= w.lifetime < t3 <= 2 * w.lifetime + 1
    ensures s == Step(Step(Step(Step(NewSystem(), w, At(0)), w, At(t1)), w, At(w.lifetime + 1)), w, At(t3))
    ensures Reissues(s.log, 1, 3, t1 - (t3 - w.lifetime - 1))
    ensures var f := Receive(Receive(Filter({}, {}, 0), w.timeout, Message(0, 0, true)), w.timeout, Message(t1, 1, true));
            s.log[3].accepted == Accepts(Receive(f, w.timeout, Message(w.lifetime + 1, 0, true)), w.timeout, Message(t3, 1, true))
  {
    FirstEpoch(w, t1);
    var s2 := Step(Step(NewSystem(), w, At(0)), w, At(t1));
    SecondEpoch(s2, w, t3);
    s := Step(Step(s2, w, At(w.lifetime + 1)), w, At(t3));
    ExtendsLog(s2.log, s.log, 1, 3);
  }

  /** The same as a run. */
  lemma TwoEpochsRun(w: Wallet, t1: int, t3: int) returns (s: System)
    requires Configured(w) && 0 <= t1 <= w.lifetime < t3
    ensures Unused(NewSystem(), w.address) && Ordered(NewSystem().clock, TwoEpochs(w, t1, t3))
    ensures s == Steps(NewSystem(), w, TwoEpochs(w, t1, t3))
    ensures s == Step(Step(Step(Step(NewSystem(), w, At(0)), w, At(t1)), w, At(w.lifetime + 1)), w, At(t3))
  {
    s := Steps(NewSystem(), w, TwoEpochs(w, t1, t3));
    FourSteps(NewSystem(), w, At(0), At(t1), At(w.lifetime + 1), At(t3));
  }

  lemma TwoEpochsLog(w: Wallet, t1: int, t3: int) returns (s: System)
    requires Configured(w) && 0 <= t1 <= w.lifetime < t3 <= 2 * w.lifetime + 1
    ensures Unused(NewSystem(), w.address) && Ordered(NewSystem().clock, TwoEpochs(w, t1, t3))
    ensures s == Steps(NewSystem(), w, TwoEpochs(w, t1, t3)) && Reissues(s.log, 1, 3, t1 - (t3 - w.lifetime - 1))
    ensures var f := Receive(Receive(Filter({}, {}, 0), w.timeout, Message(0, 0, true)), w.timeout, Message(t1, 1, true));
            s.log[3].accepted == Accepts(Receive(f, w.timeout, Message(w.lifetime + 1, 0, true)), w.timeout, Message(t3, 1, true))
  {
    s := TwoEpochsRun(w, t1, t3);
    var e := TwoEpochsEnd(w, t1, t3);
  }

  lemma ExtendsLog(log: seq<Issue>, log': seq<Issue>, i: nat, j: nat)
    requires i < |log| <= j < |log'| && log'[..|log|] == log && log[i].id == log'[j].id && log[i].epoch + 1 == log'[j].epoch
    ensures Reissues(log', i, j, log[i].Offset() - log'[j].Offset())
  {
    assert log'[i] == log'[..|log|][i];
  }

  /** Any reissue that comes sooner than in the epoch before can be refused. */
  lemma SoonerReissueCanBeRefused(timeout: nat, d: int) returns (s: System, w: Wallet, xs: seq<Attempt>)
    requires 1 <= d <= 3 * timeout
    ensures Unused(s, w.address) && Configured(w) && w.timeout == timeout && Ordered(s.clock, xs)
    ensures Reissues(Steps(s, w, xs).log, 1, 3, d) && !Steps(s, w, xs).log[3].accepted
  {
    w := Wallet("w", timeout, 3 * timeout);
    var t1 := if d <= timeout then timeout + 1 else 3 * timeout;
    var t3 := t1 - d + 3 * timeout + 1;
    s, xs := NewSystem(), TwoEpochs(w, t1, t3);
    var e := TwoEpochsLog(w, t1, t3);
    StillRemembered(timeout, t1, t3);
  }

  /**
   Whether a reissue in the next epoch is safe depends on its timing alone: it is accepted in every
   run exactly when it does not come sooner after its epoch's start (an epoch cannot be overtaken by more).
   */
  lemma ReissueIsSafeIffNotSooner(timeout: nat, d: int)
    ensures SafeToReissue(timeout, d) <==> !(1 <= d <= 3 * timeout)
  {
    if 1 <= d <= 3 * timeout {
      var s, w, xs := SoonerReissueCanBeRefused(timeout, d);
    } else {
      forall s: System, w: Wallet, xs, i: nat, j: nat |
        Unused(s, w.address) && Configured(w) && w.timeout == timeout && Ordered(s.clock, xs) && Reissues(Steps(s, w, xs).log, i, j, d)
        ensures Steps(s, w, xs).log[j].accepted
      {
        ReissueNotSoonerIsAccepted(s, w, xs, i, j, d);
      }
    }
  }
}
