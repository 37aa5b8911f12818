/** A broadcast, call by call, is a run of one worker of the wallet protocol. */
module BroadcastRuns {
  import opened Wrappers
  import opened QueryId
  import opened WalletRows
  import opened WalletLease
  import opened Broadcaster
  import P = WalletProtocol

  /** The clock does not go back from one call to the next. */
  predicate Ordered(clock: int, attempts: seq<Attempt>)
    decreases |attempts|
  {
    attempts != [] ==> clock <= attempts[0].now && Ordered(attempts[0].now, attempts[1..])
  }

  function ClockAfter(clock: int, attempts: seq<Attempt>, n: nat): int
    requires n <= |attempts|
  {
    if n == 0 then clock else attempts[n - 1].now
  }

  lemma {:induction false} OrderedAt(clock: int, attempts: seq<Attempt>, n: nat)
    requires Ordered(clock, attempts) && n < |attempts|
    ensures ClockAfter(clock, attempts, n) <= attempts[n].now
    decreases |attempts|
  {
    if n > 0 {
      OrderedAt(attempts[0].now, attempts[1..], n - 1);
    }
  }

  /** What was sent, without the protocol's count of resets. */
  function Pairs(sends: seq<P.Send>): seq<(Address, nat)> {
    seq(|sends|, i requires 0 <= i < |sends| => (sends[i].wallet, Encode(sends[i].id)))
  }

  /** The first `n` attempts fail: only the keys and the clock change. */
  lemma {:induction false} FailedAttempts(s: P.State, i: P.WorkerId, wallets: seq<Address>, attempts: seq<Attempt>, n: nat)
    returns (steps: seq<P.Step>)
    requires P.WorkerOf(s, i).Idle? && n <= |wallets| == |attempts| && Ordered(s.clock, attempts)
    requires forall j | 0 <= j < n :: !Gets(s.keys, wallets, attempts, j)
    ensures P.PossibleRun(s, steps)
    ensures P.Run(s, steps) == s.(keys := KeysAfter(s.keys, wallets, attempts, n), clock := ClockAfter(s.clock, attempts, n))
    decreases n
  {
    steps := [];
    if n > 0 {
      steps := FailedAttempts(s, i, wallets, attempts, n - 1);
      var a, w := attempts[n - 1], wallets[n - 1];
      OrderedAt(s.clock, attempts, n - 1);
      P.RunThen(s, steps, P.Tick(a.now));
      steps := steps + [P.Tick(a.now)];
      assert !Gets(s.keys, wallets, attempts, n - 1);
      if a.reach == ReplyLost {
        P.RunThen(s, steps, P.LockReplyLost(i, w));
        steps := steps + [P.LockReplyLost(i, w)];
      } else if a.reach == Answers {
        P.RunThen(s, steps, P.Lock(i, w));
        steps := steps + [P.Lock(i, w)];
      }
    }
  }

  /** The attempt that succeeds. */
  lemma Taken(s: P.State, i: P.WorkerId, wallets: seq<Address>, attempts: seq<Attempt>, k: nat) returns (steps: seq<P.Step>)
    requires P.WorkerOf(s, i).Idle? && k < |wallets| == |attempts| && Ordered(s.clock, attempts)
    requires Takes(s.keys, wallets, attempts, Some(k))
    ensures P.PossibleRun(s, steps)
    ensures P.Run(s, steps) == s.(keys := KeysAfter(s.keys, wallets, attempts, k + 1), clock := attempts[k].now,
                                  workers := s.workers[i := P.Holding(wallets[k], attempts[k].now, P.Acquired)])
  {
    steps := FailedAttempts(s, i, wallets, attempts, k);
    OrderedAt(s.clock, attempts, k);
    P.RunThen(s, steps, P.Tick(attempts[k].now));
    steps := steps + [P.Tick(attempts[k].now)];
    P.RunThen(s, steps, P.Lock(i, wallets[k]));
    steps := steps + [P.Lock(i, wallets[k])];
  }

  /** From `t` to `e` worker `i` went on to its release, and left rows and messages like this. */
  ghost predicate Finished(t: P.State, e: P.State, i: P.WorkerId, rows: Rows, posted: seq<(Address, nat)>) {
    && P.WorkerOf(t, i).Holding? && P.WorkerOf(e, i) == P.WorkerOf(t, i).(phase := P.Finishing)
    && (forall j: P.WorkerId | j != i :: P.WorkerOf(e, j) == P.WorkerOf(t, j))
    && e.keys == t.keys && e.rows == rows && Pairs(e.sends) == Pairs(t.sends) + posted
  }

  lemma Fails(s: P.State, steps: seq<P.Step>, i: P.WorkerId) returns (more: seq<P.Step>)
    requires P.PossibleRun(s, steps) && P.WorkerOf(P.Run(s, steps), i).Holding?
    ensures P.PossibleRun(s, more) && Finished(P.Run(s, steps), P.Run(s, more), i, P.Run(s, steps).rows, [])
  {
    P.RunThen(s, steps, P.Fail(i));
    more := steps + [P.Fail(i)];
  }

  lemma Posts(s: P.State, steps: seq<P.Step>, i: P.WorkerId, id: Id) returns (more: seq<P.Step>)
    requires P.PossibleRun(s, steps)
    requires P.WorkerOf(P.Run(s, steps), i).Holding? && P.WorkerOf(P.Run(s, steps), i).phase == P.HasId(id)
    ensures P.PossibleRun(s, more)
    ensures var t := P.Run(s, steps); Finished(t, P.Run(s, more), i, t.rows, [(P.WorkerOf(t, i).wallet, Encode(id))])
  {
    P.RunThen(s, steps, P.Post(i));
    more := steps + [P.Post(i)];
  }

  lemma FinishedThen(t: P.State, m: P.State, e: P.State, i: P.WorkerId, rows: Rows, posted: seq<(Address, nat)>)
    requires P.WorkerOf(t, i).Holding? && P.WorkerOf(m, i).Holding? && Finished(m, e, i, rows, posted)
    requires P.WorkerOf(m, i).wallet == P.WorkerOf(t, i).wallet && P.WorkerOf(m, i).since == P.WorkerOf(t, i).since
    requires forall j: P.WorkerId | j != i :: P.WorkerOf(m, j) == P.WorkerOf(t, j)
    requires m.keys == t.keys && m.sends == t.sends
    ensures Finished(t, e, i, rows, posted)
  {
  }

  /** From `t` to `m` worker `i` wrote, and knows whether it has an id. */
  ghost predicate Wrote(t: P.State, m: P.State, i: P.WorkerId, r: Result<Id, WrapperError>, rows: Rows) {
    && P.WorkerOf(t, i).Holding? && m.keys == t.keys && m.sends == t.sends && m.rows == rows
    && P.WorkerOf(m, i) == P.WorkerOf(t, i).(phase := if r.Ok? then P.HasId(r.value) else P.Finishing)
    && forall j: P.WorkerId | j != i :: P.WorkerOf(m, j) == P.WorkerOf(t, j)
  }

  lemma AfterWriteWrote(t: P.State, i: P.WorkerId, r: Result<Id, WrapperError>, lifetime: int)
    requires P.WorkerOf(t, i).Holding?
    ensures Wrote(t, P.AfterWrite(t, i, r, lifetime, true), i, r,
                  if r.Ok? then WriteBack(t.rows, P.WorkerOf(t, i).wallet, r.value, lifetime, t.clock) else t.rows)
  {
  }

  /** After the write: the post if there is an id and the message can be built. */
  lemma WriterFinishes(s: P.State, t: P.State, steps: seq<P.Step>, i: P.WorkerId, r: Result<Id, WrapperError>, rows: Rows,
                       buildOk: bool) returns (more: seq<P.Step>)
    requires P.PossibleRun(s, steps) && Wrote(t, P.Run(s, steps), i, r, rows)
    ensures P.PossibleRun(s, more)
    ensures Finished(t, P.Run(s, more), i, rows, if r.Ok? && buildOk then [(P.WorkerOf(t, i).wallet, Encode(r.value))] else [])
  {
    more := steps;
    if r.Ok? {
      if buildOk {
        more := Posts(s, steps, i, r.value);
      } else {
        more := Fails(s, steps, i);
      }
      FinishedThen(t, P.Run(s, steps), P.Run(s, more), i, rows,
                   if buildOk then [(P.WorkerOf(t, i).wallet, Encode(r.value))] else []);
    }
  }

  lemma Writes(s: P.State, steps: seq<P.Step>, i: P.WorkerId, lifetime: int, writeAt: int, r: Result<Id, WrapperError>)
    returns (more: seq<P.Step>)
    requires P.PossibleRun(s, steps)
    requires var t := P.Run(s, steps);
             && P.WorkerOf(t, i).Holding? && P.WorkerOf(t, i).phase.HasRead? && t.clock <= writeAt
             && r == Advance(P.WorkerOf(t, i).phase.shift, P.WorkerOf(t, i).phase.bitnumber)
    ensures P.PossibleRun(s, more)
    ensures P.Run(s, more) == P.AfterWrite(P.Run(s, steps).(clock := writeAt), i, r, lifetime, true)
  {
    P.RunThen(s, steps, P.Tick(writeAt));
    more := steps + [P.Tick(writeAt)];
    P.RunThen(s, more, P.Write(i, lifetime));
    more := more + [P.Write(i, lifetime)];
  }

  /** Everything after the write. */
  lemma WrittenFinishes(s: P.State, t: P.State, steps: seq<P.Step>, i: P.WorkerId, lifetime: int, o: Outside,
                        r: Result<Id, WrapperError>) returns (more: seq<P.Step>)
    requires P.PossibleRun(s, steps) && P.WorkerOf(t, i).Holding?
    requires P.Run(s, steps) == P.AfterWrite(t.(clock := o.writeAt), i, r, lifetime, true)
    ensures P.PossibleRun(s, more)
    ensures var w := P.WorkerOf(t, i).wallet;
            Finished(t, P.Run(s, more), i, if r.Ok? then WriteBack(t.rows, w, r.value, lifetime, o.writeAt) else t.rows,
                     if r.Ok? && o.buildOk then [(w, Encode(r.value))] else [])
  {
    var t', w := t.(clock := o.writeAt), P.WorkerOf(t, i).wallet;
    AfterWriteWrote(t', i, r, lifetime);
    var rows := P.Run(s, steps).rows;
    more := WriterFinishes(s, t', steps, i, r, rows, o.buildOk);
    FinishedThen(t, t', P.Run(s, more), i, rows, if r.Ok? && o.buildOk then [(w, Encode(r.value))] else []);
  }

  lemma Reads(s: P.State, steps: seq<P.Step>, i: P.WorkerId, readAt: int) returns (more: seq<P.Step>)
    requires P.PossibleRun(s, steps)
    requires var t := P.Run(s, steps); P.WorkerOf(t, i).Holding? && P.WorkerOf(t, i).phase.Acquired? && t.clock <= readAt
    ensures P.PossibleRun(s, more)
    ensures var t := P.Run(s, steps);
            var (shift, bitnumber) := GetQueryId(t.rows, P.WorkerOf(t, i).wallet, readAt);
            P.Run(s, more) == P.Enter(t.(clock := readAt), i, P.HasRead(shift, bitnumber))
  {
    P.RunThen(s, steps, P.Tick(readAt));
    more := steps + [P.Tick(readAt)];
    P.RunThen(s, more, P.Read(i));
    more := more + [P.Read(i)];
  }

  /** What the wrapper answers, in terms of the id that follows what was read. */
  lemma AnswerAfterRead(rows: Rows, w: Address, lifetime: int, o: Outside, shift: int, bitnumber: int, r: Result<Id, WrapperError>)
    requires o.readOk && (shift, bitnumber) == GetQueryId(rows, w, o.readAt) && r == Advance(shift, bitnumber)
    ensures Advanced(rows, CallOf(w, lifetime, o)) == if r.Ok? && !o.writeOk then Err(DatabaseError) else r
  {
  }

  lemma Leaves(rows: Rows, w: Address, lifetime: int, o: Outside, r: Result<Id, WrapperError>)
    requires Advanced(rows, CallOf(w, lifetime, o)) == r && o.prepareOk
    ensures RowsLeft(rows, w, lifetime, o) == if r.Ok? then WriteBack(rows, w, r.value, lifetime, o.writeAt) else rows
    ensures PostedBy(rows, w, lifetime, o) == if r.Ok? && o.buildOk then [(w, Encode(r.value))] else []
  {
  }

  /** The write and everything after it, if the database does not fail; `r` is what the wrapper will answer. */
  lemma ReaderFinishes(s: P.State, steps: seq<P.Step>, i: P.WorkerId, lifetime: int, o: Outside,
                       next: Result<Id, WrapperError>, r: Result<Id, WrapperError>) returns (more: seq<P.Step>)
    requires P.PossibleRun(s, steps)
    requires var t := P.Run(s, steps);
             && P.WorkerOf(t, i).Holding? && P.WorkerOf(t, i).phase.HasRead? && t.clock <= o.writeAt
             && next == Advance(P.WorkerOf(t, i).phase.shift, P.WorkerOf(t, i).phase.bitnumber)
    requires o.prepareOk && r == if next.Ok? && !o.writeOk then Err(DatabaseError) else next
    requires Advanced(P.Run(s, steps).rows, CallOf(P.WorkerOf(P.Run(s, steps), i).wallet, lifetime, o)) == r
    ensures P.PossibleRun(s, more)
    ensures var t := P.Run(s, steps);
            var w := P.WorkerOf(t, i).wallet;
            Finished(t, P.Run(s, more), i, RowsLeft(t.rows, w, lifetime, o), PostedBy(t.rows, w, lifetime, o))
  {
    var t := P.Run(s, steps);
    Leaves(t.rows, P.WorkerOf(t, i).wallet, lifetime, o, r);
    if next.Ok? && !o.writeOk {
      more := Fails(s, steps, i);
    } else {
      var written := Writes(s, steps, i, lifetime, o.writeAt, next);
      more := WrittenFinishes(s, t, written, i, lifetime, o, next);
    }
  }

  /** Everything between the lock and the release. */
  lemma HolderFinishes(s: P.State, steps: seq<P.Step>, i: P.WorkerId, lifetime: int, o: Outside) returns (more: seq<P.Step>)
    requires P.PossibleRun(s, steps)
    requires var t := P.Run(s, steps);
             && P.WorkerOf(t, i).Holding? && P.WorkerOf(t, i).phase.Acquired? && t.clock <= o.readAt <= o.writeAt
    ensures P.PossibleRun(s, more)
    ensures var t := P.Run(s, steps);
            var w := P.WorkerOf(t, i).wallet;
            Finished(t, P.Run(s, more), i, RowsLeft(t.rows, w, lifetime, o), PostedBy(t.rows, w, lifetime, o))
  {
    var t := P.Run(s, steps);
    if !o.prepareOk || !o.readOk {
      more := Fails(s, steps, i);
      return;
    }
    var read := Reads(s, steps, i, o.readAt);
    var m, w := P.Run(s, read), P.WorkerOf(t, i).wallet;
    var (shift, bitnumber) := GetQueryId(t.rows, w, o.readAt);
    var next := Advance(shift, bitnumber);
    AnswerAfterRead(t.rows, w, lifetime, o, shift, bitnumber, next);
    more := ReaderFinishes(s, read, i, lifetime, o, next, Advanced(t.rows, CallOf(w, lifetime, o)));
    FinishedThen(t, m, P.Run(s, more), i, RowsLeft(t.rows, w, lifetime, o), PostedBy(t.rows, w, lifetime, o));
  }

  lemma HolderReleases(s: P.State, steps: seq<P.Step>, i: P.WorkerId, release: Reach) returns (more: seq<P.Step>)
    requires P.PossibleRun(s, steps)
    requires var m := P.Run(s, steps); P.WorkerOf(m, i).Holding? && P.WorkerOf(m, i).phase.Finishing?
    ensures P.PossibleRun(s, more)
    ensures var m := P.Run(s, steps);
            P.Run(s, more) == m.(workers := m.workers[i := P.Idle],
                                 keys := if release == Unreachable then m.keys else m.keys - {P.WorkerOf(m, i).wallet})
  {
    var end := if release == Unreachable then P.ReleaseFails(i) else P.Release(i);
    P.RunThen(s, steps, end);
    more := steps + [end];
  }

  /** An idle worker that took a wallet, finished and released it leaves the other workers as they were. */
  lemma BackToIdle(s: P.State, t: P.State, m: P.State, e: P.State, i: P.WorkerId, rows: Rows, posted: seq<(Address, nat)>)
    requires P.WorkerOf(s, i).Idle? && Finished(t, m, i, rows, posted)
    requires t.sends == s.sends && e.sends == m.sends && e.rows == m.rows && e.workers == m.workers[i := P.Idle]
    requires forall j: P.WorkerId | j != i :: P.WorkerOf(t, j) == P.WorkerOf(s, j)
    ensures forall j: P.WorkerId :: P.WorkerOf(e, j) == P.WorkerOf(s, j)
    ensures e.rows == rows && Pairs(e.sends) == Pairs(s.sends) + posted
  {
    forall j: P.WorkerId
      ensures P.WorkerOf(e, j) == P.WorkerOf(s, j)
    {
      assert j != i ==> P.WorkerOf(m, j) == P.WorkerOf(t, j);
    }
  }

  /** The same with what a broadcast leaves. */
  lemma TakenIsRun(s: P.State, i: P.WorkerId, wallets: seq<Address>, attempts: seq<Attempt>, k: nat, lifetime: int, o: Outside)
    returns (steps: seq<P.Step>)
    requires P.WorkerOf(s, i).Idle? && k < |wallets| == |attempts| && Ordered(s.clock, attempts)
    requires Takes(s.keys, wallets, attempts, Some(k)) && attempts[k].now <= o.readAt <= o.writeAt
    ensures P.PossibleRun(s, steps)
    ensures var e, locked := P.Run(s, steps), KeysAfter(s.keys, wallets, attempts, k + 1);
            && (forall j: P.WorkerId :: P.WorkerOf(e, j) == P.WorkerOf(s, j))
            && e.keys == (if o.release == Unreachable then locked else locked - {wallets[k]})
            && e.rows == RowsLeft(s.rows, wallets[k], lifetime, o)
            && Pairs(e.sends) == Pairs(s.sends) + PostedBy(s.rows, wallets[k], lifetime, o)
  {
    var rows, posted := RowsLeft(s.rows, wallets[k], lifetime, o), PostedBy(s.rows, wallets[k], lifetime, o);
    steps := Taken(s, i, wallets, attempts, k);
    var t := P.Run(s, steps);
    steps := HolderFinishes(s, steps, i, lifetime, o);
    var m := P.Run(s, steps);
    assert Finished(t, m, i, rows, posted);
    steps := HolderReleases(s, steps, i, o.release);
    BackToIdle(s, t, m, P.Run(s, steps), i, rows, posted);
  }

  /**
   A broadcast whose calls come in order is a run of a worker that was idle and is idle again, with the
   leases, rows and messages that the broadcast leaves.
   */
  lemma BroadcastIsRun(s: P.State, i: P.WorkerId, wallets: seq<Address>, attempts: seq<Attempt>, taken: Option<nat>,
                       lifetime: int, o: Outside) returns (steps: seq<P.Step>)
    requires P.WorkerOf(s, i).Idle? && |wallets| == |attempts| && Ordered(s.clock, attempts)
    requires Takes(s.keys, wallets, attempts, taken)
    requires taken.Some? ==> attempts[taken.value].now <= o.readAt <= o.writeAt
    ensures P.PossibleRun(s, steps)
    ensures var e := P.Run(s, steps);
            && (forall j: P.WorkerId :: P.WorkerOf(e, j) == P.WorkerOf(s, j))
            && e.keys == KeysLeft(s.keys, wallets, attempts, taken, o.release)
            && e.rows == (if taken.Some? then RowsLeft(s.rows, wallets[taken.value], lifetime, o) else s.rows)
            && Pairs(e.sends) == Pairs(s.sends)
                                 + (if taken.Some? then PostedBy(s.rows, wallets[taken.value], lifetime, o) else [])
  {
    if taken.None? {
      steps := FailedAttempts(s, i, wallets, attempts, |wallets|);
    } else {
      steps := TakenIsRun(s, i, wallets, attempts, taken.value, lifetime, o);
    }
  }
}
