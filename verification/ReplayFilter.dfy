/**
 The replay memory of the wallet contract: two generations of query ids, rotated by the messages
 themselves. A message is accepted when neither generation knows its id.
 */
module ReplayFilter {

  datatype Filter = Filter(queries: set<nat>, oldQueries: set<nat>, lastClean: int)

  /** A message; a refused one either keeps the cleanup it triggered or reverts it. */
  datatype Message = Message(now: int, id: nat, keepsCleanup: bool)

  function Cleanup(f: Filter, timeout: nat, now: int): Filter {
    if f.lastClean < now - timeout
    then Filter({}, if f.lastClean < now - timeout * 2 then {} else f.queries, now)
    else f
  }

  predicate Remembers(f: Filter, id: nat) {
    id in f.queries || id in f.oldQueries
  }

  predicate Accepts(f: Filter, timeout: nat, m: Message) {
    !Remembers(Cleanup(f, timeout, m.now), m.id)
  }

  function Receive(f: Filter, timeout: nat, m: Message): Filter {
    var cleaned := Cleanup(f, timeout, m.now);
    if Accepts(f, timeout, m) then cleaned.(queries := cleaned.queries + {m.id})
    else if m.keepsCleanup then cleaned
    else f
  }

  class WalletContract {
    const timeout: nat
    var queries: set<nat>
    var oldQueries: set<nat>
    var lastCleanTime: int

    constructor (timeout: nat)
      ensures this.timeout == timeout && State() == Filter({}, {}, 0)
    {
      this.timeout := timeout;
      queries, oldQueries, lastCleanTime := {}, {}, 0;
    }

    function State(): Filter
      reads this
    {
      Filter(queries, oldQueries, lastCleanTime)
    }

    method ReceiveMessage(m: Message) returns (accepted: bool)
      modifies this
      ensures accepted == Accepts(old(State()), timeout, m)
      ensures State() == Receive(old(State()), timeout, m)
      ensures var idle := m.now - old(lastCleanTime);
              && (accepted <==> (m.id !in old(queries) || idle > 2 * timeout) && (m.id !in old(oldQueries) || idle > timeout))
              && (accepted || m.keepsCleanup ==>
                    && lastCleanTime == (if idle > timeout then m.now else old(lastCleanTime))
                    && oldQueries == (if idle > 2 * timeout then {} else if idle > timeout then old(queries) else old(oldQueries))
                    && queries == (if idle > timeout then {} else old(queries)) + (if accepted then {m.id} else {}))
              && (!accepted && !m.keepsCleanup ==>
                    queries == old(queries) && oldQueries == old(oldQueries) && lastCleanTime == old(lastCleanTime))
    {
      var before := State();
      if lastCleanTime < m.now - timeout {
        oldQueries, queries := queries, {};
        if lastCleanTime < m.now - timeout * 2 {
          oldQueries := {};
        }
        lastCleanTime := m.now;
      }
      accepted := m.id !in queries && m.id !in oldQueries;
      if accepted {
        queries := queries + {m.id};
      } else if !m.keepsCleanup {
        queries, oldQueries, lastCleanTime := before.queries, before.oldQueries, before.lastClean;
      }
    }
  }

  function ReceiveAll(f: Filter, timeout: nat, msgs: seq<Message>): Filter
    decreases |msgs|
  {
    if msgs == [] then f else ReceiveAll(Receive(f, timeout, msgs[0]), timeout, msgs[1..])
  }

  /** No message of the run is an accepted one with this id. */
  predicate NeverAccepts(f: Filter, timeout: nat, msgs: seq<Message>, id: nat)
    decreases |msgs|
  {
    msgs != [] ==>
      && !(msgs[0].id == id && Accepts(f, timeout, msgs[0]))
      && NeverAccepts(Receive(f, timeout, msgs[0]), timeout, msgs[1..], id)
  }

  /** What the generations say about an id accepted last at `t`. */
  predicate AcceptedLastAt(f: Filter, timeout: nat, id: nat, t: int) {
    && (id in f.queries ==> f.lastClean <= t)
    && (id in f.oldQueries ==> f.lastClean <= t + 2 * timeout)
  }

  lemma AcceptanceStarts(f: Filter, timeout: nat, m: Message)
    requires f.lastClean <= m.now && Accepts(f, timeout, m)
    ensures AcceptedLastAt(Receive(f, timeout, m), timeout, m.id, m.now)
  {
  }

  lemma OtherMessageKeeps(f: Filter, timeout: nat, m: Message, id: nat, t: int)
    requires AcceptedLastAt(f, timeout, id, t) && !(m.id == id && Accepts(f, timeout, m))
    ensures AcceptedLastAt(Receive(f, timeout, m), timeout, id, t)
  {
  }

  lemma {:induction false} RunKeeps(f: Filter, timeout: nat, msgs: seq<Message>, id: nat, t: int)
    requires AcceptedLastAt(f, timeout, id, t) && NeverAccepts(f, timeout, msgs, id)
    ensures AcceptedLastAt(ReceiveAll(f, timeout, msgs), timeout, id, t)
    decreases |msgs|
  {
    if msgs != [] {
      OtherMessageKeeps(f, timeout, msgs[0], id, t);
      RunKeeps(Receive(f, timeout, msgs[0]), timeout, msgs[1..], id, t);
    }
  }

  /** A message later than three timeouts finds the id gone. */
  lemma ForgottenAt(f: Filter, timeout: nat, id: nat, t: int, now: int)
    requires AcceptedLastAt(f, timeout, id, t) && now > t + 3 * timeout
    ensures !Remembers(Cleanup(f, timeout, now), id)
  {
  }

  /** An id accepted at `first.now`, then a run that does not accept it again. */
  predicate Run(timeout: nat, f: Filter, first: Message, msgs: seq<Message>) {
    && f.lastClean <= first.now
    && Accepts(f, timeout, first)
    && NeverAccepts(Receive(f, timeout, first), timeout, msgs, first.id)
  }

  /** Whether a message `gap` after the acceptance still finds the id. */
  predicate RememberedAfter(timeout: nat, f: Filter, first: Message, msgs: seq<Message>, gap: nat) {
    Remembers(Cleanup(ReceiveAll(Receive(f, timeout, first), timeout, msgs), timeout, first.now + gap), first.id)
  }

  ghost predicate AlwaysForgotten(timeout: nat, gap: nat) {
    forall f, first, msgs | Run(timeout, f, first, msgs) :: !RememberedAfter(timeout, f, first, msgs, gap)
  }

  /** Whatever messages come between, an id is gone after a gap exactly when the gap exceeds three timeouts. */
  lemma ReplayHorizonIsThreeTimeouts(timeout: nat, gap: nat)
    ensures AlwaysForgotten(timeout, gap) <==> gap > 3 * timeout
  {
    if gap > 3 * timeout {
      forall f, first, msgs | Run(timeout, f, first, msgs) ensures !RememberedAfter(timeout, f, first, msgs, gap) {
        AcceptanceStarts(f, timeout, first);
        RunKeeps(Receive(f, timeout, first), timeout, msgs, first.id, first.now);
        ForgottenAt(ReceiveAll(Receive(f, timeout, first), timeout, msgs), timeout, first.id, first.now, first.now + gap);
      }
    } else {
      SlowestForgetting(timeout, gap);
    }
  }

  /** The run that keeps an id longest: one rotation, at the last moment that does not drop it. */
  lemma SlowestForgetting(timeout: nat, gap: nat)
    requires gap <= 3 * timeout
    ensures exists f, first, msgs :: Run(timeout, f, first, msgs) && RememberedAfter(timeout, f, first, msgs, gap)
  {
    var f, first := Filter({}, {}, 0), Message(0, 7, true);
    var f1 := Receive(f, timeout, first);
    assert f1 == Filter({7}, {}, 0);
    if gap <= 2 * timeout {
      assert ReceiveAll(f1, timeout, []) == f1;
      assert Run(timeout, f, first, []) && RememberedAfter(timeout, f, first, [], gap);
    } else {
      var m := Message(2 * timeout, 8, true);
      assert Receive(f1, timeout, m) == Filter({8}, {7}, 2 * timeout);
      assert ReceiveAll(f1, timeout, [m]) == Filter({8}, {7}, 2 * timeout);
      assert Run(timeout, f, first, [m]) && RememberedAfter(timeout, f, first, [m], gap);
    }
  }

  /** What still protects an id accepted at `t`. */
  predicate Protected(f: Filter, timeout: nat, id: nat, t: int) {
    || (id in f.queries && f.lastClean >= t - timeout)
    || (id in f.oldQueries && f.lastClean >= t)
  }

  predicate Within(msgs: seq<Message>, from: int, to: int) {
    forall i | 0 <= i < |msgs| :: from <= msgs[i].now <= to
  }

  lemma {:induction false} RunProtects(f: Filter, timeout: nat, msgs: seq<Message>, id: nat, t: int)
    requires Protected(f, timeout, id, t) && Within(msgs, t, t + timeout)
    ensures Protected(ReceiveAll(f, timeout, msgs), timeout, id, t) && NeverAccepts(f, timeout, msgs, id)
    decreases |msgs|
  {
    if msgs != [] {
      var m := msgs[0];
      assert t <= m.now <= t + timeout;
      assert Protected(Receive(f, timeout, m), timeout, id, t);
      RunProtects(Receive(f, timeout, m), timeout, msgs[1..], id, t);
    }
  }

  /** Within one timeout of its acceptance an id is refused, whatever messages come between. */
  lemma ReplayWithinTimeoutIsRefused(timeout: nat, f: Filter, first: Message, msgs: seq<Message>, again: Message)
    requires f.lastClean <= first.now && Accepts(f, timeout, first)
    requires Within(msgs + [again], first.now, first.now + timeout) && again.id == first.id
    ensures !Accepts(ReceiveAll(Receive(f, timeout, first), timeout, msgs), timeout, again)
  {
    var f1 := Receive(f, timeout, first);
    assert msgs == (msgs + [again])[..|msgs|] && again == (msgs + [again])[|msgs|];
    RunProtects(f1, timeout, msgs, first.id, first.now);
  }
}
