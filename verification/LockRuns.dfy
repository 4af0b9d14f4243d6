/** No deadlock: what the lock protocol guarantees over every schedule of any number of threads. */
module LockRuns {
  import opened Locks

  // ----- when a thread waits for the Kafka thread, that thread has been told to stop -----

  /** No loop over messages, and no wait for the Kafka thread but by joining it. */
  predicate Plain(c: Code) {
    match c
    case Nothing => true
    case Use(_, _) => true
    case Retarget => true
    case Then(a, b) => Plain(a) && Plain(b)
    case Either(a, b) => Plain(a) && Plain(b)
    case Repeat(b) => Plain(b)
    case Loop(_) => false
    case Join => true
    case Waiting(n, b) => n != Life && Plain(b)
    case Trying(_, b, o) => Plain(b) && Plain(o)
  }

  /** Code that may be on a thread's stack: plain, the loop of a Kafka thread, or the wait of a join that has told it to stop. */
  predicate Allowed(c: Code, rest: Stack, consumer: nat, stopped: set<nat>) {
    || Plain(c)
    || (c.Loop? && Plain(c.body) && rest == Push(Leave(Lock(Life, consumer)), Empty))
    || (c == Waiting(Life, Nothing) && consumer in stopped)
  }

  predicate Tame(s: Stack, consumer: nat, stopped: set<nat>) {
    match s
    case Empty => true
    case Push(Leave(_), rest) => Tame(rest, consumer, stopped)
    case Push(Do(c), rest) => Allowed(c, rest, consumer, stopped) && Tame(rest, consumer, stopped)
  }

  ghost predicate AllTame(st: State) {
    forall i: nat :: i < |st.threads| ==> Tame(st.threads[i].stack, st.threads[i].consumer, st.stopped)
  }

  lemma {:induction false} TameGrows(s: Stack, consumer: nat, stopped: set<nat>, more: set<nat>)
    requires Tame(s, consumer, stopped) && stopped <= more
    ensures Tame(s, consumer, more)
  {
    if s.Push? {
      TameGrows(s.rest, consumer, stopped, more);
    }
  }

  lemma {:induction false} SteppedTame(t: Thread, owner: map<Lock, nat>, stopped: set<nat>, c: Choice)
    requires t.stack.Push? && !Stuck(t, owner) && Tame(t.stack, t.consumer, stopped)
    ensures Stepped(t, owner, stopped, c).consumer == t.consumer
    ensures Tame(Stepped(t, owner, stopped, c).stack, t.consumer, Stops(t, stopped))
  {
    var more := Stops(t, stopped);
    TameGrows(t.stack.rest, t.consumer, stopped, more);
    TameGrows(t.stack, t.consumer, stopped, more);
    if t.stack.top.Do? && (t.stack.top.code.Waiting? || t.stack.top.code.Trying?) {
      var l := Resolve(t, t.stack.top.code.name);
      assert Tame(Push(Leave(l), t.stack.rest), t.consumer, more);
    }
  }

  lemma {:induction false} PoliteIsPlain(c: Code)
    requires Polite(c)
    ensures Plain(c)
  {
    match c
    case Then(a, b) => PoliteIsPlain(a); PoliteIsPlain(b);
    case Either(a, b) => PoliteIsPlain(a); PoliteIsPlain(b);
    case Repeat(b) => PoliteIsPlain(b);
    case Trying(_, b, o) => PoliteIsPlain(b); PoliteIsPlain(o);
    case _ =>
  }

  lemma {:induction false} ProgramPlain(role: Role)
    ensures if role.Consumer? then Program(role) == Loop(Serving()) && Plain(Serving()) else Plain(Program(role))
  {
    match role
    case Request(filters) =>
      RequestPolite(filters);
      PoliteIsPlain(Program(role));
    case Consumer => ServingPlain();
    case Status => StatusPlain();
    case Sweep => SweepPlain();
    case Reloading => ReloadingPlain();
    case Shutdown => assert Plain(Program(Shutdown));
  }

  lemma {:induction false} ServingPlain()
    ensures Plain(Serving())
  {
  }

  lemma {:induction false} StatusPlain()
    ensures Plain(Program(Status))
  {
  }

  lemma {:induction false} SweepPlain()
    ensures Plain(Program(Sweep))
  {
  }

  lemma {:induction false} ReloadingPlain()
    ensures Plain(Program(Reloading))
  {
  }

  lemma {:induction false} BornTame(role: Role, plugin: nat, consumer: nat, stopped: set<nat>)
    ensures Tame(Born(role, plugin, consumer).stack, consumer, stopped)
  {
    ProgramPlain(role);
    hide Program, Plain, Serving;
    var s := Born(role, plugin, consumer).stack;
    if role.Consumer? {
      var below := Push(Leave(Lock(Life, consumer)), Empty);
      assert s.rest == below && Tame(below, consumer, stopped);
    } else {
      assert s.rest == Empty;
    }
  }

  lemma {:induction false} RunTame(moves: seq<Move>)
    ensures AllTame(Run(moves))
  {
    if moves != [] {
      var st, m := Run(moves[..|moves| - 1]), moves[|moves| - 1];
      RunTame(moves[..|moves| - 1]);
      hide Tame, Stepped, Born, Owners, Stuck;
      match m
      case Arrive(role, plugin, consumer) => BornTame(role, plugin, consumer, st.stopped);
      case Go(i, c) =>
        if CanGo(st, i) {
          SteppedTame(st.threads[i], st.owner, st.stopped, c);
          forall j: nat | j < |st.threads| && j != i
            ensures Tame(st.threads[j].stack, st.threads[j].consumer, After(st, m).stopped)
          {
            TameGrows(st.threads[j].stack, st.threads[j].consumer, st.stopped, After(st, m).stopped);
          }
        }
    }
  }

  // ----- no deadlock -----

  /** A Kafka thread between two rounds that nobody has told to stop: it goes on for ever. */
  ghost predicate Idle(st: State, t: Thread) {
    && t.stack.Push? && t.stack.top.Do? && t.stack.top.code.Loop? && t.consumer !in st.stopped
    && t.stack.rest == Push(Leave(Lock(Life, t.consumer)), Empty)
  }

  ghost predicate Busy(st: State, i: nat) {
    i < |st.threads| && st.threads[i].stack.Push? && !Idle(st, st.threads[i])
  }

  /** A mutex somebody waits for is never owned by an idle Kafka thread. */
  lemma {:induction false} OwnerIsBusy(st: State, i: nat)
    requires Consistent(st) && AllTame(st) && i < |st.threads| && Stuck(st.threads[i], st.owner)
    ensures var l := Resolve(st.threads[i], st.threads[i].stack.top.code.name); Busy(st, st.owner[l])
  {
    hide Plain;
    var t := st.threads[i];
    var l := Resolve(t, t.stack.top.code.name);
    var k := st.owner[l];
    assert Tame(t.stack, t.consumer, st.stopped);
    if Idle(st, st.threads[k]) {
      var life := Lock(Life, st.threads[k].consumer);
      assert Held(Push(Leave(life), Empty)) == {life};
      assert Held(st.threads[k].stack) == {life};
      LifeWaitIsPlain(t.stack.top.code);
    }
  }

  lemma {:induction false} LifeWaitIsPlain(c: Code)
    ensures c.Waiting? && c.name == Life ==> !Plain(c)
  {
  }

  /** Following the owners of awaited mutexes leads to a busy thread that can act, because ranks go up along the way. */
  lemma {:induction false} SomeoneCanGo(st: State, i: nat) returns (j: nat)
    requires Consistent(st) && AllTame(st) && Busy(st, i)
    ensures CanGo(st, j) && Busy(st, j)
    decreases TOP - Above(st.threads[i].stack.rest)
  {
    hide Idle, Tame;
    if CanGo(st, i) {
      j := i;
    } else {
      var t := st.threads[i];
      var l := Resolve(t, t.stack.top.code.name);
      var k := st.owner[l];
      OwnerIsBusy(st, i);
      HeldIsBelow(st.threads[k].stack, l);
      if CanGo(st, k) {
        j := k;
      } else {
        j := SomeoneCanGo(st, k);
      }
    }
  }

  ghost predicate Finished(st: State) {
    forall i: nat :: i < |st.threads| ==> st.threads[i].stack == Empty
  }

  /** Only idle Kafka threads are left. */
  ghost predicate Settled(st: State) {
    forall i: nat :: !Busy(st, i)
  }

  /** No deadlock: whenever a thread is unfinished, some thread can act. */
  lemma {:induction false} NoDeadlock(moves: seq<Move>)
    requires !Finished(Run(moves))
    ensures exists j: nat :: CanGo(Run(moves), j)
  {
    var st := Run(moves);
    RunConsistent(moves);
    RunTame(moves);
    var i: nat :| i < |st.threads| && st.threads[i].stack != Empty;
    if Busy(st, i) {
      var j := SomeoneCanGo(st, i);
    } else {
      assert CanGo(st, i);
    }
  }

  // ----- everything can always be finished -----

  function Weight(c: Code): nat {
    match c
    case Then(a, b) => 1 + Weight(a) + Weight(b)
    case Either(a, b) => 1 + Weight(a) + Weight(b)
    case Repeat(b) => 1 + Weight(b)
    case Loop(b) => 1 + Weight(b)
    case Join => 4
    case Waiting(_, b) => 2 + Weight(b)
    case Trying(_, b, o) => 2 + Weight(b) + Weight(o)
    case _ => 1
  }

  function Left(s: Stack): nat {
    match s
    case Empty => 0
    case Push(Do(c), rest) => Weight(c) + Left(rest)
    case Push(Leave(_), rest) => 1 + Left(rest)
  }

  function Work(threads: seq<Thread>): nat {
    if threads == [] then 0 else Left(threads[0].stack) + Work(threads[1..])
  }

  lemma {:induction false} WorkOfOne(threads: seq<Thread>, i: nat, t: Thread)
    requires i < |threads|
    ensures Work(threads[i := t]) == Work(threads) - Left(threads[i].stack) + Left(t.stack)
    ensures Left(threads[i].stack) <= Work(threads)
  {
    var after := threads[i := t];
    if i == 0 {
      assert after[1..] == threads[1..];
    } else {
      assert after[1..] == threads[1..][i - 1 := t];
      WorkOfOne(threads[1..], i - 1, t);
    }
  }

  /** The step begins another round of a loop. */
  predicate NewRound(t: Thread, stopped: set<nat>, c: Choice) {
    t.stack.Push? && t.stack.top.Do?
    && ((t.stack.top.code.Repeat? && c.left) || (t.stack.top.code.Loop? && t.consumer !in stopped))
  }

  lemma {:induction false} StepWorks(t: Thread, owner: map<Lock, nat>, stopped: set<nat>, c: Choice)
    requires t.stack.Push? && !Stuck(t, owner) && !NewRound(t, stopped, c)
    ensures Left(Stepped(t, owner, stopped, c).stack) < Left(t.stack)
  {
  }

  /** A move that does something and begins no further round of a loop. */
  ghost predicate Effective(st: State, m: Move) {
    m.Go? && CanGo(st, m.i) && !NewRound(st.threads[m.i], st.stopped, m.choice)
  }

  lemma {:induction false} EffectiveWorks(st: State, m: Move)
    requires Effective(st, m)
    ensures Work(After(st, m).threads) < Work(st.threads)
  {
    hide Stepped, NewRound, Left, Work;
    var t := st.threads[m.i];
    StepWorks(t, st.owner, st.stopped, m.choice);
    WorkOfOne(st.threads, m.i, Stepped(t, st.owner, st.stopped, m.choice));
  }

  lemma {:induction false} RunSnoc(moves: seq<Move>, m: Move)
    ensures Run(moves + [m]) == After(Run(moves), m)
  {
    assert (moves + [m])[..|moves|] == moves;
  }

  ghost predicate AllEffective(moves: seq<Move>, more: seq<Move>) {
    forall k: nat :: k < |more| ==> Effective(Run(moves + more[..k]), more[k])
  }

  /** However the threads are scheduled, between new rounds of loops there are at most as many steps as there is work left. */
  lemma {:induction false} StepsAreBounded(moves: seq<Move>, more: seq<Move>)
    requires AllEffective(moves, more)
    ensures |more| + Work(Run(moves + more).threads) <= Work(Run(moves).threads)
    decreases |more|
  {
    hide Effective, Work, Run, After;
    if more == [] {
      assert moves + [] == moves;
    } else {
      var n := |more| - 1;
      var less := more[..n];
      forall k: nat | k < n ensures Effective(Run(moves + less[..k]), less[k]) {
        assert less[..k] == more[..k];
      }
      StepsAreBounded(moves, less);
      assert Effective(Run(moves + less), more[n]);
      EffectiveWorks(Run(moves + less), more[n]);
      RunSnoc(moves + less, more[n]);
      assert moves + less + [more[n]] == moves + more;
    }
  }

  ghost predicate Settles(moves: seq<Move>, more: seq<Move>) {
    AllEffective(moves, more) && Settled(Run(moves + more))
  }

  /** A busy thread that can act has an effective step. */
  lemma {:induction false} BusyIsEffective(st: State, j: nat)
    requires AllTame(st) && CanGo(st, j) && Busy(st, j)
    ensures Effective(st, Go(j, Choice(false, 0)))
  {
    var t := st.threads[j];
    assert Tame(t.stack, t.consumer, st.stopped);
  }

  /**
   * More than the absence of deadlock: from every reachable state the threads there are can all run to their ends,
   * without new ones and without further rounds of loops, except for Kafka threads that nobody has told to stop;
   * these come to rest between two rounds, holding no mutex. So no set of waits ever shuts a thread out for good.
   */
  lemma {:induction false} CanAlwaysSettle(moves: seq<Move>)
    ensures exists more: seq<Move> :: Settles(moves, more)
    decreases Work(Run(moves).threads)
  {
    hide Idle, Effective, Work, Tame, Orderly, Held, After;
    var st := Run(moves);
    if Settled(st) {
      assert moves + [] == moves;
      assert Settles(moves, []);
    } else {
      var i: nat :| Busy(st, i);
      RunConsistent(moves);
      RunTame(moves);
      var j := SomeoneCanGo(st, i);
      var m := Go(j, Choice(false, 0));
      BusyIsEffective(st, j);
      RunSnoc(moves, m);
      EffectiveWorks(st, m);
      CanAlwaysSettle(moves + [m]);
      var rest: seq<Move> :| Settles(moves + [m], rest);
      SettlesSooner(moves, m, rest);
    }
  }

  lemma {:induction false} SettlesSooner(moves: seq<Move>, m: Move, rest: seq<Move>)
    requires Effective(Run(moves), m) && Settles(moves + [m], rest)
    ensures Settles(moves, [m] + rest)
  {
    hide Effective, Settled, Run;
    var more := [m] + rest;
    assert moves + [m] + rest == moves + more;
    forall k: nat | k < |more| ensures Effective(Run(moves + more[..k]), more[k]) {
      if k == 0 {
        assert moves + more[..0] == moves;
      } else {
        assert moves + more[..k] == moves + [m] + rest[..k - 1];
      }
    }
  }

  // ----- requests never wait -----

  predicate PoliteStack(s: Stack) {
    match s
    case Empty => true
    case Push(Do(c), rest) => Polite(c) && PoliteStack(rest)
    case Push(Leave(_), rest) => PoliteStack(rest)
  }

  lemma {:induction false} SteppedPolite(t: Thread, owner: map<Lock, nat>, stopped: set<nat>, c: Choice)
    requires t.stack.Push? && !Stuck(t, owner) && PoliteStack(t.stack)
    ensures PoliteStack(Stepped(t, owner, stopped, c).stack)
  {
  }

  lemma {:induction false} RequestsPolite(moves: seq<Move>, i: nat)
    requires i < |Run(moves).threads| && Run(moves).threads[i].role.Request?
    ensures PoliteStack(Run(moves).threads[i].stack)
  {
    var m, st := moves[|moves| - 1], Run(moves[..|moves| - 1]);
    if i == |st.threads| {
      RequestPolite(m.role.filters);
      hide Program, Polite;
      assert Run(moves).threads[i] == Born(m.role, m.plugin, m.consumer);
    } else {
      RequestsPolite(moves[..|moves| - 1], i);
      if m.Go? && m.i == i && CanGo(st, i) {
        SteppedPolite(st.threads[i], st.owner, st.stopped, m.choice);
      }
    }
  }

  /** A request can act at every moment until it is done, whatever the other threads hold. */
  lemma {:induction false} RequestsNeverWait(moves: seq<Move>, i: nat)
    requires i < |Run(moves).threads| && Run(moves).threads[i].role.Request?
    requires Run(moves).threads[i].stack != Empty
    ensures CanGo(Run(moves), i)
  {
    RequestsPolite(moves, i);
  }
}
