/** Every clash happens: for any two kinds of thread that may conflict there is a schedule in which they do. */
module LockRaces {
  import opened Locks
  import opened LockRuns
  import opened LockGuards
  import opened Pipeline

  const LEFT := Choice(true, 0)
  const RIGHT := Choice(false, 0)

  type Owner = map<Lock, nat>

  /** After these moves thread `i` is `t`, the others are as listed, and no consumer has been told to stop. */
  ghost predicate At(moves: seq<Move>, threads: seq<Thread>, i: nat, t: Thread, owner: Owner) {
    i < |threads| && Run(moves) == State(threads[i := t], owner, {})
  }

  /** Thread `i` acts once. */
  lemma {:induction false} Act(moves: seq<Move>, threads: seq<Thread>, i: nat, t: Thread, owner: Owner, c: Choice)
    returns (next: seq<Move>)
    requires At(moves, threads, i, t, owner) && t.stack.Push? && !Stuck(t, owner) && t.stack.top != Do(Join)
    ensures At(next, threads, i, Stepped(t, owner, {}, c), Owners(t, i, owner))
  {
    hide Stepped, Owners, Run, Stuck;
    next := moves + [Go(i, c)];
    RunSnoc(moves, Go(i, c));
    assert threads[i := t][i := Stepped(t, owner, {}, c)] == threads[i := Stepped(t, owner, {}, c)];
  }

  /** Code that never waits can be run to its end, after which the same mutexes are owned as before. */
  lemma {:induction false} Complete(moves: seq<Move>, threads: seq<Thread>, i: nat, t: Thread, owner: Owner, c: Code,
                                    rest: Stack)
    returns (next: seq<Move>)
    requires At(moves, threads, i, t, owner) && t.stack == Push(Do(c), rest) && Polite(c)
    ensures At(next, threads, i, t.(stack := rest), owner)
    decreases c
  {
    hide At;
    match c
    case Retarget => next := Act(moves, threads, i, t, owner, Choice(false, t.plugin));
    case Then(a, b) =>
      next := Act(moves, threads, i, t, owner, RIGHT);
      var more := Push(Do(b), rest);
      next := Complete(next, threads, i, t.(stack := Push(Do(a), more)), owner, a, more);
      next := Complete(next, threads, i, t.(stack := more), owner, b, rest);
    case Either(a, b) =>
      next := Act(moves, threads, i, t, owner, RIGHT);
      next := Complete(next, threads, i, t.(stack := Push(Do(b), rest)), owner, b, rest);
    case Trying(n, b, o) =>
      var l := Resolve(t, n);
      next := Act(moves, threads, i, t, owner, RIGHT);
      if l in owner {
        next := Complete(next, threads, i, t.(stack := Push(Do(o), rest)), owner, o, rest);
      } else {
        var more := Push(Leave(l), rest);
        next := Complete(next, threads, i, t.(stack := Push(Do(b), more)), owner[l := i], b, more);
        next := Act(next, threads, i, t.(stack := more), owner[l := i], RIGHT);
        assert owner[l := i] - {l} == owner;
      }
    case _ => next := Act(moves, threads, i, t, owner, RIGHT);
  }

  /** A guarded access to something free can be run to its end. */
  lemma {:induction false} CompleteGuarded(moves: seq<Move>, threads: seq<Thread>, i: nat, t: Thread, owner: Owner,
                                           n: Name, a: Access, rest: Stack)
    returns (next: seq<Move>)
    requires At(moves, threads, i, t, owner) && t.stack == Push(Do(Guarded(n, a)), rest) && Resolve(t, n) !in owner
    ensures At(next, threads, i, t.(stack := rest), owner)
  {
    hide At;
    var l := Resolve(t, n);
    var more := Push(Leave(l), rest);
    next := Act(moves, threads, i, t, owner, RIGHT);
    next := Act(next, threads, i, t.(stack := Push(Do(Use(n, a)), more)), owner[l := i], RIGHT);
    next := Act(next, threads, i, t.(stack := more), owner[l := i], RIGHT);
    assert owner[l := i] - {l} == owner;
  }

  /** Code that may be skipped is. */
  lemma {:induction false} Skip(moves: seq<Move>, threads: seq<Thread>, i: nat, t: Thread, owner: Owner, c: Code,
                                rest: Stack)
    returns (next: seq<Move>)
    requires At(moves, threads, i, t, owner) && t.stack == Push(Do(May(c)), rest)
    ensures At(next, threads, i, t.(stack := rest), owner)
  {
    hide At;
    next := Act(moves, threads, i, t, owner, RIGHT);
    next := Act(next, threads, i, t.(stack := Push(Do(Nothing), rest)), owner, RIGHT);
  }

  lemma {:induction false} Start(a: Role, b: Role) returns (moves: seq<Move>)
    requires !a.Consumer? && !b.Consumer?
    ensures Run(moves) == State([Born(a, 0, 0), Born(b, 0, 0)], map[], {})
  {
    hide Born;
    var first := Arrive(a, 0, 0);
    var second := Arrive(b, 0, 0);
    RunSnoc([], first);
    RunSnoc([first], second);
    assert [] + [first] == [first];
    moves := [first] + [second];
  }

  // ----- at the current instance -----

  /** A timer between its first look at the current instance and its wait for the reload mutex. */
  lemma {:induction false} TimerLooks(moves: seq<Move>, threads: seq<Thread>, i: nat, t: Thread, owner: Owner,
                                      task: Code)
    returns (next: seq<Move>, rest: Stack)
    requires At(moves, threads, i, t, owner) && t.stack == Push(Do(Timer(task)), Empty) && Lock(Schedule, 0) !in owner
    ensures At(next, threads, i, t.(stack := Push(Do(Use(Reload, Read)), rest)), owner[Lock(Schedule, 0) := i])
    ensures var inner := Waiting(Reload, Then(Use(Reload, Read), Then(Retarget, May(task))));
            rest == Push(Do(inner), Push(Leave(Lock(Schedule, 0)), Empty))
  {
    hide At, May;
    var s := Lock(Schedule, 0);
    var inner := Waiting(Reload, Then(Use(Reload, Read), Then(Retarget, May(task))));
    next := Act(moves, threads, i, t, owner, RIGHT);
    var outer := Push(Do(Then(Use(Reload, Read), inner)), Push(Leave(s), Empty));
    next := Act(next, threads, i, t.(stack := outer), owner[s := i], RIGHT);
    rest := Push(Do(inner), Push(Leave(s), Empty));
  }

  /** A timer that has taken both its mutexes and starts its task. */
  lemma {:induction false} TimerStarts(moves: seq<Move>, threads: seq<Thread>, i: nat, t: Thread, owner: Owner,
                                       task: Code)
    returns (next: seq<Move>, rest: Stack)
    requires At(moves, threads, i, t, owner) && t.stack == Push(Do(Timer(task)), Empty) && t.plugin == 0
    requires Lock(Schedule, 0) !in owner && Lock(Reload, 0) !in owner
    ensures At(next, threads, i, t.(stack := Push(Do(task), rest)), owner[Lock(Schedule, 0) := i][Lock(Reload, 0) := i])
  {
    hide At;
    var s, r := Lock(Schedule, 0), Lock(Reload, 0);
    var held, look := owner[s := i][r := i], Use(Reload, Read);
    var below;
    next, below := TimerLooks(moves, threads, i, t, owner, task);
    next := Act(next, threads, i, t.(stack := Push(Do(look), below)), owner[s := i], RIGHT);
    next := Act(next, threads, i, t.(stack := below), owner[s := i], RIGHT);
    rest := Push(Leave(r), Push(Leave(s), Empty));
    next := Act(next, threads, i, t.(stack := Push(Do(Then(look, Then(Retarget, May(task)))), rest)), held, RIGHT);
    next := Act(next, threads, i, t.(stack := Push(Do(look), Push(Do(Then(Retarget, May(task))), rest))), held, RIGHT);
    next := Act(next, threads, i, t.(stack := Push(Do(Then(Retarget, May(task))), rest)), held, RIGHT);
    next := Act(next, threads, i, t.(stack := Push(Do(Retarget), Push(Do(May(task)), rest))), held, RIGHT);
    next := Act(next, threads, i, t.(stack := Push(Do(May(task)), rest)), held, LEFT);
  }

  /** A reload about to replace the current instance. */
  lemma {:induction false} ReloadWrites(moves: seq<Move>, threads: seq<Thread>, i: nat, t: Thread, owner: Owner)
    returns (next: seq<Move>, rest: Stack)
    requires At(moves, threads, i, t, owner) && t.stack == Push(Do(Program(Reloading)), Empty)
    requires Lock(Reload, 0) !in owner && Resolve(t, SwabberSocket) !in owner && t.plugin == 0
    ensures At(next, threads, i, t.(stack := Push(Do(Use(Reload, Write)), rest)), owner[Lock(Reload, 0) := i])
  {
    hide At, Releasing, Rebuilding;
    var r, look := Lock(Reload, 0), Use(Reload, Read);
    var held, last := owner[r := i], Then(Rebuilding(), Use(Reload, Write));
    rest := Push(Leave(r), Empty);
    next := Act(moves, threads, i, t, owner, RIGHT);
    next := Act(next, threads, i, t.(stack := Push(Do(Then(look, Then(Releasing(), last))), rest)), held, RIGHT);
    next := Act(next, threads, i, t.(stack := Push(Do(look), Push(Do(Then(Releasing(), last)), rest))), held, RIGHT);
    next := Act(next, threads, i, t.(stack := Push(Do(Then(Releasing(), last)), rest)), held, RIGHT);
    var more := Push(Do(last), rest);
    next := SocketsReleased(next, threads, i, t.(stack := Push(Do(Releasing()), more)), held, more);
    next := Act(next, threads, i, t.(stack := more), held, RIGHT);
    more := Push(Do(Use(Reload, Write)), rest);
    next := Rebuilt(next, threads, i, t.(stack := Push(Do(Rebuilding()), more)), held, more);
  }

  lemma {:induction false} SocketsReleased(moves: seq<Move>, threads: seq<Thread>, i: nat, t: Thread, owner: Owner,
                                           rest: Stack)
    returns (next: seq<Move>)
    requires At(moves, threads, i, t, owner) && t.stack == Push(Do(Releasing()), rest)
    requires Resolve(t, SwabberSocket) !in owner
    ensures At(next, threads, i, t.(stack := rest), owner)
  {
    hide At, Guarded, May;
    var more := Push(Do(May(Guarded(SnifferSocket, Write))), rest);
    next := Act(moves, threads, i, t, owner, RIGHT);
    var all := Push(Do(Guarded(SwabberSocket, Write)), more);
    next := CompleteGuarded(next, threads, i, t.(stack := all), owner, SwabberSocket, Write, more);
    next := Skip(next, threads, i, t.(stack := more), owner, Guarded(SnifferSocket, Write), rest);
  }

  lemma {:induction false} Rebuilt(moves: seq<Move>, threads: seq<Thread>, i: nat, t: Thread, owner: Owner, rest: Stack)
    returns (next: seq<Move>)
    requires At(moves, threads, i, t, owner) && t.stack == Push(Do(Rebuilding()), rest) && t.plugin == 0
    ensures At(next, threads, i, t.(stack := rest), owner)
  {
    hide At, Guarded, May;
    var config := May(Guarded(StoredConfig, Write));
    var more := Push(Do(Either(Joining(), config)), rest);
    next := Act(moves, threads, i, t, owner, RIGHT);
    next := Act(next, threads, i, t.(stack := Push(Do(Retarget), more)), owner, RIGHT);
    next := Act(next, threads, i, t.(stack := more), owner, RIGHT);
    next := Skip(next, threads, i, t.(stack := Push(Do(config), rest)), owner, Guarded(StoredConfig, Write), rest);
  }

  /** A request, or a timer, just before it looks at the current instance without the mutex. */
  lemma {:induction false} BypasserLooks(moves: seq<Move>, threads: seq<Thread>, i: nat, role: Role)
    returns (next: seq<Move>, rest: Stack, owner: Owner)
    requires role.Request? || role.Status? || role.Sweep?
    requires At(moves, threads, i, Born(role, 0, 0), map[])
    ensures At(next, threads, i, Born(role, 0, 0).(stack := Push(Do(Use(Reload, Read)), rest)), owner)
    ensures Lock(Reload, 0) !in owner && Lock(SwabberSocket, 0) !in owner
  {
    hide At, Timer, FilterLoop, Closing, Measuring, Sweeping;
    var t := Born(role, 0, 0);
    owner := map[];
    if role.Request? {
      next := Act(moves, threads, i, t, owner, RIGHT);
      rest := Push(Do(Then(FilterLoop(role.filters), Closing(Challenging in role.filters))), Empty);
    } else {
      next, rest := TimerLooks(moves, threads, i, t, owner, if role.Status? then Measuring() else Sweeping(Write));
      owner := owner[Lock(Schedule, 0) := i];
    }
  }

  /** Some schedule leads to a conflict between a thread of the first kind and one of the second. */
  ghost predicate Happens(a: Role, b: Role, n: Name) {
    exists moves: seq<Move> ::
      Conflict(Run(moves), n, 0, 1) && Run(moves).threads[0].role == a && Run(moves).threads[1].role == b
  }

  lemma {:induction false} ConflictAt(moves: seq<Move>, a: Thread, b: Thread, owner: Owner, n: Name, x: Access,
                                      y: Access)
    requires Run(moves) == State([a, b], owner, {}) && About(a, n, x) && About(b, n, y) && (x == Write || y == Write)
    requires Home(a, n) == Home(b, n)
    ensures Happens(a.role, b.role, n)
  {
    hide Run;
    assert Conflict(Run(moves), n, 0, 1);
  }

  /** The reload writes the current instance while another thread reads it. */
  lemma {:induction false} InstanceRace(role: Role)
    requires role.Request? || role.Status? || role.Sweep?
    ensures Happens(Reloading, role, Reload)
  {
    hide Run, Program, FilterLoop, Happens;
    var a, b := Born(Reloading, 0, 0), Born(role, 0, 0);
    var moves := Start(Reloading, role);
    var two := [a, b];
    assert two[1 := b] == two;
    var rest, owner;
    moves, rest, owner := BypasserLooks(moves, two, 1, role);
    var b' := b.(stack := Push(Do(Use(Reload, Read)), rest));
    var mid := two[1 := b'];
    assert mid[0 := a] == mid;
    var last;
    moves, last := ReloadWrites(moves, mid, 0, a, owner);
    var a' := a.(stack := Push(Do(Use(Reload, Write)), last));
    assert mid[0 := a'] == [a', b'];
    ConflictAt(moves, a', b', owner[Lock(Reload, 0) := 0], Reload, Write, Read);
  }

  // ----- requests on their way to a change -----

  /** A request at any filter it is configured with. */
  lemma {:induction false} FilterReached(moves: seq<Move>, threads: seq<Thread>, i: nat, t: Thread, owner: Owner,
                                         filters: seq<FilterKind>, kind: FilterKind)
    returns (next: seq<Move>, rest: Stack)
    requires At(moves, threads, i, t, owner) && t.stack == Push(Do(Program(Request(filters))), Empty) && kind in filters
    ensures At(next, threads, i, t.(stack := Push(Do(Filtering(kind)), rest)), owner)
  {
    hide At, FilterLoop, Closing;
    var close := Closing(Challenging in filters);
    var body := Then(FilterLoop(filters), close);
    next := Act(moves, threads, i, t, owner, RIGHT);
    next := Act(next, threads, i, t.(stack := Push(Do(Use(Reload, Read)), Push(Do(body), Empty))), owner, RIGHT);
    next := Act(next, threads, i, t.(stack := Push(Do(body), Empty)), owner, RIGHT);
    rest := Push(Do(close), Empty);
    next, rest := LoopReached(next, threads, i, t.(stack := Push(Do(FilterLoop(filters)), rest)), owner, filters, kind, rest);
  }

  lemma {:induction false} LoopReached(moves: seq<Move>, threads: seq<Thread>, i: nat, t: Thread, owner: Owner,
                                       filters: seq<FilterKind>, kind: FilterKind, below: Stack)
    returns (next: seq<Move>, rest: Stack)
    requires At(moves, threads, i, t, owner) && t.stack == Push(Do(FilterLoop(filters)), below) && kind in filters
    ensures At(next, threads, i, t.(stack := Push(Do(Filtering(kind)), rest)), owner)
    decreases |filters|
  {
    var first, others := filters[0], FilterLoop(filters[1..]);
    assert FilterLoop(filters) == Then(Filtering(first), May(others));
    hide At, Filtering, FilterLoop;
    rest := Push(Do(May(others)), below);
    next := Act(moves, threads, i, t, owner, RIGHT);
    if first != kind {
      FilterPolite(first);
      next := Complete(next, threads, i, t.(stack := Push(Do(Filtering(first)), rest)), owner, Filtering(first), rest);
      next := Act(next, threads, i, t.(stack := rest), owner, LEFT);
      next, rest := LoopReached(next, threads, i, t.(stack := Push(Do(others), below)), owner, filters[1..], kind, below);
    }
  }

  /** A thread that gets the mutex of an address table to change it. */
  lemma {:induction false} Sets(moves: seq<Move>, threads: seq<Thread>, i: nat, t: Thread, owner: Owner, table: Table,
                                rest: Stack)
    returns (next: seq<Move>, below: Stack)
    requires At(moves, threads, i, t, owner) && t.stack == Push(Do(May(Setting(table))), rest)
    requires Resolve(t, Entries(table)) !in owner
    ensures At(next, threads, i, t.(stack := Push(Do(Use(Entries(table), Write)), below)), owner[Resolve(t, Entries(table)) := i])
  {
    hide At;
    next := Act(moves, threads, i, t, owner, LEFT);
    next := Act(next, threads, i, t.(stack := Push(Do(Setting(table)), rest)), owner, RIGHT);
    below := Push(Leave(Resolve(t, Entries(table))), rest);
  }

  lemma {:induction false} GettingPolite(table: Table)
    ensures Polite(Getting(table)) && Polite(May(Getting(table))) && Polite(Repeat(Getting(table)))
    ensures Polite(Setting(table)) && Polite(May(Setting(table)))
  {
    assert Polite(Getting(table)) && Polite(Setting(table));
  }

  lemma {:induction false} BanPartsPolite()
    ensures Polite(May(Flagging())) && Polite(May(Reporting())) && Polite(May(Banning()))
  {
    assert Polite(Banning());
    hide Banning;
  }

  lemma {:induction false} SelectingPolite()
    ensures Polite(May(Trying(HostTable, Selecting(), Nothing)))
  {
    assert Polite(Selecting());
    hide Selecting;
  }

  /** The challenger about to account for a challenge. */
  lemma {:induction false} AccountingReached(moves: seq<Move>, threads: seq<Thread>, i: nat, t: Thread, owner: Owner,
                                             below: Stack)
    returns (next: seq<Move>, rest: Stack)
    requires At(moves, threads, i, t, owner) && t.stack == Push(Do(Filtering(Challenging)), below)
    ensures At(next, threads, i, t.(stack := Push(Do(May(Banning())),
              Push(Do(Then(May(Getting(Failures)), May(Setting(Failures)))), rest))), owner)
  {
    SelectingPolite();
    GettingPolite(Failures);
    hide At, Selecting, Getting, Setting, Banning, Polite;
    var select := May(Trying(HostTable, Selecting(), Nothing));
    rest := Push(Do(Repeat(Accounting())), below);
    next := Act(moves, threads, i, t, owner, RIGHT);
    next := Complete(next, threads, i, t.(stack := Push(Do(select), rest)), owner, select, rest);
    next := Act(next, threads, i, t.(stack := rest), owner, LEFT);
    next := Act(next, threads, i, t.(stack := Push(Do(Accounting()), rest)), owner, RIGHT);
    var more := Push(Do(Then(May(Banning()), Then(May(Getting(Failures)), May(Setting(Failures))))), rest);
    next := Complete(next, threads, i, t.(stack := Push(Do(May(Getting(Failures))), more)), owner, May(Getting(Failures)), more);
    next := Act(next, threads, i, t.(stack := more), owner, RIGHT);
  }

  /** A request that may ask for bans about to do so. */
  lemma {:induction false} BanReached(moves: seq<Move>, threads: seq<Thread>, i: nat, t: Thread, owner: Owner,
                                      filters: seq<FilterKind>)
    returns (next: seq<Move>, rest: Stack)
    requires At(moves, threads, i, t, owner) && t.stack == Push(Do(Program(Request(filters))), Empty) && Bans(filters)
    ensures At(next, threads, i, t.(stack := Push(Do(Banning()), rest)), owner)
  {
    GettingPolite(Flags);
    GettingPolite(Rates);
    hide At, Program, Banning, Getting, Setting, Polite, Accounting, Selecting;
    if Denying in filters {
      next, rest := FilterReached(moves, threads, i, t, owner, filters, Denying);
      next := Act(next, threads, i, t.(stack := Push(Do(Filtering(Denying)), rest)), owner, RIGHT);
      var more := Push(Do(May(Banning())), rest);
      next := Complete(next, threads, i, t.(stack := Push(Do(Getting(Flags)), more)), owner, Getting(Flags), more);
      next := Act(next, threads, i, t.(stack := more), owner, LEFT);
    } else if RegexBanning in filters {
      next, rest := FilterReached(moves, threads, i, t, owner, filters, RegexBanning);
      next, rest := RatesRead(next, threads, i, t.(stack := Push(Do(Filtering(RegexBanning)), rest)), owner, rest);
      var more := Push(Do(May(Banning())), rest);
      next := Complete(next, threads, i, t.(stack := Push(Do(May(Setting(Rates))), more)), owner, May(Setting(Rates)), more);
      next := Act(next, threads, i, t.(stack := more), owner, LEFT);
    } else {
      next, rest := FilterReached(moves, threads, i, t, owner, filters, Challenging);
      next, rest := AccountingReached(next, threads, i, t.(stack := Push(Do(Filtering(Challenging)), rest)), owner, rest);
      rest := Push(Do(Then(May(Getting(Failures)), May(Setting(Failures)))), rest);
      next := Act(next, threads, i, t.(stack := Push(Do(May(Banning())), rest)), owner, LEFT);
    }
  }

  /** The rate limiter that has read an address's state. */
  lemma {:induction false} RatesRead(moves: seq<Move>, threads: seq<Thread>, i: nat, t: Thread, owner: Owner,
                                     below: Stack)
    returns (next: seq<Move>, rest: Stack)
    requires At(moves, threads, i, t, owner) && t.stack == Push(Do(Filtering(RegexBanning)), below)
    ensures At(next, threads, i, t.(stack := Push(Do(May(Setting(Rates))), Push(Do(May(Banning())), rest))), owner)
  {
    GettingPolite(Rates);
    hide At, Getting, Setting, Banning, Polite;
    rest := below;
    var read := Repeat(Getting(Rates));
    var more := Push(Do(Then(May(Setting(Rates)), May(Banning()))), rest);
    next := Act(moves, threads, i, t, owner, RIGHT);
    next := Complete(next, threads, i, t.(stack := Push(Do(read), more)), owner, read, more);
    next := Act(next, threads, i, t.(stack := more), owner, RIGHT);
  }

  /** A request that updates an address table, inside a scope of its mutex and about to change it. */
  lemma {:induction false} RequestSets(moves: seq<Move>, threads: seq<Thread>, i: nat, t: Thread,
                                       filters: seq<FilterKind>, table: Table)
    returns (next: seq<Move>, rest: Stack)
    requires At(moves, threads, i, t, map[]) && t.stack == Push(Do(Program(Request(filters))), Empty)
    requires Updates(filters, table)
    ensures At(next, threads, i, t.(stack := Push(Do(Use(Entries(table), Write)), rest)), map[Resolve(t, Entries(table)) := i])
  {
    BanPartsPolite();
    GettingPolite(Failures);
    hide At, Program, Filtering, Flagging, Reporting, Getting, Setting, Polite;
    match table
    case Flags =>
      next, rest := BanReached(moves, threads, i, t, map[], filters);
      next := Act(next, threads, i, t.(stack := Push(Do(Banning()), rest)), map[], RIGHT);
      var drop := May(Setting(Flags));
      var more := Push(Do(Then(May(Reporting()), drop)), rest);
      next := Complete(next, threads, i, t.(stack := Push(Do(May(Flagging())), more)), map[], May(Flagging()), more);
      next := Act(next, threads, i, t.(stack := more), map[], RIGHT);
      more := Push(Do(drop), rest);
      next := Complete(next, threads, i, t.(stack := Push(Do(May(Reporting())), more)), map[], May(Reporting()), more);
      next, rest := Sets(next, threads, i, t.(stack := more), map[], Flags, rest);
    case Rates =>
      next, rest := FilterReached(moves, threads, i, t, map[], filters, RegexBanning);
      next, rest := RatesRead(next, threads, i, t.(stack := Push(Do(Filtering(RegexBanning)), rest)), map[], rest);
      rest := Push(Do(May(Banning())), rest);
      next, rest := Sets(next, threads, i, t.(stack := Push(Do(May(Setting(Rates))), rest)), map[], Rates, rest);
    case Failures => next, rest := FailureSet(moves, threads, i, t, filters);
  }

  lemma {:induction false} FailureSet(moves: seq<Move>, threads: seq<Thread>, i: nat, t: Thread,
                                      filters: seq<FilterKind>)
    returns (next: seq<Move>, rest: Stack)
    requires At(moves, threads, i, t, map[]) && t.stack == Push(Do(Program(Request(filters))), Empty)
    requires Challenging in filters
    ensures At(next, threads, i, t.(stack := Push(Do(Use(Entries(Failures), Write)), rest)),
               map[Resolve(t, Entries(Failures)) := i])
  {
    BanPartsPolite();
    GettingPolite(Failures);
    hide At, Program, Filtering, Banning, Getting, Setting, Polite;
    next, rest := FilterReached(moves, threads, i, t, map[], filters, Challenging);
    next, rest := AccountingReached(next, threads, i, t.(stack := Push(Do(Filtering(Challenging)), rest)), map[], rest);
    var get, set_ := May(Getting(Failures)), May(Setting(Failures));
    var more := Push(Do(Then(get, set_)), rest);
    next := Complete(next, threads, i, t.(stack := Push(Do(May(Banning())), more)), map[], May(Banning()), more);
    next := Act(next, threads, i, t.(stack := more), map[], RIGHT);
    more := Push(Do(set_), rest);
    next := Complete(next, threads, i, t.(stack := Push(Do(get), more)), map[], get, more);
    next, rest := Sets(next, threads, i, t.(stack := more), map[], Failures, rest);
  }

  // ----- at the address tables -----

  /** The status timer at the size of one of the address tables. */
  lemma {:induction false} Measures(moves: seq<Move>, threads: seq<Thread>, i: nat, t: Thread, owner: Owner,
                                    table: Table, rest: Stack)
    returns (next: seq<Move>, below: Stack)
    requires At(moves, threads, i, t, owner) && t.stack == Push(Do(Measuring()), rest)
    requires Resolve(t, HostTable) !in owner && Resolve(t, IpTable) !in owner
    ensures At(next, threads, i, t.(stack := Push(Do(Use(Entries(table), Read)), below)), owner)
  {
    hide At, Guarded;
    var more := Push(Do(Sizes()), rest);
    next := Act(moves, threads, i, t, owner, RIGHT);
    next := Act(next, threads, i, t.(stack := Push(Do(Sweeping(Read)), more)), owner, RIGHT);
    var ips := Push(Do(Guarded(IpTable, Read)), more);
    next := CompleteGuarded(next, threads, i, t.(stack := Push(Do(Guarded(HostTable, Read)), ips)), owner, HostTable, Read, ips);
    next := CompleteGuarded(next, threads, i, t.(stack := ips), owner, IpTable, Read, more);
    next := Act(next, threads, i, t.(stack := more), owner, RIGHT);
    below := Push(Do(Then(Use(Entries(Failures), Read), Use(Entries(Rates), Read))), rest);
    if table != Flags {
      next := Act(next, threads, i, t.(stack := Push(Do(Use(Entries(Flags), Read)), below)), owner, RIGHT);
      next := Act(next, threads, i, t.(stack := below), owner, RIGHT);
      below := Push(Do(Use(Entries(Rates), Read)), rest);
      if table != Failures {
        next := Act(next, threads, i, t.(stack := Push(Do(Use(Entries(Failures), Read)), below)), owner, RIGHT);
        below := rest;
      }
    }
  }

  /** The status timer reads the size of a table while a request changes it. */
  lemma {:induction false} TableRace(filters: seq<FilterKind>, table: Table)
    requires Updates(filters, table)
    ensures Happens(Request(filters), Status, Entries(table))
  {
    var a, b := Born(Request(filters), 0, 0), Born(Status, 0, 0);
    assert b.stack == Push(Do(Timer(Measuring())), Empty);
    hide Run, Program, Timer, Measuring, Updates, Happens;
    var two := [a, b];
    var moves := Start(a.role, Status);
    assert two[0 := a] == two;
    var rest;
    moves, rest := RequestSets(moves, two, 0, a, filters, table);
    var owner := map[Lock(Entries(table), 0) := 0];
    var a' := a.(stack := Push(Do(Use(Entries(table), Write)), rest));
    var mid := two[0 := a'];
    assert mid[1 := b] == mid;
    var below;
    moves, below := TimerStarts(moves, mid, 1, b, owner, Measuring());
    owner := owner[Lock(Schedule, 0) := 1][Lock(Reload, 0) := 1];
    moves, below := Measures(moves, mid, 1, b.(stack := Push(Do(Measuring()), below)), owner, table, below);
    var b' := b.(stack := Push(Do(Use(Entries(table), Read)), below));
    assert mid[1 := b'] == [a', b'];
    ConflictAt(moves, a', b', owner, Entries(table), Write, Read);
  }

  // ----- at the ban log -----

  /** It writes the line of a new flag, outside every mutex. */
  lemma {:induction false} FlagLogged(moves: seq<Move>, threads: seq<Thread>, i: nat, t: Thread, owner: Owner,
                                      rest: Stack)
    returns (next: seq<Move>, below: Stack)
    requires At(moves, threads, i, t, owner) && t.stack == Push(Do(Banning()), rest)
    ensures At(next, threads, i, t.(stack := Push(Do(Use(BanLog, Write)), below)), owner)
  {
    GettingPolite(Flags);
    hide At, Getting, Setting, Reporting, Polite;
    below := Push(Do(Then(May(Reporting()), May(Setting(Flags)))), rest);
    next := Act(moves, threads, i, t, owner, RIGHT);
    next := Act(next, threads, i, t.(stack := Push(Do(May(Flagging())), below)), owner, LEFT);
    next := Act(next, threads, i, t.(stack := Push(Do(Flagging()), below)), owner, RIGHT);
    var more := Push(Do(May(NewFlag())), below);
    next := Complete(next, threads, i, t.(stack := Push(Do(Getting(Flags)), more)), owner, Getting(Flags), more);
    next := Act(next, threads, i, t.(stack := more), owner, LEFT);
    next := Act(next, threads, i, t.(stack := Push(Do(NewFlag()), below)), owner, RIGHT);
    more := Push(Do(Use(BanLog, Write)), below);
    next := Complete(next, threads, i, t.(stack := Push(Do(Setting(Flags)), more)), owner, Setting(Flags), more);
  }

  /** It writes the line of a ban, under the swabber's mutex. */
  lemma {:induction false} BanLogged(moves: seq<Move>, threads: seq<Thread>, i: nat, t: Thread, owner: Owner,
                                     rest: Stack)
    returns (next: seq<Move>, below: Stack)
    requires At(moves, threads, i, t, owner) && t.stack == Push(Do(Banning()), rest)
    requires Resolve(t, SwabberSocket) !in owner
    ensures At(next, threads, i, t.(stack := Push(Do(Use(BanLog, Write)), below)), owner[Resolve(t, SwabberSocket) := i])
  {
    BanPartsPolite();
    hide At, Setting, Flagging, Polite;
    var l, drop := Resolve(t, SwabberSocket), Push(Do(May(Setting(Flags))), rest);
    var more := Push(Do(Then(May(Reporting()), May(Setting(Flags)))), rest);
    next := Act(moves, threads, i, t, owner, RIGHT);
    next := Complete(next, threads, i, t.(stack := Push(Do(May(Flagging())), more)), owner, May(Flagging()), more);
    next := Act(next, threads, i, t.(stack := more), owner, RIGHT);
    next := Act(next, threads, i, t.(stack := Push(Do(May(Reporting())), drop)), owner, LEFT);
    next := Act(next, threads, i, t.(stack := Push(Do(Reporting()), drop)), owner, RIGHT);
    below := Push(Leave(l), drop);
    var socket, line := Use(SwabberSocket, Write), Use(BanLog, Write);
    next := Act(next, threads, i, t.(stack := Push(Do(Then(socket, line)), below)), owner[l := i], RIGHT);
    next := Act(next, threads, i, t.(stack := Push(Do(socket), Push(Do(line), below))), owner[l := i], RIGHT);
  }

  /** One request logs a flag while another logs a ban. */
  lemma {:induction false} LogRace(filters: seq<FilterKind>, others: seq<FilterKind>)
    requires Bans(filters) && Bans(others)
    ensures Happens(Request(filters), Request(others), BanLog)
  {
    hide Run, Program, Banning, Bans, Happens;
    var a, b := Born(Request(filters), 0, 0), Born(Request(others), 0, 0);
    var two := [a, b];
    var moves := Start(a.role, b.role);
    assert two[1 := b] == two;
    var rest;
    moves, rest := BanReached(moves, two, 1, b, map[], others);
    moves, rest := BanLogged(moves, two, 1, b.(stack := Push(Do(Banning()), rest)), map[], rest);
    var owner := map[Lock(SwabberSocket, 0) := 1];
    var b' := b.(stack := Push(Do(Use(BanLog, Write)), rest));
    var mid := two[1 := b'];
    assert mid[0 := a] == mid;
    moves, rest := BanReached(moves, mid, 0, a, owner, filters);
    moves, rest := FlagLogged(moves, mid, 0, a.(stack := Push(Do(Banning()), rest)), owner, rest);
    var a' := a.(stack := Push(Do(Use(BanLog, Write)), rest));
    assert mid[0 := a'] == [a', b'];
    ConflictAt(moves, a', b', owner, BanLog, Write, Write);
  }

  /** So the clashes are exact: kinds of thread that may clash over something do, under some schedule. */
  lemma {:induction false} ClashesHappen(a: Role, b: Role, n: Name)
    requires MayClash(a, b, n)
    ensures Happens(a, b, n)
  {
    hide Happens, Updates, Bans;
    match n
    case Reload => InstanceRace(b);
    case Entries(table) => TableRace(a.filters, table);
    case BanLog => LogRace(a.filters, b.filters);
  }
}
