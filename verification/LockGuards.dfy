/** What the mutexes protect: how each kind of thread accesses it, and which kinds can never clash over it. */
module LockGuards {
  import opened Locks
  import opened Pipeline

  // ----- habits -----

  /** How a kind of thread accesses something: inside a scope of its mutex, and outside. */
  datatype Habit = Habit(looks: bool, changes: bool, bareLooks: bool, bareChanges: bool)

  /** Whether code runs inside a scope of the mutex in question. */
  datatype Scope = Outside | Inside

  function Around(n: Name, m: Name): Scope {
    if Guard(n) == m then Inside else Outside
  }

  predicate Permits(h: Habit, a: Access, scope: Scope) {
    match scope
    case Inside => if a == Read then h.looks else h.changes
    case Outside => if a == Read then h.bareLooks else h.bareChanges
  }

  predicate PerPlugin(n: Name) {
    n != Schedule && n != Reload && n != Life && n != StoredConfig
  }

  /** The code accesses `n` as the habit says, and does not change the instance inside a scope of its mutex. */
  predicate Keeps(c: Code, n: Name, h: Habit, scope: Scope)
    decreases c
  {
    match c
    case Nothing => true
    case Use(m, a) => m == n ==> Permits(h, a, scope)
    case Retarget => scope == Inside ==> !PerPlugin(n)
    case Then(a, b) => Keeps(a, n, h, scope) && Keeps(b, n, h, scope)
    case Either(a, b) => Keeps(a, n, h, scope) && Keeps(b, n, h, scope)
    case Repeat(b) => Keeps(b, n, h, scope)
    case Loop(b) => Keeps(b, n, h, scope)
    case Join => true
    case Waiting(m, b) => if m == Guard(n) then Keeps(b, n, h, Inside) else Keeps(b, n, h, scope)
    case Trying(m, b, o) => (if m == Guard(n) then Keeps(b, n, h, Inside) else Keeps(b, n, h, scope)) && Keeps(o, n, h, scope)
  }

  const NEVER := Habit(false, false, false, false)

  /** Filters that may ask for a ban. */
  predicate Bans(filters: seq<FilterKind>) {
    Denying in filters || RegexBanning in filters || Challenging in filters
  }

  predicate Updates(filters: seq<FilterKind>, t: Table) {
    match t
    case Flags => Bans(filters)
    case Rates => RegexBanning in filters
    case Failures => Challenging in filters
  }

  /** The accesses of each kind of thread. */
  function HabitOf(role: Role, n: Name): Habit {
    match role
    case Request(filters) => RequestHabit(filters, n)
    case Consumer =>
      if n == StoredConfig || n == Entries(Failures) then NEVER.(looks := true)
      else if n == HostTable || n == IpTable then NEVER.(changes := true)
      else NEVER
    case Status =>
      if n == Reload then NEVER.(looks := true, bareLooks := true)
      else if n == HostTable || n == IpTable then NEVER.(looks := true)
      else if n.Entries? then NEVER.(bareLooks := true)
      else NEVER
    case Sweep =>
      if n == Reload then NEVER.(looks := true, bareLooks := true)
      else if n == HostTable || n == IpTable then NEVER.(changes := true)
      else NEVER
    case Reloading =>
      if n == Reload then NEVER.(looks := true, changes := true)
      else if n == SwabberSocket || n == SnifferSocket || n == StoredConfig then NEVER.(changes := true)
      else NEVER
    case Shutdown => NEVER
  }

  function RequestHabit(filters: seq<FilterKind>, n: Name): Habit {
    match n
    case Reload => NEVER.(bareLooks := true)
    case SnifferSocket => NEVER.(changes := true)
    case SwabberSocket => NEVER.(changes := Bans(filters))
    case BanLog => NEVER.(changes := Bans(filters), bareChanges := Bans(filters))
    case HostTable => NEVER.(looks := Challenging in filters)
    case IpTable => NEVER.(looks := Challenging in filters)
    case Entries(t) => NEVER.(looks := Updates(filters, t), changes := Updates(filters, t))
    case _ => NEVER
  }

  // ----- the threads follow them -----

  lemma {:induction false} ThenKeeps(a: Code, b: Code, n: Name, h: Habit, scope: Scope)
    requires Keeps(a, n, h, scope) && Keeps(b, n, h, scope)
    ensures Keeps(Then(a, b), n, h, scope)
  {
  }

  lemma {:induction false} EitherKeeps(a: Code, b: Code, n: Name, h: Habit, scope: Scope)
    requires Keeps(a, n, h, scope) && Keeps(b, n, h, scope)
    ensures Keeps(Either(a, b), n, h, scope)
  {
  }

  lemma {:induction false} MayKeeps(c: Code, n: Name, h: Habit, scope: Scope)
    requires Keeps(c, n, h, scope)
    ensures Keeps(May(c), n, h, scope)
  {
    assert Keeps(Nothing, n, h, scope);
  }

  lemma {:induction false} RepeatKeeps(c: Code, n: Name, h: Habit, scope: Scope)
    requires Keeps(c, n, h, scope)
    ensures Keeps(Repeat(c), n, h, scope) && Keeps(Loop(c), n, h, scope)
  {
  }

  lemma {:induction false} UseKeeps(m: Name, a: Access, n: Name, h: Habit, scope: Scope)
    requires m == n ==> Permits(h, a, scope)
    ensures Keeps(Use(m, a), n, h, scope)
  {
  }

  lemma {:induction false} NothingKeeps(n: Name, h: Habit, scope: Scope)
    ensures Keeps(Nothing, n, h, scope) && Keeps(Join, n, h, scope)
  {
  }

  lemma {:induction false} RetargetKeeps(n: Name, h: Habit, scope: Scope)
    requires scope == Inside ==> !PerPlugin(n)
    ensures Keeps(Retarget, n, h, scope)
  {
  }

  /** A scope inside other code. */
  lemma {:induction false} ScopeKeeps(m: Name, c: Code, n: Name, h: Habit, scope: Scope)
    requires Keeps(c, n, h, if m == Guard(n) then Inside else scope)
    ensures Keeps(Waiting(m, c), n, h, scope) && Keeps(Trying(m, c, Nothing), n, h, scope)
  {
    assert Keeps(Nothing, n, h, scope);
  }

  lemma {:induction false} AccessKeeps(m: Name, a: Access, n: Name, h: Habit, scope: Scope)
    requires m != BanLog && (m == n ==> Permits(h, a, Inside))
    ensures Keeps(Tried(m, a), n, h, scope) && Keeps(Guarded(m, a), n, h, scope)
  {
    hide Keeps;
    var inner := if m == Guard(n) then Inside else scope;
    UseKeeps(m, a, n, h, inner);
    ScopeKeeps(m, Use(m, a), n, h, scope);
  }

  /** What asking for bans takes. */
  predicate BanHabit(n: Name, h: Habit) {
    && (n == Entries(Flags) ==> h.looks && h.changes)
    && (n == SwabberSocket ==> h.changes)
    && (n == BanLog ==> h.changes && h.bareChanges)
  }

  lemma {:induction false} BanningKeeps(n: Name, h: Habit)
    requires BanHabit(n, h)
    ensures Keeps(Banning(), n, h, Outside) && Keeps(May(Banning()), n, h, Outside)
  {
    hide Keeps;
    var o := Outside;
    AccessKeeps(Entries(Flags), Read, n, h, o);
    AccessKeeps(Entries(Flags), Write, n, h, o);
    UseKeeps(BanLog, Write, n, h, o);
    ReportingKeeps(n, h);
    ThenKeeps(Setting(Flags), Use(BanLog, Write), n, h, o);
    MayKeeps(NewFlag(), n, h, o);
    ThenKeeps(Getting(Flags), May(NewFlag()), n, h, o);
    MayKeeps(Flagging(), n, h, o);
    MayKeeps(Reporting(), n, h, o);
    MayKeeps(Setting(Flags), n, h, o);
    ThenKeeps(May(Reporting()), May(Setting(Flags)), n, h, o);
    ThenKeeps(May(Flagging()), Then(May(Reporting()), May(Setting(Flags))), n, h, o);
    MayKeeps(Banning(), n, h, o);
  }

  lemma {:induction false} ReportingKeeps(n: Name, h: Habit)
    requires BanHabit(n, h)
    ensures Keeps(Reporting(), n, h, Outside)
  {
    hide Keeps;
    var around := Around(n, SwabberSocket);
    UseKeeps(SwabberSocket, Write, n, h, around);
    UseKeeps(BanLog, Write, n, h, around);
    ThenKeeps(Use(SwabberSocket, Write), Use(BanLog, Write), n, h, around);
    ScopeKeeps(SwabberSocket, Then(Use(SwabberSocket, Write), Use(BanLog, Write)), n, h, Outside);
  }

  predicate CountHabit(n: Name, h: Habit) {
    BanHabit(n, h) && (n == Entries(Failures) ==> h.looks && h.changes)
  }

  lemma {:induction false} AccountingKeeps(n: Name, h: Habit)
    requires CountHabit(n, h)
    ensures Keeps(Repeat(Accounting()), n, h, Outside)
  {
    hide Keeps;
    var o, get, set_ := Outside, May(Getting(Failures)), May(Setting(Failures));
    AccessKeeps(Entries(Failures), Read, n, h, o);
    AccessKeeps(Entries(Failures), Write, n, h, o);
    BanningKeeps(n, h);
    MayKeeps(Getting(Failures), n, h, o);
    MayKeeps(Setting(Failures), n, h, o);
    ThenKeeps(get, set_, n, h, o);
    ThenKeeps(May(Banning()), Then(get, set_), n, h, o);
    ThenKeeps(get, Then(May(Banning()), Then(get, set_)), n, h, o);
    RepeatKeeps(Accounting(), n, h, o);
  }

  /** What running a filter takes. */
  predicate FilterHabit(kind: FilterKind, n: Name, h: Habit) {
    match kind
    case WhiteListing => true
    case Denying => BanHabit(n, h)
    case RegexBanning => BanHabit(n, h) && (n == Entries(Rates) ==> h.looks && h.changes)
    case Challenging => CountHabit(n, h) && (n == HostTable || n == IpTable ==> h.looks)
  }

  lemma {:induction false} SelectingKeeps(n: Name, h: Habit)
    requires n == HostTable || n == IpTable ==> h.looks
    ensures Keeps(May(Trying(HostTable, Selecting(), Nothing)), n, h, Outside)
  {
    hide Keeps;
    var around := Around(n, HostTable);
    UseKeeps(HostTable, Read, n, h, around);
    AccessKeeps(IpTable, Read, n, h, around);
    MayKeeps(Tried(IpTable, Read), n, h, around);
    ThenKeeps(Use(HostTable, Read), May(Tried(IpTable, Read)), n, h, around);
    ScopeKeeps(HostTable, Selecting(), n, h, Outside);
    MayKeeps(Trying(HostTable, Selecting(), Nothing), n, h, Outside);
  }

  lemma {:induction false} FilterKeeps(kind: FilterKind, n: Name, h: Habit)
    requires FilterHabit(kind, n, h)
    ensures Keeps(Filtering(kind), n, h, Outside)
  {
    hide Keeps;
    NothingKeeps(n, h, Outside);
    var o := Outside;
    match kind
    case WhiteListing =>
    case Denying =>
      AccessKeeps(Entries(Flags), Read, n, h, o);
      BanningKeeps(n, h);
      ThenKeeps(Getting(Flags), May(Banning()), n, h, o);
    case RegexBanning =>
      AccessKeeps(Entries(Rates), Read, n, h, o);
      AccessKeeps(Entries(Rates), Write, n, h, o);
      BanningKeeps(n, h);
      RepeatKeeps(Getting(Rates), n, h, o);
      MayKeeps(Setting(Rates), n, h, o);
      ThenKeeps(May(Setting(Rates)), May(Banning()), n, h, o);
      ThenKeeps(Repeat(Getting(Rates)), Then(May(Setting(Rates)), May(Banning())), n, h, o);
    case Challenging =>
      SelectingKeeps(n, h);
      AccountingKeeps(n, h);
      ThenKeeps(May(Trying(HostTable, Selecting(), Nothing)), Repeat(Accounting()), n, h, o);
  }

  lemma {:induction false} FilterLoopKeeps(filters: seq<FilterKind>, n: Name, h: Habit)
    requires forall k :: 0 <= k < |filters| ==> FilterHabit(filters[k], n, h)
    ensures Keeps(FilterLoop(filters), n, h, Outside)
  {
    hide Keeps;
    NothingKeeps(n, h, Outside);
    if filters != [] {
      FilterKeeps(filters[0], n, h);
      FilterLoopKeeps(filters[1..], n, h);
      MayKeeps(FilterLoop(filters[1..]), n, h, Outside);
      ThenKeeps(Filtering(filters[0]), May(FilterLoop(filters[1..])), n, h, Outside);
    }
  }

  lemma {:induction false} RequestKeeps(filters: seq<FilterKind>, n: Name)
    ensures Keeps(Program(Request(filters)), n, RequestHabit(filters, n), Outside)
  {
    hide Keeps;
    var h, challenged := RequestHabit(filters, n), Challenging in filters;
    forall k | 0 <= k < |filters| ensures FilterHabit(filters[k], n, h) {
      assert filters[k] in filters;
    }
    FilterLoopKeeps(filters, n, h);
    UseKeeps(Reload, Read, n, h, Outside);
    AccessKeeps(SnifferSocket, Write, n, h, Outside);
    NothingKeeps(n, h, Outside);
    if challenged {
      AccountingKeeps(n, h);
    }
    MayKeeps(Tried(SnifferSocket, Write), n, h, Outside);
    ThenKeeps(if challenged then Repeat(Accounting()) else Nothing, May(Tried(SnifferSocket, Write)), n, h, Outside);
    ThenKeeps(FilterLoop(filters), Closing(challenged), n, h, Outside);
    ThenKeeps(Use(Reload, Read), Then(FilterLoop(filters), Closing(challenged)), n, h, Outside);
  }

  lemma {:induction false} CommandKeeps(n: Name, h: Habit, scope: Scope)
    requires (n == HostTable || n == IpTable ==> h.changes) && (n == Entries(Failures) ==> h.looks)
    ensures Keeps(May(Command()), n, h, scope)
  {
    hide Keeps;
    AccessKeeps(HostTable, Write, n, h, scope);
    AccessKeeps(IpTable, Write, n, h, scope);
    AccessKeeps(Entries(Failures), Read, n, h, scope);
    MayKeeps(Getting(Failures), n, h, scope);
    ThenKeeps(May(Getting(Failures)), Guarded(IpTable, Write), n, h, scope);
    EitherKeeps(Guarded(HostTable, Write), Then(May(Getting(Failures)), Guarded(IpTable, Write)), n, h, scope);
    MayKeeps(Command(), n, h, scope);
  }

  /** The Kafka thread runs inside the scope of its own life. */
  lemma {:induction false} ConsumerKeeps(n: Name)
    ensures Keeps(Program(Consumer), n, HabitOf(Consumer, n), Around(n, Life))
  {
    hide Keeps;
    var h, o := HabitOf(Consumer, n), Around(n, Life);
    var around := if Guard(n) == StoredConfig then Inside else o;
    AccessKeeps(StoredConfig, Read, n, h, o);
    UseKeeps(StoredConfig, Read, n, h, around);
    RetargetKeeps(n, h, around);
    CommandKeeps(n, h, around);
    ThenKeeps(Retarget, May(Command()), n, h, around);
    ThenKeeps(Use(StoredConfig, Read), Then(Retarget, May(Command())), n, h, around);
    ScopeKeeps(StoredConfig, Then(Use(StoredConfig, Read), Then(Retarget, May(Command()))), n, h, o);
    RepeatKeeps(Consuming(), n, h, o);
    ThenKeeps(Guarded(StoredConfig, Read), Repeat(Consuming()), n, h, o);
    RepeatKeeps(Serving(), n, h, o);
  }

  /** A timer whose task keeps to a habit that includes looks at the current instance. */
  lemma {:induction false} TimerKeeps(task: Code, n: Name, h: Habit)
    requires n == Reload ==> h.looks && h.bareLooks
    requires Keeps(task, n, h, Around(n, Schedule)) && Keeps(task, n, h, if n == Reload then Inside else Around(n, Schedule))
    ensures Keeps(Timer(task), n, h, Outside)
  {
    hide Keeps;
    var outer := Around(n, Schedule);
    var inner := if n == Reload then Inside else outer;
    UseKeeps(Reload, Read, n, h, outer);
    UseKeeps(Reload, Read, n, h, inner);
    RetargetKeeps(n, h, inner);
    MayKeeps(task, n, h, inner);
    ThenKeeps(Retarget, May(task), n, h, inner);
    var body := Then(Use(Reload, Read), Then(Retarget, May(task)));
    ThenKeeps(Use(Reload, Read), Then(Retarget, May(task)), n, h, inner);
    ScopeKeeps(Reload, body, n, h, outer);
    ThenKeeps(Use(Reload, Read), Waiting(Reload, body), n, h, outer);
    ScopeKeeps(Schedule, Then(Use(Reload, Read), Waiting(Reload, body)), n, h, Outside);
  }

  lemma {:induction false} SweepingKeeps(a: Access, n: Name, h: Habit, scope: Scope)
    requires n == HostTable || n == IpTable ==> Permits(h, a, Inside)
    ensures Keeps(Sweeping(a), n, h, scope)
  {
    hide Keeps;
    AccessKeeps(HostTable, a, n, h, scope);
    AccessKeeps(IpTable, a, n, h, scope);
    ThenKeeps(Guarded(HostTable, a), Guarded(IpTable, a), n, h, scope);
  }

  lemma {:induction false} MeasuringKeeps(n: Name, h: Habit, scope: Scope)
    requires (n == HostTable || n == IpTable ==> h.looks) && (n.Entries? ==> h.bareLooks && scope == Outside)
    ensures Keeps(Measuring(), n, h, scope)
  {
    hide Keeps;
    SweepingKeeps(Read, n, h, scope);
    UseKeeps(Entries(Flags), Read, n, h, scope);
    UseKeeps(Entries(Failures), Read, n, h, scope);
    UseKeeps(Entries(Rates), Read, n, h, scope);
    ThenKeeps(Use(Entries(Failures), Read), Use(Entries(Rates), Read), n, h, scope);
    ThenKeeps(Use(Entries(Flags), Read), Then(Use(Entries(Failures), Read), Use(Entries(Rates), Read)), n, h, scope);
    ThenKeeps(Sweeping(Read), Sizes(), n, h, scope);
  }

  lemma {:induction false} StatusKeeps(n: Name)
    ensures Keeps(Program(Status), n, HabitOf(Status, n), Outside)
  {
    hide Keeps;
    var h := HabitOf(Status, n);
    MeasuringKeeps(n, h, Around(n, Schedule));
    MeasuringKeeps(n, h, if n == Reload then Inside else Around(n, Schedule));
    TimerKeeps(Measuring(), n, h);
  }

  lemma {:induction false} SweepKeeps(n: Name)
    ensures Keeps(Program(Sweep), n, HabitOf(Sweep, n), Outside)
  {
    hide Keeps;
    var h := HabitOf(Sweep, n);
    SweepingKeeps(Write, n, h, Around(n, Schedule));
    SweepingKeeps(Write, n, h, if n == Reload then Inside else Around(n, Schedule));
    TimerKeeps(Sweeping(Write), n, h);
  }

  lemma {:induction false} ReloadingKeeps(n: Name)
    ensures Keeps(Program(Reloading), n, HabitOf(Reloading, n), Outside)
  {
    hide Keeps;
    var h, around := HabitOf(Reloading, n), Around(n, Reload);
    UseKeeps(Reload, Read, n, h, around);
    UseKeeps(Reload, Write, n, h, around);
    AccessKeeps(SwabberSocket, Write, n, h, around);
    AccessKeeps(SnifferSocket, Write, n, h, around);
    AccessKeeps(StoredConfig, Write, n, h, around);
    RetargetKeeps(n, h, around);
    NothingKeeps(n, h, around);
    MayKeeps(Guarded(SnifferSocket, Write), n, h, around);
    ThenKeeps(Guarded(SwabberSocket, Write), May(Guarded(SnifferSocket, Write)), n, h, around);
    MayKeeps(Join, n, h, around);
    MayKeeps(Guarded(StoredConfig, Write), n, h, around);
    EitherKeeps(Joining(), May(Guarded(StoredConfig, Write)), n, h, around);
    ThenKeeps(Retarget, Either(Joining(), May(Guarded(StoredConfig, Write))), n, h, around);
    ThenKeeps(Rebuilding(), Use(Reload, Write), n, h, around);
    ThenKeeps(Releasing(), Then(Rebuilding(), Use(Reload, Write)), n, h, around);
    var body := Then(Use(Reload, Read), Then(Releasing(), Then(Rebuilding(), Use(Reload, Write))));
    ThenKeeps(Use(Reload, Read), Then(Releasing(), Then(Rebuilding(), Use(Reload, Write))), n, h, around);
    ScopeKeeps(Reload, body, n, h, Outside);
  }

  lemma {:induction false} ShutdownKeeps(n: Name)
    ensures Keeps(Program(Shutdown), n, NEVER, Outside)
  {
    hide Keeps;
    NothingKeeps(n, NEVER, Outside);
    MayKeeps(Join, n, NEVER, Outside);
  }

  /** Every kind of thread accesses everything as its habit says. */
  lemma {:induction false} ProgramKeeps(role: Role, n: Name)
    ensures Keeps(Program(role), n, HabitOf(role, n), if role.Consumer? then Around(n, Life) else Outside)
  {
    hide Keeps, Program;
    match role
    case Request(filters) => RequestKeeps(filters, n);
    case Consumer => ConsumerKeeps(n);
    case Status => StatusKeeps(n);
    case Sweep => SweepKeeps(n);
    case Reloading => ReloadingKeeps(n);
    case Shutdown => ShutdownKeeps(n);
  }

  // ----- over runs -----

  /** The mutex of `n` that a thread uses. */
  function Home(t: Thread, n: Name): Lock {
    Resolve(t, Guard(n))
  }

  predicate Holds(s: Stack, n: Name) {
    match s
    case Empty => false
    case Push(Do(_), rest) => Holds(rest, n)
    case Push(Leave(l), rest) => l.name == Guard(n) || Holds(rest, n)
  }

  predicate Covered(s: Stack, n: Name, h: Habit, home: Lock) {
    match s
    case Empty => true
    case Push(Do(c), rest) => Covered(rest, n, h, home) && Keeps(c, n, h, if Holds(rest, n) then Inside else Outside)
    case Push(Leave(l), rest) => Covered(rest, n, h, home) && (l.name == Guard(n) ==> l == home)
  }

  lemma {:induction false} CoveredElsewhere(s: Stack, n: Name, h: Habit, home: Lock, other: Lock)
    requires Covered(s, n, h, home) && !Holds(s, n)
    ensures Covered(s, n, h, other)
  {
    if s.Push? {
      CoveredElsewhere(s.rest, n, h, home, other);
    }
  }

  lemma {:induction false} HoldsHome(s: Stack, n: Name, h: Habit, home: Lock)
    requires Covered(s, n, h, home) && Holds(s, n)
    ensures home in Held(s)
  {
    if s.top.Do? || s.top.lock.name != Guard(n) {
      HoldsHome(s.rest, n, h, home);
    }
  }

  lemma {:induction false} SteppedCovered(t: Thread, owner: map<Lock, nat>, stopped: set<nat>, c: Choice, n: Name,
                                          h: Habit)
    requires t.stack.Push? && !Stuck(t, owner) && Covered(t.stack, n, h, Home(t, n))
    ensures Covered(Stepped(t, owner, stopped, c).stack, n, h, Home(Stepped(t, owner, stopped, c), n))
    ensures Stepped(t, owner, stopped, c).role == t.role
  {
    hide Guard, PerPlugin, Keeps, Permits;
    if t.stack.top.Do? {
      var code, rest := t.stack.top.code, t.stack.rest;
      if code.Retarget? || code.Waiting? || code.Trying? {
        ScopeStep(t, owner, stopped, c, n, h, code, rest);
      } else {
        FlowStep(t, owner, stopped, c, n, h, code, rest);
      }
    }
  }

  lemma {:induction false} ScopeStep(t: Thread, owner: map<Lock, nat>, stopped: set<nat>, c: Choice, n: Name,
                                     h: Habit, code: Code, rest: Stack)
    requires t.stack == Push(Do(code), rest) && !Stuck(t, owner) && Covered(t.stack, n, h, Home(t, n))
    requires code.Retarget? || code.Waiting? || code.Trying?
    ensures Covered(Stepped(t, owner, stopped, c).stack, n, h, Home(Stepped(t, owner, stopped, c), n))
  {
    hide Guard, PerPlugin, Permits;
    match code
    case Retarget => RetargetCovered(t, rest, n, h, c.plugin);
    case Waiting(m, b) => EnterCovered(t, n, h, rest, m, b);
    case Trying(m, b, o) =>
      if Resolve(t, m) !in owner {
        EnterCovered(t, n, h, rest, m, b);
      }
  }

  lemma {:induction false} FlowStep(t: Thread, owner: map<Lock, nat>, stopped: set<nat>, c: Choice, n: Name, h: Habit,
                                    code: Code, rest: Stack)
    requires t.stack == Push(Do(code), rest) && !Stuck(t, owner) && Covered(t.stack, n, h, Home(t, n))
    requires !code.Retarget? && !code.Waiting? && !code.Trying?
    ensures Covered(Stepped(t, owner, stopped, c).stack, n, h, Home(Stepped(t, owner, stopped, c), n))
  {
    hide Guard, PerPlugin, Permits;
    assert Holds(t.stack, n) == Holds(rest, n);
    match code
    case Then(a, b) => assert Covered(Push(Do(b), rest), n, h, Home(t, n)) && Holds(Push(Do(b), rest), n) == Holds(rest, n);
    case Join => assert Keeps(Nothing, n, h, Inside) && Keeps(Nothing, n, h, Outside);
    case _ =>
  }

  lemma {:induction false} RetargetCovered(t: Thread, rest: Stack, n: Name, h: Habit, plugin: nat)
    requires Covered(rest, n, h, Home(t, n)) && (Holds(rest, n) ==> !PerPlugin(n))
    ensures Covered(rest, n, h, Home(t.(stack := rest, plugin := plugin), n))
  {
    if !Holds(rest, n) {
      CoveredElsewhere(rest, n, h, Home(t, n), Home(t.(stack := rest, plugin := plugin), n));
    }
  }

  lemma {:induction false} EnterCovered(t: Thread, n: Name, h: Habit, rest: Stack, m: Name, b: Code)
    requires Covered(rest, n, h, Home(t, n)) && Keeps(b, n, h, if m == Guard(n) || Holds(rest, n) then Inside else Outside)
    ensures Covered(Push(Do(b), Push(Leave(Resolve(t, m)), rest)), n, h, Home(t, n))
  {
    var inner := Push(Leave(Resolve(t, m)), rest);
    assert Covered(inner, n, h, Home(t, n)) && Holds(inner, n) == (m == Guard(n) || Holds(rest, n));
  }

  lemma {:induction false} BornCovered(role: Role, plugin: nat, consumer: nat, n: Name)
    ensures Covered(Born(role, plugin, consumer).stack, n, HabitOf(role, n), Home(Born(role, plugin, consumer), n))
  {
    ProgramKeeps(role, n);
    hide Program, Keeps, HabitOf;
    var t, h := Born(role, plugin, consumer), HabitOf(role, n);
    var s := t.stack;
    if role.Consumer? {
      var below := Push(Leave(Lock(Life, consumer)), Empty);
      assert s.rest == below && Holds(below, n) == (Guard(n) == Life);
      assert Covered(below, n, h, Home(t, n));
    } else {
      assert s.rest == Empty && !Holds(s.rest, n);
    }
  }

  lemma {:induction false} RunCovered(moves: seq<Move>, n: Name, i: nat)
    requires i < |Run(moves).threads|
    ensures var t := Run(moves).threads[i]; Covered(t.stack, n, HabitOf(t.role, n), Home(t, n))
  {
    hide HabitOf, Covered, Born, Stepped, Home, Owners;
    var before := moves[..|moves| - 1];
    var m, st := moves[|moves| - 1], Run(before);
    if i == |st.threads| {
      assert Run(moves).threads[i] == Born(m.role, m.plugin, m.consumer);
      BornCovered(m.role, m.plugin, m.consumer, n);
      BornRole(m.role, m.plugin, m.consumer);
    } else {
      RunCovered(before, n, i);
      if m.Go? && m.i == i && CanGo(st, i) {
        var t := st.threads[i];
        SteppedCovered(t, st.owner, st.stopped, m.choice, n, HabitOf(t.role, n));
      }
    }
  }

  lemma {:induction false} BornRole(role: Role, plugin: nat, consumer: nat)
    ensures Born(role, plugin, consumer).role == role
  {
  }

  // ----- conflicts -----

  /** The thread is about to access `n`. */
  predicate About(t: Thread, n: Name, a: Access) {
    t.stack.Push? && t.stack.top == Do(Use(n, a))
  }

  /** Two threads are about to access the same thing, and at least one of them to change it. */
  ghost predicate Conflict(st: State, n: Name, i: nat, j: nat) {
    && i < |st.threads| && j < |st.threads| && i != j && Home(st.threads[i], n) == Home(st.threads[j], n)
    && exists a, b :: About(st.threads[i], n, a) && About(st.threads[j], n, b) && (a == Write || b == Write)
  }

  /**
   * The kinds of thread that may conflict: a reload with whoever looks at the current instance outside the reload
   * mutex; the status timer, which does not lock the address tables, with a request that changes them; and two requests
   * that write the ban log, which is also written without the swabber's mutex.
   */
  predicate MayClash(a: Role, b: Role, n: Name) {
    || (n == Reload && a.Reloading? && (b.Request? || b.Status? || b.Sweep?))
    || (n.Entries? && a.Request? && Updates(a.filters, n.table) && b.Status?)
    || (n == BanLog && a.Request? && b.Request? && Bans(a.filters) && Bans(b.filters))
  }

  predicate Clash(a: Role, b: Role, n: Name) {
    MayClash(a, b, n) || MayClash(b, a, n)
  }

  /** Of two conflicting accesses of which one is bare, both are habits that clash. */
  lemma {:induction false} HabitsClash(r: Role, q: Role, n: Name, a: Access, b: Access, scope: Scope)
    requires Permits(HabitOf(r, n), a, Outside) && Permits(HabitOf(q, n), b, scope) && (a == Write || b == Write)
    ensures Clash(r, q, n)
  {
  }

  lemma {:induction false} AccessPermitted(t: Thread, n: Name, a: Access, h: Habit)
    requires Covered(t.stack, n, h, Home(t, n)) && About(t, n, a)
    ensures Permits(h, a, if Holds(t.stack, n) then Inside else Outside)
    ensures Holds(t.stack, n) ==> Home(t, n) in Held(t.stack)
  {
    hide Permits;
    if Holds(t.stack, n) {
      HoldsHome(t.stack, n, h, Home(t, n));
    }
  }

  /** Under every schedule, two threads conflict only if they are of kinds that clash. */
  lemma {:induction false} ConflictsAreClashes(moves: seq<Move>, n: Name, i: nat, j: nat)
    requires Conflict(Run(moves), n, i, j)
    ensures Clash(Run(moves).threads[i].role, Run(moves).threads[j].role, n)
  {
    hide HabitOf, Covered, Held, Holds, Permits, Clash;
    var st := Run(moves);
    var t, u := st.threads[i], st.threads[j];
    var a, b :| About(t, n, a) && About(u, n, b) && (a == Write || b == Write);
    RunCovered(moves, n, i);
    RunCovered(moves, n, j);
    AccessPermitted(t, n, a, HabitOf(t.role, n));
    AccessPermitted(u, n, b, HabitOf(u.role, n));
    if Holds(t.stack, n) && Holds(u.stack, n) {
      MutualExclusion(moves, i, j, Home(t, n));
    } else if !Holds(t.stack, n) {
      HabitsClash(t.role, u.role, n, a, b, if Holds(u.stack, n) then Inside else Outside);
    } else {
      HabitsClash(u.role, t.role, n, b, a, Inside);
      ClashBothWays(u.role, t.role, n);
    }
  }

  lemma {:induction false} ClashBothWays(a: Role, b: Role, n: Name)
    requires Clash(a, b, n)
    ensures Clash(b, a, n)
  {
  }
}
