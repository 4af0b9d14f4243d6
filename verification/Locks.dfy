/**
 * The lock protocol: any number of request, Kafka, timer, reload and shutdown threads, each mutex either waited for
 * (TSMutexLock) or only tried (TSMutexLockTry), always released at the end of a scope.
 */
module Locks {
  import opened Pipeline

  /**
   * The mutexes, by the role they play. `Life` stands for the Kafka thread itself: that thread owns it while it runs,
   * and joining the thread is waiting for it. `BanLog` is the swabber's log file; it has no mutex of its own.
   */
  datatype Name =
    | Schedule | Reload | Life | StoredConfig | SwabberSocket | SnifferSocket | HostTable | IpTable
    | Entries(table: Table)
    | BanLog

  datatype Table = Flags | Rates | Failures

  /** The mutex that is there for something. */
  function Guard(n: Name): Name {
    if n == BanLog then SwabberSocket else n
  }

  /** A mutex of a given plugin instance or Kafka consumer; `Schedule` and `Reload` exist once. */
  datatype Lock = Lock(name: Name, of: nat)

  /** The order in which mutexes may be waited for. */
  function Rank(n: Name): nat {
    match n
    case Schedule => 0
    case Reload => 1
    case Life => 2
    case StoredConfig => 3
    case SwabberSocket => 4
    case SnifferSocket => 4
    case HostTable => 5
    case IpTable => 6
    case Entries(_) => 7
    case BanLog => 7
  }

  const TOP: nat := 7

  datatype Access = Read | Write

  /** What a thread does, as far as mutexes go. */
  datatype Code =
    | Nothing
    | Use(name: Name, access: Access)                     // accesses what the mutex is there to protect
    | Retarget                                            // looks up the plugin instance to work on
    | Then(first: Code, second: Code)
    | Either(left: Code, right: Code)
    | Repeat(body: Code)
    | Loop(body: Code)                                    // until the consumer of this thread is told to stop
    | Join                                                // tells the consumer to stop and waits for its thread
    | Waiting(name: Name, body: Code)                     // waits for the mutex, runs the body, releases
    | Trying(name: Name, body: Code, otherwise: Code)     // runs the body only if the mutex was free

  // ----- the threads -----

  function May(c: Code): Code {
    Either(c, Nothing)
  }

  /** An access under a mutex that is waited for. */
  function Guarded(n: Name, a: Access): Code {
    Waiting(n, Use(n, a))
  }

  /** An access under a mutex that is only tried. */
  function Tried(n: Name, a: Access): Code {
    Trying(n, Use(n, a), Nothing)
  }

  /** `get_ip_state`. */
  function Getting(t: Table): Code {
    Tried(Entries(t), Read)
  }

  /** `set_ip_state` or `drop_ip`. */
  function Setting(t: Table): Code {
    Tried(Entries(t), Write)
  }

  /** `Swabber::ban`. */
  function Banning(): Code {
    Then(May(Flagging()), Then(May(Reporting()), May(Setting(Flags))))
  }

  function Flagging(): Code {
    Then(Getting(Flags), May(NewFlag()))
  }

  /** The log line of a new flag is written outside every mutex. */
  function NewFlag(): Code {
    Then(Setting(Flags), Use(BanLog, Write))
  }

  function Reporting(): Code {
    Trying(SwabberSocket, Then(Use(SwabberSocket, Write), Use(BanLog, Write)), Nothing)
  }

  /** `report_failure` or `report_success`, with the reports to Kafka around them. */
  function Accounting(): Code {
    Then(May(Getting(Failures)), Then(May(Banning()), Then(May(Getting(Failures)), May(Setting(Failures)))))
  }

  /** One filter of a request. */
  function Filtering(kind: FilterKind): Code {
    match kind
    case WhiteListing => Nothing
    case Denying => Then(Getting(Flags), May(Banning()))
    case RegexBanning => Then(Repeat(Getting(Rates)), Then(May(Setting(Rates)), May(Banning())))
    case Challenging => Then(May(Trying(HostTable, Selecting(), Nothing)), Repeat(Accounting()))
  }

  /** The dynamic challenges, with the host table locked. */
  function Selecting(): Code {
    Then(Use(HostTable, Read), May(Tried(IpTable, Read)))
  }

  function FilterLoop(filters: seq<FilterKind>): Code {
    if filters == [] then Nothing else Then(Filtering(filters[0]), May(FilterLoop(filters[1..])))
  }

  datatype Role = Request(filters: seq<FilterKind>) | Consumer | Status | Sweep | Reloading | Shutdown

  /** The code a thread starts with. */
  function Program(role: Role): Code {
    match role
    case Request(filters) =>
      // current_state is copied without the reload mutex
      Then(Use(Reload, Read), Then(FilterLoop(filters), Closing(Challenging in filters)))
    case Consumer => Loop(Serving())
    case Status => Timer(Measuring())
    case Sweep => Timer(Sweeping(Write))
    case Reloading => Waiting(Reload, Then(Use(Reload, Read), Then(Releasing(), Then(Rebuilding(), Use(Reload, Write)))))
    case Shutdown => Joining()
  }

  /** One round of the Kafka thread: load the configuration, then take messages. */
  function Serving(): Code {
    Then(Guarded(StoredConfig, Read), Repeat(Consuming()))
  }

  /** The page of a request, if the challenger may have answered it, and the bot sniffer's log. */
  function Closing(challenged: bool): Code {
    Then(if challenged then Repeat(Accounting()) else Nothing, May(Tried(SnifferSocket, Write)))
  }

  /** `msg_consume`. */
  function Consuming(): Code {
    Trying(StoredConfig, Then(Use(StoredConfig, Read), Then(Retarget, May(Command()))), Nothing)
  }

  /** A command from Kafka: challenge a host, or challenge an address. */
  function Command(): Code {
    Either(Guarded(HostTable, Write), Then(May(Getting(Failures)), Guarded(IpTable, Write)))
  }

  /** A timer of the plugin looks at current_state before and after it takes the reload mutex. */
  function Timer(task: Code): Code {
    Waiting(Schedule, Then(Use(Reload, Read), Waiting(Reload, Then(Use(Reload, Read), Then(Retarget, May(task))))))
  }

  /** `report_status`: the sizes of the dynamic tables, and of the address tables without their mutexes. */
  function Measuring(): Code {
    Then(Sweeping(Read), Sizes())
  }

  function Sizes(): Code {
    Then(Use(Entries(Flags), Read), Then(Use(Entries(Failures), Read), Use(Entries(Rates), Read)))
  }

  /** Both dynamic tables, one after the other. */
  function Sweeping(a: Access): Code {
    Then(Guarded(HostTable, a), Guarded(IpTable, a))
  }

  /** A reload takes the sockets out of the old instance. */
  function Releasing(): Code {
    Then(Guarded(SwabberSocket, Write), May(Guarded(SnifferSocket, Write)))
  }

  /** Then it builds a new one, which either ends the Kafka thread, starts one, or hands over the one there is. */
  function Rebuilding(): Code {
    Then(Retarget, Either(Joining(), May(Guarded(StoredConfig, Write))))
  }

  function Joining(): Code {
    May(Join)
  }

  // ----- running them -----

  datatype Item = Do(code: Code) | Leave(lock: Lock)

  /** What a thread has left to do: code to run and mutexes to release. */
  datatype Stack = Empty | Push(top: Item, rest: Stack)

  datatype Thread = Thread(role: Role, plugin: nat, consumer: nat, stack: Stack)

  /** The threads, who owns which mutex, and the consumers that have been told to stop. */
  datatype State = State(threads: seq<Thread>, owner: map<Lock, nat>, stopped: set<nat>)

  function Resolve(t: Thread, n: Name): Lock {
    Lock(n, if n == Schedule || n == Reload then 0 else if n == Life || n == StoredConfig then t.consumer else t.plugin)
  }

  /** How the open decisions of a step fall: a branch or another round of a loop, and a plugin instance. */
  datatype Choice = Choice(left: bool, plugin: nat)

  /** The locks a thread has to release. */
  function Held(s: Stack): set<Lock> {
    match s
    case Empty => {}
    case Push(Leave(l), rest) => Held(rest) + {l}
    case Push(Do(_), rest) => Held(rest)
  }

  function Enter(t: Thread, l: Lock, body: Code): Stack
    requires t.stack.Push?
  {
    Push(Do(body), Push(Leave(l), t.stack.rest))
  }

  /** A thread whose next action is to wait for a mutex somebody owns. */
  predicate Stuck(t: Thread, owner: map<Lock, nat>) {
    && t.stack.Push? && t.stack.top.Do? && t.stack.top.code.Waiting?
    && Resolve(t, t.stack.top.code.name) in owner
  }

  /** The thread after its next action. */
  function Stepped(t: Thread, owner: map<Lock, nat>, stopped: set<nat>, c: Choice): Thread
    requires t.stack.Push? && !Stuck(t, owner)
  {
    var rest := t.stack.rest;
    match t.stack.top
    case Leave(_) => t.(stack := rest)
    case Do(code) =>
      match code
      case Nothing => t.(stack := rest)
      case Use(_, _) => t.(stack := rest)
      case Retarget => t.(stack := rest, plugin := c.plugin)
      case Then(a, b) => t.(stack := Push(Do(a), Push(Do(b), rest)))
      case Either(a, b) => t.(stack := Push(Do(if c.left then a else b), rest))
      case Repeat(b) => t.(stack := if c.left then Push(Do(b), t.stack) else rest)
      case Loop(b) => t.(stack := if t.consumer in stopped then rest else Push(Do(b), t.stack))
      case Join => t.(stack := Push(Do(Waiting(Life, Nothing)), rest))
      case Waiting(n, b) => t.(stack := Enter(t, Resolve(t, n), b))
      case Trying(n, b, o) =>
        if Resolve(t, n) in owner then t.(stack := Push(Do(o), rest)) else t.(stack := Enter(t, Resolve(t, n), b))
  }

  /** The owners after it. */
  function Owners(t: Thread, i: nat, owner: map<Lock, nat>): map<Lock, nat>
    requires t.stack.Push? && !Stuck(t, owner)
  {
    match t.stack.top
    case Leave(l) => owner - {l}
    case Do(code) =>
      if code.Waiting? || (code.Trying? && Resolve(t, code.name) !in owner) then owner[Resolve(t, code.name) := i]
      else owner
  }

  /** The stopped consumers after it. */
  function Stops(t: Thread, stopped: set<nat>): set<nat>
    requires t.stack.Push?
  {
    if t.stack.top == Do(Join) then stopped + {t.consumer} else stopped
  }

  /** A new thread starts, or the scheduler picks a thread. */
  datatype Move = Arrive(role: Role, plugin: nat, consumer: nat) | Go(i: nat, choice: Choice)

  /** A thread at its start; a Kafka thread counts as running from the moment it exists. */
  function Born(role: Role, plugin: nat, consumer: nat): Thread {
    var code := Push(Do(Program(role)), Empty);
    Thread(role, plugin, consumer,
           if role.Consumer? then Push(Do(Program(role)), Push(Leave(Lock(Life, consumer)), Empty)) else code)
  }

  predicate CanGo(st: State, i: nat) {
    i < |st.threads| && st.threads[i].stack.Push? && !Stuck(st.threads[i], st.owner)
  }

  /** One move; nothing happens when a waiting or finished thread is picked, or a consumer number has been used. */
  function After(st: State, m: Move): State {
    match m
    case Arrive(role, plugin, consumer) =>
      if !role.Consumer? then st.(threads := st.threads + [Born(role, plugin, consumer)])
      else if Lock(Life, consumer) in st.owner || consumer in st.stopped then st
      else State(st.threads + [Born(role, plugin, consumer)], st.owner[Lock(Life, consumer) := |st.threads|], st.stopped)
    case Go(i, c) =>
      if !CanGo(st, i) then st
      else
        var t := st.threads[i];
        State(st.threads[i := Stepped(t, st.owner, st.stopped, c)], Owners(t, i, st.owner), Stops(t, st.stopped))
  }

  function Run(moves: seq<Move>): State {
    if moves == [] then State([], map[], {}) else After(Run(moves[..|moves| - 1]), moves[|moves| - 1])
  }

  // ----- the discipline -----

  function Higher(a: int, b: int): int {
    if a < b then b else a
  }

  /** Every wait in the code is for a mutex ranked above all those held around it (`above` is the highest of them). */
  predicate Ranked(c: Code, above: int) {
    match c
    case Nothing => true
    case Use(_, _) => true
    case Retarget => true
    case Then(a, b) => Ranked(a, above) && Ranked(b, above)
    case Either(a, b) => Ranked(a, above) && Ranked(b, above)
    case Repeat(b) => Ranked(b, above)
    case Loop(b) => Ranked(b, above)
    case Join => above < Rank(Life)
    case Waiting(n, b) => above < Rank(n) && Ranked(b, Rank(n))
    case Trying(n, b, o) => Ranked(b, Higher(above, Rank(n))) && Ranked(o, above)
  }

  /** The highest rank a thread holds. */
  function Above(s: Stack): int {
    match s
    case Empty => -1
    case Push(Do(_), rest) => Above(rest)
    case Push(Leave(l), rest) => Higher(Above(rest), Rank(l.name))
  }

  /** Code left to run respects the ranks of what is held below it, and no mutex is held twice. */
  predicate Orderly(s: Stack) {
    match s
    case Empty => true
    case Push(Do(c), rest) => Orderly(rest) && Ranked(c, Above(rest))
    case Push(Leave(l), rest) => Orderly(rest) && l !in Held(rest)
  }

  ghost predicate Consistent(st: State) {
    && (forall i: nat :: i < |st.threads| ==> Orderly(st.threads[i].stack))
    && (forall i: nat, l: Lock :: i < |st.threads| && l in Held(st.threads[i].stack) ==> l in st.owner && st.owner[l] == i)
    && (forall l: Lock :: l in st.owner ==> st.owner[l] < |st.threads| && l in Held(st.threads[st.owner[l]].stack))
  }

  /** Code that never waits and has no endless loop. */
  predicate Polite(c: Code) {
    match c
    case Nothing => true
    case Use(_, _) => true
    case Retarget => true
    case Then(a, b) => Polite(a) && Polite(b)
    case Either(a, b) => Polite(a) && Polite(b)
    case Repeat(b) => Polite(b)
    case Loop(_) => false
    case Join => false
    case Waiting(_, _) => false
    case Trying(_, b, o) => Polite(b) && Polite(o)
  }

  lemma {:induction false} PoliteIsRanked(c: Code, above: int)
    requires Polite(c)
    ensures Ranked(c, above)
  {
    match c
    case Then(a, b) => PoliteIsRanked(a, above); PoliteIsRanked(b, above);
    case Either(a, b) => PoliteIsRanked(a, above); PoliteIsRanked(b, above);
    case Repeat(b) => PoliteIsRanked(b, above);
    case Trying(n, b, o) =>
      PoliteIsRanked(b, Higher(above, Rank(n)));
      PoliteIsRanked(o, above);
    case _ =>
  }

  lemma {:induction false} FilterPolite(kind: FilterKind)
    ensures Polite(Filtering(kind))
  {
    match kind
    case WhiteListing => assert Polite(Filtering(WhiteListing));
    case Denying => assert Polite(Filtering(Denying));
    case RegexBanning => assert Polite(Filtering(RegexBanning));
    case Challenging =>
      AccountingPolite();
      assert Polite(Selecting());
      hide Accounting, Selecting;
  }

  lemma {:induction false} FilterLoopPolite(filters: seq<FilterKind>)
    ensures Polite(FilterLoop(filters))
  {
    if filters != [] {
      FilterLoopPolite(filters[1..]);
      FilterPolite(filters[0]);
      hide Filtering;
    }
  }

  lemma {:induction false} AccountingPolite()
    ensures Polite(Accounting())
  {
    assert Polite(Banning());
    hide Banning;
  }

  lemma {:induction false} RequestPolite(filters: seq<FilterKind>)
    ensures Polite(Program(Request(filters)))
  {
    FilterLoopPolite(filters);
    AccountingPolite();
    hide FilterLoop, Accounting;
    assert Polite(Closing(true)) && Polite(Closing(false));
  }

  /** Every kind of thread follows the one order; a Kafka thread already owns its life. */
  lemma {:induction false} ProgramRanked(role: Role)
    ensures Ranked(Program(role), if role.Consumer? then Rank(Life) else -1)
  {
    match role
    case Request(filters) =>
      RequestPolite(filters);
      PoliteIsRanked(Program(role), -1);
    case Consumer => ConsumerRanked();
    case Reloading => ReloadingRanked();
    case Status => StatusRanked();
    case Sweep => SweepRanked();
    case Shutdown => assert Ranked(Program(Shutdown), -1);
  }

  lemma {:induction false} ConsumerRanked()
    ensures Ranked(Program(Consumer), 2)
  {
    assert Ranked(Command(), 3);
  }

  lemma {:induction false} ReloadingRanked()
    ensures Ranked(Program(Reloading), -1)
  {
  }

  lemma {:induction false} StatusRanked()
    ensures Ranked(Program(Status), -1)
  {
    MeasuringRanked();
    TimerRanked(Measuring());
    hide Measuring, Timer, Ranked;
  }

  lemma {:induction false} SweepRanked()
    ensures Ranked(Program(Sweep), -1)
  {
    assert Ranked(Sweeping(Write), 1);
    TimerRanked(Sweeping(Write));
    hide Sweeping, Timer, Ranked;
  }

  lemma {:induction false} MeasuringRanked()
    ensures Ranked(Measuring(), 1)
  {
  }

  lemma {:induction false} TimerRanked(task: Code)
    requires Ranked(task, 1)
    ensures Ranked(Timer(task), -1)
  {
    assert Ranked(May(task), 1);
    assert Ranked(Then(Retarget, May(task)), 1);
    assert Ranked(Then(Use(Reload, Read), Then(Retarget, May(task))), 1);
    assert Ranked(Waiting(Reload, Then(Use(Reload, Read), Then(Retarget, May(task)))), 0);
  }

  /** One action keeps a thread's own discipline. */
  lemma {:induction false} SteppedOrderly(t: Thread, owner: map<Lock, nat>, stopped: set<nat>, c: Choice)
    requires t.stack.Push? && !Stuck(t, owner) && Orderly(t.stack)
    requires forall l :: l in Held(t.stack) ==> l in owner
    ensures Orderly(Stepped(t, owner, stopped, c).stack)
  {
    hide Rank;
    var rest := t.stack.rest;
    if t.stack.top.Do? {
      match t.stack.top.code
      case Then(a, b) => assert Orderly(Push(Do(b), rest)) && Above(Push(Do(b), rest)) == Above(rest);
      case Repeat(b) => assert Above(t.stack) == Above(rest);
      case Loop(b) => assert Above(t.stack) == Above(rest);
      case Join => assert Ranked(Nothing, Rank(Life)) && Ranked(Waiting(Life, Nothing), Above(rest));
      case Waiting(n, b) => EnterOrderly(rest, Resolve(t, n), b);
      case Trying(n, b, _) =>
        if Resolve(t, n) !in owner {
          EnterOrderly(rest, Resolve(t, n), b);
        }
      case _ =>
    }
  }

  lemma {:induction false} EnterOrderly(rest: Stack, l: Lock, body: Code)
    requires Orderly(rest) && l !in Held(rest) && Ranked(body, Higher(Above(rest), Rank(l.name)))
    ensures Orderly(Push(Do(body), Push(Leave(l), rest)))
  {
    var inner := Push(Leave(l), rest);
    assert Above(inner) == Higher(Above(rest), Rank(l.name)) && Orderly(inner);
  }

  /** It takes or gives back at most one mutex, and the owners follow. */
  lemma {:induction false} SteppedHeld(t: Thread, i: nat, owner: map<Lock, nat>, stopped: set<nat>, c: Choice)
    requires t.stack.Push? && !Stuck(t, owner) && Orderly(t.stack)
    requires forall l :: l in Held(t.stack) ==> l in owner && owner[l] == i
    ensures forall l :: l in Held(Stepped(t, owner, stopped, c).stack) <==>
              (if l in Held(t.stack) then l in Owners(t, i, owner) else l !in owner && l in Owners(t, i, owner))
  {
    hide Ranked, Above, Rank;
  }

  lemma {:induction false} OthersKeepOwning(t: Thread, i: nat, owner: map<Lock, nat>)
    requires t.stack.Push? && !Stuck(t, owner)
    ensures forall l :: l in owner && l !in Held(t.stack) ==> l in Owners(t, i, owner) && Owners(t, i, owner)[l] == owner[l]
    ensures forall l :: l in Owners(t, i, owner) ==>
              (l in owner && Owners(t, i, owner)[l] == owner[l]) || (l !in owner && Owners(t, i, owner)[l] == i)
  {
  }

  lemma {:induction false} GoConsistent(st: State, i: nat, c: Choice)
    requires Consistent(st) && CanGo(st, i)
    ensures Consistent(After(st, Go(i, c)))
  {
    SteppedOrderly(st.threads[i], st.owner, st.stopped, c);
    SteppedHeld(st.threads[i], i, st.owner, st.stopped, c);
    OthersKeepOwning(st.threads[i], i, st.owner);
    hide Orderly, Held, Stepped, Owners, Stuck;
  }

  lemma {:induction false} BornOrderly(role: Role, plugin: nat, consumer: nat)
    ensures Orderly(Born(role, plugin, consumer).stack)
    ensures Held(Born(role, plugin, consumer).stack) == if role.Consumer? then {Lock(Life, consumer)} else {}
  {
    ProgramRanked(role);
    hide Program, Ranked;
    var s := Born(role, plugin, consumer).stack;
    if role.Consumer? {
      var below := Push(Leave(Lock(Life, consumer)), Empty);
      assert s.rest == below && Above(below) == Rank(Life) && Orderly(below);
    } else {
      assert s.rest == Empty;
    }
  }

  /** A new thread takes over free mutexes only. */
  lemma {:induction false} ArriveConsistent(st: State, t: Thread, after: State)
    requires Consistent(st) && Orderly(t.stack)
    requires after == st || (after.threads == st.threads + [t]
               && (forall l :: l in after.owner <==> l in st.owner || l in Held(t.stack))
               && (forall l :: l in st.owner ==> l !in Held(t.stack) && after.owner[l] == st.owner[l])
               && (forall l :: l in Held(t.stack) ==> l in after.owner && after.owner[l] == |st.threads|))
    ensures Consistent(after)
  {
    hide Orderly, Held;
  }

  lemma {:induction false} AfterConsistent(st: State, m: Move)
    requires Consistent(st)
    ensures Consistent(After(st, m))
  {
    match m
    case Arrive(role, plugin, consumer) =>
      hide Born, Consistent;
      BornOrderly(role, plugin, consumer);
      ArriveConsistent(st, Born(role, plugin, consumer), After(st, m));
    case Go(i, c) =>
      if CanGo(st, i) {
        GoConsistent(st, i, c);
      }
  }

  /** The owners and the scopes the threads are in agree in every reachable state. */
  lemma {:induction false} RunConsistent(moves: seq<Move>)
    ensures Consistent(Run(moves))
  {
    if moves != [] {
      RunConsistent(moves[..|moves| - 1]);
      AfterConsistent(Run(moves[..|moves| - 1]), moves[|moves| - 1]);
    }
  }

  // ----- mutual exclusion -----

  /** Never are two threads in scopes of the same mutex. */
  lemma {:induction false} MutualExclusion(moves: seq<Move>, i: nat, j: nat, l: Lock)
    requires i < |Run(moves).threads| && j < |Run(moves).threads|
    requires l in Held(Run(moves).threads[i].stack) && l in Held(Run(moves).threads[j].stack)
    ensures i == j
  {
    RunConsistent(moves);
    var st := Run(moves);
    assert st.owner[l] == i;
  }

  // ----- no deadlock -----

  lemma {:induction false} HeldIsBelow(s: Stack, l: Lock)
    requires l in Held(s)
    ensures Rank(l.name) <= Above(s)
  {
    if s.top == Leave(l) {
    } else {
      HeldIsBelow(s.rest, l);
    }
  }
}
