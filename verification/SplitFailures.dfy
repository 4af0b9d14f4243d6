/** src/challenger.cpp: the failure counter with overlapping requests. */
module SplitFailures {
  import opened Bytes
  import opened SplitRuns
  import opened FailureCount
  import IpDb
  import Swabber

  function CountOf(e: Option<nat>): nat {
    if e.Some? then e.value else 0
  }

  /** The failure leads to a ban, given the counter it read. */
  predicate Bans(step: Step, e: Option<nat>) {
    step.Failure? && step.env.get && CountOf(e) + 1 >= step.threshold
  }

  /** What a step writes; a success writes without reading. */
  function StepChange(step: Step, e: Option<nat>): Change<nat> {
    match step
    case Success(_, locked) => if locked then Store(1) else Keep
    case Failure(_, t, env) =>
      if !env.get then Keep
      else if CountOf(e) + 1 >= t then (if env.drop then Erase else Keep)
      else if env.set_ then Store(CountOf(e) + 1)
      else Keep
  }

  function StepPlan(): Plan<Step, nat> {
    (step, e) => StepChange(step, e)
  }

  /** Read and write with nothing in between are the step as a whole. */
  lemma {:induction false} WholeStep(db: IpDb.Db<nat>, step: Step)
    ensures var e := IpDb.Entry(db, step.ip);
            && IpDb.Entry(Next(db, step), step.ip) == Applied(e, StepChange(step, e))
            && (step.Failure? ==> AfterFailure(db, step.ip, step.threshold, step.env).0 == Bans(step, e))
  {
  }

  // ----- bans need failures, whatever overlaps -----

  /** The read at `p` leads to a ban. */
  ghost predicate BansAtMove(moves: seq<Move<Step>>, p: nat) {
    p < |moves| && moves[p].Fetch? && Bans(moves[p].op, EntryAt(StepPlan(), map[], moves, p, moves[p].ip))
  }

  /** The read of a failure that got its lock. */
  predicate IsFailure(m: Move<Step>, ip: Str) {
    m.Fetch? && m.ip == ip && m.op.Failure? && m.op.env.get
  }

  predicate IsSuccess(m: Move<Step>, ip: Str) {
    m.Fetch? && m.ip == ip && m.op.Success? && m.op.locked
  }

  /**
   * The step that began at `a` stored a counter that stood until the read at `b` found it. So the first step had written
   * before the second one read: they do not overlap, and the counter kept that value in between.
   */
  ghost predicate Feeds(moves: seq<Move<Step>>, ip: Str, a: nat, b: nat) {
    a < b < |moves| && exists r: nat, v: nat ::
      && r < b && Wrote(StepPlan(), map[], moves, a, r, ip, v) && Stands(StepPlan(), map[], moves, r, b, ip, v)
      && EntryAt(StepPlan(), map[], moves, b, ip) == Some(v)
  }

  /**
   * A chain of failures, each of which read the counter the one before it had stored. The first read no entry, or the
   * counter that the success at `root` had stored.
   */
  ghost predicate Chain(moves: seq<Move<Step>>, ip: Str, chain: seq<nat>, root: Option<nat>) {
    && chain != [] && (forall i :: 0 <= i < |chain| ==> chain[i] < |moves| && IsFailure(moves[chain[i]], ip))
    && (forall i :: 0 < i < |chain| ==> Feeds(moves, ip, chain[i - 1], chain[i]))
    && match root
       case None => EntryAt(StepPlan(), map[], moves, chain[0], ip).None?
       case Some(q) => Feeds(moves, ip, q, chain[0]) && IsSuccess(moves[q], ip)
  }

  /** How high a chain counts before its last failure: a stored success counts one. */
  function CountBefore(chain: seq<nat>, root: Option<nat>): int {
    |chain| - 1 + if root.Some? then 1 else 0
  }

  lemma {:induction false} ChainGrows(moves: seq<Move<Step>>, ip: Str, chain: seq<nat>, root: Option<nat>, p: nat)
    requires Chain(moves, ip, chain, root) && p < |moves| && IsFailure(moves[p], ip)
    requires Feeds(moves, ip, chain[|chain| - 1], p)
    ensures Chain(moves, ip, chain + [p], root)
  {
    hide Feeds, IsFailure, IsSuccess, EntryAt;
    var longer := chain + [p];
    forall i | 0 < i < |longer| ensures Feeds(moves, ip, longer[i - 1], longer[i]) {
      if i < |chain| {
        assert longer[i - 1] == chain[i - 1] && longer[i] == chain[i];
      }
    }
  }

  /** What a failure reads is what such a chain has counted. */
  lemma {:induction false} ReadIsChain(moves: seq<Move<Step>>, ip: Str, p: nat)
    requires p < |moves| && IsFailure(moves[p], ip)
    ensures exists chain: seq<nat>, root: Option<nat> ::
              && Chain(moves, ip, chain, root) && chain[|chain| - 1] == p
              && CountOf(EntryAt(StepPlan(), map[], moves, p, ip)) == CountBefore(chain, root)
  {
    hide EntryAt;
    var e := EntryAt(StepPlan(), map[], moves, p, ip);
    if e.None? {
      assert Chain(moves, ip, [p], None);
      assert CountBefore([p], None) == 0;
    } else {
      EntryExplained(StepPlan(), map[], moves, p, ip);
      var q: nat, r: nat :| r < p && Wrote(StepPlan(), map[], moves, q, r, ip, e.value)
                            && Stands(StepPlan(), map[], moves, r, p, ip, e.value);
      assert Feeds(moves, ip, q, p);
      StoredByStep(moves, ip, q, r, e.value);
      hide Feeds, Wrote, Stands;
      if moves[q].op.Success? {
        assert Chain(moves, ip, [p], Some(q));
        assert CountBefore([p], Some(q)) == 1;
      } else {
        ReadIsChain(moves, ip, q);
        var chain: seq<nat>, root: Option<nat> :| Chain(moves, ip, chain, root) && chain[|chain| - 1] == q
          && CountOf(EntryAt(StepPlan(), map[], moves, q, ip)) == CountBefore(chain, root);
        ChainGrows(moves, ip, chain, root, p);
        assert (chain + [p])[|chain + [p]| - 1] == p;
        assert CountBefore(chain + [p], root) == CountBefore(chain, root) + 1;
      }
    }
  }

  /** A counter is stored by a success, as one, or by a failure, as one more than it read. */
  lemma {:induction false} StoredByStep(moves: seq<Move<Step>>, ip: Str, q: nat, r: nat, v: nat)
    requires Wrote(StepPlan(), map[], moves, q, r, ip, v)
    ensures IsSuccess(moves[q], ip) || IsFailure(moves[q], ip)
    ensures moves[q].op.Success? ==> IsSuccess(moves[q], ip) && v == 1
    ensures moves[q].op.Failure? ==> IsFailure(moves[q], ip) && v == CountOf(EntryAt(StepPlan(), map[], moves, q, ip)) + 1
  {
    hide EntryAt;
  }

  /**
   * With every read and write a separate step and any lock failures: a ban with tolerance T ends a chain of at least T
   * failures of the address, the first of which found no entry, or of at least T - 1 behind a stored success. No two
   * failures of the chain overlap, and each count stood until the next one read it.
   */
  lemma {:induction false} BanNeedsFailures(moves: seq<Move<Step>>, p: nat)
    requires BansAtMove(moves, p)
    ensures exists chain: seq<nat>, root: Option<nat> ::
              && Chain(moves, moves[p].ip, chain, root) && chain[|chain| - 1] == p
              && |chain| + (if root.Some? then 1 else 0) >= moves[p].op.threshold
  {
    var ip := moves[p].ip;
    ReadIsChain(moves, ip, p);
    hide Chain, EntryAt;
    var chain: seq<nat>, root: Option<nat> :| Chain(moves, ip, chain, root) && chain[|chain| - 1] == p
      && CountOf(EntryAt(StepPlan(), map[], moves, p, ip)) == CountBefore(chain, root);
  }

  /** The failures of a chain come one after the other. */
  lemma {:induction false} ChainIsOrdered(moves: seq<Move<Step>>, ip: Str, chain: seq<nat>, root: Option<nat>, i: nat,
                                          j: nat)
    requires Chain(moves, ip, chain, root) && i < j < |chain|
    ensures chain[i] < chain[j]
    decreases j
  {
    if i < j - 1 {
      ChainIsOrdered(moves, ip, chain, root, i, j - 1);
    }
  }

  // ----- steps that do not overlap -----

  lemma {:induction false} SerialIsRun(ip: Str, steps: seq<Step>, p: nat)
    requires p <= |steps| && forall k :: 0 <= k < |steps| ==> steps[k].ip == ip
    ensures Serial(StepPlan(), None, steps[..p]) == IpDb.Entry(Before(steps, p), ip)
  {
    if p > 0 {
      SerialIsRun(ip, steps, p - 1);
      WholeStep(Before(steps, p - 1), steps[p - 1]);
      assert steps[..p][..p - 1] == steps[..p - 1] && steps[..p][p - 1] == steps[p - 1];
      hide Next, StepChange;
    }
  }

  lemma {:induction false} WholeBan(moves: seq<Move<Step>>, ip: Str, ids: seq<nat>, steps: seq<Step>, p: nat)
    requires Undivided(moves, ip, ids, steps) && (forall k :: 0 <= k < |steps| ==> steps[k].ip == ip)
    requires p < |moves| && moves[p].Fetch? && moves[p].ip == ip
    ensures var k := Begun(moves[..p], ip);
            k < |steps| && steps[k] == moves[p].op && (BansAt(steps, k) <==> BansAtMove(moves, p))
  {
    hide Run, Serial, Begun, Bans, AfterFailure, StepChange;
    var k := Begun(moves[..p], ip);
    UndividedRead(StepPlan(), map[], moves, ip, ids, steps, p);
    SerialIsRun(ip, steps, k);
    WholeStep(Before(steps, k), steps[k]);
    FailureOnly(steps[k], EntryAt(StepPlan(), map[], moves, p, ip));
  }

  lemma {:induction false} FailureOnly(step: Step, e: Option<nat>)
    ensures Bans(step, e) ==> step.Failure?
  {
  }

  /**
   * If no other step of the address comes between the read and the write of one, an address without an entry that keeps
   * failing is banned by exactly its T-th failure, whatever steps of other addresses overlap with its own.
   */
  lemma {:induction false} BannedOnExactly(moves: seq<Move<Step>>, ip: Str, ids: seq<nat>, steps: seq<Step>, t: nat,
                                           p: nat)
    requires Undivided(moves, ip, ids, steps) && (forall k :: 0 <= k < |steps| ==> steps[k].ip == ip) && t >= 1
    requires p < |moves| && moves[p].Fetch? && moves[p].ip == ip
    requires Begun(moves[..p], ip) < |steps|
    requires KeepsFailing(steps, ip, t, 0, Begun(moves[..p], ip) + 1)
    requires Failures(steps, ip, 0, Begun(moves[..p], ip)) < t
    ensures BansAtMove(moves, p) <==> Failures(steps, ip, 0, Begun(moves[..p], ip) + 1) == t
  {
    hide Run, Begun, Bans, KeepsFailing, Failures, Undivided;
    WholeBan(moves, ip, ids, steps, p);
    FailureCount.BannedOnExactly(steps, ip, t, 0, Begun(moves[..p], ip));
  }

  /**
   * Under the same condition a ban with tolerance T means T failures since the entry was last absent, or T - 1 since the
   * last stored success.
   */
  lemma {:induction false} BanSinceLastAnchor(moves: seq<Move<Step>>, ip: Str, ids: seq<nat>, steps: seq<Step>, p: nat)
    requires Undivided(moves, ip, ids, steps) && (forall k :: 0 <= k < |steps| ==> steps[k].ip == ip)
    requires BansAtMove(moves, p) && moves[p].ip == ip
    ensures var k := Begun(moves[..p], ip);
            && k < |steps| && steps[k] == moves[p].op
            && var a := LastAnchor(steps, ip, k);
               Credit(a) + Failures(steps, ip, a.at, k + 1) >= moves[p].op.threshold
  {
    hide Run, Begun, Bans, LastAnchor, Failures, Undivided;
    WholeBan(moves, ip, ids, steps, p);
    FailureCount.BanNeedsFailures(steps, Begun(moves[..p], ip));
  }

  /** Under the same condition the counter is bounded by the failures since its last anchor. */
  lemma {:induction false} CounterBound(moves: seq<Move<Step>>, ip: Str, ids: seq<nat>, steps: seq<Step>)
    requires Undivided(moves, ip, ids, steps) && (forall k :: 0 <= k < |steps| ==> steps[k].ip == ip)
    ensures var a := LastAnchor(steps, ip, |steps|);
            CountOf(IpDb.Entry(Run(StepPlan(), map[], moves).db, ip)) <= Credit(a) + Failures(steps, ip, a.at, |steps|)
  {
    hide Run, Serial, LastAnchor, Failures;
    UndividedIsSerial(StepPlan(), map[], moves, ip, ids, steps);
    assert steps[..|steps|] == steps;
    SerialIsRun(ip, steps, |steps|);
    FailureCount.CounterBound(steps, ip, |steps|);
  }

  // ----- what overlapping does -----

  /** A failure of a challenge with this tolerance, all locks succeeding. */
  function Failing(ip: Str, t: nat, ban: Swabber.BanEnv): Step {
    Failure(ip, t, FailEnv(true, true, true, ban))
  }

  /** Two failures overlap: both read the counter before either writes it. */
  function SameRead(ip: Str, ban: Swabber.BanEnv): seq<Move<Step>> {
    [Fetch(0, ip, Failing(ip, 2, ban)), Fetch(1, ip, Failing(ip, 2, ban)), Commit(0, ip), Commit(1, ip)]
  }

  lemma {:induction false} FirstRun(start: IpDb.Db<nat>)
    ensures Run(StepPlan(), start, []) == Mid(start, map[])
  {
  }

  /** Then they count once: the second failure does not ban although the tolerance is two, and the counter ends at one. */
  lemma {:induction false} OverlapCountsOnce(ip: Str, ban: Swabber.BanEnv)
    ensures var moves := SameRead(ip, ban);
            && IsFailure(moves[0], ip) && IsFailure(moves[1], ip) && !BansAtMove(moves, 0) && !BansAtMove(moves, 1)
            && IpDb.Entry(Run(StepPlan(), map[], moves).db, ip) == Some(1)
  {
    var plan, moves, none: IpDb.Db<nat> := StepPlan(), SameRead(ip, ban), map[];
    RunStep(plan, none, moves, 0);
    RunStep(plan, none, moves, 1);
    RunStep(plan, none, moves, 2);
    RunStep(plan, none, moves, 3);
    assert moves[..0] == [] && moves[..4] == moves;
    FirstRun(none);
    hide Run;
    var pending := Run(plan, none, moves[..2]).pending;
    assert pending[(0, ip)].change == Store(1) && pending[(1, ip)].change == Store(1);
  }

  /** A failure reads the counter, a success is stored, the failure writes. */
  function LateWrite(ip: Str, ban: Swabber.BanEnv): seq<Move<Step>> {
    [Fetch(0, ip, Failing(ip, 9, ban)), Fetch(1, ip, Success(ip, true)), Commit(1, ip), Commit(0, ip)]
  }

  /**
   * Then the success is forgotten: starting from three failures the counter is four, although no failure has read it
   * since the success was stored.
   */
  lemma {:induction false} SuccessForgotten(ip: Str, ban: Swabber.BanEnv)
    ensures var moves, start := LateWrite(ip, ban), map[ip := 3];
            && EntryAt(StepPlan(), start, moves, 3, ip) == Some(1) && moves[3].Commit?
            && EntryAt(StepPlan(), start, moves, 4, ip) == Some(4)
  {
    var plan, moves, start := StepPlan(), LateWrite(ip, ban), map[ip := 3];
    RunStep(plan, start, moves, 0);
    RunStep(plan, start, moves, 1);
    RunStep(plan, start, moves, 2);
    RunStep(plan, start, moves, 3);
    assert moves[..0] == [];
    FirstRun(start);
    hide Run;
    var pending := Run(plan, start, moves[..2]).pending;
    assert pending[(0, ip)].change == Store(4) && pending[(1, ip)].change == Store(1);
  }
}
