/** src/swabber.cpp and src/denialator.cpp with overlapping calls: what survives, what does not, and under which condition. */
module SplitBans {
  import opened Bytes
  import opened SplitRuns
  import IpDb
  import Swabber

  /** A call of `ban`, or the Denialator's own look at the flag. */
  datatype Op = Ban(call: Swabber.Call) | Look

  function FlagOf(e: Option<int>): int {
    if e.Some? then e.value else 0
  }

  /** The call sends a report, given the entry it read. */
  predicate Reports(grace: int, op: Op, e: Option<int>) {
    && op.Ban? && op.call.env.mutex && op.call.env.socket
    && (grace <= 0 || (op.call.env.get && FlagOf(e) != 0 && op.call.env.now - FlagOf(e) >= grace))
  }

  /** The call flags its address, given the entry it read. */
  predicate Flags(grace: int, op: Op, e: Option<int>) {
    grace > 0 && op.Ban? && op.call.env.get && FlagOf(e) == 0
  }

  /** What it then writes. */
  function BanChange(grace: int, op: Op, e: Option<int>): Change<int> {
    if Reports(grace, op, e) then (if op.call.env.drop then Erase else Keep)
    else if Flags(grace, op, e) && op.call.env.set_ then Store(op.call.env.now)
    else Keep
  }

  function BanPlan(grace: int): Plan<Op, int> {
    (op, e) => BanChange(grace, op, e)
  }

  /** Read and write with nothing in between are the call as a whole. */
  lemma {:induction false} WholeCall(grace: int, st: Swabber.State, c: Swabber.Call)
    ensures var e, after := IpDb.Entry(st.flags, c.ip), Swabber.AfterBan(grace, st, c.ip, c.env);
            && IpDb.Entry(after.flags, c.ip) == Applied(e, BanChange(grace, Ban(c), e))
            && after.log == st.log + (if Reports(grace, Ban(c), e) then [Swabber.Banned(c.ip, c.env.now)]
                                      else if Flags(grace, Ban(c), e) then [Swabber.Flagged(c.ip, c.env.now)] else [])
  {
  }

  /** A request denied by the Denialator: a look, then, if the grace period is over, a call of `ban`. */
  lemma {:induction false} WholeRequest(grace: int, st: Swabber.State, ip: Str, env: Swabber.DenyEnv)
    requires env.get && IpDb.Entry(st.flags, ip).Some? && env.now - st.flags[ip] >= grace && st.flags[ip] != 0
    ensures var (denied, after) := Swabber.Deny(grace, false, st, ip, env);
            && denied
            && IpDb.Entry(after.flags, ip)
               == Serial(BanPlan(grace), IpDb.Entry(st.flags, ip), [Look, Ban(Swabber.Call(ip, env.ban))])
  {
    var plan, e := BanPlan(grace), IpDb.Entry(st.flags, ip);
    var look, ban := Look, Ban(Swabber.Call(ip, env.ban));
    WholeCall(grace, st, ban.call);
    assert [look, ban][..1] == [look] && [look][..0] == [];
    assert Serial(plan, e, [look]) == e;
  }

  // ----- grace, whatever overlaps -----

  /** The read at `p` is that of a call that goes on to report. */
  ghost predicate ReportsAt(grace: int, start: IpDb.Db<int>, moves: seq<Move<Op>>, p: nat) {
    p < |moves| && moves[p].Fetch? && Reports(grace, moves[p].op, EntryAt(BanPlan(grace), start, moves, p, moves[p].ip))
  }

  /**
   * Grace safety with every read and write a separate step: a call that reports an address has read a flag that another
   * call had stored before, at least the grace period earlier by their clocks, and that has stood ever since.
   */
  lemma {:induction false} GraceRespected(grace: int, moves: seq<Move<Op>>, p: nat)
    requires grace > 0 && ReportsAt(grace, map[], moves, p)
    ensures exists q: nat, r: nat :: FlagStored(grace, moves, q, r, p)
                                && moves[p].op.call.env.now - moves[q].op.call.env.now >= grace
  {
    hide Run;
    var plan, ip := BanPlan(grace), moves[p].ip;
    EntryExplained(plan, map[], moves, p, ip);
    var v := EntryAt(plan, map[], moves, p, ip).value;
    var q: nat, r: nat :| r < p && Wrote(plan, map[], moves, q, r, ip, v) && Stands(plan, map[], moves, r, p, ip, v);
    assert FlagStored(grace, moves, q, r, p);
  }

  /** The call that read at `q` wrote its clock as the flag at `r`, and the read at `p` found it unchanged since. */
  ghost predicate FlagStored(grace: int, moves: seq<Move<Op>>, q: nat, r: nat, p: nat) {
    && q < r < p < |moves| && moves[q].Fetch? && moves[q].op.Ban?
    && Wrote(BanPlan(grace), map[], moves, q, r, moves[p].ip, moves[q].op.call.env.now)
    && Stands(BanPlan(grace), map[], moves, r, p, moves[p].ip, moves[q].op.call.env.now)
  }

  // ----- reports a grace period apart -----

  function OpsOf(calls: seq<Swabber.Call>): (r: seq<Op>)
    ensures |r| == |calls| && forall k :: 0 <= k < |calls| ==> r[k] == Ban(calls[k])
  {
    seq(|calls|, k requires 0 <= k < |calls| => Ban(calls[k]))
  }

  lemma {:induction false} SerialIsRun(grace: int, ip: Str, calls: seq<Swabber.Call>)
    requires forall k :: 0 <= k < |calls| ==> calls[k].ip == ip
    ensures Serial(BanPlan(grace), None, OpsOf(calls)) == IpDb.Entry(Swabber.Run(grace, calls).flags, ip)
  {
    if calls != [] {
      var n := |calls| - 1;
      SerialIsRun(grace, ip, calls[..n]);
      WholeCall(grace, Swabber.Run(grace, calls[..n]), calls[n]);
      assert OpsOf(calls)[..n] == OpsOf(calls[..n]);
      hide Swabber.AfterBan, BanChange, OpsOf;
    }
  }

  /** With nothing between read and write, the report of call `p` is that of the whole call. */
  lemma {:induction false} WholeReport(grace: int, moves: seq<Move<Op>>, ip: Str, ids: seq<nat>,
                                       calls: seq<Swabber.Call>, p: nat)
    requires Undivided(moves, ip, ids, OpsOf(calls)) && (forall k :: 0 <= k < |calls| ==> calls[k].ip == ip)
    requires ReportsAt(grace, map[], moves, p) && moves[p].ip == ip
    ensures var k := Begun(moves[..p], ip);
            k < |calls| && moves[p].op == Ban(calls[k]) && Swabber.ReportsAt(grace, calls, k)
  {
    hide Run, Serial, Begun, Swabber.AfterBan, Reports, Flags;
    var k := Begun(moves[..p], ip);
    UndividedRead(BanPlan(grace), map[], moves, ip, ids, OpsOf(calls), p);
    assert OpsOf(calls)[..k] == OpsOf(calls[..k]);
    SerialIsRun(grace, ip, calls[..k]);
    WholeCall(grace, Swabber.Run(grace, calls[..k]), calls[k]);
  }

  lemma {:induction false} CallsApart(grace: int, moves: seq<Move<Op>>, ip: Str, ids: seq<nat>,
                                      calls: seq<Swabber.Call>,
                                      p: nat, q: nat)
    requires grace > 0 && p < q && Undivided(moves, ip, ids, OpsOf(calls)) && InOrder(calls, ip)
    requires ReportsAt(grace, map[], moves, p) && moves[p].ip == ip && moves[p].op.call.env.drop
    requires ReportsAt(grace, map[], moves, q) && moves[q].ip == ip
    ensures moves[q].op.call.env.now - moves[p].op.call.env.now >= grace
  {
    hide Run, Begun, Reports, Weave, Swabber.ReportsAt;
    WholeReport(grace, moves, ip, ids, calls, p);
    WholeReport(grace, moves, ip, ids, calls, q);
    BegunGrows(moves, ip, ids, OpsOf(calls), p, q);
    Swabber.ReportsApart(grace, calls, Begun(moves[..p], ip), Begun(moves[..q], ip));
  }

  /** Calls for one address whose clocks are in the order in which they are made. */
  ghost predicate InOrder(calls: seq<Swabber.Call>, ip: Str) {
    && (forall k :: 0 <= k < |calls| ==> calls[k].ip == ip)
    && (forall i, j :: 0 <= i <= j < |calls| ==> calls[i].env.now <= calls[j].env.now)
  }

  // The looks of the Denialator write nothing, so they may come anywhere.

  ghost function WithoutLooks(moves: seq<Move<Op>>): seq<Move<Op>> {
    if moves == [] then []
    else
      var m := moves[|moves| - 1];
      WithoutLooks(moves[..|moves| - 1]) + if m.Fetch? && m.op.Look? then [] else [m]
  }

  /** A thread looks before it calls `ban`, not between the read and the write of a call. */
  ghost predicate LooksFirst(grace: int, moves: seq<Move<Op>>) {
    forall k: nat :: k < |moves| && moves[k].Fetch? && moves[k].op.Look? ==>
      var pending, key := Run(BanPlan(grace), map[], moves[..k]).pending, (moves[k].id, moves[k].ip);
      key in pending ==> pending[key].op.Look?
  }

  ghost predicate SameButLooks(a: Mid<Op, int>, b: Mid<Op, int>) {
    && a.db == b.db
    && (forall key :: key in b.pending <==> key in a.pending && a.pending[key].op.Ban?)
    && (forall key :: key in b.pending ==> a.pending[key] == b.pending[key])
    && (forall key :: key in a.pending && a.pending[key].op.Look? ==> a.pending[key].change == Keep)
  }

  lemma {:induction false} SameAfterMove(grace: int, a: Mid<Op, int>, b: Mid<Op, int>, m: Move<Op>)
    requires SameButLooks(a, b) && !(m.Fetch? && m.op.Look?)
    ensures SameButLooks(After(BanPlan(grace), a, m), After(BanPlan(grace), b, m))
  {
    hide Reports, Flags;
  }

  lemma {:induction false} SameAfterLook(grace: int, a: Mid<Op, int>, b: Mid<Op, int>, m: Move<Op>)
    requires SameButLooks(a, b) && m.Fetch? && m.op.Look?
    requires (m.id, m.ip) in a.pending ==> a.pending[(m.id, m.ip)].op.Look?
    ensures SameButLooks(After(BanPlan(grace), a, m), b)
  {
  }

  lemma {:induction false} LooksDoNothing(grace: int, moves: seq<Move<Op>>, n: nat)
    requires n <= |moves| && LooksFirst(grace, moves)
    ensures SameButLooks(Run(BanPlan(grace), map[], moves[..n]), Run(BanPlan(grace), map[], WithoutLooks(moves[..n])))
  {
    var plan := BanPlan(grace);
    if n == 0 {
      assert moves[..0] == [];
    } else {
      var m, less, more := moves[n - 1], WithoutLooks(moves[..n - 1]), WithoutLooks(moves[..n]);
      assert moves[..n][..n - 1] == moves[..n - 1] && moves[..n][n - 1] == m;
      assert more == less + if m.Fetch? && m.op.Look? then [] else [m];
      hide Run, WithoutLooks, SameButLooks, BanPlan, After;
      LooksDoNothing(grace, moves, n - 1);
      RunStep(plan, map[], moves, n - 1);
      var a, b := Run(plan, map[], moves[..n - 1]), Run(plan, map[], less);
      if m.Fetch? && m.op.Look? {
        assert more == less;
        SameAfterLook(grace, a, b, m);
      } else {
        assert more[..|less|] == less && more[..|less| + 1] == more;
        RunStep(plan, map[], more, |less|);
        SameAfterMove(grace, a, b, m);
      }
    }
  }

  lemma {:induction false} LooksPrefix(moves: seq<Move<Op>>, p: nat, q: nat)
    requires p < q <= |moves| && !(moves[p].Fetch? && moves[p].op.Look?)
    ensures var less, more := WithoutLooks(moves[..p]), WithoutLooks(moves[..q]);
            |less| < |more| && more[..|less|] == less && more[|less|] == moves[p]
    decreases q
  {
    assert moves[..q][..q - 1] == moves[..q - 1] && moves[..q][q - 1] == moves[q - 1];
    if p < q - 1 {
      LooksPrefix(moves, p, q - 1);
    }
  }

  /** A call reports just the same when all looks are left out. */
  lemma {:induction false} ReportWithoutLooks(grace: int, moves: seq<Move<Op>>, p: nat)
    requires LooksFirst(grace, moves) && ReportsAt(grace, map[], moves, p)
    ensures var rest, at := WithoutLooks(moves), |WithoutLooks(moves[..p])|;
            at < |rest| && rest[at] == moves[p] && ReportsAt(grace, map[], rest, at)
  {
    assert moves[..|moves|] == moves;
    LooksPrefix(moves, p, |moves|);
    LooksDoNothing(grace, moves, p);
    hide Run, WithoutLooks;
  }

  /**
   * If no other call for the address comes between the read and the write of one, and clocks are in the order of the
   * calls, reports of it are at least the grace period apart, whatever the Denialator looks at and whatever calls for
   * other addresses overlap with them.
   */
  lemma {:induction false} ReportsApart(grace: int, moves: seq<Move<Op>>, ip: Str, ids: seq<nat>,
                                        calls: seq<Swabber.Call>,
                                        p: nat, q: nat)
    requires grace > 0 && p < q && LooksFirst(grace, moves)
    requires Undivided(WithoutLooks(moves), ip, ids, OpsOf(calls)) && InOrder(calls, ip)
    requires ReportsAt(grace, map[], moves, p) && moves[p].ip == ip && moves[p].op.call.env.drop
    requires ReportsAt(grace, map[], moves, q) && moves[q].ip == ip
    ensures moves[q].op.call.env.now - moves[p].op.call.env.now >= grace
  {
    hide Run, Undivided, LooksFirst, WithoutLooks;
    ReportWithoutLooks(grace, moves, p);
    ReportWithoutLooks(grace, moves, q);
    LooksPrefix(moves, p, q);
    CallsApart(grace, WithoutLooks(moves), ip, ids, calls, |WithoutLooks(moves[..p])|, |WithoutLooks(moves[..q])|);
  }

  /** Every lock and the socket do what is asked of them. */
  function Fine(ip: Str, now: int): Op {
    Ban(Swabber.Call(ip, Swabber.BanEnv(now, true, true, true, true, true)))
  }

  lemma {:induction false} FineChanges(grace: int, ip: Str, t0: int, now: int)
    requires grace > 0 && t0 != 0 && now - t0 >= grace
    ensures Reports(grace, Fine(ip, now), Some(t0)) && BanChange(grace, Fine(ip, now), Some(t0)) == Erase
    ensures BanChange(grace, Fine(ip, now), None) == Store(now) && BanChange(grace, Fine(ip, t0), None) == Store(t0)
    ensures forall e :: BanChange(grace, Look, e) == Keep
  {
  }

  /** A flag is stored; later two calls overlap: both read it before the first of them drops it. */
  function Overlap(ip: Str, t0: int, now: int): seq<Move<Op>> {
    [Fetch(0, ip, Fine(ip, t0)), Commit(0, ip), Fetch(1, ip, Fine(ip, now)), Fetch(2, ip, Fine(ip, now)),
     Commit(1, ip), Commit(2, ip)]
  }

  /** Without that condition two reports of an address can come at the same time, although every lock succeeds. */
  lemma {:induction false} TwoReportsAtOnce(grace: int, ip: Str, t0: int, now: int)
    requires grace > 0 && t0 != 0 && now - t0 >= grace
    ensures var moves := Overlap(ip, t0, now);
            && ReportsAt(grace, map[], moves, 2) && ReportsAt(grace, map[], moves, 3)
            && moves[2].op.call.env.drop && moves[3].op.call.env.now - moves[2].op.call.env.now < grace
  {
    var plan, moves, none: IpDb.Db<int> := BanPlan(grace), Overlap(ip, t0, now), map[];
    RunStep(plan, none, moves, 0);
    RunStep(plan, none, moves, 1);
    RunStep(plan, none, moves, 2);
    assert moves[..0] == [];
    hide Run;
    FirstRun(plan, none);
    assert Run(plan, none, moves[..1]).pending == map[(0, ip) := Pending(Fine(ip, t0), None, Store(t0))];
    assert Run(plan, none, moves[..2]).db == map[ip := t0];
    assert Run(plan, none, moves[..3]).db == map[ip := t0];
  }

  lemma {:induction false} FirstRun<L, V>(plan: Plan<L, V>, start: IpDb.Db<V>)
    ensures Run(plan, start, []) == Mid(start, map[])
  {
  }

  // ----- the life of a flag -----

  /** Everything the address does up to move `n` is looks of the Denialator and calls it makes when the grace period is over. */
  ghost predicate Denied(grace: int, moves: seq<Move<Op>>, ip: Str, t0: int, n: nat) {
    && n <= |moves|
    && forall k :: 0 <= k < n && moves[k].Fetch? && moves[k].ip == ip ==> moves[k].op.Look? || Overdue(grace, moves[k].op, t0)
  }

  /** A call whose locks succeed and whose clock is past the grace period. */
  predicate Overdue(grace: int, op: Op, t0: int) {
    && op.Ban? && op.call.env.get && op.call.env.mutex && op.call.env.socket && op.call.env.drop
    && op.call.env.now - t0 >= grace
  }

  /** A drop of the address's flag takes effect at move `k`. */
  ghost predicate DropsAt(grace: int, start: IpDb.Db<int>, moves: seq<Move<Op>>, ip: Str, k: nat)
    requires k < |moves|
  {
    var m := Run(BanPlan(grace), start, moves[..k]);
    moves[k].Commit? && moves[k].ip == ip && (moves[k].id, ip) in m.pending && m.pending[(moves[k].id, ip)].change == Erase
  }

  /** No drop of the flag has taken effect in the first `n` moves. */
  ghost predicate NotDropped(grace: int, start: IpDb.Db<int>, moves: seq<Move<Op>>, ip: Str, n: nat)
    requires n <= |moves|
  {
    forall k: nat :: k < n ==> !DropsAt(grace, start, moves, ip, k)
  }

  ghost predicate OnlyDrops(m: Mid<Op, int>, ip: Str) {
    forall id: nat :: (id, ip) in m.pending ==> m.pending[(id, ip)].change == Keep || m.pending[(id, ip)].change == Erase
  }

  /**
   * However the requests of a flagged address overlap: until the first drop takes effect the flag stays, so every look
   * finds it and denies the request, and every call reports.
   */
  lemma {:induction false} StaysFlagged(grace: int, start: IpDb.Db<int>, moves: seq<Move<Op>>, ip: Str, t0: int, n: nat)
    requires n <= |moves| && Denied(grace, moves, ip, t0, n) && NotDropped(grace, start, moves, ip, n)
    requires t0 != 0 && IpDb.Entry(start, ip) == Some(t0)
    ensures EntryAt(BanPlan(grace), start, moves, n, ip) == Some(t0)
    ensures OnlyDrops(Run(BanPlan(grace), start, moves[..n]), ip)
    ensures n < |moves| && moves[n].Fetch? && moves[n].ip == ip && Overdue(grace, moves[n].op, t0) ==>
              ReportsAt(grace, start, moves, n)
  {
    var plan := BanPlan(grace);
    if n > 0 {
      StaysFlagged(grace, start, moves, ip, t0, n - 1);
      RunStep(plan, start, moves, n - 1);
      hide Run;
      assert !DropsAt(grace, start, moves, ip, n - 1);
    } else {
      assert moves[..0] == [];
    }
  }

  /** The drop that takes effect releases the address. */
  lemma {:induction false} DropReleases(grace: int, start: IpDb.Db<int>, moves: seq<Move<Op>>, ip: Str, k: nat)
    requires k < |moves| && DropsAt(grace, start, moves, ip, k)
    ensures EntryAt(BanPlan(grace), start, moves, k + 1, ip) == None
  {
    RunStep(BanPlan(grace), start, moves, k);
    hide Run;
  }

  /** Two denied requests of an address overlap: the second asks for its ban only after the first has dropped the flag. */
  function LateBan(ip: Str, now: int): seq<Move<Op>> {
    [Fetch(0, ip, Look), Fetch(1, ip, Look), Fetch(0, ip, Fine(ip, now)), Commit(0, ip),
     Fetch(1, ip, Fine(ip, now)), Commit(1, ip), Fetch(2, ip, Look)]
  }

  /** Then the address is flagged anew, and the request after its release is denied again. */
  lemma {:induction false} DeniedAgain(grace: int, ip: Str, t0: int, now: int)
    requires grace > 0 && t0 != 0 && now != 0 && now - t0 >= grace
    ensures var moves, start := LateBan(ip, now), map[ip := t0];
            && ReportsAt(grace, start, moves, 2)
            && EntryAt(BanPlan(grace), start, moves, 4, ip) == None
            && EntryAt(BanPlan(grace), start, moves, 6, ip) == Some(now)
  {
    var plan, moves, start := BanPlan(grace), LateBan(ip, now), map[ip := t0];
    FineChanges(grace, ip, t0, now);
    FirstDropped(grace, ip, t0, now);
    hide Run, BanChange, Reports, Fine;
    assert moves[4] == Fetch(1, ip, Fine(ip, now)) && moves[5] == Commit(1, ip);
    assert moves[2] == Fetch(0, ip, Fine(ip, now));
    RunStep(plan, start, moves, 4);
    RunStep(plan, start, moves, 5);
    hide LateBan;
  }

  lemma {:induction false} FirstDropped(grace: int, ip: Str, t0: int, now: int)
    requires grace > 0 && t0 != 0 && now - t0 >= grace
    ensures var plan, moves, start := BanPlan(grace), LateBan(ip, now), map[ip := t0];
            Run(plan, start, moves[..2]).db == start && Run(plan, start, moves[..4]).db == map[]
  {
    var plan, moves, start := BanPlan(grace), LateBan(ip, now), map[ip := t0];
    FineChanges(grace, ip, t0, now);
    FirstRun(plan, start);
    assert moves[..0] == [] && moves[0].Fetch? && moves[1].Fetch?;
    assert moves[2] == Fetch(0, ip, Fine(ip, now)) && moves[3] == Commit(0, ip);
    hide Run, BanChange, Reports, Fine;
    RunStep(plan, start, moves, 0);
    RunStep(plan, start, moves, 1);
    RunStep(plan, start, moves, 2);
    RunStep(plan, start, moves, 3);
    hide LateBan;
    assert start - {ip} == map[];
  }
}
