/** src/challenger.cpp: `report_failure` and `report_success`, the failure counter behind challenge bans. */
module FailureCount {
  import opened Bytes
  import opened IpDb
  import Swabber

  /** Outcomes of one `report_failure`: its try-locks (read, then write or drop) and its call to the swabber. */
  datatype FailEnv = FailEnv(get: bool, set_: bool, drop: bool, ban: Swabber.BanEnv)

  /** The counter after a failure of a challenge with this tolerance, and whether the address was banned. */
  function AfterFailure(db: Db<nat>, ip: Str, threshold: nat, env: FailEnv): (bool, Db<nat>) {
    if !env.get then (false, db)
    else
      var n := Lookup(db, ip, 0) + 1;
      if n >= threshold then (true, Drop(db, ip, env.drop)) else (false, Put(db, ip, n, env.set_))
  }

  /** The counter after a success; it is set to one, not to zero. */
  function AfterSuccess(db: Db<nat>, ip: Str, locked: bool): Db<nat> {
    Put(db, ip, 1, locked)
  }

  class Tally {
    const table: IpTable<nat>
    const swabber: Swabber.Reporter

    ghost predicate Valid() {
      table.unset == 0 && swabber.table.unset == 0 && (table as object) != (swabber.table as object)
    }

    constructor (table: IpTable<nat>, swabber: Swabber.Reporter)
      requires table.unset == 0 && swabber.table.unset == 0 && (table as object) != (swabber.table as object)
      ensures Valid() && this.table == table && this.swabber == swabber
    {
      this.table := table;
      this.swabber := swabber;
    }

    method ReportFailure(ip: Str, threshold: nat, env: FailEnv) returns (banned: bool)
      requires Valid()
      modifies table, swabber`log, swabber.table
      ensures (banned, table.db) == AfterFailure(old(table.db), ip, threshold, env)
      ensures swabber.View() == if banned then Swabber.AfterBan(swabber.grace, old(swabber.View()), ip, env.ban)
                                else old(swabber.View())
    {
      var r := table.GetIpState(ip, env.get);
      if r.None? {
        return false;
      }
      var n := r.value + 1;
      if n >= threshold {
        swabber.Ban(ip, env.ban);
        var _ := table.DropIp(ip, env.drop);
        return true;
      }
      var _ := table.SetIpState(ip, n, env.set_);
      return false;
    }

    method ReportSuccess(ip: Str, locked: bool)
      requires Valid()
      modifies table
      ensures table.db == AfterSuccess(old(table.db), ip, locked)
    {
      var _ := table.SetIpState(ip, 1, locked);
    }
  }

  // ----- runs -----

  datatype Step = Failure(ip: Str, threshold: nat, env: FailEnv) | Success(ip: Str, locked: bool)

  function Next(db: Db<nat>, s: Step): Db<nat> {
    match s
    case Failure(ip, t, env) => AfterFailure(db, ip, t, env).1
    case Success(ip, locked) => AfterSuccess(db, ip, locked)
  }

  /** The counters step `p` of the run finds. */
  function Before(steps: seq<Step>, p: nat): Db<nat>
    requires p <= |steps|
  {
    if p == 0 then map[] else Next(Before(steps, p - 1), steps[p - 1])
  }

  ghost predicate BansAt(steps: seq<Step>, p: nat)
    requires p < |steps|
  {
    && steps[p].Failure?
    && AfterFailure(Before(steps, p), steps[p].ip, steps[p].threshold, steps[p].env).0
  }

  /** Step `p` is a failure of `ip` whose counter could be read. */
  predicate CountedFailure(s: Step, ip: Str) {
    s.Failure? && s.ip == ip && s.env.get
  }

  /** Step `p` stores a success of `ip`. */
  predicate StoredSuccess(s: Step, ip: Str) {
    s.Success? && s.ip == ip && s.locked
  }

  /** Counted failures of `ip` among the steps from `lo` up to, not including, `hi`. */
  function Failures(steps: seq<Step>, ip: Str, lo: nat, hi: nat): nat
    requires lo <= hi <= |steps|
    decreases hi
  {
    if lo == hi then 0
    else Failures(steps, ip, lo, hi - 1) + if CountedFailure(steps[hi - 1], ip) then 1 else 0
  }

  /** The latest point at or before `p` where the entry was absent or a success had just been stored. */
  datatype Anchor = Absent(at: nat) | Succeeded(at: nat)

  function LastAnchor(steps: seq<Step>, ip: Str, p: nat): (a: Anchor)
    requires p <= |steps|
    ensures a.at <= p
    ensures a.Absent? ==> ip !in Before(steps, a.at)
    ensures a.Succeeded? ==> a.at > 0 && StoredSuccess(steps[a.at - 1], ip)
    ensures forall q :: a.at < q <= p ==> ip in Before(steps, q) && !StoredSuccess(steps[q - 1], ip)
  {
    if ip !in Before(steps, p) then Absent(p)
    else if p > 0 && StoredSuccess(steps[p - 1], ip) then Succeeded(p)
    else LastAnchor(steps, ip, p - 1)
  }

  /** How much an anchor is worth: a stored success already counts one. */
  function Credit(a: Anchor): nat {
    if a.Absent? then 0 else 1
  }

  /** The counter never exceeds the failures counted since the anchor, plus one after a success. */
  lemma {:induction false} CounterBound(steps: seq<Step>, ip: Str, p: nat)
    requires p <= |steps|
    ensures var a := LastAnchor(steps, ip, p);
            Lookup(Before(steps, p), ip, 0) <= Credit(a) + Failures(steps, ip, a.at, p)
  {
    if p > 0 && ip in Before(steps, p) && !StoredSuccess(steps[p - 1], ip) {
      CounterBound(steps, ip, p - 1);
    }
  }

  /**
   * With any lock failures: a ban with tolerance T means at least T counted failures of the address since its entry
   * was last absent, or at least T - 1 since its last stored success, whichever came later.
   */
  lemma {:induction false} BanNeedsFailures(steps: seq<Step>, p: nat)
    requires p < |steps| && BansAt(steps, p)
    ensures var ip, a := steps[p].ip, LastAnchor(steps, steps[p].ip, p);
            Credit(a) + Failures(steps, ip, a.at, p + 1) >= steps[p].threshold
  {
    CounterBound(steps, steps[p].ip, p);
  }

  // ----- exactness when the locks succeed -----

  /** From `lo` on, every step of `ip` fails a challenge of tolerance `t` with all locks succeeding. */
  ghost predicate KeepsFailing(steps: seq<Step>, ip: Str, t: nat, lo: nat, hi: nat)
    requires lo <= hi <= |steps|
  {
    forall q :: lo <= q < hi && steps[q].ip == ip ==>
      && CountedFailure(steps[q], ip) && steps[q].threshold == t && steps[q].env.set_ && steps[q].env.drop
  }

  lemma {:induction false} CounterExact(steps: seq<Step>, ip: Str, t: nat, lo: nat, hi: nat)
    requires lo <= hi <= |steps| && KeepsFailing(steps, ip, t, lo, hi)
    requires ip !in Before(steps, lo) && Failures(steps, ip, lo, hi) < t
    ensures Lookup(Before(steps, hi), ip, 0) == Failures(steps, ip, lo, hi)
    decreases hi - lo
  {
    if lo < hi {
      CounterExact(steps, ip, t, lo, hi - 1);
    }
  }

  /**
   * Starting without an entry and failing the same challenge again and again, an address is banned
   * on exactly its T-th failure (and on none before), and its entry is gone afterwards.
   */
  lemma {:induction false} BannedOnExactly(steps: seq<Step>, ip: Str, t: nat, lo: nat, p: nat)
    requires lo <= p < |steps| && t >= 1 && KeepsFailing(steps, ip, t, lo, p + 1)
    requires ip !in Before(steps, lo) && steps[p].ip == ip && Failures(steps, ip, lo, p) < t
    ensures BansAt(steps, p) <==> Failures(steps, ip, lo, p + 1) == t
    ensures BansAt(steps, p) ==> ip !in Before(steps, p + 1)
  {
    CounterExact(steps, ip, t, lo, p);
  }
}
