/** src/swabber.cpp and src/denialator.cpp: flagging, the grace period, reporting, and denying flagged addresses. */
module Swabber {
  import opened Bytes
  import opened IpDb

  /** Lines of the ban log, with the time of the call; a Banned line goes with the message to the socket. */
  datatype Event = Flagged(ip: Str, at: int) | Banned(ip: Str, at: int)

  /** When each address was first asked to be banned, and the log. */
  datatype State = State(flags: Db<int>, log: seq<Event>)

  /**
   * What one call of `ban` meets: the clock, the outcomes of its four try-locks in order of use,
   * and whether the socket is there and bound or bindable.
   */
  datatype BanEnv = BanEnv(now: int, get: bool, set_: bool, mutex: bool, socket: bool, drop: bool)

  /** The part of `ban` behind the grace period. */
  function Report(st: State, ip: Str, env: BanEnv): State {
    if !env.mutex || !env.socket then st
    else State(Drop(st.flags, ip, env.drop), st.log + [Banned(ip, env.now)])
  }

  /** `Swabber::ban`. */
  function AfterBan(grace: int, st: State, ip: Str, env: BanEnv): State {
    if grace <= 0 then Report(st, ip, env)
    else if !env.get then st
    else
      var flag := Lookup(st.flags, ip, 0);
      if flag == 0 then
        // the flag is the current time, so the grace period has not passed
        State(Put(st.flags, ip, env.now, env.set_), st.log + [Flagged(ip, env.now)])
      else if env.now - flag < grace then st
      else Report(st, ip, env)
  }

  /** What one run of the Denialator meets; it reads the clock before `ban` does. */
  datatype DenyEnv = DenyEnv(get: bool, now: int, ban: BanEnv)

  /** `Denialator::on_http_request` for an address that may be globally white-listed: (denied, new state). */
  function Deny(grace: int, whiteListed: bool, st: State, ip: Str, env: DenyEnv): (bool, State) {
    if whiteListed || !env.get then (false, st)
    else
      var flag := Lookup(st.flags, ip, 0);
      if flag == 0 then (false, st)
      else (true, if env.now - flag >= grace then AfterBan(grace, st, ip, env.ban) else st)
  }

  class Reporter {
    const table: IpTable<int>
    const grace: int
    var log: seq<Event>

    ghost function View(): State
      reads this, table
    {
      State(table.db, log)
    }

    constructor (table: IpTable<int>, grace: int)
      requires table.unset == 0
      ensures this.table == table && this.grace == grace && log == []
    {
      this.table := table;
      this.grace := grace;
      log := [];
    }

    method Ban(ip: Str, env: BanEnv)
      requires table.unset == 0
      modifies this`log, table
      ensures View() == AfterBan(grace, old(View()), ip, env)
    {
      if grace > 0 {
        var r := table.GetIpState(ip, env.get);
        if r.None? {
          return;
        }
        var flag := r.value;
        if flag == 0 {
          flag := env.now;
          var _ := table.SetIpState(ip, flag, env.set_);
          log := log + [Flagged(ip, env.now)];
        }
        if env.now - flag < grace {
          return;
        }
      }
      if !env.mutex {
        return;
      }
      if !env.socket {
        return;
      }
      log := log + [Banned(ip, env.now)];
      var _ := table.DropIp(ip, env.drop);
    }

    method OnHttpRequest(whiteListed: bool, ip: Str, env: DenyEnv) returns (denied: bool)
      requires table.unset == 0
      modifies this`log, table
      ensures (denied, View()) == Deny(grace, whiteListed, old(View()), ip, env)
    {
      if whiteListed {
        return false;
      }
      var r := table.GetIpState(ip, env.get);
      if r.None? {
        return false;
      }
      if r.value != 0 {
        if env.now - r.value >= grace {
          Ban(ip, env.ban);
        }
        return true;
      }
      return false;
    }
  }

  // ----- runs of ban requests, from any filter and for any address -----

  datatype Call = Call(ip: Str, env: BanEnv)

  function Run(grace: int, calls: seq<Call>): State {
    if calls == [] then State(map[], [])
    else
      var c := calls[|calls| - 1];
      AfterBan(grace, Run(grace, calls[..|calls| - 1]), c.ip, c.env)
  }

  /** The state call `p` finds. */
  function Before(grace: int, calls: seq<Call>, p: nat): State
    requires p <= |calls|
  {
    Run(grace, calls[..p])
  }

  /** Call `p` sends a ban report and writes a "banned" line. */
  ghost predicate ReportsAt(grace: int, calls: seq<Call>, p: nat)
    requires p < |calls|
  {
    var c := calls[p];
    AfterBan(grace, Before(grace, calls, p), c.ip, c.env).log == Before(grace, calls, p).log + [Banned(c.ip, c.env.now)]
  }

  /** Call `p` stores a flag for its address. */
  ghost predicate StoresAt(grace: int, calls: seq<Call>, p: nat)
    requires p < |calls|
  {
    var c := calls[p];
    grace > 0 && c.env.get && c.env.set_ && Lookup(Before(grace, calls, p).flags, c.ip, 0) == 0
  }

  /** Call `p` reports its address and removes the flag. */
  ghost predicate DropsAt(grace: int, calls: seq<Call>, p: nat)
    requires p < |calls|
  {
    ReportsAt(grace, calls, p) && calls[p].env.drop
  }

  /** A flag of `ip` was stored by an earlier call at the time it shows, and not removed since. */
  ghost predicate Explained(grace: int, calls: seq<Call>, ip: Str, n: nat, p: nat)
    requires n <= |calls|
  {
    && p < n && calls[p].ip == ip && StoresAt(grace, calls, p)
    && calls[p].env.now == Lookup(Before(grace, calls, n).flags, ip, 0)
    && forall q :: p < q < n && calls[q].ip == ip ==> !DropsAt(grace, calls, q)
  }

  lemma {:induction false} FlagStep(grace: int, st: State, c: Call, ip: Str)
    ensures var after := AfterBan(grace, st, c.ip, c.env);
            && (c.ip != ip ==> Entry(after.flags, ip) == Entry(st.flags, ip))
            && ((c.ip == ip && Lookup(after.flags, ip, 0) != Lookup(st.flags, ip, 0) && Lookup(after.flags, ip, 0) != 0)
                ==> (grace > 0 && c.env.get && c.env.set_ && Lookup(st.flags, ip, 0) == 0
                     && Lookup(after.flags, ip, 0) == c.env.now))
            && (after.log == st.log + [Banned(c.ip, c.env.now)] && c.env.drop ==> c.ip !in after.flags)
  {
    assert st.log + [Flagged(c.ip, c.env.now)] != st.log + [Banned(c.ip, c.env.now)] by {
      assert (st.log + [Flagged(c.ip, c.env.now)])[|st.log|] != (st.log + [Banned(c.ip, c.env.now)])[|st.log|];
    }
  }

  /** Every flag that is set can be traced to the call that stored it. */
  lemma {:induction false} FlagsExplained(grace: int, calls: seq<Call>, ip: Str, n: nat)
    requires n <= |calls| && Lookup(Before(grace, calls, n).flags, ip, 0) != 0
    ensures exists p: nat :: Explained(grace, calls, ip, n, p)
    decreases n
  {
    hide AfterBan;
    if n > 0 {
      var m := n - 1;
      var c, st := calls[m], Before(grace, calls, m);
      assert calls[..n][..m] == calls[..m] && calls[..n][m] == c;
      assert Before(grace, calls, n) == AfterBan(grace, st, c.ip, c.env);
      FlagStep(grace, st, c, ip);
      if c.ip == ip && Lookup(st.flags, ip, 0) == 0 {
        assert Explained(grace, calls, ip, n, m);
      } else {
        FlagsExplained(grace, calls, ip, m);
        var p: nat :| Explained(grace, calls, ip, m, p);
        assert Explained(grace, calls, ip, n, p);
      }
    }
  }

  /** A report under a grace period means a flag at least that old. */
  lemma {:induction false} ReportNeedsFlag(grace: int, calls: seq<Call>, q: nat)
    requires grace > 0 && q < |calls| && ReportsAt(grace, calls, q)
    ensures var flag := Lookup(Before(grace, calls, q).flags, calls[q].ip, 0);
            flag != 0 && calls[q].env.now - flag >= grace
  {
    var c, st := calls[q], Before(grace, calls, q);
    assert st.log != st.log + [Banned(c.ip, c.env.now)] by {
      assert |st.log| != |st.log + [Banned(c.ip, c.env.now)]|;
    }
    assert st.log + [Flagged(c.ip, c.env.now)] != st.log + [Banned(c.ip, c.env.now)] by {
      assert (st.log + [Flagged(c.ip, c.env.now)])[|st.log|] != (st.log + [Banned(c.ip, c.env.now)])[|st.log|];
    }
  }

  /**
   * Grace safety, whatever the locks and the socket do: every report of an address comes at least
   * the grace period after an earlier call that stored a ban request for it.
   */
  lemma {:induction false} GraceRespected(grace: int, calls: seq<Call>, q: nat)
    requires grace > 0 && q < |calls| && ReportsAt(grace, calls, q)
    ensures exists p: nat :: p < q && calls[p].ip == calls[q].ip && StoresAt(grace, calls, p)
                        && calls[q].env.now - calls[p].env.now >= grace
  {
    ReportNeedsFlag(grace, calls, q);
    FlagsExplained(grace, calls, calls[q].ip, q);
    var p: nat :| Explained(grace, calls, calls[q].ip, q, p);
  }

  /** If the first of two reports removed its flag, the next report of that address is at least the grace period later. */
  lemma {:induction false} ReportsApart(grace: int, calls: seq<Call>, p: nat, q: nat)
    requires grace > 0 && p < q < |calls| && calls[p].ip == calls[q].ip
    requires ReportsAt(grace, calls, p) && calls[p].env.drop && ReportsAt(grace, calls, q)
    requires forall i, j :: 0 <= i <= j < |calls| ==> calls[i].env.now <= calls[j].env.now
    ensures calls[q].env.now - calls[p].env.now >= grace
  {
    ReportNeedsFlag(grace, calls, q);
    FlagsExplained(grace, calls, calls[q].ip, q);
    var s: nat :| Explained(grace, calls, calls[q].ip, q, s);
    hide Run, AfterBan;
    ReportNeedsFlag(grace, calls, p);
    assert DropsAt(grace, calls, p);
    assert p < s;
  }

  /** Without a grace period nothing is ever flagged. */
  lemma {:induction false} NoGraceNoFlags(grace: int, calls: seq<Call>)
    requires grace <= 0
    ensures Run(grace, calls).flags == map[]
  {
    if calls != [] {
      NoGraceNoFlags(grace, calls[..|calls| - 1]);
    }
  }

  // ----- the same, read off the log -----

  /** A "flagged" line for `ip` with time `at` among the first `n` lines. */
  ghost predicate FlagLine(log: seq<Event>, ip: Str, at: int, n: nat) {
    exists q: nat :: q < n && q < |log| && log[q] == Flagged(ip, at)
  }

  /** Every flag has its line, and every "banned" line has a "flagged" line of its address above it, a grace period older. */
  ghost predicate Chronicle(grace: int, st: State) {
    && (forall ip :: ip in st.flags && st.flags[ip] != 0 ==> FlagLine(st.log, ip, st.flags[ip], |st.log|))
    && (forall p: nat :: p < |st.log| && st.log[p].Banned? ==>
          exists at: int :: FlagLine(st.log, st.log[p].ip, at, p) && st.log[p].at - at >= grace)
  }

  lemma {:induction false} LineStays(log: seq<Event>, e: Event, ip: Str, at: int, n: nat)
    requires FlagLine(log, ip, at, n)
    ensures FlagLine(log + [e], ip, at, n)
  {
    var q: nat :| q < n && q < |log| && log[q] == Flagged(ip, at);
    assert (log + [e])[q] == Flagged(ip, at);
  }

  /** A new line keeps all this if, being a "banned" line, it finds an old enough flag. */
  lemma {:induction false} ChronicleLine(grace: int, st: State, flags: Db<int>, e: Event)
    requires Chronicle(grace, st)
    requires forall ip :: ip in flags && flags[ip] != 0 ==>
               (ip in st.flags && flags[ip] == st.flags[ip]) || e == Flagged(ip, flags[ip])
    requires e.Banned? ==> exists at: int :: FlagLine(st.log, e.ip, at, |st.log|) && e.at - at >= grace
    ensures Chronicle(grace, State(flags, st.log + [e]))
  {
    var log := st.log + [e];
    forall ip | ip in flags && flags[ip] != 0 ensures FlagLine(log, ip, flags[ip], |log|) {
      if e == Flagged(ip, flags[ip]) {
        assert log[|st.log|] == e;
      } else {
        LineStays(st.log, e, ip, flags[ip], |st.log|);
      }
    }
    forall p: nat | p < |log| && log[p].Banned?
      ensures exists at: int :: FlagLine(log, log[p].ip, at, p) && log[p].at - at >= grace
    {
      var at: int :| FlagLine(st.log, log[p].ip, at, p) && log[p].at - at >= grace;
      LineStays(st.log, e, log[p].ip, at, p);
    }
  }

  /** Under a grace period the log of every run is such a chronicle, whatever the locks and the socket do. */
  lemma {:induction false} ChronicleKept(grace: int, st: State, ip: Str, env: BanEnv)
    requires grace > 0 && Chronicle(grace, st)
    ensures Chronicle(grace, AfterBan(grace, st, ip, env))
  {
    var after := AfterBan(grace, st, ip, env);
    hide Chronicle;
    if after.log != st.log {
      var e := if Lookup(st.flags, ip, 0) == 0 then Flagged(ip, env.now) else Banned(ip, env.now);
      assert after.log == st.log + [e];
      FlagHasLine(grace, st, ip);
      ChronicleLine(grace, st, after.flags, e);
    } else {
      assert after == st;
    }
  }

  lemma {:induction false} FlagHasLine(grace: int, st: State, ip: Str)
    requires Chronicle(grace, st)
    ensures Lookup(st.flags, ip, 0) != 0 ==> FlagLine(st.log, ip, Lookup(st.flags, ip, 0), |st.log|)
  {
  }

  lemma {:induction false} RunIsChronicle(grace: int, calls: seq<Call>)
    requires grace > 0
    ensures Chronicle(grace, Run(grace, calls))
  {
    if calls != [] {
      hide Chronicle, AfterBan;
      var n := |calls| - 1;
      RunIsChronicle(grace, calls[..n]);
      ChronicleKept(grace, Run(grace, calls[..n]), calls[n].ip, calls[n].env);
    }
  }
}
