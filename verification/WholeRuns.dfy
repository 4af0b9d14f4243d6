/** The bounds of the rate limiter, the swabber and the failure counter, for whole interleaved runs of the pipeline. */
module WholeRuns {
  import opened Bytes
  import opened IpDb
  import opened RateLimit
  import opened RegexManager
  import opened RateRuns
  import opened FailureCount
  import opened Challenger
  import opened ChallengePages
  import opened Pipeline
  import opened Isolation
  import opened Traces
  import Swabber
  import MagicWords
  import WhiteList
  import PassCheck

  // ----- the deeds of each part -----

  function VisitsIn(deeds: seq<Deed>): seq<Visit> {
    if deeds == [] then []
    else
      var d := deeds[|deeds| - 1];
      VisitsIn(deeds[..|deeds| - 1]) + if d.Visited? then [d.visit] else []
  }

  function CallsIn(deeds: seq<Deed>): seq<Swabber.Call> {
    if deeds == [] then []
    else
      var d := deeds[|deeds| - 1];
      CallsIn(deeds[..|deeds| - 1]) + if d.Asked? then [d.call] else []
  }

  function StepsIn(deeds: seq<Deed>): seq<Step> {
    if deeds == [] then []
    else
      var d := deeds[|deeds| - 1];
      StepsIn(deeds[..|deeds| - 1]) + if d.Counted? then [d.step] else []
  }

  /** The tables after runs of the three parts on their own. */
  ghost function Parts(s: Settings, deeds: seq<Deed>): World
    requires ValidSettings(s)
  {
    var steps := StepsIn(deeds);
    World(RunDb(s.rules, VisitsIn(deeds)),
          State(FailureCount.Before(steps, |steps|), Swabber.Run(s.chal.grace, CallsIn(deeds))))
  }

  lemma {:induction false} BeforeSnoc(steps: seq<Step>, step: Step, p: nat)
    requires p <= |steps|
    ensures FailureCount.Before(steps + [step], p) == FailureCount.Before(steps, p)
  {
    if p > 0 {
      BeforeSnoc(steps, step, p - 1);
    }
  }

  lemma {:induction false} PartsNext(s: Settings, deeds: seq<Deed>, d: Deed)
    requires ValidSettings(s) && ValidWorld(s, Parts(s, deeds))
    ensures Parts(s, deeds + [d]) == Apply(s, Parts(s, deeds), d)
  {
    hide Matched, Swabber.AfterBan, Next;
    assert (deeds + [d])[..|deeds|] == deeds;
    assert VisitsIn(deeds) + [] == VisitsIn(deeds) && CallsIn(deeds) + [] == CallsIn(deeds);
    assert StepsIn(deeds) + [] == StepsIn(deeds);
    match d
    case Visited(v) => assert (VisitsIn(deeds) + [v])[..|VisitsIn(deeds)|] == VisitsIn(deeds);
    case Asked(c) => assert (CallsIn(deeds) + [c])[..|CallsIn(deeds)|] == CallsIn(deeds);
    case Counted(step) =>
      var steps := StepsIn(deeds);
      BeforeSnoc(steps, step, |steps|);
      assert (steps + [step])[|steps|] == step;
  }

  lemma {:induction false} ReplayIsParts(s: Settings, deeds: seq<Deed>)
    requires ValidSettings(s)
    ensures Replay(s, CLEAN, deeds) == Parts(s, deeds)
  {
    if deeds != [] {
      hide Apply, Parts;
      var n := |deeds| - 1;
      ReplayIsParts(s, deeds[..n]);
      PartsNext(s, deeds[..n], deeds[n]);
      assert deeds[..n] + [deeds[n]] == deeds;
    }
  }

  /** A run of the pipeline leaves exactly the tables that the three parts leave, each run on its own deeds. */
  lemma {:induction false} RunIsParts(s: Settings, run: seq<Turn>)
    requires ValidSettings(s) && ValidTurns(run)
    ensures RunFrom(s, CLEAN, run) == Parts(s, RunDeeds(s, run))
  {
    hide Parts, Replay, RunFrom, RunDeeds;
    RunReplays(s, run);
    ReplayIsParts(s, RunDeeds(s, run));
  }

  // ----- grace -----

  /**
   * Over every interleaved run of requests, whatever filters ask for bans and whatever the locks do: a "banned" line in
   * the log has a "flagged" line of the same address above it that is at least the grace period older.
   */
  lemma {:induction false} GraceInRuns(s: Settings, run: seq<Turn>)
    requires ValidSettings(s) && ValidTurns(run) && s.chal.grace > 0
    ensures Swabber.Chronicle(s.chal.grace, RunFrom(s, CLEAN, run).chal.swabber)
  {
    hide Swabber.Chronicle, RunFrom;
    RunIsParts(s, run);
    Swabber.RunIsChronicle(s.chal.grace, CallsIn(RunDeeds(s, run)));
  }

  /** Without a grace period no run ever flags anybody. */
  lemma {:induction false} NoFlagsInRuns(s: Settings, run: seq<Turn>)
    requires ValidSettings(s) && ValidTurns(run) && s.chal.grace <= 0
    ensures RunFrom(s, CLEAN, run).chal.swabber.flags == map[]
  {
    hide RunFrom;
    RunIsParts(s, run);
    Swabber.NoGraceNoFlags(s.chal.grace, CallsIn(RunDeeds(s, run)));
  }

  // ----- failures -----

  /**
   * After every run the failure counter of an address is at most its failures since its entry was last absent or a
   * success was stored.
   */
  lemma {:induction false} CounterInRuns(s: Settings, run: seq<Turn>, ip: Str)
    requires ValidSettings(s) && ValidTurns(run)
    ensures var steps := StepsIn(RunDeeds(s, run));
            var a := LastAnchor(steps, ip, |steps|);
            Lookup(RunFrom(s, CLEAN, run).chal.failures, ip, 0) <= Credit(a) + Failures(steps, ip, a.at, |steps|)
  {
    hide RunFrom;
    RunIsParts(s, run);
    var steps := StepsIn(RunDeeds(s, run));
    CounterBound(steps, ip, |steps|);
  }

  // ----- rates -----

  /** Each filter is configured at most once. */
  ghost predicate Once(filters: seq<FilterKind>) {
    forall i, j :: 0 <= i < j < |filters| ==> filters[i] != filters[j]
  }

  /** The visits the rate limiter would see if every request reached it. */
  ghost function AllVisits(run: seq<Turn>): seq<Visit> {
    if run == [] then [] else AllVisits(run[..|run| - 1]) + VisitIfAny(run[|run| - 1])
  }

  function VisitIfAny(t: Turn): seq<Visit> {
    if t.Filters? then [VisitOf(t.req, t.env)] else []
  }

  lemma {:induction false} VisitsJoin(a: seq<Deed>, b: seq<Deed>)
    ensures VisitsIn(a + b) == VisitsIn(a) + VisitsIn(b)
  {
    if b == [] {
      assert a + b == a;
    } else {
      assert (a + b)[..|a + b| - 1] == a + b[..|b| - 1];
      VisitsJoin(a, b[..|b| - 1]);
    }
  }

  ghost predicate NoVisits(deeds: seq<Deed>) {
    forall k :: 0 <= k < |deeds| ==> !deeds[k].Visited?
  }

  lemma {:induction false} NoVisitsIn(deeds: seq<Deed>)
    requires NoVisits(deeds)
    ensures VisitsIn(deeds) == []
  {
    if deeds != [] {
      NoVisitsIn(deeds[..|deeds| - 1]);
    }
  }

  lemma {:induction false} RoundsNoVisits(cfg: Config, req: Request, cs: seq<Challenge>, k: nat, env: Challenger.Env,
                                          st: Challenger.State)
    requires k <= |cs|
    ensures NoVisits(RoundsDeeds(cfg, req, cs, k, env, st))
    decreases |cs| - k
  {
    if k < |cs| {
      hide Round, RoundDeeds, NoVisits;
      var (reply, after) := Round(cfg, req, cs[k], env.rounds(k), st);
      var deeds := RoundDeeds(cfg, req, cs[k], env.rounds(k), st);
      RoundNoVisits(cfg, req, cs[k], env.rounds(k), st);
      if reply.None? {
        RoundsNoVisits(cfg, req, cs, k + 1, env, after);
        NoVisitsJoin(deeds, RoundsDeeds(cfg, req, cs, k + 1, env, after));
      } else {
        assert deeds + [] == deeds;
      }
    }
  }

  lemma {:induction false} NoVisitsJoin(a: seq<Deed>, b: seq<Deed>)
    requires NoVisits(a) && NoVisits(b)
    ensures NoVisits(a + b)
  {
  }

  lemma {:induction false} FailNoVisits(req: Request, c: Challenge, env: FailEnv, st: Challenger.State)
    ensures NoVisits(FailDeeds(req, c, env, st))
  {
    hide AfterFailure;
  }

  lemma {:induction false} RoundNoVisits(cfg: Config, req: Request, c: Challenge, env: RoundEnv, st: Challenger.State)
    ensures NoVisits(RoundDeeds(cfg, req, c, env, st))
  {
    FailNoVisits(req, c, env.fail, st);
    hide Passes, Occurs, GloballyListed, FailDeeds, MagicWords.Protected, WhiteList.Listed;
  }

  lemma {:induction false} FilterVisits(s: Settings, kind: FilterKind, req: Request, env: Weather, w: World)
    requires ValidSettings(s) && ValidWorld(s, w)
    ensures VisitsIn(FilterDeeds(s, kind, req, env, w)) == if kind == RegexBanning then [VisitOf(req, env)] else []
  {
    if kind == RegexBanning {
      hide Matched;
      var first := Visited(VisitOf(req, env));
      var deeds := FilterDeeds(s, kind, req, env, w);
      assert deeds[..1] == [first] && [first][..0] == [] && VisitsIn([first]) == [first.visit];
    } else if kind == Challenging {
      var cs := Selected(s.chal, env.tables, req, env.chal);
      if cs.Some? {
        RoundsNoVisits(s.chal, req, cs.value, 0, env.chal, w.chal);
        hide RoundsDeeds;
      }
      NoVisitsIn(FilterDeeds(s, kind, req, env, w));
    } else {
      NoVisitsIn(FilterDeeds(s, kind, req, env, w));
    }
  }

  /** A request makes at most one visit, its own, and none behind the rate limiter. */
  lemma {:induction false} HandleVisits(s: Settings, k: nat, req: Request, env: Weather, w: World)
    requires ValidSettings(s) && ValidWorld(s, w) && k <= |s.filters| && Once(s.filters)
    ensures var vs := VisitsIn(HandleDeeds(s, k, req, env, w)); vs == [] || vs == [VisitOf(req, env)]
    ensures (exists i :: 0 <= i < k && s.filters[i] == RegexBanning) ==> VisitsIn(HandleDeeds(s, k, req, env, w)) == []
    decreases |s.filters| - k
  {
    hide Filtered, FilterDeeds, VisitsIn, VisitOf;
    NoVisitsIn([]);
    if k < |s.filters| {
      var (reply, after) := Filtered(s, s.filters[k], req, env, w);
      var deeds := FilterDeeds(s, s.filters[k], req, env, w);
      FilterVisits(s, s.filters[k], req, env, w);
      assert deeds + [] == deeds;
      if reply.GoAhead? || reply.ServeFresh? {
        VisitsJoin(deeds, HandleDeeds(s, k + 1, req, env, after));
        HandleVisits(s, k + 1, req, env, after);
      }
    }
  }

  lemma {:induction false} TurnVisits(s: Settings, t: Turn, w: World)
    requires ValidSettings(s) && ValidWorld(s, w) && Once(s.filters)
    ensures VisitsIn(TurnDeeds(s, t, w)) == [] || VisitsIn(TurnDeeds(s, t, w)) == VisitIfAny(t)
  {
    hide HandleDeeds, PageDeeds, VisitsIn;
    match t
    case Filters(req, env) => HandleVisits(s, 0, req, env, w);
    case Page(req, c, env) =>
      PageNoVisits(s.chal, req, c, env, w.chal);
      NoVisitsIn(PageDeeds(s.chal, req, c, env, w.chal));
  }

  lemma {:induction false} PageNoVisits(cfg: Config, req: Request, c: Challenge, env: PageEnv, st: Challenger.State)
    ensures NoVisits(PageDeeds(cfg, req, c, env, st))
  {
    FailNoVisits(req, c, env.fail, st);
    hide AnswerIn, LastFind, FailDeeds, PassCheck.CookiePasses;
  }

  /** `a` is `b` with some elements left out; `at` says where its elements are in `b`. */
  ghost predicate Embeds(a: seq<Visit>, b: seq<Visit>, at: seq<nat>) {
    && |at| == |a|
    && (forall k :: 0 <= k < |a| ==> at[k] < |b| && a[k] == b[at[k]])
    && (forall k, l :: 0 <= k < l < |a| ==> at[k] < at[l])
  }

  lemma {:induction false} EmbedsMore(a: seq<Visit>, b: seq<Visit>, at: seq<nat>, v: Visit)
    requires Embeds(a, b, at)
    ensures Embeds(a, b + [v], at) && Embeds(a + [v], b + [v], at + [|b|])
  {
  }

  lemma {:induction false} RunEmbeds(s: Settings, run: seq<Turn>)
    requires ValidSettings(s) && ValidTurns(run) && Once(s.filters)
    ensures exists at: seq<nat> :: Embeds(VisitsIn(RunDeeds(s, run)), AllVisits(run), at)
  {
    hide TurnDeeds, Embeds, RunFrom;
    if run == [] {
      EmptyEmbeds();
      var none: seq<nat> := [];
      assert VisitsIn(RunDeeds(s, run)) == [] && AllVisits(run) == [];
      assert Embeds(VisitsIn(RunDeeds(s, run)), AllVisits(run), none);
    } else {
      var n := |run| - 1;
      var t, rest := run[n], run[..n];
      var w := RunFrom(s, CLEAN, rest);
      RunEmbeds(s, rest);
      var a, b := VisitsIn(RunDeeds(s, rest)), AllVisits(rest);
      var at: seq<nat> :| Embeds(a, b, at);
      TurnVisits(s, t, w);
      VisitsJoin(RunDeeds(s, rest), TurnDeeds(s, t, w));
      var mine := VisitsIn(RunDeeds(s, run));
      assert AllVisits(run) == b + VisitIfAny(t);
      assert a + [] == a && b + [] == b;
      assert mine == a || mine == a + VisitIfAny(t);
      if t.Filters? {
        EmbedsMore(a, b, at, VisitOf(t.req, t.env));
      }
    }
  }

  lemma {:induction false} EmptyEmbeds()
    ensures Embeds([], [], [])
  {
  }

  lemma {:induction false} EmbeddedHits(rules: seq<Rule>, a: seq<Visit>, b: seq<Visit>, at: seq<nat>, ip: Str, j: nat,
                                        d: real)
    requires j < |rules| && Embeds(a, b, at) && Timed(rules, b, ip, j) && Apart(rules, b, ip, j, d)
    ensures Timed(rules, a, ip, j) && Apart(rules, a, ip, j, d)
  {
    hide IsHit;
    assert forall p :: HitAt(rules, a, ip, j, p) ==> HitAt(rules, b, ip, j, at[p]) && a[p] == b[at[p]];
  }

  /**
   * The rate bound for whole runs of requests: if the requests of an address that match a rule are at least `d` msec
   * apart, then whatever filters come first, whatever locks fail and whatever others do, the stored rate never shows
   * more than interval/d + 1 hits, and the rule bans none of them if it asks for more than that.
   */
  lemma {:induction false} RateInRuns(s: Settings, run: seq<Turn>, ip: Str, j: nat, d: real)
    requires ValidSettings(s) && ValidTurns(run) && Once(s.filters) && j < |s.rules| && d > 0.0
    requires Timed(s.rules, AllVisits(run), ip, j) && Apart(s.rules, AllVisits(run), ip, j, d)
    ensures Hits(s.rules[j].interval, Record(RunFrom(s, CLEAN, run).regex, ip, j)) <= s.rules[j].interval as real / d + 1.0
  {
    hide RunFrom, Hits, Timed, Apart, Embeds, RunDb, RunDeeds;
    RunIsParts(s, run);
    RunEmbeds(s, run);
    var a, b := VisitsIn(RunDeeds(s, run)), AllVisits(run);
    var at: seq<nat> :| Embeds(a, b, at);
    EmbeddedHits(s.rules, a, b, at, ip, j, d);
    SpacedNeverBanned(s.rules, a, ip, j, d);
  }

  /** In such a run no request of the address is banned by a rule that asks for more than interval/d + 1 hits. */
  lemma {:induction false} SpacedInRuns(s: Settings, run: seq<Turn>, ip: Str, j: nat, d: real, n: nat)
    requires ValidSettings(s) && ValidTurns(run) && Once(s.filters) && j < |s.rules| && d > 0.0
    requires Timed(s.rules, AllVisits(run), ip, j) && Apart(s.rules, AllVisits(run), ip, j, d)
    requires n < |run| && run[n].Filters? && run[n].req.ip == ip
    requires s.rules[j].interval as real / d + 1.0 < s.rules[j].hits as real
    ensures Matched(s.rules, VisitOf(run[n].req, run[n].env), RunFrom(s, CLEAN, run[..n]).regex).hit != Some(j)
  {
    hide RunFrom, Timed, Apart, Embeds, RunDeeds, Matched;
    var before, v := run[..n], VisitOf(run[n].req, run[n].env);
    RunIsParts(s, before);
    RunEmbeds(s, before);
    var a, b := VisitsIn(RunDeeds(s, before)), AllVisits(before);
    var at: seq<nat> :| Embeds(a, b, at);
    EmbedsMore(a, b, at, v);
    UpToHere(s.rules, run, n, ip, j, d);
    EmbeddedHits(s.rules, a + [v], b + [v], at + [|b|], ip, j, d);
    SpacedNeverBanned(s.rules, a + [v], ip, j, d);
    BanAtLast(s.rules, a, v);
  }

  lemma {:induction false} BanAtLast(rules: seq<Rule>, a: seq<Visit>, v: Visit)
    requires ValidRules(rules)
    ensures BanAt(rules, a + [v], |a|) == Matched(rules, v, RunDb(rules, a)).hit
  {
    hide Matched;
    assert (a + [v])[..|a|] == a;
  }

  lemma {:induction false} VisitsUpTo(run: seq<Turn>, n: nat)
    requires n < |run| && run[n].Filters?
    ensures AllVisits(run[..n + 1]) == AllVisits(run[..n]) + [VisitOf(run[n].req, run[n].env)]
    ensures AllVisits(run[..n + 1]) <= AllVisits(run)
  {
    assert run[..n + 1][..n] == run[..n];
    Prefix(run, n + 1);
  }

  lemma {:induction false} Prefix(run: seq<Turn>, n: nat)
    requires n <= |run|
    ensures AllVisits(run[..n]) <= AllVisits(run)
  {
    if n < |run| {
      assert run[..|run| - 1][..n] == run[..n];
      Prefix(run[..|run| - 1], n);
    } else {
      assert run[..n] == run;
    }
  }

  lemma {:induction false} UpToHere(rules: seq<Rule>, run: seq<Turn>, n: nat, ip: Str, j: nat, d: real)
    requires j < |rules| && n < |run| && run[n].Filters? && Timed(rules, AllVisits(run), ip, j)
    requires Apart(rules, AllVisits(run), ip, j, d)
    ensures var upto := AllVisits(run[..n]) + [VisitOf(run[n].req, run[n].env)];
            Timed(rules, upto, ip, j) && Apart(rules, upto, ip, j, d)
  {
    VisitsUpTo(run, n);
    hide IsHit, AllVisits;
    var upto, all := AllVisits(run[..n]) + [VisitOf(run[n].req, run[n].env)], AllVisits(run);
    assert forall p :: 0 <= p < |upto| ==> upto[p] == all[p];
    assert forall p :: HitAt(rules, upto, ip, j, p) ==> HitAt(rules, all, ip, j, p);
  }

  /** The rate never shows more hits than were recorded, in any run of requests. */
  lemma {:induction false} CountInRuns(s: Settings, run: seq<Turn>, ip: Str, j: nat)
    requires ValidSettings(s) && ValidTurns(run) && j < |s.rules| && Timed(s.rules, VisitsIn(RunDeeds(s, run)), ip, j)
    ensures var visits := VisitsIn(RunDeeds(s, run));
            0.0 <= Hits(s.rules[j].interval, Record(RunFrom(s, CLEAN, run).regex, ip, j))
                <= RecordedCount(s.rules, visits, ip, j) as real <= HitCount(s.rules, visits, ip, j) as real
  {
    hide RunFrom, Hits, Timed, RunDb, RunDeeds, RecordedCount, HitCount;
    RunIsParts(s, run);
    NeverOvercounts(s.rules, VisitsIn(RunDeeds(s, run)), ip, j);
  }

  /** Within one window of its first hit, a rule bans a request that reaches the limiter exactly from the `hits`-th hit on. */
  lemma {:induction false} ExactInRuns(s: Settings, run: seq<Turn>, ip: Str, j: nat, first: nat, n: nat)
    requires ValidSettings(s) && ValidTurns(run) && j < |s.rules| && first > 0 && s.rules[j].hits > 0
    requires n < |run| && run[n].Filters? && run[n].req.ip == ip
    requires OneWindow(s.rules, VisitsIn(RunDeeds(s, run[..n])) + [VisitOf(run[n].req, run[n].env)], ip, j, first)
    ensures var v, earlier := VisitOf(run[n].req, run[n].env), VisitsIn(RunDeeds(s, run[..n]));
            Matched(s.rules, v, RunFrom(s, CLEAN, run[..n]).regex).hit == Some(j)
            <==> IsHit(s.rules, v, j) && HitCount(s.rules, earlier + [v], ip, j) >= s.rules[j].hits
  {
    hide RunFrom, RunDeeds, Matched, OneWindow, HitCount, IsHit;
    RunIsParts(s, run[..n]);
    var a, v := VisitsIn(RunDeeds(s, run[..n])), VisitOf(run[n].req, run[n].env);
    BansAtExactly(s.rules, a + [v], ip, j, first);
    BanAtLast(s.rules, a, v);
  }

  /** A request that comes two intervals after all earlier hits leaves the rate at one at most. */
  lemma {:induction false} SilenceInRuns(s: Settings, run: seq<Turn>, ip: Str, j: nat, n: nat)
    requires ValidSettings(s) && ValidTurns(run) && j < |s.rules|
    requires n < |run| && run[n].Filters? && run[n].req.ip == ip && IsHit(s.rules, VisitOf(run[n].req, run[n].env), j)
    requires var visits := VisitsIn(RunDeeds(s, run[..n])) + [VisitOf(run[n].req, run[n].env)];
             && Timed(s.rules, visits, ip, j)
             && forall p :: HitAt(s.rules, visits, ip, j, p) && p < |visits| - 1
                  ==> visits[|visits| - 1].env.now(j) >= visits[p].env.now(j) + 2 * s.rules[j].interval
    ensures var v := VisitOf(run[n].req, run[n].env);
            Hits(s.rules[j].interval, After(s.rules, v, RunFrom(s, CLEAN, run[..n]).regex, j)) <= 1.0
  {
    hide RunFrom, RunDeeds, Matched, Timed, IsHit, Hits, After;
    RunIsParts(s, run[..n]);
    var a, v := VisitsIn(RunDeeds(s, run[..n])), VisitOf(run[n].req, run[n].env);
    assert (a + [v])[..|a|] == a;
    SilenceResets(s.rules, a + [v], ip, j);
  }

  /** An address that keeps failing one challenge is banned by exactly the T-th failure of a run of requests. */
  lemma {:induction false} BannedInRuns(s: Settings, run: seq<Turn>, ip: Str, t: nat, lo: nat, p: nat)
    requires ValidSettings(s) && ValidTurns(run) && t >= 1 && lo <= p < |StepsIn(RunDeeds(s, run))|
    requires var steps := StepsIn(RunDeeds(s, run));
             && KeepsFailing(steps, ip, t, lo, p + 1) && ip !in FailureCount.Before(steps, lo)
             && steps[p].ip == ip && Failures(steps, ip, lo, p) < t
    ensures var steps := StepsIn(RunDeeds(s, run));
            && (BansAt(steps, p) <==> Failures(steps, ip, lo, p + 1) == t)
            && (BansAt(steps, p) && p + 1 == |steps| ==> ip !in RunFrom(s, CLEAN, run).chal.failures)
  {
    hide RunFrom, RunDeeds;
    RunIsParts(s, run);
    BannedOnExactly(StepsIn(RunDeeds(s, run)), ip, t, lo, p);
  }
}
