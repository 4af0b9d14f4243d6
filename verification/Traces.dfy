/** Whole runs of the pipeline as runs of its parts: the theorems about the parts hold for every interleaved run. */
module Traces {
  import opened Bytes
  import opened IpDb
  import opened RegexManager
  import opened PassCheck
  import opened FailureCount
  import opened Challenger
  import opened ChallengePages
  import opened Pipeline
  import opened Isolation
  import MagicWords
  import WhiteList
  import Swabber

  /** What requests do to the tables: a visit to the rate limiter, a ban request, an update of the failure counter. */
  datatype Deed = Visited(visit: Visit) | Asked(call: Swabber.Call) | Counted(step: Step)

  const CLEAN := World(map[], State(map[], Swabber.State(map[], [])))

  ghost function Apply(s: Settings, w: World, d: Deed): (r: World)
    requires ValidSettings(s) && ValidWorld(s, w)
    ensures ValidWorld(s, r)
  {
    match d
    case Visited(v) =>
      MatchedEffect(s.rules, v, w.regex);
      World(Matched(s.rules, v, w.regex).db, w.chal)
    case Asked(c) => w.(chal := w.chal.(swabber := Swabber.AfterBan(s.chal.grace, w.chal.swabber, c.ip, c.env)))
    case Counted(step) => w.(chal := w.chal.(failures := Next(w.chal.failures, step)))
  }

  ghost function Replay(s: Settings, w: World, deeds: seq<Deed>): (r: World)
    requires ValidSettings(s) && ValidWorld(s, w)
    ensures ValidWorld(s, r)
  {
    if deeds == [] then w else Apply(s, Replay(s, w, deeds[..|deeds| - 1]), deeds[|deeds| - 1])
  }

  lemma {:induction false} ReplayJoins(s: Settings, w: World, a: seq<Deed>, b: seq<Deed>)
    requires ValidSettings(s) && ValidWorld(s, w)
    ensures Replay(s, w, a + b) == Replay(s, Replay(s, w, a), b)
  {
    hide Apply;
    if b == [] {
      assert a + b == a;
    } else {
      var n := |b| - 1;
      assert (a + b)[..|a + b| - 1] == a + b[..n];
      ReplayJoins(s, w, a, b[..n]);
    }
  }

  lemma {:induction false} ReplayOne(s: Settings, w: World, d: Deed)
    requires ValidSettings(s) && ValidWorld(s, w)
    ensures Replay(s, w, [d]) == Apply(s, w, d)
  {
    hide Apply;
    assert [d][..0] == [];
  }

  // ----- the deeds of a request -----

  function FailDeeds(req: Request, c: Challenge, env: FailEnv, st: Challenger.State): seq<Deed> {
    if c.threshold == 0 then []
    else
      [Counted(Failure(req.ip, c.threshold, env))]
      + if AfterFailure(st.failures, req.ip, c.threshold, env).0 then [Asked(Swabber.Call(req.ip, env.ban))] else []
  }

  /** One turn of the challenger's loop. */
  ghost function RoundDeeds(cfg: Config, req: Request, c: Challenge, env: RoundEnv, st: Challenger.State): seq<Deed> {
    if WhiteList.Listed(c.whiteListed, cfg.inet(req.ip)) then []
    else match c.kind
      case Captcha =>
        if GloballyListed(cfg, req.ip) || Occurs(req.urlWithHost, CAPTCHA_URL) || Occurs(req.urlWithHost, ANSWER_URL) then []
        else if Passes(cfg, req, c, env) then [Counted(Success(req.ip, env.success))]
        else FailDeeds(req, c, env.fail, st)
      case ShaInverse =>
        if GloballyListed(cfg, req.ip) || Passes(cfg, req, c, env) then [] else FailDeeds(req, c, env.fail, st)
      case Auth =>
        if Passes(cfg, req, c, env) then [Counted(Success(req.ip, env.success))]
        else if MagicWords.Protected(req.urlWithHost, c.words, c.exceptions) then FailDeeds(req, c, env.fail, st)
        else []
  }

  ghost function RoundsDeeds(cfg: Config, req: Request, cs: seq<Challenge>, k: nat, env: Challenger.Env,
                             st: Challenger.State): seq<Deed>
    requires k <= |cs|
    decreases |cs| - k
  {
    if k == |cs| then [Counted(Success(req.ip, env.last))]
    else
      var (reply, after) := Round(cfg, req, cs[k], env.rounds(k), st);
      RoundDeeds(cfg, req, cs[k], env.rounds(k), st) + if reply.Some? then [] else RoundsDeeds(cfg, req, cs, k + 1, env, after)
  }

  /** The Denialator asks for a ban of a flagged address when the grace period is over. */
  function DenyDeeds(grace: int, listed: bool, st: Swabber.State, ip: Str, env: Swabber.DenyEnv): seq<Deed> {
    if !listed && env.get && Lookup(st.flags, ip, 0) != 0 && env.now - Lookup(st.flags, ip, 0) >= grace
    then [Asked(Swabber.Call(ip, env.ban))] else []
  }

  ghost function FilterDeeds(s: Settings, kind: FilterKind, req: Request, env: Weather, w: World): seq<Deed>
    requires ValidSettings(s) && ValidWorld(s, w)
  {
    match kind
    case WhiteListing => []
    case Denying => DenyDeeds(s.chal.grace, GloballyListed(s.chal, req.ip), w.chal.swabber, req.ip, env.deny)
    case RegexBanning =>
      [Visited(VisitOf(req, env))]
      + if Matched(s.rules, VisitOf(req, env), w.regex).hit.Some? then [Asked(Swabber.Call(req.ip, env.ban))] else []
    case Challenging =>
      match Selected(s.chal, env.tables, req, env.chal)
      case None => []
      case Some(cs) => RoundsDeeds(s.chal, req, cs, 0, env.chal, w.chal)
  }

  ghost function HandleDeeds(s: Settings, k: nat, req: Request, env: Weather, w: World): seq<Deed>
    requires ValidSettings(s) && ValidWorld(s, w) && k <= |s.filters|
    decreases |s.filters| - k
  {
    if k == |s.filters| then []
    else
      var (reply, after) := Filtered(s, s.filters[k], req, env, w);
      FilterDeeds(s, s.filters[k], req, env, w)
      + if reply.GoAhead? || reply.ServeFresh? then HandleDeeds(s, k + 1, req, env, after) else []
  }

  ghost function PageDeeds(cfg: Config, req: Request, c: Challenge, env: PageEnv, st: Challenger.State): seq<Deed> {
    if LastFind(req.urlWithHost, CAPTCHA_URL).Some? then []
    else match AnswerIn(req.urlWithHost)
      case None => []
      case Some(answer) =>
        if CookiePasses(cfg.secrets, answer, req.cookie, req.ip, c.kind, c.passwordHash, env.now, env.beyond) then []
        else FailDeeds(req, c, env.fail, st)
  }

  /** The deeds of a turn: the filters of a request, or its page. */
  ghost function TurnDeeds(s: Settings, t: Turn, w: World): seq<Deed>
    requires ValidSettings(s) && ValidWorld(s, w)
  {
    match t
    case Filters(req, env) => HandleDeeds(s, 0, req, env, w)
    case Page(req, c, env) => PageDeeds(s.chal, req, c, env, w.chal)
  }

  ghost function RunDeeds(s: Settings, run: seq<Turn>): seq<Deed>
    requires ValidSettings(s) && ValidTurns(run)
  {
    if run == [] then []
    else
      var n := |run| - 1;
      RunDeeds(s, run[..n]) + TurnDeeds(s, run[n], RunFrom(s, CLEAN, run[..n]))
  }

  // ----- replaying them gives what the request leaves -----

  lemma {:induction false} FailReplays(s: Settings, req: Request, c: Challenge, clear: bool, env: FailEnv, w: World)
    requires ValidSettings(s) && ValidWorld(s, w)
    ensures Replay(s, w, FailDeeds(req, c, env, w.chal)) == World(w.regex, Failed(s.chal, req, c, clear, env, w.chal).1)
  {
    if c.threshold != 0 {
      var first := Counted(Failure(req.ip, c.threshold, env));
      ReplayOne(s, w, first);
      hide Swabber.AfterBan, AfterFailure;
      if AfterFailure(w.chal.failures, req.ip, c.threshold, env).0 {
        var second := Asked(Swabber.Call(req.ip, env.ban));
        ReplayJoins(s, w, [first], [second]);
        ReplayOne(s, Apply(s, w, first), second);
      } else {
        assert [first] + [] == [first];
      }
    }
  }

  lemma {:induction false} RoundReplays(s: Settings, req: Request, c: Challenge, env: RoundEnv, w: World)
    requires ValidSettings(s) && ValidWorld(s, w)
    ensures Replay(s, w, RoundDeeds(s.chal, req, c, env, w.chal)) == World(w.regex, Round(s.chal, req, c, env, w.chal).1)
  {
    hide FailDeeds, Failed, Passes, Occurs, MagicWords.Protected, WhiteList.Listed, GloballyListed, Replay, AfterSuccess;
    FailReplays(s, req, c, c.kind != Captcha, env.fail, w);
    SuccessReplays(s, req.ip, env.success, w);
    ReplayNone(s, w);
  }

  lemma {:induction false} SuccessReplays(s: Settings, ip: Str, locked: bool, w: World)
    requires ValidSettings(s) && ValidWorld(s, w)
    ensures Replay(s, w, [Counted(Success(ip, locked))])
         == World(w.regex, w.chal.(failures := AfterSuccess(w.chal.failures, ip, locked)))
  {
    ReplayOne(s, w, Counted(Success(ip, locked)));
  }

  lemma {:induction false} ReplayNone(s: Settings, w: World)
    requires ValidSettings(s) && ValidWorld(s, w)
    ensures Replay(s, w, []) == w
  {
  }

  lemma {:induction false} RoundsReplay(s: Settings, req: Request, cs: seq<Challenge>, k: nat, env: Challenger.Env,
                                        w: World)
    requires ValidSettings(s) && ValidWorld(s, w) && k <= |cs|
    ensures Replay(s, w, RoundsDeeds(s.chal, req, cs, k, env, w.chal))
         == World(w.regex, Rounds(s.chal, req, cs, k, env, w.chal).1)
    decreases |cs| - k
  {
    hide Round, RoundDeeds, Replay;
    if k == |cs| {
      ReplayOne(s, w, Counted(Success(req.ip, env.last)));
    } else {
      RoundReplays(s, req, cs[k], env.rounds(k), w);
      var (reply, st) := Round(s.chal, req, cs[k], env.rounds(k), w.chal);
      var deeds := RoundDeeds(s.chal, req, cs[k], env.rounds(k), w.chal);
      if reply.Some? {
        assert deeds + [] == deeds;
      } else {
        ReplayJoins(s, w, deeds, RoundsDeeds(s.chal, req, cs, k + 1, env, st));
        RoundsReplay(s, req, cs, k + 1, env, World(w.regex, st));
      }
    }
  }

  lemma {:induction false} DenyReplays(s: Settings, req: Request, env: Weather, w: World)
    requires ValidSettings(s) && ValidWorld(s, w)
    ensures Replay(s, w, FilterDeeds(s, Denying, req, env, w)) == Filtered(s, Denying, req, env, w).1
  {
    hide Swabber.AfterBan, GloballyListed, Replay;
    ReplayNone(s, w);
    ReplayOne(s, w, Asked(Swabber.Call(req.ip, env.deny.ban)));
  }

  lemma {:induction false} RegexReplays(s: Settings, req: Request, env: Weather, w: World)
    requires ValidSettings(s) && ValidWorld(s, w)
    ensures Replay(s, w, FilterDeeds(s, RegexBanning, req, env, w)) == Filtered(s, RegexBanning, req, env, w).1
  {
    hide Swabber.AfterBan, Matched, Replay;
    var first := Visited(VisitOf(req, env));
    ReplayOne(s, w, first);
    if Matched(s.rules, first.visit, w.regex).hit.Some? {
      var second := Asked(Swabber.Call(req.ip, env.ban));
      ReplayJoins(s, w, [first], [second]);
      ReplayOne(s, Apply(s, w, first), second);
    } else {
      assert [first] + [] == [first];
    }
  }

  lemma {:induction false} FilterReplays(s: Settings, kind: FilterKind, req: Request, env: Weather, w: World)
    requires ValidSettings(s) && ValidWorld(s, w)
    ensures Replay(s, w, FilterDeeds(s, kind, req, env, w)) == Filtered(s, kind, req, env, w).1
  {
    match kind
    case WhiteListing =>
    case Denying => DenyReplays(s, req, env, w);
    case RegexBanning => RegexReplays(s, req, env, w);
    case Challenging =>
      hide Rounds, RoundsDeeds, Replay;
      ReplayNone(s, w);
      var cs := Selected(s.chal, env.tables, req, env.chal);
      if cs.Some? {
        RoundsReplay(s, req, cs.value, 0, env.chal, w);
      }
  }

  lemma {:induction false} HandleReplays(s: Settings, k: nat, req: Request, env: Weather, w: World, marks: Verdict)
    requires ValidSettings(s) && ValidWorld(s, w) && k <= |s.filters| && marks.Proceed?
    ensures Replay(s, w, HandleDeeds(s, k, req, env, w)) == Handled(s, k, req, env, w, marks).1
    decreases |s.filters| - k
  {
    hide Filtered, FilterDeeds, Replay;
    ReplayNone(s, w);
    if k < |s.filters| {
      FilterReplays(s, s.filters[k], req, env, w);
      var (reply, after) := Filtered(s, s.filters[k], req, env, w);
      var deeds := FilterDeeds(s, s.filters[k], req, env, w);
      assert deeds + [] == deeds;
      if reply.GoAhead? || reply.ServeFresh? {
        ReplayJoins(s, w, deeds, HandleDeeds(s, k + 1, req, env, after));
        HandleReplays(s, k + 1, req, env, after, if reply.GoAhead? then marks else Proceed(true, true));
      }
    }
  }

  lemma {:induction false} PageReplays(s: Settings, req: Request, c: Challenge, env: PageEnv, w: World)
    requires ValidSettings(s) && ValidWorld(s, w) && InTime(env)
    ensures Replay(s, w, PageDeeds(s.chal, req, c, env, w.chal)) == World(w.regex, Html(s.chal, req, c, env, w.chal).1)
  {
    FailReplays(s, req, c, false, env.fail, w);
    hide FailDeeds, CookiePasses, LastFind, AnswerIn, Replay, AfterFailure, Swabber.AfterBan, PassFor;
    ReplayNone(s, w);
  }

  /** A turn changes the tables by its deeds and in no other way. */
  lemma {:induction false} TurnReplays(s: Settings, t: Turn, w: World)
    requires ValidSettings(s) && ValidWorld(s, w) && ValidTurn(t)
    ensures Replay(s, w, TurnDeeds(s, t, w)) == Taken(s, t, w).1
  {
    hide Handled, HandleDeeds, Html, PageDeeds, Replay;
    match t
    case Filters(req, env) => HandleReplays(s, 0, req, env, w, Proceed(false, false));
    case Page(req, c, env) => PageReplays(s, req, c, env, w);
  }

  lemma {:induction false} RunReplays(s: Settings, run: seq<Turn>)
    requires ValidSettings(s) && ValidTurns(run)
    ensures Replay(s, CLEAN, RunDeeds(s, run)) == RunFrom(s, CLEAN, run)
  {
    hide Taken, TurnDeeds, Replay;
    ReplayNone(s, CLEAN);
    if run != [] {
      var n := |run| - 1;
      var w := RunFrom(s, CLEAN, run[..n]);
      RunReplays(s, run[..n]);
      ReplayJoins(s, CLEAN, RunDeeds(s, run[..n]), TurnDeeds(s, run[n], w));
      TurnReplays(s, run[n], w);
    }
  }
}
