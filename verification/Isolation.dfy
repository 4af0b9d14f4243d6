/** One address cannot see another: whole runs of the pipeline, projected on an address. */
module Isolation {
  import opened Bytes
  import opened IpDb
  import opened RateLimit
  import opened RegexManager
  import opened PassCheck
  import opened FailureCount
  import opened Challenger
  import opened ChallengePages
  import opened Pipeline
  import PassToken
  import MagicWords
  import WhiteList
  import Swabber

  // ----- what belongs to an address -----

  /** The log lines about an address. */
  function LogOf(log: seq<Swabber.Event>, ip: Str): seq<Swabber.Event> {
    if log == [] then []
    else
      var e := log[|log| - 1];
      LogOf(log[..|log| - 1], ip) + if e.ip == ip then [e] else []
  }

  lemma {:induction false} LogSnoc(log: seq<Swabber.Event>, e: Swabber.Event, ip: Str)
    ensures LogOf(log + [e], ip) == LogOf(log, ip) + if e.ip == ip then [e] else []
  {
    assert (log + [e])[..|log|] == log;
  }

  /** Two swabber states agree on an address. */
  ghost predicate SameFlag(a: Swabber.State, b: Swabber.State, ip: Str) {
    Entry(a.flags, ip) == Entry(b.flags, ip) && LogOf(a.log, ip) == LogOf(b.log, ip)
  }

  ghost predicate SameState(a: Challenger.State, b: Challenger.State, ip: Str) {
    Entry(a.failures, ip) == Entry(b.failures, ip) && SameFlag(a.swabber, b.swabber, ip)
  }

  /** Two worlds hold the same entries and the same log lines for an address. */
  ghost predicate Same(a: World, b: World, ip: Str) {
    Entry(a.regex, ip) == Entry(b.regex, ip) && SameState(a.chal, b.chal, ip)
  }

  // ----- swabber -----

  lemma {:induction false} BanLocal(grace: int, a: Swabber.State, b: Swabber.State, ip: Str, env: Swabber.BanEnv)
    requires SameFlag(a, b, ip)
    ensures SameFlag(Swabber.AfterBan(grace, a, ip, env), Swabber.AfterBan(grace, b, ip, env), ip)
  {
    LogSnoc(a.log, Swabber.Flagged(ip, env.now), ip);
    LogSnoc(b.log, Swabber.Flagged(ip, env.now), ip);
    LogSnoc(a.log, Swabber.Banned(ip, env.now), ip);
    LogSnoc(b.log, Swabber.Banned(ip, env.now), ip);
    hide LogOf;
  }

  lemma {:induction false} BanForeign(grace: int, a: Swabber.State, from: Str, env: Swabber.BanEnv, ip: Str)
    requires ip != from
    ensures SameFlag(Swabber.AfterBan(grace, a, from, env), a, ip)
  {
    LogSnoc(a.log, Swabber.Flagged(from, env.now), ip);
    LogSnoc(a.log, Swabber.Banned(from, env.now), ip);
    hide LogOf;
  }

  lemma {:induction false} DenyLocal(grace: int, listed: bool, a: Swabber.State, b: Swabber.State, ip: Str,
                                     env: Swabber.DenyEnv)
    requires SameFlag(a, b, ip)
    ensures Swabber.Deny(grace, listed, a, ip, env).0 == Swabber.Deny(grace, listed, b, ip, env).0
    ensures SameFlag(Swabber.Deny(grace, listed, a, ip, env).1, Swabber.Deny(grace, listed, b, ip, env).1, ip)
  {
    hide Swabber.AfterBan, LogOf;
    BanLocal(grace, a, b, ip, env.ban);
  }

  lemma {:induction false} DenyForeign(grace: int, listed: bool, a: Swabber.State, from: Str, env: Swabber.DenyEnv,
                                       ip: Str)
    requires ip != from
    ensures SameFlag(Swabber.Deny(grace, listed, a, from, env).1, a, ip)
  {
    hide Swabber.AfterBan, LogOf;
    BanForeign(grace, a, from, env.ban, ip);
  }

  // ----- rate limiter -----

  lemma {:induction false} ScanLocal(rules: seq<Rule>, v: Visit, a: RegexDb, b: RegexDb, k: nat,
                                     st: Option<seq<RegexState>>)
    requires ValidRules(rules) && ValidDb(rules, a) && ValidDb(rules, b) && k <= |rules|
    requires (st.Some? ==> |st.value| == |rules|) && Entry(a, v.ip) == Entry(b, v.ip)
    ensures Scan(rules, v, a, k, st).hit == Scan(rules, v, b, k, st).hit
    ensures Entry(Scan(rules, v, a, k, st).db, v.ip) == Entry(Scan(rules, v, b, k, st).db, v.ip)
    decreases |rules| - k
  {
    hide Bump, Threshold;
    if k < |rules| && v.host !in rules[k].hostsToSkip {
      if !rules[k].matches(v.record) {
        ScanLocal(rules, v, a, b, k + 1, st);
      } else if rules[k].hits > 0 {
        var held := Loaded(rules, v, a, k, st);
        assert held == Loaded(rules, v, b, k, st);
        if held.None? {
          ScanLocal(rules, v, a, b, k + 1, None);
        } else {
          var s := Bump(rules[k].interval, held.value[k], v.env.now(k));
          ScanLocal(rules, v, a, b, k + 1, Some(held.value[k := s]));
        }
      }
    }
  }

  lemma {:induction false} RegexLocal(s: Settings, req: Request, env: Weather, a: World, b: World)
    requires ValidSettings(s) && ValidWorld(s, a) && ValidWorld(s, b) && Same(a, b, req.ip)
    ensures RegexChecked(s, req, env, a).0 == RegexChecked(s, req, env, b).0
    ensures Same(RegexChecked(s, req, env, a).1, RegexChecked(s, req, env, b).1, req.ip)
  {
    hide Swabber.AfterBan, LogOf, Scan;
    ScanLocal(s.rules, VisitOf(req, env), a.regex, b.regex, 0, None);
    BanLocal(s.chal.grace, a.chal.swabber, b.chal.swabber, req.ip, env.ban);
  }

  lemma {:induction false} RegexForeign(s: Settings, req: Request, env: Weather, a: World, ip: Str)
    requires ValidSettings(s) && ValidWorld(s, a) && ip != req.ip
    ensures Same(RegexChecked(s, req, env, a).1, a, ip)
  {
    hide Swabber.AfterBan, LogOf, Matched;
    MatchedEffect(s.rules, VisitOf(req, env), a.regex);
    BanForeign(s.chal.grace, a.chal.swabber, req.ip, env.ban, ip);
  }

  // ----- challenger -----

  lemma {:induction false} FailedLocal(cfg: Config, req: Request, c: Challenge, clear: bool, env: FailEnv,
                                       a: Challenger.State, b: Challenger.State)
    requires SameState(a, b, req.ip)
    ensures Failed(cfg, req, c, clear, env, a).0 == Failed(cfg, req, c, clear, env, b).0
    ensures SameState(Failed(cfg, req, c, clear, env, a).1, Failed(cfg, req, c, clear, env, b).1, req.ip)
  {
    hide Swabber.AfterBan, LogOf;
    BanLocal(cfg.grace, a.swabber, b.swabber, req.ip, env.ban);
  }

  lemma {:induction false} FailedForeign(cfg: Config, req: Request, c: Challenge, clear: bool, env: FailEnv,
                                         a: Challenger.State, ip: Str)
    requires ip != req.ip
    ensures SameState(Failed(cfg, req, c, clear, env, a).1, a, ip)
  {
    hide Swabber.AfterBan, LogOf;
    BanForeign(cfg.grace, a.swabber, req.ip, env.ban, ip);
  }

  lemma {:induction false} RoundLocal(cfg: Config, req: Request, c: Challenge, env: RoundEnv,
                                      a: Challenger.State, b: Challenger.State)
    requires SameState(a, b, req.ip)
    ensures Round(cfg, req, c, env, a).0 == Round(cfg, req, c, env, b).0
    ensures SameState(Round(cfg, req, c, env, a).1, Round(cfg, req, c, env, b).1, req.ip)
  {
    hide Failed, Passes, Occurs, MagicWords.Protected, WhiteList.Listed, LogOf;
    FailedLocal(cfg, req, c, false, env.fail, a, b);
    FailedLocal(cfg, req, c, true, env.fail, a, b);
  }

  lemma {:induction false} RoundForeign(cfg: Config, req: Request, c: Challenge, env: RoundEnv, a: Challenger.State,
                                        ip: Str)
    requires ip != req.ip
    ensures SameState(Round(cfg, req, c, env, a).1, a, ip)
  {
    hide Failed, Passes, Occurs, MagicWords.Protected, WhiteList.Listed, LogOf;
    FailedForeign(cfg, req, c, false, env.fail, a, ip);
    FailedForeign(cfg, req, c, true, env.fail, a, ip);
  }

  lemma {:induction false} RoundsLocal(cfg: Config, req: Request, cs: seq<Challenge>, k: nat, env: Challenger.Env,
                                       a: Challenger.State, b: Challenger.State)
    requires k <= |cs| && SameState(a, b, req.ip)
    ensures Rounds(cfg, req, cs, k, env, a).0 == Rounds(cfg, req, cs, k, env, b).0
    ensures SameState(Rounds(cfg, req, cs, k, env, a).1, Rounds(cfg, req, cs, k, env, b).1, req.ip)
    decreases |cs| - k
  {
    hide Round, LogOf;
    if k < |cs| {
      RoundLocal(cfg, req, cs[k], env.rounds(k), a, b);
      var (r, a') := Round(cfg, req, cs[k], env.rounds(k), a);
      if r.None? {
        RoundsLocal(cfg, req, cs, k + 1, env, a', Round(cfg, req, cs[k], env.rounds(k), b).1);
      }
    }
  }

  lemma {:induction false} RoundsForeign(cfg: Config, req: Request, cs: seq<Challenge>, k: nat, env: Challenger.Env,
                                         a: Challenger.State, ip: Str)
    requires k <= |cs| && ip != req.ip
    ensures SameState(Rounds(cfg, req, cs, k, env, a).1, a, ip)
    decreases |cs| - k
  {
    hide Round, LogOf;
    if k < |cs| {
      RoundForeign(cfg, req, cs[k], env.rounds(k), a, ip);
      var (r, a') := Round(cfg, req, cs[k], env.rounds(k), a);
      if r.None? {
        RoundsForeign(cfg, req, cs, k + 1, env, a', ip);
      }
    }
  }

  // ----- the pipeline -----

  lemma {:induction false} FilterLocal(s: Settings, kind: FilterKind, req: Request, env: Weather, a: World, b: World)
    requires ValidSettings(s) && ValidWorld(s, a) && ValidWorld(s, b) && Same(a, b, req.ip)
    ensures Filtered(s, kind, req, env, a).0 == Filtered(s, kind, req, env, b).0
    ensures Same(Filtered(s, kind, req, env, a).1, Filtered(s, kind, req, env, b).1, req.ip)
  {
    hide RegexChecked, Rounds, Swabber.Deny, LogOf, WhiteList.ListedFor;
    match kind
    case WhiteListing =>
    case Denying => DenyLocal(s.chal.grace, GloballyListed(s.chal, req.ip), a.chal.swabber, b.chal.swabber, req.ip, env.deny);
    case RegexBanning => RegexLocal(s, req, env, a, b);
    case Challenging =>
      var cs := Selected(s.chal, env.tables, req, env.chal);
      if cs.Some? {
        RoundsLocal(s.chal, req, cs.value, 0, env.chal, a.chal, b.chal);
      }
  }

  lemma {:induction false} FilterForeign(s: Settings, kind: FilterKind, req: Request, env: Weather, a: World, ip: Str)
    requires ValidSettings(s) && ValidWorld(s, a) && ip != req.ip
    ensures Same(Filtered(s, kind, req, env, a).1, a, ip)
  {
    hide RegexChecked, Rounds, Swabber.Deny, LogOf, WhiteList.ListedFor;
    match kind
    case WhiteListing =>
    case Denying => DenyForeign(s.chal.grace, GloballyListed(s.chal, req.ip), a.chal.swabber, req.ip, env.deny, ip);
    case RegexBanning => RegexForeign(s, req, env, a, ip);
    case Challenging =>
      var cs := Selected(s.chal, env.tables, req, env.chal);
      if cs.Some? {
        RoundsForeign(s.chal, req, cs.value, 0, env.chal, a.chal, ip);
      }
  }

  lemma {:induction false} HandledLocal(s: Settings, k: nat, req: Request, env: Weather, a: World, b: World,
                                        marks: Verdict)
    requires ValidSettings(s) && ValidWorld(s, a) && ValidWorld(s, b) && Same(a, b, req.ip)
    requires k <= |s.filters| && marks.Proceed?
    ensures Handled(s, k, req, env, a, marks).0 == Handled(s, k, req, env, b, marks).0
    ensures Same(Handled(s, k, req, env, a, marks).1, Handled(s, k, req, env, b, marks).1, req.ip)
    decreases |s.filters| - k
  {
    hide Filtered, Same;
    if k < |s.filters| {
      FilterLocal(s, s.filters[k], req, env, a, b);
      var (reply, a') := Filtered(s, s.filters[k], req, env, a);
      var b' := Filtered(s, s.filters[k], req, env, b).1;
      if reply.GoAhead? {
        HandledLocal(s, k + 1, req, env, a', b', marks);
      } else if reply.ServeFresh? {
        HandledLocal(s, k + 1, req, env, a', b', Proceed(true, true));
      }
    }
  }

  lemma {:induction false} HandledForeign(s: Settings, k: nat, req: Request, env: Weather, a: World, marks: Verdict,
                                          ip: Str)
    requires ValidSettings(s) && ValidWorld(s, a) && k <= |s.filters| && marks.Proceed? && ip != req.ip
    ensures Same(Handled(s, k, req, env, a, marks).1, a, ip)
    decreases |s.filters| - k
  {
    hide Filtered, LogOf;
    if k < |s.filters| {
      FilterForeign(s, s.filters[k], req, env, a, ip);
      var (reply, a') := Filtered(s, s.filters[k], req, env, a);
      if reply.GoAhead? {
        HandledForeign(s, k + 1, req, env, a', marks, ip);
      } else if reply.ServeFresh? {
        HandledForeign(s, k + 1, req, env, a', Proceed(true, true), ip);
      }
    }
  }

  lemma {:induction false} HtmlLocal(cfg: Config, req: Request, c: Challenge, env: PageEnv, a: Challenger.State,
                                     b: Challenger.State)
    requires InTime(env) && SameState(a, b, req.ip)
    ensures Html(cfg, req, c, env, a).0 == Html(cfg, req, c, env, b).0
    ensures SameState(Html(cfg, req, c, env, a).1, Html(cfg, req, c, env, b).1, req.ip)
  {
    hide CookiePasses, PassToken.Issued, LastFind, AnswerIn, Swabber.AfterBan, LogOf;
    BanLocal(cfg.grace, a.swabber, b.swabber, req.ip, env.fail.ban);
  }

  lemma {:induction false} HtmlForeign(cfg: Config, req: Request, c: Challenge, env: PageEnv, a: Challenger.State,
                                       ip: Str)
    requires InTime(env) && ip != req.ip
    ensures SameState(Html(cfg, req, c, env, a).1, a, ip)
  {
    hide CookiePasses, PassToken.Issued, LastFind, AnswerIn, Swabber.AfterBan, LogOf;
    BanForeign(cfg.grace, a.swabber, req.ip, env.fail.ban, ip);
  }

  /** A whole request at once, filters and page: its response depends only on what the world holds for its address. */
  lemma {:induction false} ServedLocal(s: Settings, req: Request, env: Weather, a: World, b: World)
    requires ValidSettings(s) && ValidWorld(s, a) && ValidWorld(s, b) && Same(a, b, req.ip) && InTime(env.page)
    ensures Served(s, req, env, a).0 == Served(s, req, env, b).0
    ensures Same(Served(s, req, env, a).1, Served(s, req, env, b).1, req.ip)
  {
    hide Handled, Html, SameState;
    HandledLocal(s, 0, req, env, a, b, Proceed(false, false));
    var (v, a') := Handled(s, 0, req, env, a, Proceed(false, false));
    var b' := Handled(s, 0, req, env, b, Proceed(false, false)).1;
    if v.Answered? && v.page.ChallengePage? {
      HtmlLocal(s.chal, req, v.page.challenge, env.page, a'.chal, b'.chal);
    }
  }

  // ----- runs -----

  /**
   * The two moments at which a request acts: when its headers are read it goes through the filters, and, if a challenge
   * answers it, its page is made later, with any other requests in between.
   */
  datatype Turn = Filters(req: Request, env: Weather) | Page(req: Request, challenge: Challenge, page: PageEnv)

  /** What comes of a turn. */
  datatype Reaction = Judged(verdict: Verdict) | Paged(answer: Answer)

  ghost predicate ValidTurn(t: Turn) {
    t.Page? ==> InTime(t.page)
  }

  ghost predicate ValidTurns(run: seq<Turn>) {
    forall k :: 0 <= k < |run| ==> ValidTurn(run[k])
  }

  ghost function Taken(s: Settings, t: Turn, w: World): (r: (Reaction, World))
    requires ValidSettings(s) && ValidWorld(s, w) && ValidTurn(t)
    ensures ValidWorld(s, r.1)
  {
    match t
    case Filters(req, env) =>
      var (verdict, after) := Handled(s, 0, req, env, w, Proceed(false, false));
      (Judged(verdict), after)
    case Page(req, c, env) =>
      var (answer, st) := Html(s.chal, req, c, env, w.chal);
      (Paged(answer), World(w.regex, st))
  }

  /** A turn depends only on what the world holds for its address. */
  lemma {:induction false} TakenLocal(s: Settings, t: Turn, a: World, b: World)
    requires ValidSettings(s) && ValidWorld(s, a) && ValidWorld(s, b) && Same(a, b, t.req.ip) && ValidTurn(t)
    ensures Taken(s, t, a).0 == Taken(s, t, b).0
    ensures Same(Taken(s, t, a).1, Taken(s, t, b).1, t.req.ip)
  {
    hide Handled, Html, SameState;
    match t
    case Filters(req, env) => HandledLocal(s, 0, req, env, a, b, Proceed(false, false));
    case Page(req, c, env) => HtmlLocal(s.chal, req, c, env, a.chal, b.chal);
  }

  /** A turn changes nothing that belongs to another address. */
  lemma {:induction false} TakenForeign(s: Settings, t: Turn, a: World, ip: Str)
    requires ValidSettings(s) && ValidWorld(s, a) && ip != t.req.ip && ValidTurn(t)
    ensures Same(Taken(s, t, a).1, a, ip)
  {
    hide Handled, Html, LogOf;
    match t
    case Filters(req, env) => HandledForeign(s, 0, req, env, a, Proceed(false, false), ip);
    case Page(req, c, env) => HtmlForeign(s.chal, req, c, env, a.chal, ip);
  }

  /** The world after a run that started in `w`. */
  ghost function RunFrom(s: Settings, w: World, run: seq<Turn>): (r: World)
    requires ValidSettings(s) && ValidWorld(s, w) && ValidTurns(run)
    ensures ValidWorld(s, r)
  {
    if run == [] then w else Taken(s, run[|run| - 1], RunFrom(s, w, run[..|run| - 1])).1
  }

  /** What comes of turn `p` of a run. */
  ghost function ReactionAt(s: Settings, w: World, run: seq<Turn>, p: nat): Reaction
    requires ValidSettings(s) && ValidWorld(s, w) && ValidTurns(run) && p < |run|
  {
    Taken(s, run[p], RunFrom(s, w, run[..p])).0
  }

  /** The reactions to the turns of one address, in order. */
  ghost function Reactions(s: Settings, w: World, run: seq<Turn>, ip: Str): seq<Reaction>
    requires ValidSettings(s) && ValidWorld(s, w) && ValidTurns(run)
  {
    if run == [] then []
    else
      var n := |run| - 1;
      Reactions(s, w, run[..n], ip) + if run[n].req.ip == ip then [Taken(s, run[n], RunFrom(s, w, run[..n])).0] else []
  }

  /** The turns of one address. */
  ghost function Only(run: seq<Turn>, ip: Str): (r: seq<Turn>)
    ensures forall t :: t in r ==> t in run
  {
    if run == [] then []
    else Only(run[..|run| - 1], ip) + if run[|run| - 1].req.ip == ip then [run[|run| - 1]] else []
  }

  lemma {:induction false} OnlyValid(run: seq<Turn>, ip: Str)
    requires ValidTurns(run)
    ensures ValidTurns(Only(run, ip))
  {
    forall k | 0 <= k < |Only(run, ip)| ensures ValidTurn(Only(run, ip)[k]) {
      assert Only(run, ip)[k] in run;
    }
  }

  /**
   * Non-interference: over any interleaved run, the reactions to an address, its entries in all tables and its log
   * lines are those of the run with everybody else's turns left out.
   */
  lemma {:induction false} OthersDoNotMatter(s: Settings, w: World, run: seq<Turn>, ip: Str)
    requires ValidSettings(s) && ValidWorld(s, w) && ValidTurns(run)
    ensures ValidTurns(Only(run, ip))
    ensures Same(RunFrom(s, w, run), RunFrom(s, w, Only(run, ip)), ip)
    ensures Reactions(s, w, run, ip) == Reactions(s, w, Only(run, ip), ip)
  {
    hide Taken, SameState, ValidTurn;
    OnlyValid(run, ip);
    if run != [] {
      var n := |run| - 1;
      var t, rest := run[n], run[..n];
      OthersDoNotMatter(s, w, rest, ip);
      var a, b := RunFrom(s, w, rest), RunFrom(s, w, Only(rest, ip));
      if t.req.ip == ip {
        TakenLocal(s, t, a, b);
        var only := Only(run, ip);
        assert only[..|only| - 1] == Only(rest, ip) && only[|only| - 1] == t;
      } else {
        TakenForeign(s, t, a, ip);
        SameTransitive(RunFrom(s, w, run), a, b, ip);
        assert Only(run, ip) == Only(rest, ip);
      }
    } else {
      SameReflexive(w, ip);
    }
  }

  lemma {:induction false} SameTransitive(a: World, b: World, c: World, ip: Str)
    requires Same(a, b, ip) && Same(b, c, ip)
    ensures Same(a, c, ip)
  {
  }

  lemma {:induction false} SameReflexive(a: World, ip: Str)
    ensures Same(a, a, ip)
  {
  }

  lemma {:induction false} RunStep(s: Settings, w: World, run: seq<Turn>, j: nat)
    requires ValidSettings(s) && ValidWorld(s, w) && ValidTurns(run) && j < |run|
    ensures RunFrom(s, w, run[..j + 1]) == Taken(s, run[j], RunFrom(s, w, run[..j])).1
  {
    hide Taken;
    assert run[..j + 1][..j] == run[..j] && run[..j + 1][j] == run[j];
  }

  /** Turn `q` answered the request of turn `p` with the page that turn `p` makes. */
  ghost predicate Answers(s: Settings, w: World, run: seq<Turn>, q: nat, p: nat)
    requires ValidSettings(s) && ValidWorld(s, w) && ValidTurns(run) && q < p < |run| && run[p].Page?
  {
    && run[q].Filters? && run[q].req == run[p].req
    && exists clear: bool :: ReactionAt(s, w, run, q) == Judged(Answered(ChallengePage(run[p].challenge, false, clear)))
  }

  /** Pages are made only for requests that were answered with them during the run. */
  ghost predicate Paired(s: Settings, w: World, run: seq<Turn>)
    requires ValidSettings(s) && ValidWorld(s, w) && ValidTurns(run)
  {
    forall p: nat :: p < |run| && run[p].Page? ==> exists q: nat :: q < p && Answers(s, w, run, q, p)
  }

  // ----- white-listed addresses -----

  /** With the white lister first, a globally white-listed address is waved through untouched. */
  lemma {:induction false} ListedPasses(s: Settings, req: Request, env: Weather, w: World)
    requires ValidSettings(s) && ValidWorld(s, w)
    requires s.filters != [] && s.filters[0] == WhiteListing && GloballyListed(s.chal, req.ip)
    ensures Handled(s, 0, req, env, w, Proceed(false, false)) == (Proceed(true, false), w)
  {
    hide WhiteList.Listed;
  }

  /** No run ever changes any entry of such an address, whatever anybody requests. */
  lemma {:induction false} ListedStaysClean(s: Settings, w: World, run: seq<Turn>, ip: Str, n: nat)
    requires ValidSettings(s) && ValidWorld(s, w) && ValidTurns(run) && Paired(s, w, run) && n <= |run|
    requires s.filters != [] && s.filters[0] == WhiteListing && GloballyListed(s.chal, ip)
    ensures Same(RunFrom(s, w, run[..n]), w, ip)
  {
    hide Handled, Html, SameState, GloballyListed, RunFrom;
    if n == 0 {
      EmptyRun(s, w, run);
      SameReflexive(w, ip);
    } else {
      var t, a := run[n - 1], RunFrom(s, w, run[..n - 1]);
      ListedStaysClean(s, w, run, ip, n - 1);
      RunStep(s, w, run, n - 1);
      if t.req.ip != ip {
        TakenForeign(s, t, a, ip);
        SameTransitive(RunFrom(s, w, run[..n]), a, w, ip);
      } else if t.Page? {
        var q: nat :| q < n - 1 && Answers(s, w, run, q, n - 1);
        ListedPasses(s, run[q].req, run[q].env, RunFrom(s, w, run[..q]));
      } else {
        ListedPasses(s, t.req, t.env, a);
      }
    }
  }

  lemma {:induction false} EmptyRun(s: Settings, w: World, run: seq<Turn>)
    requires ValidSettings(s) && ValidWorld(s, w) && ValidTurns(run)
    ensures RunFrom(s, w, run[..0]) == w
  {
  }

  // ----- flagged addresses -----

  /** Every try-lock of the Denialator's turn succeeds, its socket can be used, and its two clock readings are in order. */
  predicate Smooth(env: Swabber.DenyEnv) {
    && env.get && env.ban.get && env.ban.mutex && env.ban.socket && env.ban.drop
    && env.now <= env.ban.now
  }

  /** The swabber holds flag `t` for an address, and `log` is all it logged about it. */
  ghost predicate FlagIs(w: World, ip: Str, t: Option<int>, log: seq<Swabber.Event>) {
    Entry(w.chal.swabber.flags, ip) == t && LogOf(w.chal.swabber.log, ip) == log
  }

  lemma {:induction false} SameFlagIs(b: World, a: World, ip: Str)
    requires Same(b, a, ip)
    ensures forall t, log :: FlagIs(a, ip, t, log) ==> FlagIs(b, ip, t, log)
  {
    hide LogOf;
  }

  /** With the Denialator first, a flagged address is denied; it is reported and released once the grace period is over. */
  lemma {:induction false} FlaggedIsDenied(s: Settings, req: Request, env: Weather, w: World, t0: int,
                                           log: seq<Swabber.Event>)
    requires ValidSettings(s) && ValidWorld(s, w)
    requires s.filters != [] && s.filters[0] == Denying && !GloballyListed(s.chal, req.ip) && Smooth(env.deny)
    requires t0 != 0 && FlagIs(w, req.ip, Some(t0), log)
    ensures var (verdict, after) := Handled(s, 0, req, env, w, Proceed(false, false));
            && verdict == Answered(Denied)
            && (if env.deny.now - t0 < s.chal.grace then FlagIs(after, req.ip, Some(t0), log)
                else FlagIs(after, req.ip, None, log + [Swabber.Banned(req.ip, env.deny.ban.now)]))
  {
    hide LogOf, GloballyListed;
    LogSnoc(w.chal.swabber.log, Swabber.Banned(req.ip, env.deny.ban.now), req.ip);
  }

  /** `q` is the first turn of `ip` that starts when the grace period after `t0` is over; its turns up to it go smoothly. */
  ghost predicate FirstOverdue(grace: int, run: seq<Turn>, ip: Str, t0: int, q: nat) {
    && q < |run| && run[q].Filters? && run[q].req.ip == ip && run[q].env.deny.now - t0 >= grace
    && (forall j: nat :: j <= q && run[j].Filters? && run[j].req.ip == ip ==> Smooth(run[j].env.deny))
    && (forall j: nat :: j < q && run[j].Filters? && run[j].req.ip == ip ==> run[j].env.deny.now - t0 < grace)
  }

  /** The address is flagged at `t0`, the Denialator is first, and every page of the run belongs to a request of the run. */
  ghost predicate FlaggedRun(s: Settings, w: World, run: seq<Turn>, ip: Str, t0: int, q: nat)
    requires ValidSettings(s) && ValidWorld(s, w) && ValidTurns(run)
  {
    && Paired(s, w, run) && FirstOverdue(s.chal.grace, run, ip, t0, q)
    && s.filters != [] && s.filters[0] == Denying && !GloballyListed(s.chal, ip)
    && t0 != 0 && Entry(w.chal.swabber.flags, ip) == Some(t0)
  }

  lemma {:induction false} StillFlagged(s: Settings, w: World, run: seq<Turn>, ip: Str, t0: int, q: nat, j: nat)
    requires ValidSettings(s) && ValidWorld(s, w) && ValidTurns(run) && FlaggedRun(s, w, run, ip, t0, q) && j <= q
    ensures FlagIs(RunFrom(s, w, run[..j]), ip, Some(t0), LogOf(w.chal.swabber.log, ip))
    decreases j, 0
  {
    hide Handled, Html, LogOf, GloballyListed, Smooth, RunFrom, Same;
    var log := LogOf(w.chal.swabber.log, ip);
    if j == 0 {
      EmptyRun(s, w, run);
    } else {
      var t, a := run[j - 1], RunFrom(s, w, run[..j - 1]);
      StillFlagged(s, w, run, ip, t0, q, j - 1);
      RunStep(s, w, run, j - 1);
      if t.req.ip != ip {
        TakenForeign(s, t, a, ip);
        SameFlagIs(RunFrom(s, w, run[..j]), a, ip);
      } else {
        OnlyRequestsWhileFlagged(s, w, run, ip, t0, q, j - 1);
        FlaggedIsDenied(s, t.req, t.env, a, t0, log);
      }
    }
  }

  /** While it is flagged every request of the address is denied, so none of them gets a challenge page. */
  lemma {:induction false} OnlyRequestsWhileFlagged(s: Settings, w: World, run: seq<Turn>, ip: Str, t0: int, q: nat,
      p: nat)
    requires ValidSettings(s) && ValidWorld(s, w) && ValidTurns(run) && FlaggedRun(s, w, run, ip, t0, q)
    requires p <= q && run[p].req.ip == ip
    ensures run[p].Filters?
    decreases p, 1
  {
    hide Handled, Html, LogOf, GloballyListed, Smooth, RunFrom, FlagIs;
    if run[p].Page? {
      var r: nat :| r < p && Answers(s, w, run, r, p);
      StillFlagged(s, w, run, ip, t0, q, r);
      FlaggedIsDenied(s, run[r].req, run[r].env, RunFrom(s, w, run[..r]), t0, LogOf(w.chal.swabber.log, ip));
    }
  }

  lemma {:induction false} Released(s: Settings, w: World, run: seq<Turn>, ip: Str, t0: int, q: nat, j: nat)
    requires ValidSettings(s) && ValidWorld(s, w) && ValidTurns(run) && FlaggedRun(s, w, run, ip, t0, q)
    requires q < j <= |run| && forall i: nat :: q < i < j ==> run[i].req.ip != ip
    ensures FlagIs(RunFrom(s, w, run[..j]), ip, None,
                   LogOf(w.chal.swabber.log, ip) + [Swabber.Banned(ip, run[q].env.deny.ban.now)])
    decreases j
  {
    hide Handled, Html, RunFrom, LogOf, GloballyListed, Smooth, FlagIs, Same;
    RunStep(s, w, run, j - 1);
    var t, a := run[j - 1], RunFrom(s, w, run[..j - 1]);
    if j - 1 == q {
      StillFlagged(s, w, run, ip, t0, q, q);
      FlaggedIsDenied(s, t.req, t.env, a, t0, LogOf(w.chal.swabber.log, ip));
    } else {
      Released(s, w, run, ip, t0, q, j - 1);
      TakenForeign(s, t, a, ip);
      SameFlagIs(RunFrom(s, w, run[..j]), a, ip);
    }
  }

  /** The next turn of the address after its release is a request, not a page of an old one. */
  lemma {:induction false} NextIsRequest(s: Settings, w: World, run: seq<Turn>, ip: Str, t0: int, q: nat, j: nat)
    requires ValidSettings(s) && ValidWorld(s, w) && ValidTurns(run) && FlaggedRun(s, w, run, ip, t0, q)
    requires q < j < |run| && run[j].req.ip == ip && forall i: nat :: q < i < j ==> run[i].req.ip != ip
    ensures run[j].Filters?
  {
    hide Handled, Html, RunFrom, LogOf, GloballyListed, Smooth, FlagIs;
    if run[j].Page? {
      var r: nat :| r < j && Answers(s, w, run, r, j);
      StillFlagged(s, w, run, ip, t0, q, r);
      FlaggedIsDenied(s, run[r].req, run[r].env, RunFrom(s, w, run[..r]), t0, LogOf(w.chal.swabber.log, ip));
    }
  }

  /**
   * The life of a flag, whatever other addresses do meanwhile: every request of the address is denied up to and
   * including the first one after the grace period; that one, and none before it, reports the address and removes
   * the flag; and its next request gets past the Denialator. Requests of the address go through the filters one
   * after the other here; SplitBans tells what changes when they overlap.
   */
  lemma {:induction false} DeniedUntilReported(s: Settings, w: World, run: seq<Turn>, ip: Str, t0: int, q: nat)
    requires ValidSettings(s) && ValidWorld(s, w) && ValidTurns(run) && FlaggedRun(s, w, run, ip, t0, q)
    ensures forall j: nat | j <= q && run[j].req.ip == ip :: ReactionAt(s, w, run, j) == Judged(Answered(Denied))
    ensures forall j: nat | j <= q :: FlagIs(RunFrom(s, w, run[..j]), ip, Some(t0), LogOf(w.chal.swabber.log, ip))
    ensures forall j: nat | q < j <= |run| && (forall i: nat :: q < i < j ==> run[i].req.ip != ip) ::
              FlagIs(RunFrom(s, w, run[..j]), ip, None,
                     LogOf(w.chal.swabber.log, ip) + [Swabber.Banned(ip, run[q].env.deny.ban.now)])
    ensures forall j: nat | q < j < |run| && run[j].req.ip == ip && (forall i: nat :: q < i < j ==> run[i].req.ip != ip) ::
              run[j].Filters? && Filtered(s, Denying, run[j].req, run[j].env, RunFrom(s, w, run[..j])).0 == GoAhead
  {
    hide Handled, Html, LogOf, GloballyListed, Smooth, RunFrom;
    var log := LogOf(w.chal.swabber.log, ip);
    forall j: nat | j <= q
      ensures FlagIs(RunFrom(s, w, run[..j]), ip, Some(t0), log)
      ensures run[j].req.ip == ip ==> ReactionAt(s, w, run, j) == Judged(Answered(Denied))
    {
      StillFlagged(s, w, run, ip, t0, q, j);
      if run[j].req.ip == ip {
        OnlyRequestsWhileFlagged(s, w, run, ip, t0, q, j);
        FlaggedIsDenied(s, run[j].req, run[j].env, RunFrom(s, w, run[..j]), t0, log);
      }
    }
    forall j: nat | q < j <= |run| && forall i: nat :: q < i < j ==> run[i].req.ip != ip
      ensures FlagIs(RunFrom(s, w, run[..j]), ip, None, log + [Swabber.Banned(ip, run[q].env.deny.ban.now)])
    {
      Released(s, w, run, ip, t0, q, j);
    }
    forall j: nat | q < j < |run| && run[j].req.ip == ip && forall i: nat :: q < i < j ==> run[i].req.ip != ip
      ensures run[j].Filters? && Filtered(s, Denying, run[j].req, run[j].env, RunFrom(s, w, run[..j])).0 == GoAhead
    {
      Released(s, w, run, ip, t0, q, j);
      NextIsRequest(s, w, run, ip, t0, q, j);
    }
  }
}
