/** src/transaction_data.cpp: what the answers of the filters come to for the request as a whole. */
module Verdicts {
  import opened Bytes
  import opened IpDb
  import opened RegexManager
  import PassToken
  import opened PassCheck
  import opened Challenger
  import opened ChallengePages
  import opened Pipeline
  import Passage
  import Isolation
  import WhiteList
  import Swabber

  // ----- what ends the loop -----

  /** The swabber holds a flag for the address, the Denialator can read it, and the address is not white-listed. */
  ghost predicate Flagged(s: Settings, req: Request, env: Weather, w: World) {
    !GloballyListed(s.chal, req.ip) && env.deny.get && Lookup(w.chal.swabber.flags, req.ip, 0) != 0
  }

  /** The first rule to halt the scan bans the request. */
  ghost predicate Hit(s: Settings, req: Request, env: Weather, w: World)
    requires ValidSettings(s)
  {
    exists j: nat :: FirstHalt(s.rules, VisitOf(req, env), w.regex, j) && req.host !in s.rules[j].hostsToSkip
  }

  ghost function Asked(s: Settings, req: Request, env: Weather, w: World): (Reply, Challenger.State) {
    Challenged(s.chal, env.tables, req, env.chal, w.chal)
  }

  /** The filter ends the loop. */
  ghost predicate Ends(s: Settings, kind: FilterKind, req: Request, env: Weather, w: World)
    requires ValidSettings(s)
  {
    match kind
    case WhiteListing => WhiteList.ListedFor(s.lists, req.host, s.chal.inet(req.ip))
    case Denying => Flagged(s, req, env, w)
    case RegexBanning => Hit(s, req, env, w)
    case Challenging => var reply := Asked(s, req, env, w).0; reply != GoAhead && reply != ServeFresh
  }

  /** What the loop ends with, `anew` telling whether the request was to be served fresh so far. */
  ghost predicate EndsWith(s: Settings, kind: FilterKind, req: Request, env: Weather, w: World, anew: bool,
                           verdict: Verdict, after: World)
    requires ValidSettings(s) && ValidWorld(s, w)
  {
    match kind
    case WhiteListing => verdict == Proceed(true, anew) && after == w
    case Denying =>
      && verdict == Answered(Denied)
      && after.chal.swabber == (if env.deny.now - Lookup(w.chal.swabber.flags, req.ip, 0) >= s.chal.grace
                                then Swabber.AfterBan(s.chal.grace, w.chal.swabber, req.ip, env.deny.ban)
                                else w.chal.swabber)
      && after.regex == w.regex && after.chal.failures == w.chal.failures
    case RegexBanning =>
      && verdict == Answered(Forbidden)
      && after.chal.swabber == Swabber.AfterBan(s.chal.grace, w.chal.swabber, req.ip, env.ban)
      && after.regex == Matched(s.rules, VisitOf(req, env), w.regex).db && after.chal.failures == w.chal.failures
    case Challenging =>
      var (reply, st) := Asked(s, req, env, w);
      && (reply == ServeImmediately ==> verdict == Proceed(true, anew))
      && (reply.Respond? ==> verdict == Answered(reply.page))
      && after.regex == w.regex && after.chal == st
  }

  /** The filter leaves the request to the next one, and this world. */
  ghost predicate PassesOn(s: Settings, kind: FilterKind, req: Request, env: Weather, w: World, after: World)
    requires ValidSettings(s) && ValidWorld(s, w)
  {
    && !Ends(s, kind, req, env, w)
    && match kind
       case WhiteListing => after == w
       case Denying => after == w
       case RegexBanning => after.regex == Matched(s.rules, VisitOf(req, env), w.regex).db && after.chal == w.chal
       case Challenging => after.regex == w.regex && after.chal == Asked(s, req, env, w).1
  }

  // ----- the way through the filters -----

  /** The request passes the first |ws| - 1 filters; `ws` are the worlds before each of them and behind the last. */
  ghost predicate Path(s: Settings, req: Request, env: Weather, ws: seq<World>)
    requires ValidSettings(s)
  {
    && 1 <= |ws| <= |s.filters| + 1
    && (forall i :: 0 <= i < |ws| ==> ValidWorld(s, ws[i]))
    && forall i :: 0 <= i < |ws| - 1 ==> PassesOn(s, s.filters[i], req, env, ws[i], ws[i + 1])
  }

  /** One of the first `n` filters wants the request served fresh. */
  ghost predicate Fresh(s: Settings, req: Request, env: Weather, ws: seq<World>, n: nat)
    requires n <= |ws| && n <= |s.filters|
  {
    exists i :: 0 <= i < n && s.filters[i] == Challenging && Asked(s, req, env, ws[i]).0 == ServeFresh
  }

  lemma {:induction false} HitExactly(s: Settings, req: Request, env: Weather, w: World)
    requires ValidSettings(s) && ValidWorld(s, w)
    ensures Hit(s, req, env, w) <==> Matched(s.rules, VisitOf(req, env), w.regex).hit.Some?
  {
    hide FirstHalt, Matched, RecordOf;
    BannedExactly(s.rules, VisitOf(req, env), w.regex);
    var hit := Matched(s.rules, VisitOf(req, env), w.regex).hit;
    if hit.Some? {
      assert hit == Some(hit.value);
    }
  }

  lemma {:induction false} FilterPasses(s: Settings, kind: FilterKind, req: Request, env: Weather, w: World,
                                        after: World)
    requires ValidSettings(s) && ValidWorld(s, w) && PassesOn(s, kind, req, env, w, after)
    ensures var (reply, next) := Filtered(s, kind, req, env, w);
            && next == after
            && reply == if kind == Challenging && Asked(s, req, env, w).0 == ServeFresh then ServeFresh else GoAhead
  {
    hide Hit, Matched, Challenged, WhiteList.ListedFor, GloballyListed, VisitOf, ValidWorld;
    HitExactly(s, req, env, w);
  }

  lemma {:induction false} FilterEnds(s: Settings, kind: FilterKind, req: Request, env: Weather, w: World, anew: bool)
    requires ValidSettings(s) && ValidWorld(s, w) && Ends(s, kind, req, env, w)
    ensures var (reply, after) := Filtered(s, kind, req, env, w);
            && (reply == ServeImmediately || reply.Respond?)
            && EndsWith(s, kind, req, env, w, anew,
                        if reply.Respond? then Answered(reply.page) else Proceed(true, anew), after)
  {
    hide Hit, Matched, Challenged, WhiteList.ListedFor, GloballyListed, VisitOf, ValidWorld, Swabber.AfterBan;
    HitExactly(s, req, env, w);
  }

  /** The loop arrives at filter `k` with the marks and the world of the path. */
  lemma {:induction false} LoopArrives(s: Settings, req: Request, env: Weather, ws: seq<World>, k: nat)
    requires ValidSettings(s) && Path(s, req, env, ws) && k < |ws|
    ensures var anew := Fresh(s, req, env, ws, k);
            Handled(s, 0, req, env, ws[0], Proceed(false, false)) == Handled(s, k, req, env, ws[k], Proceed(anew, anew))
  {
    hide PassesOn, Filtered, Asked, ValidWorld;
    if k > 0 {
      LoopArrives(s, req, env, ws, k - 1);
      assert PassesOn(s, s.filters[k - 1], req, env, ws[k - 1], ws[k - 1 + 1]);
      FilterPasses(s, s.filters[k - 1], req, env, ws[k - 1], ws[k]);
      var now := s.filters[k - 1] == Challenging && Asked(s, req, env, ws[k - 1]).0 == ServeFresh;
      assert Fresh(s, req, env, ws, k) == (Fresh(s, req, env, ws, k - 1) || now);
    }
  }

  /** The path goes behind the last filter, or to one that ends the loop. */
  ghost predicate Complete(s: Settings, req: Request, env: Weather, ws: seq<World>)
    requires ValidSettings(s) && Path(s, req, env, ws)
  {
    |ws| == |s.filters| + 1 || Ends(s, s.filters[|ws| - 1], req, env, ws[|ws| - 1])
  }

  /**
   * The verdict on a request, for every list of filters: behind the last filter it proceeds, to be served fresh exactly
   * if some challenge said so; otherwise the filter that ends the loop has the last word.
   */
  lemma {:induction false} HandledExactly(s: Settings, req: Request, env: Weather, ws: seq<World>)
    requires ValidSettings(s) && Path(s, req, env, ws) && Complete(s, req, env, ws)
    ensures var (verdict, after) := Handled(s, 0, req, env, ws[0], Proceed(false, false));
            var k := |ws| - 1;
            var anew := Fresh(s, req, env, ws, k);
            if k == |s.filters| then verdict == Proceed(anew, anew) && after == ws[k]
            else EndsWith(s, s.filters[k], req, env, ws[k], anew, verdict, after)
  {
    hide PassesOn, EndsWith, Ends, Filtered, Fresh, ValidWorld;
    var k := |ws| - 1;
    LoopArrives(s, req, env, ws, k);
    if k < |s.filters| {
      FilterEnds(s, s.filters[k], req, env, ws[k], Fresh(s, req, env, ws, k));
    }
  }

  /** Every request has such a path. */
  lemma {:induction false} PathExists(s: Settings, req: Request, env: Weather, ws: seq<World>) returns (all: seq<World>)
    requires ValidSettings(s) && Path(s, req, env, ws)
    ensures ws <= all && Path(s, req, env, all) && Complete(s, req, env, all)
    decreases |s.filters| + 1 - |ws|
  {
    hide Ends, PassesOn, Filtered, ValidWorld;
    var k := |ws| - 1;
    if k == |s.filters| || Ends(s, s.filters[k], req, env, ws[k]) {
      return ws;
    }
    var next := Filtered(s, s.filters[k], req, env, ws[k]).1;
    FilterNext(s, s.filters[k], req, env, ws[k]);
    all := PathExists(s, req, env, ws + [next]);
  }

  lemma {:induction false} FilterNext(s: Settings, kind: FilterKind, req: Request, env: Weather, w: World)
    requires ValidSettings(s) && ValidWorld(s, w) && !Ends(s, kind, req, env, w)
    ensures PassesOn(s, kind, req, env, w, Filtered(s, kind, req, env, w).1)
  {
    hide Hit, Matched, Challenged, WhiteList.ListedFor, GloballyListed, VisitOf, ValidWorld, Swabber.AfterBan;
    HitExactly(s, req, env, w);
  }

  /** A globally white-listed address is never denied, whatever the filters and their order. */
  lemma {:induction false} ListedNeverDenied(s: Settings, k: nat, req: Request, env: Weather, w: World, marks: Verdict)
    requires ValidSettings(s) && ValidWorld(s, w) && k <= |s.filters| && marks.Proceed?
    requires GloballyListed(s.chal, req.ip)
    ensures Handled(s, k, req, env, w, marks).0 != Answered(Denied)
    decreases |s.filters| - k
  {
    hide Filtered, GloballyListed;
    if k < |s.filters| {
      var (reply, after) := Filtered(s, s.filters[k], req, env, w);
      NoDenial(s, s.filters[k], req, env, w);
      if reply == GoAhead {
        ListedNeverDenied(s, k + 1, req, env, after, marks);
      } else if reply == ServeFresh {
        ListedNeverDenied(s, k + 1, req, env, after, Proceed(true, true));
      }
    }
  }

  lemma {:induction false} NoDenial(s: Settings, kind: FilterKind, req: Request, env: Weather, w: World)
    requires ValidSettings(s) && ValidWorld(s, w) && GloballyListed(s.chal, req.ip)
    ensures Filtered(s, kind, req, env, w).0 != Respond(Denied)
    ensures kind == Denying ==> Filtered(s, kind, req, env, w) == (GoAhead, w)
  {
    hide Matched, Challenged, WhiteList.ListedFor, GloballyListed, ValidWorld;
    OnlyChallengePages(s.chal, env.tables, req, env.chal, w.chal);
  }

  lemma {:induction false} OnlyChallengePages(cfg: Config, tables: Tables, req: Request, env: Challenger.Env,
                                              st: Challenger.State)
    ensures var reply := Challenged(cfg, tables, req, env, st).0; reply.Respond? ==> Passage.IsAsked(reply)
  {
    var cs := Selected(cfg, tables, req, env);
    if cs.Some? {
      RoundsAsk(cfg, req, cs.value, 0, env, st);
    }
  }

  lemma {:induction false} RoundsAsk(cfg: Config, req: Request, cs: seq<Challenge>, k: nat, env: Challenger.Env,
                                     st: Challenger.State)
    requires k <= |cs|
    ensures var reply := Rounds(cfg, req, cs, k, env, st).0; reply.Respond? ==> Passage.IsAsked(reply)
    decreases |cs| - k
  {
    hide Passes, Occurs, WhiteList.Listed, GloballyListed;
    if k < |cs| {
      RoundsAsk(cfg, req, cs, k + 1, env, Round(cfg, req, cs[k], env.rounds(k), st).1);
    }
  }

  // ----- what the client gets -----

  /** The page of a challenge: its ban page, or what it generates for the request in the world the filters left. */
  ghost function PageFor(s: Settings, req: Request, env: Weather, page: Page, st: Challenger.State): Response
    requires InTime(env.page) && page.ChallengePage?
  {
    if page.banned then BannedText(page.clearCookie)
    else Generated(Html(s.chal, req, page.challenge, env.page, st).0, page.clearCookie)
  }

  /** The same for what the client gets. */
  lemma {:induction false} ServedExactly(s: Settings, req: Request, env: Weather, ws: seq<World>)
    requires ValidSettings(s) && Path(s, req, env, ws) && Complete(s, req, env, ws) && InTime(env.page)
    ensures var response := Served(s, req, env, ws[0]).0;
            var k := |ws| - 1;
            var anew := Fresh(s, req, env, ws, k);
            if k == |s.filters| then response == Origin(anew, anew)
            else match s.filters[k]
              case WhiteListing => response == Origin(true, anew)
              case Denying => response == DeniedText
              case RegexBanning => response == ForbiddenText
              case Challenging =>
                var (reply, st) := Asked(s, req, env, ws[k]);
                if reply == ServeImmediately then response == Origin(true, anew)
                else Passage.IsAsked(reply) && response == PageFor(s, req, env, reply.page, st)
  {
    hide PassesOn, Handled, Html, Fresh, Challenged, ValidWorld, Swabber.AfterBan, Matched, VisitOf;
    HandledExactly(s, req, env, ws);
    var k := |ws| - 1;
    OnlyChallengePages(s.chal, env.tables, req, env.chal, ws[k].chal);
  }

  /** The two turns of a request, with nobody in between, are the whole request. */
  lemma {:induction false} TurnsAreServed(s: Settings, req: Request, env: Weather, w: World)
    requires ValidSettings(s) && ValidWorld(s, w) && InTime(env.page)
    ensures var (reaction, after) := Isolation.Taken(s, Isolation.Filters(req, env), w);
            && reaction.Judged?
            && match reaction.verdict
               case Answered(ChallengePage(c, false, clear)) =>
                 var (paged, last) := Isolation.Taken(s, Isolation.Page(req, c, env.page), after);
                 paged.Paged? && Served(s, req, env, w) == (Generated(paged.answer, clear), last)
               case Answered(ChallengePage(_, true, clear)) => Served(s, req, env, w) == (BannedText(clear), after)
               case Answered(Denied) => Served(s, req, env, w) == (DeniedText, after)
               case Answered(Forbidden) => Served(s, req, env, w) == (ForbiddenText, after)
               case Proceed(noStore, noCache) => Served(s, req, env, w) == (Origin(noStore, noCache), after)
  {
    hide Handled, Html;
  }

  // ----- requests that reach the challenger -----

  /** The challenger is the last filter, and there is no other. */
  ghost predicate ChallengerLast(s: Settings) {
    s.filters != [] && forall k :: 0 <= k < |s.filters| ==> (s.filters[k] == Challenging <==> k == |s.filters| - 1)
  }

  /** The request passes all other filters; `ws` are the worlds before each filter. */
  ghost predicate Reaches(s: Settings, req: Request, env: Weather, ws: seq<World>)
    requires ValidSettings(s)
  {
    ChallengerLast(s) && |ws| == |s.filters| && Path(s, req, env, ws)
  }

  /** Then the challenger's reply is what the client gets: the origin's page, or the page of a challenge. */
  lemma {:induction false} ChallengerDecides(s: Settings, req: Request, env: Weather, ws: seq<World>)
    requires ValidSettings(s) && Reaches(s, req, env, ws) && InTime(env.page)
    ensures var (reply, st) := Asked(s, req, env, ws[|ws| - 1]);
            var verdict := Handled(s, 0, req, env, ws[0], Proceed(false, false)).0;
            var response := Served(s, req, env, ws[0]).0;
            match reply
            case GoAhead => verdict == Proceed(false, false) && response == Origin(false, false)
            case ServeFresh => verdict == Proceed(true, true) && response == Origin(true, true)
            case ServeImmediately => verdict == Proceed(true, false) && response == Origin(true, false)
            case Respond(page) => verdict == Answered(page) && page.ChallengePage?
                                  && response == PageFor(s, req, env, page, st)
  {
    hide Handled, Served, Html, Asked, PassesOn, ValidWorld, Matched, Swabber.AfterBan, PageFor;
    var k := |ws| - 1;
    var (reply, st) := Asked(s, req, env, ws[k]);
    if reply == GoAhead || reply == ServeFresh {
      ExtendPath(s, req, env, ws);
      var all := ws + [World(ws[k].regex, st)];
      FreshLast(s, req, env, all, |all| - 1);
      HandledExactly(s, req, env, all);
      ServedExactly(s, req, env, all);
    } else {
      FreshLast(s, req, env, ws, k);
      assert Complete(s, req, env, ws);
      HandledExactly(s, req, env, ws);
      ServedExactly(s, req, env, ws);
    }
  }

  lemma {:induction false} ExtendPath(s: Settings, req: Request, env: Weather, ws: seq<World>)
    requires ValidSettings(s) && Reaches(s, req, env, ws)
    requires var reply := Asked(s, req, env, ws[|ws| - 1]).0; reply == GoAhead || reply == ServeFresh
    ensures var all := ws + [World(ws[|ws| - 1].regex, Asked(s, req, env, ws[|ws| - 1]).1)];
            all[0] == ws[0] && Path(s, req, env, all) && Complete(s, req, env, all)
  {
    hide Asked;
    var k := |ws| - 1;
    var last := World(ws[k].regex, Asked(s, req, env, ws[k]).1);
    assert PassesOn(s, s.filters[k], req, env, ws[k], last);
    hide PassesOn;
    var all := ws + [last];
    forall i | 0 <= i < |all| - 1 ensures PassesOn(s, s.filters[i], req, env, all[i], all[i + 1]) {
      assert i < k ==> PassesOn(s, s.filters[i], req, env, ws[i], ws[i + 1]);
    }
  }

  lemma {:induction false} FreshLast(s: Settings, req: Request, env: Weather, ws: seq<World>, n: nat)
    requires ChallengerLast(s) && n <= |ws| && n <= |s.filters|
    ensures Fresh(s, req, env, ws, n) <==> n == |s.filters| && Asked(s, req, env, ws[n - 1]).0 == ServeFresh
  {
    hide Asked;
  }

  /** The response is a page of a challenge. */
  ghost predicate IsPage(response: Response) {
    response.Generated? || response.BannedText?
  }

  /**
   * A request stopped by a challenge, for every list of challenges and every cookie: the first challenge that does not
   * let it on has its page sent, a ban page exactly for the failure that reaches its tolerance.
   */
  lemma {:induction false} StoppedGetsPage(s: Settings, req: Request, env: Weather, ws: seq<World>, cs: seq<Challenge>,
                                           passed: seq<bool>, j: nat)
    requires ValidSettings(s) && Reaches(s, req, env, ws) && InTime(env.page)
    requires Passage.Meets(s.chal, env.tables, req, env.chal, cs) && |passed| == |cs|
    requires forall k :: 0 <= k < |cs| ==> passed[k] == Passage.Deserves(s.chal, req, cs[k], env.chal.rounds(k))
    requires Passage.FirstStop(s.chal, req, cs, passed, j)
    requires !Passage.Excused(s.chal, req, cs[j]) && !(cs[j].kind.Auth? && passed[j])
    ensures var st := Passage.Credited(ws[|ws| - 1].chal, req.ip, Passage.Stored(s.chal, req, cs, env.chal, j));
            var banned := Passage.Fails(req, cs[j], passed[j]) && Exceeds(req, cs[j], env.chal.rounds(j).fail, st.failures);
            var page := ChallengePage(cs[j], banned, !cs[j].kind.Captcha?);
            && Handled(s, 0, req, env, ws[0], Proceed(false, false)).0 == Answered(page)
            && Served(s, req, env, ws[0]).0 == PageFor(s, req, env, page, Asked(s, req, env, ws[|ws| - 1]).1)
  {
    hide Path, Handled, Served, Html, PageFor, Challenged, Passage.Meets, Passage.Deserves, Passage.FirstStop,
         Passage.Excused, Exceeds, Counts, Passage.Stored, Passage.Fails;
    ChallengerDecides(s, req, env, ws);
    Passage.CookieJudged(s.chal, env.tables, req, env.chal, ws[|ws| - 1].chal, cs, passed);
  }

  /** With computational challenges only, the solved page gets the origin's page in time, and else a challenge page. */
  lemma {:induction false} SolvedServed(s: Settings, asked: Request, page: PageEnv, c: Challenge, st0: Challenger.State,
                                        token: Str, i: nat, req: Request, env: Weather, ws: seq<World>,
                                        cs: seq<Challenge>)
    requires ValidSettings(s) && Reaches(s, req, env, ws) && InTime(env.page)
    requires InTime(page) && Html(s.chal, asked, c, page, st0).0.body == Template(token)
    requires req.ip == asked.ip && Presents(req.cookie, Solution(token, i)) && !GloballyListed(s.chal, req.ip)
    requires Passage.Meets(s.chal, env.tables, req, env.chal, cs)
    requires forall k :: 0 <= k < |cs| ==> cs[k].kind.ShaInverse? && !Passage.Excused(s.chal, req, cs[k])
    ensures var response := Served(s, req, env, ws[0]).0;
            if (cs == [] || PageAccepts(s.chal.secrets, token, i))
               && (forall k :: 0 <= k < |cs| ==> env.chal.rounds(k).now <= page.started + c.validity)
            then response == Origin(false, false) else IsPage(response)
  {
    hide Path, Handled, Served, Html, Challenged, Presents, PageAccepts, GloballyListed, Passage.Meets, Passage.Excused;
    ChallengerDecides(s, req, env, ws);
    Passage.SolvedGoesAhead(s.chal, asked, page, c, st0, token, i, env.tables, req, env.chal, ws[|ws| - 1].chal, cs);
  }

  /** The same for captchas only and the cookie set for an accepted answer. */
  lemma {:induction false} AnsweredServed(s: Settings, answered: Request, page: PageEnv, c: Challenge,
                                          st0: Challenger.State, token: Str, req: Request, env: Weather, ws: seq<World>,
                                          cs: seq<Challenge>)
    requires ValidSettings(s) && Reaches(s, req, env, ws) && InTime(env.page)
    requires InTime(page) && Html(s.chal, answered, c, page, st0).0 == Answer(Accepted, 200, Some(token))
    requires req.ip == answered.ip && Presents(req.cookie, token) && !GloballyListed(s.chal, req.ip)
    requires Passage.Ordinary(req)
    requires Passage.Meets(s.chal, env.tables, req, env.chal, cs)
    requires forall k :: 0 <= k < |cs| ==> cs[k].kind.Captcha? && !Passage.Excused(s.chal, req, cs[k])
    ensures var response := Served(s, req, env, ws[0]).0;
            if forall k :: 0 <= k < |cs| ==> env.chal.rounds(k).now <= page.started + c.validity
            then response == Origin(false, false) else IsPage(response)
  {
    hide Path, Handled, Served, Html, Challenged, Presents, GloballyListed, Passage.Meets, Passage.Excused,
         Passage.Ordinary;
    ChallengerDecides(s, req, env, ws);
    Passage.AnsweredGoesAhead(s.chal, answered, page, c, st0, token, env.tables, req, env.chal, ws[|ws| - 1].chal, cs);
  }

  /** With one password, any text behind the token: a fresh copy exactly for the password in time, asked if protected. */
  lemma {:induction false} PasswordServed(s: Settings, asked: Request, page: PageEnv, c: Challenge,
                                          st0: Challenger.State, token: Str, text: Str, req: Request, env: Weather,
                                          ws: seq<World>, cs: seq<Challenge>, now: PassToken.Time, ok: bool)
    requires ValidSettings(s) && Reaches(s, req, env, ws) && InTime(env.page)
    requires InTime(page) && Html(s.chal, asked, c, page, st0).0.body == Template(token) && req.ip == asked.ip
    requires Presents(req.cookie, token + text) && Passage.Meets(s.chal, env.tables, req, env.chal, cs) && cs != []
    requires forall k :: 0 <= k < |cs| ==> cs[k].kind.Auth? && !Passage.Excused(s.chal, req, cs[k])
    requires forall k :: 0 <= k < |cs| ==> cs[k].passwordHash == c.passwordHash && env.chal.rounds(k).now == now
    requires forall k :: 0 <= k < |cs| ==>
               ok == Passage.IsPassword(s.chal, token, text, c.passwordHash, env.chal.rounds(k).beyond)
    ensures var response := Served(s, req, env, ws[0]).0;
            var right := ok && now <= page.started + c.validity;
            && (response == Origin(true, true) <==> right)
            && (IsPage(response) <==> !right && exists k :: 0 <= k < |cs| && Passage.Guarded(req, cs[k]))
  {
    hide Path, Handled, Served, Html, Challenged, Presents, Passage.Meets, Passage.Excused, Passage.IsPassword,
         Passage.Guarded;
    ChallengerDecides(s, req, env, ws);
    Passage.PasswordPasses(s.chal, asked, page, c, st0, token, text, env.tables, req, env.chal, ws[|ws| - 1].chal, cs, now, ok);
  }

  /** No text that is not the password is served a fresh copy, at any times. */
  lemma {:induction false} WrongPasswordServed(s: Settings, asked: Request, page: PageEnv, c: Challenge,
                                               st0: Challenger.State, token: Str, text: Str, req: Request, env: Weather,
                                               ws: seq<World>, cs: seq<Challenge>)
    requires ValidSettings(s) && Reaches(s, req, env, ws) && InTime(env.page)
    requires InTime(page) && Html(s.chal, asked, c, page, st0).0.body == Template(token) && req.ip == asked.ip
    requires Presents(req.cookie, token + text) && Passage.Meets(s.chal, env.tables, req, env.chal, cs)
    requires forall k :: 0 <= k < |cs| ==> cs[k].kind.Auth? && !Passage.Excused(s.chal, req, cs[k])
    requires forall k :: 0 <= k < |cs| ==> Passage.NoPassword(s.chal, token, text, cs[k].passwordHash)
    ensures var response := Served(s, req, env, ws[0]).0;
            && response != Origin(true, true)
            && (IsPage(response) <==> exists k :: 0 <= k < |cs| && Passage.Guarded(req, cs[k]))
  {
    hide Path, Handled, Served, Html, Challenged, Presents, Passage.Meets, Passage.Excused, Passage.NoPassword,
         Passage.Guarded;
    ChallengerDecides(s, req, env, ws);
    Passage.WrongPasswordAsked(s.chal, asked, page, c, st0, token, text, env.tables, req, env.chal, ws[|ws| - 1].chal, cs);
  }

  // ----- the text the rules are matched against -----

  /** The text up to the first blank. */
  function Word(s: Str): Str {
    if s == [] || s[0] == SPACE then [] else [s[0]] + Word(s[1..])
  }

  /** The text behind the first blank. */
  function AfterWord(s: Str): Str {
    if s == [] then [] else if s[0] == SPACE then s[1..] else AfterWord(s[1..])
  }

  lemma {:induction false} WordRead(word: Str, rest: Str)
    requires SPACE !in word
    ensures Word(word + SPACES + rest) == word && AfterWord(word + SPACES + rest) == rest
  {
    var s := word + SPACES + rest;
    if word == [] {
      assert s[1..] == rest;
    } else {
      assert s[0] == word[0] && s[1..] == word[1..] + SPACES + rest;
      WordRead(word[1..], rest);
    }
  }

  /** The record is the method, the URL, the host and the agent, in this order, and can be taken apart again. */
  lemma {:induction false} RecordReadsBack(req: Request)
    requires SPACE !in req.verb && SPACE !in req.url && SPACE !in req.host
    ensures var s1 := RecordOf(req);
            var s2 := AfterWord(s1);
            var s3 := AfterWord(s2);
            Word(s1) == req.verb && Word(s2) == req.url && Word(s3) == req.host && AfterWord(s3) == req.agent
  {
    hide Word, AfterWord;
    var s3 := req.host + SPACES + req.agent;
    var s2 := req.url + SPACES + s3;
    assert RecordOf(req) == req.verb + SPACES + s2;
    WordRead(req.verb, s2);
    WordRead(req.url, s3);
    WordRead(req.host, req.agent);
  }
}
