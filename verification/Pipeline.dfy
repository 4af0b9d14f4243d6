/** src/transaction_data.cpp: the filter loop of a request, and the page generated when a filter answers. */
module Pipeline {
  import opened Bytes
  import opened RegexManager
  import opened Challenger
  import opened ChallengePages
  import PassToken
  import WhiteList
  import Swabber

  datatype FilterKind = WhiteListing | Denying | RegexBanning | Challenging

  /** The configured filters in order of priority, and what each of them was configured with. */
  datatype Settings = Settings(filters: seq<FilterKind>, rules: seq<Rule>, chal: Config, lists: WhiteList.Lists)

  /** The three per-address tables and the ban log. */
  datatype World = World(regex: RegexDb, chal: Challenger.State)

  /** Everything a request meets that the code does not decide. */
  datatype Weather = Weather(
    tables: Tables, deny: Swabber.DenyEnv, matching: RegexManager.Env, ban: Swabber.BanEnv,
    chal: Challenger.Env, page: PageEnv)

  ghost predicate ValidSettings(s: Settings) {
    ValidRules(s.rules) && s.chal.listed == s.lists.everywhere
  }

  ghost predicate ValidWorld(s: Settings, w: World) {
    ValidDb(s.rules, w.regex)
  }

  const SPACES: Str := [SPACE]

  /** "METHOD url host agent", the text the rules are matched against. */
  function RecordOf(req: Request): Str {
    req.verb + SPACES + req.url + SPACES + req.host + SPACES + req.agent
  }

  function VisitOf(req: Request, env: Weather): Visit {
    Visit(req.ip, req.host, RecordOf(req), env.matching)
  }

  // ----- one filter -----

  /** `RegexManager::on_http_request`. */
  function RegexChecked(s: Settings, req: Request, env: Weather, w: World): (Reply, World)
    requires ValidSettings(s) && ValidWorld(s, w)
  {
    var r := Matched(s.rules, VisitOf(req, env), w.regex);
    if r.hit.None? then (GoAhead, World(r.db, w.chal))
    else
      var swabber := Swabber.AfterBan(s.chal.grace, w.chal.swabber, req.ip, env.ban);
      (Respond(Forbidden), World(r.db, w.chal.(swabber := swabber)))
  }

  /** The answer of one filter and the world it leaves. */
  ghost function Filtered(s: Settings, kind: FilterKind, req: Request, env: Weather, w: World): (r: (Reply, World))
    requires ValidSettings(s) && ValidWorld(s, w)
    ensures ValidWorld(s, r.1)
  {
    match kind
    case WhiteListing =>
      (if WhiteList.ListedFor(s.lists, req.host, s.chal.inet(req.ip)) then ServeImmediately else GoAhead, w)
    case Denying =>
      var (denied, st) := Swabber.Deny(s.chal.grace, GloballyListed(s.chal, req.ip), w.chal.swabber, req.ip, env.deny);
      (if denied then Respond(Denied) else GoAhead, World(w.regex, w.chal.(swabber := st)))
    case RegexBanning =>
      MatchedEffect(s.rules, VisitOf(req, env), w.regex);
      RegexChecked(s, req, env, w)
    case Challenging =>
      var (reply, st) := Challenged(s.chal, env.tables, req, env.chal, w.chal);
      (reply, World(w.regex, st))
  }

  // ----- the loop -----

  /** The request goes on (possibly marked not to be stored, or not to be served from the cache), or is answered. */
  datatype Verdict = Proceed(noStore: bool, noCache: bool) | Answered(page: Page)

  /** The loop of `handle_request` from filter `k` on. */
  ghost function Handled(s: Settings, k: nat, req: Request, env: Weather, w: World, marks: Verdict): (r: (Verdict,
                         World))
    requires ValidSettings(s) && ValidWorld(s, w) && k <= |s.filters| && marks.Proceed?
    ensures ValidWorld(s, r.1)
    decreases |s.filters| - k
  {
    if k == |s.filters| then (marks, w)
    else
      var (reply, after) := Filtered(s, s.filters[k], req, env, w);
      match reply
      case GoAhead => Handled(s, k + 1, req, env, after, marks)
      case ServeImmediately => (marks.(noStore := true), after)
      case ServeFresh => Handled(s, k + 1, req, env, after, Proceed(true, true))
      case Respond(page) => (Answered(page), after)
  }

  /** What the client gets; some challenge pages also delete the client's `deflect` cookie. */
  datatype Response =
    | Origin(noStore: bool, noCache: bool) | DeniedText | ForbiddenText
    | BannedText(clearCookie: bool) | Generated(answer: Answer, clearCookie: bool)

  /** A whole request: the filter loop, then the page if a filter answered. */
  ghost function Served(s: Settings, req: Request, env: Weather, w: World): (r: (Response, World))
    requires ValidSettings(s) && ValidWorld(s, w) && InTime(env.page)
    ensures ValidWorld(s, r.1)
  {
    var (verdict, after) := Handled(s, 0, req, env, w, Proceed(false, false));
    match verdict
    case Proceed(noStore, noCache) => (Origin(noStore, noCache), after)
    case Answered(Denied) => (DeniedText, after)
    case Answered(Forbidden) => (ForbiddenText, after)
    case Answered(ChallengePage(c, banned, clearCookie)) =>
      if banned then (BannedText(clearCookie), after)
      else
        var (answer, st) := Html(s.chal, req, c, env.page, after.chal);
        (Generated(answer, clearCookie), World(after.regex, st))
  }

  // ----- the code -----

  class Banjax {
    const settings: Settings
    const manager: Manager
    const filter: Filter

    ghost predicate Valid()
      reads manager.table
    {
      && ValidSettings(settings) && manager.Valid() && manager.rules == settings.rules
      && filter.Valid() && filter.cfg == settings.chal
      && (manager.table as object) != (filter.tally.table as object)
      && (manager.table as object) != (filter.tally.swabber.table as object)
    }

    ghost function View(): World
      reads manager.table, filter.tally.table, filter.tally.swabber, filter.tally.swabber.table
    {
      World(manager.table.db, filter.View())
    }

    constructor (settings: Settings, manager: Manager, filter: Filter)
      requires ValidSettings(settings) && manager.Valid() && manager.rules == settings.rules
      requires filter.Valid() && filter.cfg == settings.chal
      requires (manager.table as object) != (filter.tally.table as object)
      requires (manager.table as object) != (filter.tally.swabber.table as object)
      ensures Valid() && this.settings == settings && this.manager == manager && this.filter == filter
    {
      this.settings := settings;
      this.manager := manager;
      this.filter := filter;
    }

    method CheckWhiteList(req: Request) returns (reply: Reply)
      requires Valid()
      ensures reply == if WhiteList.ListedFor(settings.lists, req.host, settings.chal.inet(req.ip))
                       then ServeImmediately else GoAhead
    {
      var ip := settings.chal.inet(req.ip);
      var hit := WhiteList.FirstMatch(settings.lists.everywhere, ip);
      if hit.None? && req.host in settings.lists.perHost {
        hit := WhiteList.FirstMatch(settings.lists.perHost[req.host], ip);
      }
      return if hit.Some? then ServeImmediately else GoAhead;
    }

    method CheckRegex(req: Request, env: Weather) returns (reply: Reply)
      requires Valid()
      modifies manager.table, filter.tally.swabber`log, filter.tally.swabber.table
      ensures Valid() && (reply, View()) == RegexChecked(settings, req, env, old(View()))
    {
      hide Matched, Swabber.AfterBan;
      MatchedEffect(settings.rules, VisitOf(req, env), manager.table.db);
      var hit := manager.TryMatch(VisitOf(req, env));
      if hit.Some? {
        filter.tally.swabber.Ban(req.ip, env.ban);
        return Respond(Forbidden);
      }
      return GoAhead;
    }

    method Execute(kind: FilterKind, req: Request, env: Weather) returns (reply: Reply)
      requires Valid() && PassToken.TIME_LENGTH + |CStr(req.ip)| <= 200
      requires env.tables == Tables(filter.hostDynamic, filter.ipDynamic)
      modifies manager.table, filter.tally.table, filter.tally.swabber`log, filter.tally.swabber.table
      ensures Valid() && (reply, View()) == Filtered(settings, kind, req, env, old(View()))
    {
      hide Challenged, Swabber.Deny, RegexChecked;
      match kind
      case WhiteListing => reply := CheckWhiteList(req);
      case Denying =>
        var listed := filter.CheckWhiteListed(settings.chal.listed, req.ip);
        var denied := filter.tally.swabber.OnHttpRequest(listed, req.ip, env.deny);
        reply := if denied then Respond(Denied) else GoAhead;
      case RegexBanning => reply := CheckRegex(req, env);
      case Challenging => reply := filter.OnHttpRequest(req, env.chal);
    }

    /** `TransactionData::handle_request`. */
    method HandleRequest(req: Request, env: Weather) returns (verdict: Verdict)
      requires Valid() && PassToken.TIME_LENGTH + |CStr(req.ip)| <= 200
      requires env.tables == Tables(filter.hostDynamic, filter.ipDynamic)
      modifies manager.table, filter.tally.table, filter.tally.swabber`log, filter.tally.swabber.table
      ensures Valid() && (verdict, View()) == Handled(settings, 0, req, env, old(View()), Proceed(false, false))
    {
      hide Filtered;
      var marks := Proceed(false, false);
      for k := 0 to |settings.filters|
        invariant Valid() && marks.Proceed?
        invariant Handled(settings, k, req, env, View(), marks)
               == Handled(settings, 0, req, env, old(View()), Proceed(false, false))
      {
        var reply := Execute(settings.filters[k], req, env);
        match reply
        case GoAhead =>
        case ServeImmediately => return marks.(noStore := true);
        case ServeFresh => marks := Proceed(true, true);
        case Respond(page) => return Answered(page);
      }
      return marks;
    }

    /** A request from its headers to its response: `handle_request`, then the generator `handle_response` calls. */
    method Serve(req: Request, env: Weather) returns (response: Response)
      requires Valid() && InTime(env.page)
      requires env.tables == Tables(filter.hostDynamic, filter.ipDynamic)
      requires PassToken.TIME_LENGTH + |CStr(req.ip)| + |CStr(env.page.drawn)| <= 200
      requires var a := AnswerIn(req.urlWithHost);
               a.Some? ==> PassToken.TIME_LENGTH + |CStr(req.ip)| + |CStr(a.value)| <= 200
      modifies manager.table, filter.tally.table, filter.tally.swabber`log, filter.tally.swabber.table
      ensures Valid() && (response, View()) == Served(settings, req, env, old(View()))
    {
      hide Handled, Html, AnswerIn, CStr;
      var verdict := HandleRequest(req, env);
      match verdict
      case Proceed(noStore, noCache) => response := Origin(noStore, noCache);
      case Answered(Denied) => response := DeniedText;
      case Answered(Forbidden) => response := ForbiddenText;
      case Answered(ChallengePage(c, banned, clearCookie)) =>
        if banned {
          response := BannedText(clearCookie);
        } else {
          var answer := GenerateHtml(filter, req, c, env.page);
          response := Generated(answer, clearCookie);
        }
    }
  }
}
