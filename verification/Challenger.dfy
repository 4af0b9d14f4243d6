/** src/challenger.cpp: which challenges a request meets, how each is run, and what page answers a failed one. */
module Challenger {
  import opened Bytes
  import opened IpDb
  import opened PassToken
  import opened PassCheck
  import opened MagicWords
  import opened FailureCount
  import WhiteList
  import CookieJar
  import Swabber

  /** Seconds, read from the configuration as an `unsigned int`. */
  type Period = p: int | 0 <= p < TWO_32

  const TWO_32 := 0x1_0000_0000

  /** `HostChallengeSpec`. */
  datatype Challenge = Challenge(
    kind: ChallengeType, threshold: nat, validity: Period, passwordHash: Str,
    words: seq<MagicWord>, exceptions: seq<Str>, whiteListed: seq<WhiteList.Subnet>, timeAdded: int)

  /** Read-only configuration; `listed` are the globally white-listed ranges. */
  datatype Config = Config(
    secrets: Secrets, inet: WhiteList.Inet, listed: seq<WhiteList.Subnet>,
    challenges: map<Str, seq<Challenge>>, grace: int)

  /** The challenges that came over Kafka, per host and per address. */
  datatype Tables = Tables(host: map<Str, Challenge>, ip: map<Str, Challenge>)

  datatype Request = Request(ip: Str, host: Str, verb: Str, url: Str, urlWithHost: Str, agent: Str, cookie: Str)

  /** What one challenge of the list meets: the clock, memory, and the outcomes of its counter updates. */
  datatype RoundEnv = RoundEnv(now: Time, beyond: Memory, success: bool, fail: FailEnv)

  datatype Env = Env(hostLock: bool, ipLock: bool, rounds: nat -> RoundEnv, last: bool)

  datatype Page = ChallengePage(challenge: Challenge, banned: bool, clearCookie: bool) | Denied | Forbidden

  datatype Reply = GoAhead | ServeImmediately | ServeFresh | Respond(page: Page)

  datatype State = State(failures: Db<nat>, swabber: Swabber.State)

  /** "__captcha" */
  const CAPTCHA_URL: Str := [95, 95, 99, 97, 112, 116, 99, 104, 97]
  /** "__validate/" */
  const ANSWER_URL: Str := [95, 95, 118, 97, 108, 105, 100, 97, 116, 101, 47]

  // ----- selection -----

  /** Static host challenges first, then the dynamic host, then the dynamic address; None lets the request through. */
  function Selected(cfg: Config, tables: Tables, req: Request, env: Env): Option<seq<Challenge>> {
    if req.host in cfg.challenges then Some(cfg.challenges[req.host])
    else if !env.hostLock then None
    else if req.host in tables.host then Some([tables.host[req.host]])
    else if !env.ipLock || req.ip !in tables.ip then None
    else Some([tables.ip[req.ip], tables.ip[req.ip]])   // pushed twice
  }

  // ----- one challenge -----

  predicate GloballyListed(cfg: Config, ip: Str) {
    WhiteList.Listed(cfg.listed, cfg.inet(ip))
  }

  function Passes(cfg: Config, req: Request, c: Challenge, env: RoundEnv): bool {
    CookiePasses(cfg.secrets, [], req.cookie, req.ip, c.kind, c.passwordHash, env.now, env.beyond)
  }

  /** A failed challenge: counted if the challenge has a tolerance, then answered with its page. */
  function Failed(cfg: Config, req: Request, c: Challenge, clearCookie: bool, env: FailEnv, st: State): (Reply, State) {
    if c.threshold == 0 then (Respond(ChallengePage(c, false, clearCookie)), st)
    else
      var (banned, db) := AfterFailure(st.failures, req.ip, c.threshold, env);
      var swabber := if banned then Swabber.AfterBan(cfg.grace, st.swabber, req.ip, env.ban) else st.swabber;
      (Respond(ChallengePage(c, banned, clearCookie)), State(db, swabber))
  }

  /** One turn of the loop in `on_http_request`; no reply means the next challenge is tried. */
  ghost function Round(cfg: Config, req: Request, c: Challenge, env: RoundEnv, st: State): (Option<Reply>, State) {
    if WhiteList.Listed(c.whiteListed, cfg.inet(req.ip)) then (Some(ServeImmediately), st)
    else match c.kind
      case Captcha =>
        if GloballyListed(cfg, req.ip) then (None, st)
        else if Occurs(req.urlWithHost, CAPTCHA_URL) || Occurs(req.urlWithHost, ANSWER_URL) then
          (Some(Respond(ChallengePage(c, false, false))), st)
        else if Passes(cfg, req, c, env) then
          (None, State(AfterSuccess(st.failures, req.ip, env.success), st.swabber))
        else
          var (reply, after) := Failed(cfg, req, c, false, env.fail, st);
          (Some(reply), after)
      case ShaInverse =>
        if GloballyListed(cfg, req.ip) || Passes(cfg, req, c, env) then (None, st)
        else
          var (reply, after) := Failed(cfg, req, c, true, env.fail, st);
          (Some(reply), after)
      case Auth =>
        if Passes(cfg, req, c, env) then
          (Some(ServeFresh), State(AfterSuccess(st.failures, req.ip, env.success), st.swabber))
        else if Protected(req.urlWithHost, c.words, c.exceptions) then
          var (reply, after) := Failed(cfg, req, c, true, env.fail, st);
          (Some(reply), after)
        else (None, st)
  }

  /** The loop from challenge `k` on; falling off its end counts as a success. */
  ghost function Rounds(cfg: Config, req: Request, cs: seq<Challenge>, k: nat, env: Env, st: State): (Reply, State)
    requires k <= |cs|
    decreases |cs| - k
  {
    if k == |cs| then (GoAhead, State(AfterSuccess(st.failures, req.ip, env.last), st.swabber))
    else
      var (reply, after) := Round(cfg, req, cs[k], env.rounds(k), st);
      if reply.Some? then (reply.value, after) else Rounds(cfg, req, cs, k + 1, env, after)
  }

  /** `Challenger::on_http_request`. */
  ghost function Challenged(cfg: Config, tables: Tables, req: Request, env: Env, st: State): (Reply, State) {
    match Selected(cfg, tables, req, env)
    case None => (GoAhead, st)
    case Some(cs) => Rounds(cfg, req, cs, 0, env, st)
  }

  // ----- the code -----

  class Filter {
    const cfg: Config
    const tally: Tally
    var hostDynamic: map<Str, Challenge>
    var ipDynamic: map<Str, Challenge>

    ghost predicate Valid() {
      tally.Valid() && tally.swabber.grace == cfg.grace
    }

    ghost function View(): State
      reads tally.table, tally.swabber, tally.swabber.table
    {
      State(tally.table.db, tally.swabber.View())
    }

    constructor (cfg: Config, tally: Tally)
      requires tally.Valid() && tally.swabber.grace == cfg.grace
      ensures Valid() && this.cfg == cfg && this.tally == tally && hostDynamic == map[] && ipDynamic == map[]
    {
      this.cfg := cfg;
      this.tally := tally;
      hostDynamic, ipDynamic := map[], map[];
    }

    method LoadSingleHostChallenge(domain: Str, c: Challenge)
      modifies this`hostDynamic
      ensures hostDynamic == old(hostDynamic)[domain := c]
    {
      hostDynamic := hostDynamic[domain := c];
    }

    method LoadSingleIpChallenge(ip: Str, c: Challenge)
      modifies this`ipDynamic
      ensures ipDynamic == old(ipDynamic)[ip := c]
    {
      ipDynamic := ipDynamic[ip := c];
    }

    /** After a sweep exactly the entries within their lifetime are left. */
    method RemoveExpiredChallenges(now: int, lifetime: nat)
      modifies this`hostDynamic, this`ipDynamic
      ensures hostDynamic == map h | h in old(hostDynamic) && now - old(hostDynamic)[h].timeAdded <= lifetime
                                 :: old(hostDynamic)[h]
      ensures ipDynamic == map a | a in old(ipDynamic) && now - old(ipDynamic)[a].timeAdded <= lifetime
                               :: old(ipDynamic)[a]
    {
      hostDynamic := Unexpired(hostDynamic, now, lifetime);
      ipDynamic := Unexpired(ipDynamic, now, lifetime);
    }

    method CheckWhiteListed(ranges: seq<WhiteList.Subnet>, ip: Str) returns (ok: bool)
      ensures ok <==> WhiteList.Listed(ranges, cfg.inet(ip))
    {
      var hit := WhiteList.FirstMatch(ranges, cfg.inet(ip));
      ok := hit.Some?;
    }

    method Fail(req: Request, c: Challenge, clearCookie: bool, env: FailEnv) returns (reply: Reply)
      requires Valid()
      modifies tally.table, tally.swabber`log, tally.swabber.table
      ensures (reply, View()) == Failed(cfg, req, c, clearCookie, env, old(View()))
    {
      var banned := false;
      if c.threshold != 0 {
        banned := tally.ReportFailure(req.ip, c.threshold, env);
      }
      reply := Respond(ChallengePage(c, banned, clearCookie));
    }

    method Check(req: Request, c: Challenge, env: RoundEnv) returns (passed: bool)
      requires TIME_LENGTH + |CStr(req.ip)| <= 200
      ensures passed == Passes(cfg, req, c, env)
    {
      assert CStr([]) == [];
      passed := CheckCookie(cfg.secrets, [], req.cookie, req.ip, c.kind, c.passwordHash, env.now, env.beyond);
    }

    method RunCaptcha(req: Request, c: Challenge, env: RoundEnv) returns (reply: Option<Reply>)
      requires Valid() && TIME_LENGTH + |CStr(req.ip)| <= 200 && c.kind.Captcha?
      requires !WhiteList.Listed(c.whiteListed, cfg.inet(req.ip))
      modifies tally.table, tally.swabber`log, tally.swabber.table
      ensures (reply, View()) == Round(cfg, req, c, env, old(View()))
    {
      hide Passes, Occurs, AfterFailure, Swabber.AfterBan;
      var listed := CheckWhiteListed(cfg.listed, req.ip);
      if listed {
        return None;
      }
      var image := Contains(req.urlWithHost, CAPTCHA_URL);
      var answer := Contains(req.urlWithHost, ANSWER_URL);
      if image || answer {
        return Some(Respond(ChallengePage(c, false, false)));
      }
      var passed := Check(req, c, env);
      if passed {
        tally.ReportSuccess(req.ip, env.success);
        return None;
      }
      var r := Fail(req, c, false, env.fail);
      return Some(r);
    }

    method RunShaInverse(req: Request, c: Challenge, env: RoundEnv) returns (reply: Option<Reply>)
      requires Valid() && TIME_LENGTH + |CStr(req.ip)| <= 200 && c.kind.ShaInverse?
      requires !WhiteList.Listed(c.whiteListed, cfg.inet(req.ip))
      modifies tally.table, tally.swabber`log, tally.swabber.table
      ensures (reply, View()) == Round(cfg, req, c, env, old(View()))
    {
      hide Passes, AfterFailure, Swabber.AfterBan;
      var listed := CheckWhiteListed(cfg.listed, req.ip);
      if listed {
        return None;
      }
      var passed := Check(req, c, env);
      if !passed {
        var r := Fail(req, c, true, env.fail);
        return Some(r);
      }
      return None;
    }

    method RunAuth(req: Request, c: Challenge, env: RoundEnv) returns (reply: Option<Reply>)
      requires Valid() && TIME_LENGTH + |CStr(req.ip)| <= 200 && c.kind.Auth?
      requires !WhiteList.Listed(c.whiteListed, cfg.inet(req.ip))
      modifies tally.table, tally.swabber`log, tally.swabber.table
      ensures (reply, View()) == Round(cfg, req, c, env, old(View()))
    {
      hide Passes, Protected, AfterFailure, Swabber.AfterBan;
      var passed := Check(req, c, env);
      if passed {
        tally.ReportSuccess(req.ip, env.success);
        return Some(ServeFresh);
      }
      var needed := NeedsAuthentication(req.urlWithHost, c.words, c.exceptions);
      if needed {
        var r := Fail(req, c, true, env.fail);
        return Some(r);
      }
      return None;
    }

    method RunChallenge(req: Request, c: Challenge, env: RoundEnv) returns (reply: Option<Reply>)
      requires Valid() && TIME_LENGTH + |CStr(req.ip)| <= 200
      modifies tally.table, tally.swabber`log, tally.swabber.table
      ensures (reply, View()) == Round(cfg, req, c, env, old(View()))
    {
      var listed := CheckWhiteListed(c.whiteListed, req.ip);
      if listed {
        return Some(ServeImmediately);
      }
      match c.kind
      case Captcha => reply := RunCaptcha(req, c, env);
      case ShaInverse => reply := RunShaInverse(req, c, env);
      case Auth => reply := RunAuth(req, c, env);
    }

    method Select(req: Request, env: Env) returns (cs: Option<seq<Challenge>>)
      ensures cs == Selected(cfg, Tables(hostDynamic, ipDynamic), req, env)
    {
      var toRun: seq<Challenge> := [];
      if req.host !in cfg.challenges {
        if !env.hostLock {
          return None;
        }
        var found: Challenge;
        if req.host in hostDynamic {
          found := hostDynamic[req.host];
        } else {
          if !env.ipLock {
            return None;
          }
          if req.ip !in ipDynamic {
            return None;
          }
          found := ipDynamic[req.ip];
          toRun := [found] + toRun;
          assert toRun == [found];
        }
        toRun := [found] + toRun;
        assert toRun == [found] || toRun == [found, found];
      } else {
        toRun := cfg.challenges[req.host];
      }
      return Some(toRun);
    }

    method OnHttpRequest(req: Request, env: Env) returns (reply: Reply)
      requires Valid() && TIME_LENGTH + |CStr(req.ip)| <= 200
      modifies tally.table, tally.swabber`log, tally.swabber.table
      ensures (reply, View()) == Challenged(cfg, Tables(hostDynamic, ipDynamic), req, env, old(View()))
    {
      hide Round;
      var selected := Select(req, env);
      if selected.None? {
        return GoAhead;
      }
      var cs := selected.value;
      for k := 0 to |cs|
        invariant Rounds(cfg, req, cs, k, env, View()) == Rounds(cfg, req, cs, 0, env, old(View()))
      {
        var r := RunChallenge(req, cs[k], env.rounds(k));
        if r.Some? {
          return r.value;
        }
      }
      tally.ReportSuccess(req.ip, env.last);
      return GoAhead;
    }
  }

  method Unexpired(table: map<Str, Challenge>, now: int, lifetime: nat) returns (r: map<Str, Challenge>)
    ensures r == map h | h in table && now - table[h].timeAdded <= lifetime :: table[h]
  {
    r := table;
    var todo := table.Keys;
    while todo != {}
      invariant todo <= table.Keys && r.Keys <= table.Keys
      invariant forall h :: h in r ==> r[h] == table[h]
      invariant forall h :: h in table ==> (h in r <==> h in todo || now - table[h].timeAdded <= lifetime)
      decreases todo
    {
      var h :| h in todo;
      todo := todo - {h};
      if now - table[h].timeAdded > lifetime {
        r := r - {h};
      }
    }
  }

  // ----- the doubled address challenge -----

  /** The challenge is a captcha the cookie passes, and of the three counter updates only the second gets its lock. */
  ghost predicate OnlySecondStores(cfg: Config, req: Request, c: Challenge, env: Env, st: State) {
    && c.kind.Captcha? && !WhiteList.Listed(c.whiteListed, cfg.inet(req.ip)) && !GloballyListed(cfg, req.ip)
    && !Occurs(req.urlWithHost, CAPTCHA_URL) && !Occurs(req.urlWithHost, ANSWER_URL) && Passes(cfg, req, c, env.rounds(0))
    && !env.rounds(0).success && env.rounds(1).success && !env.last
    && Entry(st.failures, req.ip) != Some(1)
  }

  /**
   * A dynamic address challenge is pushed twice. At a fixed time this never changes the reply or the ban reports,
   * and it changes the failure counter exactly when the superfluous update is the only one to get its lock.
   */
  lemma {:induction false} TwiceIsOnce(cfg: Config, req: Request, c: Challenge, env: Env, st: State)
    requires env.rounds(1).now == env.rounds(0).now && env.rounds(1).beyond == env.rounds(0).beyond
    ensures Rounds(cfg, req, [c, c], 0, env, st).0 == Rounds(cfg, req, [c], 0, env, st).0
    ensures Rounds(cfg, req, [c, c], 0, env, st).1.swabber == Rounds(cfg, req, [c], 0, env, st).1.swabber
    ensures Rounds(cfg, req, [c, c], 0, env, st).1.failures == Rounds(cfg, req, [c], 0, env, st).1.failures
       <==> !OnlySecondStores(cfg, req, c, env, st)
  {
    var cs, once := [c, c], [c];
    var (r0, s0) := Round(cfg, req, c, env.rounds(0), st);
    SecondRoundContinues(cfg, req, c, env, st);
    hide Round, Passes, Occurs, Protected, Failed, WhiteList.Listed;
    if r0.None? {
      var (r1, s1) := Round(cfg, req, c, env.rounds(1), s0);
      assert Rounds(cfg, req, cs, 0, env, st) == Rounds(cfg, req, cs, 1, env, s0);
      assert Rounds(cfg, req, cs, 1, env, s0) == Rounds(cfg, req, cs, 2, env, s1);
      assert Rounds(cfg, req, once, 0, env, st) == Rounds(cfg, req, once, 1, env, s0);
      assert env.last ==> AfterSuccess(s1.failures, req.ip, true) == AfterSuccess(s0.failures, req.ip, true);
    }
  }

  /** When the first round moves on, so does the second, and it stores at most the success the first one stored. */
  lemma {:induction false} SecondRoundContinues(cfg: Config, req: Request, c: Challenge, env: Env, st: State)
    requires env.rounds(1).now == env.rounds(0).now && env.rounds(1).beyond == env.rounds(0).beyond
    ensures var (r0, s0) := Round(cfg, req, c, env.rounds(0), st);
            var (r1, s1) := Round(cfg, req, c, env.rounds(1), s0);
            && (OnlySecondStores(cfg, req, c, env, st) ==> r0.None?)
            && (r0.None? ==>
                  && r1.None? && s1.swabber == s0.swabber
                  && (s1.failures == s0.failures || s1.failures == s0.failures[req.ip := 1])
                  && (env.last || (s1.failures == s0.failures <==> !OnlySecondStores(cfg, req, c, env, st))))
  {
    hide Occurs, Protected, Failed, WhiteList.Listed, CookiePasses;
    var s0 := Round(cfg, req, c, env.rounds(0), st).1;
    assert env.rounds(0).success ==> st.failures[req.ip := 1][req.ip := 1] == st.failures[req.ip := 1];
    assert Entry(st.failures, req.ip) == Some(1) ==> st.failures[req.ip := 1] == st.failures;
  }

  /** A jar that holds nothing but one `deflect` cookie. */
  function OneCookie(value: Str): Str {
    CookieJar.Spelled(CookieJar.Cookie(DEFLECT, value), CookieJar.Layout([], [], 0, [], []))
  }

  lemma {:induction false} OneCookieCarries(value: Str)
    requires value == [] || value[0] != EQUALS
    ensures Carries(OneCookie(value), value)
  {
    hide CookieJar.Spelled;
    var jar: Str := OneCookie(value);
    assert [] + (jar + []) == jar;
    assert CarriesVia(jar, value, [], [], CookieJar.Layout([], [], 0, [], []), []);
  }

  /** A request of `ip` for the empty URL, with a pass for `ip` that expires at `t`. */
  function PassHolder(k: Secrets, ip: Str, t: Time): Request {
    Request(ip, [], [], [], [], [], OneCookie(Issued(k.mac, [], k.key, t, ip)))
  }

  const PLAIN_CAPTCHA := Challenge(Captcha, 5, 0, [], [], [], [], 0)

  /** Both rounds happen at `t`, and of the three counter updates only that of the second round gets its lock. */
  function SecondLockOnly(t: Time, beyond: Memory, fail: FailEnv): Env {
    Env(true, true, (k: nat) => RoundEnv(t, beyond, k == 1, fail), false)
  }

  lemma {:induction false} NothingIsPlain()
    ensures IsPlain([])
  {
  }

  lemma {:induction false} PassHolderPasses(cfg: Config, ip: Str, t: Time, beyond: Memory, fail: FailEnv, success: bool)
    ensures Passes(cfg, PassHolder(cfg.secrets, ip, t), PLAIN_CAPTCHA, RoundEnv(t, beyond, success, fail))
  {
    hide Issued, Carries, Presents, CookiePasses, OneCookie, IsPlain;
    var k, token := cfg.secrets, Issued(cfg.secrets.mac, [], cfg.secrets.key, t, ip);
    IssuedIsPlain(k.mac, [], k.key, t, ip);
    OneCookieCarries(token);
    assert token + [] == token;
    NothingIsPlain();
    CarriedTokenIsFound(k, [], t, ip, [], OneCookie(token));
    IssuedTokenAccepted(k, Captcha, [], t, ip, [], OneCookie(token), t, beyond);
  }

  lemma {:induction false} PassHolderRound(cfg: Config, ip: Str, t: Time, beyond: Memory, fail: FailEnv,
                                           success: bool, st: State)
    requires cfg.listed == []
    ensures Round(cfg, PassHolder(cfg.secrets, ip, t), PLAIN_CAPTCHA, RoundEnv(t, beyond, success, fail), st)
         == (None, State(AfterSuccess(st.failures, ip, success), st.swabber))
  {
    PassHolderPasses(cfg, ip, t, beyond, fail, success);
    hide Passes, Failed, OneCookie, Issued;
  }

  lemma {:induction false} SecondStoresOnly(cfg: Config, ip: Str, t: Time, beyond: Memory, fail: FailEnv,
                                            swabber: Swabber.State)
    requires cfg.listed == []
    ensures OnlySecondStores(cfg, PassHolder(cfg.secrets, ip, t), PLAIN_CAPTCHA, SecondLockOnly(t, beyond, fail),
                             State(map[ip := 2], swabber))
  {
    PassHolderPasses(cfg, ip, t, beyond, fail, false);
    hide Passes, OneCookie, Issued;
  }

  /** The exception to TwiceIsOnce happens: for every key and address, from two failures, the counters end as 1 and 2. */
  lemma {:induction false} TwiceCanDiffer(cfg: Config, ip: Str, t: Time, beyond: Memory, fail: FailEnv,
                                          swabber: Swabber.State)
    requires cfg.listed == []
    ensures var req, env, st := PassHolder(cfg.secrets, ip, t), SecondLockOnly(t, beyond, fail), State(map[ip := 2], swabber);
            && OnlySecondStores(cfg, req, PLAIN_CAPTCHA, env, st)
            && Rounds(cfg, req, [PLAIN_CAPTCHA, PLAIN_CAPTCHA], 0, env, st).1.failures == map[ip := 1]
            && Rounds(cfg, req, [PLAIN_CAPTCHA], 0, env, st).1.failures == map[ip := 2]
  {
    hide Round, OnlySecondStores, OneCookie, Issued;
    var req, env, st := PassHolder(cfg.secrets, ip, t), SecondLockOnly(t, beyond, fail), State(map[ip := 2], swabber);
    SecondStoresOnly(cfg, ip, t, beyond, fail, swabber);
    PassHolderRound(cfg, ip, t, beyond, fail, false, st);
    PassHolderRound(cfg, ip, t, beyond, fail, true, st);
    assert map[ip := 2][ip := 1] == map[ip := 1];
    var once, twice := [PLAIN_CAPTCHA], [PLAIN_CAPTCHA, PLAIN_CAPTCHA];
    assert Rounds(cfg, req, once, 0, env, st) == Rounds(cfg, req, once, 1, env, st);
    assert Rounds(cfg, req, twice, 1, env, st) == Rounds(cfg, req, twice, 2, env, State(map[ip := 1], swabber));
  }
}
