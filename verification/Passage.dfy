/** From a challenge page to the request that gets through: pages, client and challenger together. */
module Passage {
  import opened Bytes
  import opened PassToken
  import opened PassCheck
  import opened FailureCount
  import opened Challenger
  import opened ChallengePages
  import WhiteList
  import MagicWords
  import Swabber
  import Base64
  import ZeroCount

  // ----- what a list of challenges makes of a cookie -----

  /** The request names neither the captcha picture nor an answer to it. */
  ghost predicate Ordinary(req: Request) {
    !Occurs(req.urlWithHost, CAPTCHA_URL) && !Occurs(req.urlWithHost, ANSWER_URL)
  }

  ghost predicate Guarded(req: Request, c: Challenge) {
    MagicWords.Protected(req.urlWithHost, c.words, c.exceptions)
  }

  /** The challenge's own white list names the client. */
  predicate Excused(cfg: Config, req: Request, c: Challenge) {
    WhiteList.Listed(c.whiteListed, cfg.inet(req.ip))
  }

  /** The challenge leaves the request to the next one, given whether its cookie passes. */
  ghost predicate LetsOn(cfg: Config, req: Request, c: Challenge, passed: bool) {
    && !Excused(cfg, req, c)
    && match c.kind
       case Captcha => GloballyListed(cfg, req.ip) || (Ordinary(req) && passed)
       case ShaInverse => GloballyListed(cfg, req.ip) || passed
       case Auth => !passed && !Guarded(req, c)
  }

  /** The challenge counts the request as a failure: it asks for no picture and answers none. */
  ghost predicate Fails(req: Request, c: Challenge, passed: bool) {
    !passed && (c.kind.Captcha? ==> Ordinary(req))
  }

  /**
   * What a challenge that does not let the request on replies and leaves. Its page is a ban page exactly for a failure
   * that reaches the tolerance, and has the client delete its cookie exactly for the kinds without a captcha.
   */
  ghost predicate Stops(cfg: Config, req: Request, c: Challenge, passed: bool, env: RoundEnv, st: State, reply: Reply,
                        after: State)
  {
    if Excused(cfg, req, c) then reply == ServeImmediately && after == st
    else if c.kind.Auth? && passed then reply == ServeFresh && after == Credited(st, req.ip, env.success)
    else
      && reply == Respond(ChallengePage(c, Fails(req, c, passed) && Exceeds(req, c, env.fail, st.failures),
                                        !c.kind.Captcha?))
      && if Fails(req, c, passed) then Counts(cfg, req, c, env.fail, st, after) else after == st
  }

  /** A stored success sets the counter to one. */
  ghost function Credited(st: State, ip: Str, stored: bool): State {
    if stored then st.(failures := st.failures[ip := 1]) else st
  }

  /** One of the first `n` challenges is a captcha whose success could be stored. */
  ghost predicate Stored(cfg: Config, req: Request, cs: seq<Challenge>, env: Env, n: nat)
    requires n <= |cs|
  {
    !GloballyListed(cfg, req.ip) && exists i :: 0 <= i < n && cs[i].kind.Captcha? && env.rounds(i).success
  }

  /** `j` is the first challenge that does not let the request on. */
  ghost predicate FirstStop(cfg: Config, req: Request, cs: seq<Challenge>, passed: seq<bool>, j: nat)
    requires |passed| == |cs|
  {
    && j < |cs| && !LetsOn(cfg, req, cs[j], passed[j])
    && forall i :: 0 <= i < j ==> LetsOn(cfg, req, cs[i], passed[i])
  }

  /**
   * If all challenges let the request on it goes ahead, and all that may have changed is a success stored for its
   * address; otherwise the first challenge that does not gives the reply.
   */
  ghost predicate DecidedBy(cfg: Config, req: Request, cs: seq<Challenge>, passed: seq<bool>, env: Env, st: State,
                            reply: Reply, after: State)
    requires |passed| == |cs|
  {
    && ((forall j :: 0 <= j < |cs| ==> LetsOn(cfg, req, cs[j], passed[j])) ==>
          reply == GoAhead && after == Credited(st, req.ip, env.last || Stored(cfg, req, cs, env, |cs|)))
    && (forall j: nat :: FirstStop(cfg, req, cs, passed, j) ==>
          Stops(cfg, req, cs[j], passed[j], env.rounds(j), Credited(st, req.ip, Stored(cfg, req, cs, env, j)),
                reply, after))
  }

  lemma {:induction false} RoundLetsOn(cfg: Config, req: Request, c: Challenge, env: RoundEnv, st: State)
    requires LetsOn(cfg, req, c, Passes(cfg, req, c, env))
    ensures Round(cfg, req, c, env, st).0 == None
    ensures Round(cfg, req, c, env, st).1
         == Credited(st, req.ip, c.kind.Captcha? && !GloballyListed(cfg, req.ip) && env.success)
  {
    hide Passes, Occurs, WhiteList.Listed, MagicWords.Protected;
  }

  lemma {:induction false} RoundStops(cfg: Config, req: Request, c: Challenge, env: RoundEnv, st: State)
    requires !LetsOn(cfg, req, c, Passes(cfg, req, c, env))
    ensures var (r, after) := Round(cfg, req, c, env, st);
            r.Some? && Stops(cfg, req, c, Passes(cfg, req, c, env), env, st, r.value, after)
  {
    hide Passes, Occurs, WhiteList.Listed, MagicWords.Protected, AfterFailure, Swabber.AfterBan, Counts, Exceeds;
    FailureCounts(cfg, req, c, !c.kind.Captcha?, env.fail, st);
  }

  lemma {:induction false} FailureCounts(cfg: Config, req: Request, c: Challenge, clear: bool, env: FailEnv, st: State)
    ensures var (reply, after) := Failed(cfg, req, c, clear, env, st);
            && reply == Respond(ChallengePage(c, Exceeds(req, c, env, st.failures), clear))
            && Counts(cfg, req, c, env, st, after)
  {
    hide Swabber.AfterBan;
  }

  lemma {:induction false} CreditedAgain(cfg: Config, req: Request, cs: seq<Challenge>, env: Env, k: nat, st: State)
    requires k < |cs|
    ensures var now := cs[k].kind.Captcha? && !GloballyListed(cfg, req.ip) && env.rounds(k).success;
            && Stored(cfg, req, cs, env, k + 1) == (Stored(cfg, req, cs, env, k) || now)
            && Credited(Credited(st, req.ip, Stored(cfg, req, cs, env, k)), req.ip, now)
               == Credited(st, req.ip, Stored(cfg, req, cs, env, k + 1))
  {
    hide GloballyListed;
    assert st.failures[req.ip := 1][req.ip := 1] == st.failures[req.ip := 1];
  }

  lemma {:induction false} RoundsDecide(cfg: Config, req: Request, cs: seq<Challenge>, passed: seq<bool>, k: nat,
                                        env: Env, st: State)
    requires k <= |cs| && |passed| == |cs|
    requires forall j :: 0 <= j < |cs| ==> passed[j] == Passes(cfg, req, cs[j], env.rounds(j))
    requires forall i :: 0 <= i < k ==> LetsOn(cfg, req, cs[i], passed[i])
    ensures var (reply, after) := Rounds(cfg, req, cs, k, env, Credited(st, req.ip, Stored(cfg, req, cs, env, k)));
            DecidedBy(cfg, req, cs, passed, env, st, reply, after)
    decreases |cs| - k
  {
    hide Passes, Round, LetsOn, Stops, Stored;
    if k == |cs| {
      assert st.failures[req.ip := 1][req.ip := 1] == st.failures[req.ip := 1];
    } else {
      var now := Credited(st, req.ip, Stored(cfg, req, cs, env, k));
      if LetsOn(cfg, req, cs[k], passed[k]) {
        RoundLetsOn(cfg, req, cs[k], env.rounds(k), now);
        CreditedAgain(cfg, req, cs, env, k, st);
        RoundsDecide(cfg, req, cs, passed, k + 1, env, st);
      } else {
        RoundStops(cfg, req, cs[k], env.rounds(k), now);
        assert forall j: nat :: FirstStop(cfg, req, cs, passed, j) ==> j == k;
      }
    }
  }

  // ----- which challenges a request meets -----

  /**
   * A host with static challenges meets those, whatever came over Kafka and whatever the locks do; otherwise the one
   * sent for its host; otherwise, twice, the one sent for the client's address.
   */
  ghost predicate Meets(cfg: Config, tables: Tables, req: Request, env: Env, cs: seq<Challenge>) {
    || (req.host in cfg.challenges && cs == cfg.challenges[req.host])
    || (req.host !in cfg.challenges && env.hostLock && req.host in tables.host && cs == [tables.host[req.host]])
    || (&& req.host !in cfg.challenges && env.hostLock && req.host !in tables.host
        && env.ipLock && req.ip in tables.ip && cs == [tables.ip[req.ip], tables.ip[req.ip]])
  }

  /** Nothing is configured for the host, and nothing sent for it or the client's address can be found. */
  ghost predicate MeetsNothing(cfg: Config, tables: Tables, req: Request, env: Env) {
    && req.host !in cfg.challenges
    && (env.hostLock ==> req.host !in tables.host && (env.ipLock ==> req.ip !in tables.ip))
  }

  /** The reply and the state after a request, given which of these challenges its cookie passes. */
  ghost predicate Decided(cfg: Config, tables: Tables, req: Request, env: Env, st: State, cs: seq<Challenge>,
                          passed: seq<bool>)
    requires |passed| == |cs|
  {
    var (reply, after) := Challenged(cfg, tables, req, env, st);
    DecidedBy(cfg, req, cs, passed, env, st, reply, after)
  }

  /** What decides is which challenges the cookie passes, for every list of challenges of any kinds. */
  lemma {:induction false} Judged(cfg: Config, tables: Tables, req: Request, env: Env, st: State, cs: seq<Challenge>,
                                  passed: seq<bool>)
    requires Meets(cfg, tables, req, env, cs) && |passed| == |cs|
    requires forall k :: 0 <= k < |cs| ==> passed[k] == Passes(cfg, req, cs[k], env.rounds(k))
    ensures Decided(cfg, tables, req, env, st, cs, passed)
  {
    hide Passes, Rounds, DecidedBy;
    RoundsDecide(cfg, req, cs, passed, 0, env, st);
    assert Credited(st, req.ip, Stored(cfg, req, cs, env, 0)) == st;
  }

  /** The first `deflect` value of the request begins with a genuine token in time and is worth what `c` asks. */
  ghost predicate Deserves(cfg: Config, req: Request, c: Challenge, env: RoundEnv) {
    exists v: Str :: && Presents(req.cookie, v) && Opens(cfg.secrets, [], req.ip, env.now, v, env.beyond)
                     && Worth(cfg.secrets, c.kind, c.passwordHash, v, env.beyond)
  }

  /** So nothing but a genuine token lets anyone on: the same for every cookie, forged ones included. */
  lemma {:induction false} CookieJudged(cfg: Config, tables: Tables, req: Request, env: Env, st: State,
                                        cs: seq<Challenge>, passed: seq<bool>)
    requires Meets(cfg, tables, req, env, cs) && |passed| == |cs|
    requires forall k :: 0 <= k < |cs| ==> passed[k] == Deserves(cfg, req, cs[k], env.rounds(k))
    ensures Decided(cfg, tables, req, env, st, cs, passed)
  {
    hide CookiePasses, Presents, Opens, Worth, Meets, Decided;
    forall k | 0 <= k < |cs| ensures passed[k] == Passes(cfg, req, cs[k], env.rounds(k)) {
      PassesExactly(cfg.secrets, [], req.cookie, req.ip, cs[k].kind, cs[k].passwordHash, env.rounds(k).now,
                    env.rounds(k).beyond);
    }
    Judged(cfg, tables, req, env, st, cs, passed);
  }

  /** A request is judged by the challenges it meets, and by no others; if it meets none it goes ahead, untouched. */
  lemma {:induction false} MeetsExactly(cfg: Config, tables: Tables, req: Request, env: Env, st: State)
    ensures MeetsNothing(cfg, tables, req, env) <==> !exists cs :: Meets(cfg, tables, req, env, cs)
    ensures forall cs, ds :: Meets(cfg, tables, req, env, cs) && Meets(cfg, tables, req, env, ds) ==> cs == ds
    ensures MeetsNothing(cfg, tables, req, env) ==> Challenged(cfg, tables, req, env, st) == (GoAhead, st)
  {
    hide Rounds;
    if req.host in cfg.challenges {
      assert Meets(cfg, tables, req, env, cfg.challenges[req.host]);
    } else if env.hostLock && req.host in tables.host {
      assert Meets(cfg, tables, req, env, [tables.host[req.host]]);
    } else if env.hostLock && env.ipLock && req.ip in tables.ip {
      assert Meets(cfg, tables, req, env, [tables.ip[req.ip], tables.ip[req.ip]]);
    }
  }

  // ----- tokens from pages -----

  /** The token of a template page is a pass for the client the page was made for. */
  lemma {:induction false} TemplateToken(cfg: Config, asked: Request, page: PageEnv, c: Challenge, st0: State,
                                         token: Str)
    requires InTime(page) && Html(cfg, asked, c, page, st0).0.body == Template(token)
    ensures token == Issued(cfg.secrets.mac, [], cfg.secrets.key, page.started + c.validity, asked.ip)
  {
    hide Issued, CookiePasses, AfterFailure, Swabber.AfterBan;
  }

  /** So is the cookie set for an accepted captcha answer. */
  lemma {:induction false} AcceptedCookie(cfg: Config, answered: Request, page: PageEnv, c: Challenge, st0: State,
                                          token: Str)
    requires InTime(page) && Html(cfg, answered, c, page, st0).0 == Answer(Accepted, 200, Some(token))
    ensures token == Issued(cfg.secrets.mac, [], cfg.secrets.key, page.started + c.validity, answered.ip)
  {
    hide Issued, CookiePasses, AfterFailure, Swabber.AfterBan;
  }

  /** Which challenges a pass with something appended passes. */
  ghost predicate TokenPasses(cfg: Config, until: Time, value: Str, c: Challenge, env: RoundEnv) {
    env.now <= until && Worth(cfg.secrets, c.kind, c.passwordHash, value, env.beyond)
  }

  /** A pass holder is judged, challenge by challenge, by the validity of the pass and the challenge's own requirement. */
  lemma {:induction false} HolderJudged(cfg: Config, until: Time, suffix: Str, tables: Tables, req: Request, env: Env,
                                        st: State,
                                        cs: seq<Challenge>, passed: seq<bool>)
    requires Presents(req.cookie, Issued(cfg.secrets.mac, [], cfg.secrets.key, until, req.ip) + suffix)
    requires Meets(cfg, tables, req, env, cs) && |passed| == |cs|
    requires forall k :: 0 <= k < |cs| ==> passed[k] == TokenPasses(
               cfg, until, Issued(cfg.secrets.mac, [], cfg.secrets.key, until, req.ip) + suffix, cs[k], env.rounds(k))
    ensures Decided(cfg, tables, req, env, st, cs, passed)
  {
    hide Issued, Presents, CookiePasses, Worth, Decided, Meets;
    forall k | 0 <= k < |cs| ensures passed[k] == Passes(cfg, req, cs[k], env.rounds(k)) {
      TokenPassesExactly(cfg.secrets, cs[k].kind, cs[k].passwordHash, until, req.ip, suffix, req.cookie,
                         env.rounds(k).now, env.rounds(k).beyond);
    }
    Judged(cfg, tables, req, env, st, cs, passed);
  }

  // ----- the computational challenge -----

  /** Which challenges a text of the page's search passes: the computational ones by the page's own test. */
  ghost predicate SolutionPasses(cfg: Config, until: Time, token: Str, i: nat, c: Challenge, env: RoundEnv) {
    && env.now <= until
    && match c.kind
       case ShaInverse => PageAccepts(cfg.secrets, token, i)
       case Captcha => true
       case Auth => Worth(cfg.secrets, Auth, c.passwordHash, Solution(token, i), env.beyond)
  }

  /**
   * From page to passage: a client that appends a text of the page's search to the token of its page is judged, by
   * whatever challenges it meets, by the page's own test and by the validity period of the page.
   */
  lemma {:induction false} SolvedPagePasses(cfg: Config, asked: Request, page: PageEnv, c: Challenge, st0: State,
                                            token: Str, i: nat,
                                            tables: Tables, req: Request, env: Env, st: State, cs: seq<Challenge>,
                                            passed: seq<bool>)
    requires InTime(page) && Html(cfg, asked, c, page, st0).0.body == Template(token)
    requires req.ip == asked.ip && Presents(req.cookie, Solution(token, i))
    requires Meets(cfg, tables, req, env, cs) && |passed| == |cs|
    requires forall k :: 0 <= k < |cs| ==>
               passed[k] == SolutionPasses(cfg, page.started + c.validity, token, i, cs[k], env.rounds(k))
    ensures Decided(cfg, tables, req, env, st, cs, passed)
  {
    hide Html, Issued, Presents, Meets, Decided, TokenPasses, SolutionPasses, Base64.Encoded;
    var until := page.started + c.validity;
    TemplateToken(cfg, asked, page, c, st0, token);
    forall k | 0 <= k < |cs| ensures passed[k] == TokenPasses(cfg, until, Solution(token, i), cs[k], env.rounds(k)) {
      SolutionIsToken(cfg, until, token, i, cs[k], env.rounds(k));
    }
    HolderJudged(cfg, until, Base64.Encoded(Decimal(i)), tables, req, env, st, cs, passed);
  }

  lemma {:induction false} SolutionIsToken(cfg: Config, until: Time, token: Str, i: nat, c: Challenge, env: RoundEnv)
    ensures SolutionPasses(cfg, until, token, i, c, env) == TokenPasses(cfg, until, Solution(token, i), c, env)
  {
    hide Solution, Base64.Decoded, ReadBytes, ZeroCount.LeadingZeros, ZeroCount.Hex, ZeroCount.HexBits;
  }

  /** With computational challenges only, the solved page gets an unlisted client through in time; else it is asked. */
  lemma {:induction false} SolvedGoesAhead(cfg: Config, asked: Request, page: PageEnv, c: Challenge, st0: State,
                                           token: Str, i: nat,
                                           tables: Tables, req: Request, env: Env, st: State, cs: seq<Challenge>)
    requires InTime(page) && Html(cfg, asked, c, page, st0).0.body == Template(token)
    requires req.ip == asked.ip && Presents(req.cookie, Solution(token, i)) && !GloballyListed(cfg, req.ip)
    requires Meets(cfg, tables, req, env, cs)
    requires forall k :: 0 <= k < |cs| ==> cs[k].kind.ShaInverse? && !Excused(cfg, req, cs[k])
    ensures var reply := Challenged(cfg, tables, req, env, st).0;
            if (cs == [] || PageAccepts(cfg.secrets, token, i))
               && (forall k :: 0 <= k < |cs| ==> env.rounds(k).now <= page.started + c.validity)
            then reply == GoAhead else IsAsked(reply)
  {
    hide Html, Presents, Meets, PageAccepts, GloballyListed, Excused, Challenged, Decided;
    var until, solved := page.started + c.validity, PageAccepts(cfg.secrets, token, i);
    var passed := seq(|cs|, k requires 0 <= k < |cs| => env.rounds(k).now <= until && solved);
    SolvedPagePasses(cfg, asked, page, c, st0, token, i, tables, req, env, st, cs, passed);
    AllOrAsked(cfg, tables, req, env, st, cs, passed);
    assert (forall k :: 0 <= k < |cs| ==> passed[k]) <==>
           (cs == [] || solved) && (forall k :: 0 <= k < |cs| ==> env.rounds(k).now <= until) by {
      assert forall k :: 0 <= k < |cs| ==> (passed[k] <==> env.rounds(k).now <= until && solved);
      assert cs != [] ==> (passed[0] ==> solved);
    }
  }

  /** The request is asked to meet some challenge: it gets that one's page. */
  ghost predicate IsAsked(reply: Reply) {
    reply.Respond? && reply.page.ChallengePage?
  }

  /** With captchas and computational challenges only, an unlisted client goes ahead if it passes all, or is asked. */
  lemma {:induction false} AllOrAsked(cfg: Config, tables: Tables, req: Request, env: Env, st: State,
                                      cs: seq<Challenge>, passed: seq<bool>)
    requires |passed| == |cs| && Decided(cfg, tables, req, env, st, cs, passed) && !GloballyListed(cfg, req.ip)
    requires forall k :: 0 <= k < |cs| ==>
               !cs[k].kind.Auth? && !Excused(cfg, req, cs[k]) && (cs[k].kind.Captcha? ==> Ordinary(req))
    ensures var reply := Challenged(cfg, tables, req, env, st).0;
            if forall k :: 0 <= k < |cs| ==> passed[k] then reply == GoAhead else IsAsked(reply)
  {
    hide Challenged, GloballyListed, Excused, Ordinary;
    if j :| 0 <= j < |cs| && !passed[j] {
      SomeStop(cfg, req, cs, passed, j);
    }
  }

  /** If some challenge does not let the request on, one is the first that does not. */
  lemma {:induction false} SomeStop(cfg: Config, req: Request, cs: seq<Challenge>, passed: seq<bool>, j: nat)
    requires j < |cs| == |passed| && !LetsOn(cfg, req, cs[j], passed[j])
    ensures exists i: nat :: i <= j && FirstStop(cfg, req, cs, passed, i)
  {
    hide LetsOn;
    if i: nat :| i < j && !LetsOn(cfg, req, cs[i], passed[i]) {
      SomeStop(cfg, req, cs, passed, i);
    } else {
      assert FirstStop(cfg, req, cs, passed, j);
    }
  }

  // ----- the captcha -----

  /** From the accepted answer to passage: the cookie it sets is a pass for the validity period of its challenge. */
  lemma {:induction false} AnsweredCaptchaPasses(cfg: Config, answered: Request, page: PageEnv, c: Challenge,
      st0: State, token: Str,
                                                 tables: Tables, req: Request, env: Env, st: State, cs: seq<Challenge>,
                                                 passed: seq<bool>)
    requires InTime(page) && Html(cfg, answered, c, page, st0).0 == Answer(Accepted, 200, Some(token))
    requires req.ip == answered.ip && Presents(req.cookie, token)
    requires Meets(cfg, tables, req, env, cs) && |passed| == |cs|
    requires forall k :: 0 <= k < |cs| ==> passed[k] == TokenPasses(cfg, page.started + c.validity, token, cs[k], env.rounds(k))
    ensures Decided(cfg, tables, req, env, st, cs, passed)
  {
    hide Html, Issued, Presents, Meets, Decided, TokenPasses;
    AcceptedCookie(cfg, answered, page, c, st0, token);
    assert token + [] == token;
    HolderJudged(cfg, page.started + c.validity, [], tables, req, env, st, cs, passed);
  }

  /** With captchas only, the accepted answer gets an unlisted client through in time; otherwise it is asked. */
  lemma {:induction false} AnsweredGoesAhead(cfg: Config, answered: Request, page: PageEnv, c: Challenge, st0: State,
                                             token: Str, tables: Tables, req: Request, env: Env, st: State,
                                             cs: seq<Challenge>)
    requires InTime(page) && Html(cfg, answered, c, page, st0).0 == Answer(Accepted, 200, Some(token))
    requires req.ip == answered.ip && Presents(req.cookie, token) && !GloballyListed(cfg, req.ip) && Ordinary(req)
    requires Meets(cfg, tables, req, env, cs)
    requires forall k :: 0 <= k < |cs| ==> cs[k].kind.Captcha? && !Excused(cfg, req, cs[k])
    ensures var reply := Challenged(cfg, tables, req, env, st).0;
            if forall k :: 0 <= k < |cs| ==> env.rounds(k).now <= page.started + c.validity
            then reply == GoAhead else IsAsked(reply)
  {
    hide Html, Presents, Meets, GloballyListed, Excused, Challenged, Decided, Ordinary;
    var until := page.started + c.validity;
    var passed := seq(|cs|, k requires 0 <= k < |cs| => env.rounds(k).now <= until);
    AnsweredCaptchaPasses(cfg, answered, page, c, st0, token, tables, req, env, st, cs, passed);
    AllOrAsked(cfg, tables, req, env, st, cs, passed);
    assert forall k :: 0 <= k < |cs| ==> (passed[k] <==> env.rounds(k).now <= until);
  }

  // ----- the password challenge -----

  /** The text behind the token is as long as the configured hash and its first 32 bytes are the right hash. */
  ghost predicate IsPassword(cfg: Config, token: Str, text: Str, hash: Str, beyond: Memory) {
    && |text| >= |hash| && Base64.Decoded(text).Some?
    && ReadBytes(Base64.Decoded(text).value, beyond, 32) == cfg.secrets.sha256(token + hash)
  }

  /** The text does not decode, or decodes to bytes that begin with a wrong hash, whatever lies beyond them. */
  ghost predicate NoPassword(cfg: Config, token: Str, text: Str, hash: Str) {
    Base64.Decoded(text).None? ||
    (|Base64.Decoded(text).value| >= 32 && Base64.Decoded(text).value[..32] != cfg.secrets.sha256(token + hash))
  }

  ghost predicate PasswordGood(cfg: Config, until: Time, token: Str, text: Str, c: Challenge, env: RoundEnv) {
    env.now <= until && IsPassword(cfg, token, text, c.passwordHash, env.beyond)
  }

  /** The first challenge that either takes the text for its password or protects the page. */
  ghost predicate Deciding(req: Request, cs: seq<Challenge>, good: seq<bool>, j: nat)
    requires |good| == |cs|
  {
    j < |cs| && (good[j] || Guarded(req, cs[j])) && forall i :: 0 <= i < j ==> !good[i] && !Guarded(req, cs[i])
  }

  /** Served fresh, asked again, or let on to the origin, as the first challenge with anything to say decides. */
  ghost predicate PasswordDecided(req: Request, cs: seq<Challenge>, good: seq<bool>, reply: Reply)
    requires |good| == |cs|
  {
    && (forall j: nat :: Deciding(req, cs, good, j) ==> if good[j] then reply == ServeFresh else Asks(reply, cs[j]))
    && ((forall j: nat :: !Deciding(req, cs, good, j)) ==> reply == GoAhead)
  }

  /** The page of the challenge, which deletes the client's cookie. */
  ghost predicate Asks(reply: Reply, c: Challenge) {
    reply.Respond? && reply.page.ChallengePage? && reply.page.challenge == c && reply.page.clearCookie
  }

  /**
   * A client sends any text behind the token of its page to any number of password challenges, each with its own
   * password, at any times: the first challenge that takes the text for its password or protects the page decides.
   */
  lemma {:induction false} PasswordJudged(cfg: Config, asked: Request, page: PageEnv, c: Challenge, st0: State,
                                          token: Str, text: Str,
                                          tables: Tables, req: Request, env: Env, st: State, cs: seq<Challenge>,
                                          good: seq<bool>)
    requires InTime(page) && Html(cfg, asked, c, page, st0).0.body == Template(token) && req.ip == asked.ip
    requires Presents(req.cookie, token + text) && Meets(cfg, tables, req, env, cs) && |good| == |cs|
    requires forall k :: 0 <= k < |cs| ==> cs[k].kind.Auth? && !Excused(cfg, req, cs[k])
    requires forall k :: 0 <= k < |cs| ==>
               good[k] == PasswordGood(cfg, page.started + c.validity, token, text, cs[k], env.rounds(k))
    ensures PasswordDecided(req, cs, good, Challenged(cfg, tables, req, env, st).0)
  {
    hide Html, Issued, Presents, Meets, Guarded, Excused, Challenged, TokenPasses, PasswordGood;
    var until := page.started + c.validity;
    TemplateToken(cfg, asked, page, c, st0, token);
    forall k | 0 <= k < |cs| ensures good[k] == TokenPasses(cfg, until, token + text, cs[k], env.rounds(k)) {
      PasswordIsWorth(cfg, until, token, text, cs[k], env.rounds(k));
    }
    HolderJudged(cfg, until, text, tables, req, env, st, cs, good);
    var reply := Challenged(cfg, tables, req, env, st).0;
    forall j: nat | Deciding(req, cs, good, j)
      ensures if good[j] then reply == ServeFresh else Asks(reply, cs[j])
    {
      assert FirstStop(cfg, req, cs, good, j);
    }
    if forall j: nat :: !Deciding(req, cs, good, j) {
      forall j: nat | j < |cs| ensures LetsOn(cfg, req, cs[j], good[j]) {
        if good[j] || Guarded(req, cs[j]) {
          SomeDeciding(req, cs, good, j);
        }
      }
    }
  }

  lemma {:induction false} SomeDeciding(req: Request, cs: seq<Challenge>, good: seq<bool>, j: nat)
    requires j < |cs| == |good| && (good[j] || Guarded(req, cs[j]))
    ensures exists i: nat :: i <= j && Deciding(req, cs, good, i)
  {
    hide Guarded;
    if i: nat :| i < j && (good[i] || Guarded(req, cs[i])) {
      SomeDeciding(req, cs, good, i);
    } else {
      assert Deciding(req, cs, good, j);
    }
  }

  lemma {:induction false} PasswordIsWorth(cfg: Config, until: Time, token: Str, text: Str, c: Challenge, env: RoundEnv)
    requires |token| == 40 && c.kind.Auth?
    ensures PasswordGood(cfg, until, token, text, c, env) == TokenPasses(cfg, until, token + text, c, env)
  {
    hide Base64.Decoded, ReadBytes;
    assert (token + text)[..40] == token && (token + text)[40..] == text;
  }

  /**
   * At one time, for any number of challenges with one password, it is served a fresh copy exactly when its token is
   * valid and the text is the password; otherwise it is asked again exactly on a page that one of them protects.
   */
  lemma {:induction false} PasswordPasses(cfg: Config, asked: Request, page: PageEnv, c: Challenge, st0: State,
                                          token: Str, text: Str,
                                          tables: Tables, req: Request, env: Env, st: State, cs: seq<Challenge>, now: Time,
                                          ok: bool)
    requires InTime(page) && Html(cfg, asked, c, page, st0).0.body == Template(token) && req.ip == asked.ip
    requires Presents(req.cookie, token + text) && Meets(cfg, tables, req, env, cs) && cs != []
    requires forall k :: 0 <= k < |cs| ==> cs[k].kind.Auth? && !Excused(cfg, req, cs[k])
    requires forall k :: 0 <= k < |cs| ==> cs[k].passwordHash == c.passwordHash && env.rounds(k).now == now
    requires forall k :: 0 <= k < |cs| ==> ok == IsPassword(cfg, token, text, c.passwordHash, env.rounds(k).beyond)
    ensures var reply := Challenged(cfg, tables, req, env, st).0;
            var right := ok && now <= page.started + c.validity;
            && (reply == ServeFresh <==> right)
            && (reply.Respond? <==> !right && exists k :: 0 <= k < |cs| && Guarded(req, cs[k]))
  {
    hide Html, Presents, Meets, IsPassword, Guarded, Excused, Challenged;
    var right := ok && now <= page.started + c.validity;
    var good := seq(|cs|, _ => right);
    PasswordJudged(cfg, asked, page, c, st0, token, text, tables, req, env, st, cs, good);
    if right {
      assert Deciding(req, cs, good, 0);
    } else {
      NonePassword(req, cs, good, Challenged(cfg, tables, req, env, st).0);
    }
  }

  lemma {:induction false} NonePassword(req: Request, cs: seq<Challenge>, good: seq<bool>, reply: Reply)
    requires |good| == |cs| && PasswordDecided(req, cs, good, reply) && forall k :: 0 <= k < |cs| ==> !good[k]
    ensures reply != ServeFresh && (reply.Respond? <==> exists k :: 0 <= k < |cs| && Guarded(req, cs[k]))
  {
    hide Guarded;
    if k: nat :| k < |cs| && Guarded(req, cs[k]) {
      SomeDeciding(req, cs, good, k);
    }
  }

  /** A wrong text is never served fresh, at any times: it is asked again exactly on protected pages. */
  lemma {:induction false} WrongPasswordAsked(cfg: Config, asked: Request, page: PageEnv, c: Challenge, st0: State,
                                              token: Str, text: Str,
                                              tables: Tables, req: Request, env: Env, st: State, cs: seq<Challenge>)
    requires InTime(page) && Html(cfg, asked, c, page, st0).0.body == Template(token) && req.ip == asked.ip
    requires Presents(req.cookie, token + text) && Meets(cfg, tables, req, env, cs)
    requires forall k :: 0 <= k < |cs| ==> cs[k].kind.Auth? && !Excused(cfg, req, cs[k])
    requires forall k :: 0 <= k < |cs| ==> NoPassword(cfg, token, text, cs[k].passwordHash)
    ensures var reply := Challenged(cfg, tables, req, env, st).0;
            reply != ServeFresh && (reply.Respond? <==> exists k :: 0 <= k < |cs| && Guarded(req, cs[k]))
  {
    hide Html, Presents, Meets, Guarded, Excused, Challenged, Base64.Decoded;
    var good := seq(|cs|, _ => false);
    PasswordJudged(cfg, asked, page, c, st0, token, text, tables, req, env, st, cs, good);
    NonePassword(req, cs, good, Challenged(cfg, tables, req, env, st).0);
  }
}
