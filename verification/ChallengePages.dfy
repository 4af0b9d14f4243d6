/** src/challenger.cpp: `generate_html`, in particular the captcha picture and the answer to it. */
module ChallengePages {
  import opened Bytes
  import opened IpDb
  import opened PassToken
  import opened PassCheck
  import opened FailureCount
  import opened Challenger
  import Swabber

  /** Bodies of the generated pages: a picture of a text, "OK", "Too many failures", "X", or the template with a token. */
  datatype Body = CaptchaImage(text: Str) | Accepted | TooManyFailures | Rejected | Template(token: Str)

  /** The page, its status code, and the `deflect` cookie it sets, if any. */
  datatype Answer = Answer(body: Body, code: int, cookie: Option<Str>)

  const CAPTCHA_SECONDS := 120

  /** The drawn text, the clock when the page is begun and when it is made, and the outcomes of a failure report. */
  datatype PageEnv = PageEnv(drawn: Str, started: Time, now: Time, beyond: Memory, fail: FailEnv)

  /** The clock is far enough from its end for every expiry. */
  predicate InTime(env: PageEnv) {
    env.now + CAPTCHA_SECONDS < TWO_63 && env.started + TWO_32 <= TWO_63
  }

  /** The pass a page hands out: valid from now for the period of its challenge. */
  function PassFor(cfg: Config, req: Request, c: Challenge, env: PageEnv): (pass: Str)
    requires InTime(env)
    ensures |pass| == COOKIE_B64_LENGTH
  {
    Issued(cfg.secrets.mac, [], cfg.secrets.key, env.started + c.validity, req.ip)
  }

  /** `url.rfind(needle)`: the last position where it occurs. */
  function LastFind(s: Str, needle: Str): (r: Option<nat>)
    ensures r.None? <==> forall i :: !OccursAt(s, needle, i)
    ensures r.Some? ==> OccursAt(s, needle, r.value) && forall i :: i > r.value ==> !OccursAt(s, needle, i)
  {
    LastFindUpTo(s, needle, |s|)
  }

  function LastFindUpTo(s: Str, needle: Str, n: nat): (r: Option<nat>)
    requires n <= |s|
    ensures r.None? <==> forall i :: i <= n ==> !OccursAt(s, needle, i)
    ensures r.Some? ==> r.value <= n && OccursAt(s, needle, r.value) && forall i :: r.value < i <= n ==> !OccursAt(s, needle, i)
  {
    if OccursAt(s, needle, n) then Some(n)
    else if n == 0 then None
    else LastFindUpTo(s, needle, n - 1)
  }

  /** The text behind the last "__validate/". */
  function AnswerIn(url: Str): Option<Str> {
    match LastFind(url, ANSWER_URL)
    case None => None
    case Some(i) => Some(url[i + |ANSWER_URL|..])
  }

  /** `generate_html`. */
  function Html(cfg: Config, req: Request, c: Challenge, env: PageEnv, st: State): (Answer, State)
    requires InTime(env)
  {
    if LastFind(req.urlWithHost, CAPTCHA_URL).Some? then
      var cookie := Issued(cfg.secrets.mac, env.drawn, cfg.secrets.key, env.now + CAPTCHA_SECONDS, req.ip);
      (Answer(CaptchaImage(env.drawn), 200, Some(cookie)), st)
    else
      var pass := PassFor(cfg, req, c, env);
      match AnswerIn(req.urlWithHost)
      case Some(answer) =>
        if CookiePasses(cfg.secrets, answer, req.cookie, req.ip, c.kind, c.passwordHash, env.now, env.beyond) then
          (Answer(Accepted, 200, Some(pass)), st)
        else if c.threshold == 0 then (Answer(Rejected, 403, None), st)
        else
          var (banned, db) := AfterFailure(st.failures, req.ip, c.threshold, env.fail);
          if banned then
            (Answer(TooManyFailures, 403, None), State(db, Swabber.AfterBan(cfg.grace, st.swabber, req.ip, env.fail.ban)))
          else (Answer(Rejected, 403, None), State(db, st.swabber))
      case None => (Answer(Template(pass), 403, None), st)
  }

  method GenerateHtml(filter: Filter, req: Request, c: Challenge, env: PageEnv) returns (answer: Answer)
    requires filter.Valid() && InTime(env)
    requires TIME_LENGTH + |CStr(req.ip)| + |CStr(env.drawn)| <= 200
    requires var a := AnswerIn(req.urlWithHost); a.Some? ==> TIME_LENGTH + |CStr(req.ip)| + |CStr(a.value)| <= 200
    modifies filter.tally.table, filter.tally.swabber`log, filter.tally.swabber.table
    ensures (answer, filter.View()) == Html(filter.cfg, req, c, env, old(filter.View()))
  {
    hide Issued, CookiePasses, AfterFailure, Swabber.AfterBan, LastFind, AnswerIn;
    var k := filter.cfg.secrets;
    if LastFind(req.urlWithHost, CAPTCHA_URL).Some? {
      var cookie := GenerateCookie(k.mac, env.drawn, k.key, env.now + CAPTCHA_SECONDS, req.ip);
      return Answer(CaptchaImage(env.drawn), 200, Some(cookie));
    }
    var found := AnswerIn(req.urlWithHost);
    assert CStr([]) == [];
    if found.Some? {
      var passed := CheckCookie(k, found.value, req.cookie, req.ip, c.kind, c.passwordHash, env.now, env.beyond);
      if passed {
        var cookie := GenerateCookie(k.mac, [], k.key, env.started + c.validity, req.ip);
        return Answer(Accepted, 200, Some(cookie));
      }
      var banned := false;
      if c.threshold != 0 {
        banned := filter.tally.ReportFailure(req.ip, c.threshold, env.fail);
      }
      return Answer(if banned then TooManyFailures else Rejected, 403, None);
    }
    var token := GenerateCookie(k.mac, [], k.key, env.started + c.validity, req.ip);
    return Answer(Template(token), 403, None);
  }

  /** A failure that reaches the tolerance of the challenge, whose counter could be read. */
  ghost predicate Exceeds(req: Request, c: Challenge, env: FailEnv, failures: Db<nat>) {
    c.threshold > 0 && env.get && Lookup(failures, req.ip, 0) + 1 >= c.threshold
  }

  /** What a failure leaves: a ban request and no counter at the tolerance, otherwise a counter one higher. */
  ghost predicate Counts(cfg: Config, req: Request, c: Challenge, env: FailEnv, st: State, after: State) {
    if c.threshold == 0 || !env.get then after == st
    else if Exceeds(req, c, env, st.failures) then
      && after.swabber == Swabber.AfterBan(cfg.grace, st.swabber, req.ip, env.ban)
      && after.failures == if env.drop then st.failures - {req.ip} else st.failures
    else
      && after.swabber == st.swabber
      && after.failures == if env.set_ then st.failures[req.ip := Lookup(st.failures, req.ip, 0) + 1] else st.failures
  }

  /**
   * Which page a request gets, for every URL, cookie, lock outcome and counter: a picture of the drawn text if the URL
   * names the captcha; for an answer "OK" with a pass, "Too many failures" exactly at the tolerance, or "X"; else the
   * template. Only a wrong answer is counted.
   */
  lemma {:induction false} PageKinds(cfg: Config, req: Request, c: Challenge, env: PageEnv, st: State)
    requires InTime(env)
    ensures var (a, after) := Html(cfg, req, c, env, st);
            var picture, answer := Occurs(req.urlWithHost, CAPTCHA_URL), AnswerIn(req.urlWithHost);
            var right := answer.Some? && CookiePasses(cfg.secrets, answer.value, req.cookie, req.ip, c.kind, c.passwordHash,
                                                      env.now, env.beyond);
            var wrong := !picture && answer.Some? && !right;
            && (answer.Some? <==> Occurs(req.urlWithHost, ANSWER_URL))
            && (a.body == CaptchaImage(env.drawn) <==> picture) && (a.body.CaptchaImage? <==> picture)
            && (a.body == Accepted <==> !picture && right)
            && (a.body == TooManyFailures <==> wrong && Exceeds(req, c, env.fail, st.failures))
            && (a.body == Rejected <==> wrong && !Exceeds(req, c, env.fail, st.failures))
            && (a.body.Template? <==> !picture && answer.None?)
            && (a.code == 200 <==> picture || right) && (a.code == 403 <==> !picture && !right)
            && (a.cookie.Some? <==> a.code == 200)
            && if wrong then Counts(cfg, req, c, env.fail, st, after) else after == st
  {
    hide Issued, PassFor, CookiePasses, Swabber.AfterBan, LastFindUpTo;
  }

  // ----- the captcha exchange -----

  /** The answer is what follows "__validate/" when it holds no '/' itself. */
  lemma {:induction false} AnswerOfUrl(before: Str, answer: Str)
    requires SLASH !in answer
    ensures AnswerIn(before + ANSWER_URL + answer) == Some(answer)
  {
    var url, n := before + ANSWER_URL + answer, |before|;
    assert url[n..n + 11] == ANSWER_URL;
    assert OccursAt(url, ANSWER_URL, n);
    forall i | i > n ensures !OccursAt(url, ANSWER_URL, i) {
      if i + 11 <= |url| {
        assert url[i + 10] == answer[i - n - 1] && answer[i - n - 1] in answer;
        assert url[i..i + 11][10] == url[i + 10] && ANSWER_URL[10] == SLASH;
      }
    }
    assert url[n + 11..] == answer;
  }

  /** The cookie the server finds in the request is the one a page has set. */
  ghost predicate SendsBack(req: Request, page: Answer) {
    page.cookie.Some? && Presents(req.cookie, page.cookie.value)
  }

  /**
   * The answer to a captcha, sent with its unmodified cookie, is accepted exactly when the URL does not ask for a
   * picture as well, the MAC over the answer is the one in the cookie, and at most 120 seconds have passed.
   */
  lemma {:induction false} CaptchaAnswered(cfg: Config, asked: Request, ask: PageEnv, c0: Challenge, st0: State,
                                           req: Request, env: PageEnv, c: Challenge, st: State, answer: Str)
    requires InTime(ask) && InTime(env) && Html(cfg, asked, c0, ask, st0).0.body.CaptchaImage?
    requires c.kind.Captcha? && AnswerIn(req.urlWithHost) == Some(answer)
    requires SendsBack(req, Html(cfg, asked, c0, ask, st0).0)
    ensures Html(cfg, req, c, env, st).0.body == Accepted
       <==> && !Occurs(req.urlWithHost, CAPTCHA_URL)
            && CookieHash(cfg.secrets.mac, answer, cfg.secrets.key, ask.now + CAPTCHA_SECONDS, req.ip)
               == CookieHash(cfg.secrets.mac, ask.drawn, cfg.secrets.key, ask.now + CAPTCHA_SECONDS, asked.ip)
            && env.now - ask.now <= 120
  {
    hide Issued, PassFor, CookieHash, CookiePasses, Presents, AfterFailure, Swabber.AfterBan, AnswerIn;
    var k, t := cfg.secrets, ask.now + CAPTCHA_SECONDS;
    var token := Issued(k.mac, ask.drawn, k.key, t, asked.ip);
    assert token + [] == token;
    CarriedTokenPasses(k, Captcha, c.passwordHash, ask.drawn, t, asked.ip, [], req.cookie, answer, req.ip, env.now, env.beyond);
  }

  /**
   * If the MAC tells the two texts apart, the same client is accepted exactly when it answers with the drawn text
   * in time; and no client made of digits and dots can use a word answer from another one's cookie.
   */
  lemma {:induction false} CaptchaExchange(cfg: Config, asked: Request, ask: PageEnv, c0: Challenge, st0: State,
                                           req: Request, env: PageEnv, c: Challenge, st: State, answer: Str)
    requires InTime(ask) && InTime(env) && Html(cfg, asked, c0, ask, st0).0.body.CaptchaImage?
    requires c.kind.Captcha? && AnswerIn(req.urlWithHost) == Some(answer)
    requires SendsBack(req, Html(cfg, asked, c0, ask, st0).0)
    requires var t := ask.now + CAPTCHA_SECONDS;
             var m1, m2 := MacInput(answer, t, req.ip), MacInput(ask.drawn, t, asked.ip);
             cfg.secrets.mac(cfg.secrets.key, m1) == cfg.secrets.mac(cfg.secrets.key, m2) ==> m1 == m2
    ensures req.ip == asked.ip ==>
              (Html(cfg, req, c, env, st).0.body == Accepted <==>
               !Occurs(req.urlWithHost, CAPTCHA_URL) && CStr(answer) == CStr(ask.drawn) && env.now - ask.now <= 120)
    ensures IsAddress(req.ip) && IsAddress(asked.ip) && IsWord(answer) && IsWord(ask.drawn) ==>
              (Html(cfg, req, c, env, st).0.body == Accepted <==>
               && !Occurs(req.urlWithHost, CAPTCHA_URL)
               && req.ip == asked.ip && answer == ask.drawn && env.now - ask.now <= 120)
  {
    CaptchaAnswered(cfg, asked, ask, c0, st0, req, env, c, st, answer);
    hide Html, Presents, MacInput, CStr, Occurs, AnswerIn;
    var t := ask.now + CAPTCHA_SECONDS;
    MacInputEquality(answer, t, req.ip, ask.drawn, t, asked.ip);
    if req.ip == asked.ip {
      var ip, a, d := CStr(req.ip), CStr(answer), CStr(ask.drawn);
      assert (ip + a)[|ip|..] == a && (ip + d)[|ip|..] == d;
    }
    if IsAddress(req.ip) && IsAddress(asked.ip) && IsWord(answer) && IsWord(ask.drawn)
       && MacInput(answer, t, req.ip) == MacInput(ask.drawn, t, asked.ip) {
      MacInputInjective(answer, t, req.ip, ask.drawn, t, asked.ip);
    }
  }
}
