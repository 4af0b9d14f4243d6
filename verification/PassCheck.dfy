/** src/challenger.cpp: `check_cookie` and the checks it is made of, and config/solver.html on the client side. */
module PassCheck {
  import opened Bytes
  import opened CookieJar
  import opened PassToken
  import opened ZeroCount
  import Base64

  datatype ChallengeType = ShaInverse | Captcha | Auth

  const SHA256_LENGTH := 32

  type Digest32 = d: Str | |d| == 32 witness seq(32, _ => 0)

  /** The secrets and hash functions of a challenger; SHA-256 is an unknown function. */
  datatype Secrets = Secrets(mac: Mac, sha256: Str -> Digest32, key: Str, zeros: nat)

  /** "deflect" */
  const DEFLECT: Str := [100, 101, 102, 108, 101, 99, 116]

  function ShaHolds(k: Secrets, value: Str): bool {
    LeadingZeros(DigestBits(k.sha256(CStr(value)))) >= k.zeros
  }

  function AuthHolds(k: Secrets, value: Str, passwordHash: Str, beyond: Memory): bool {
    var text := CStr(value);
    if |text| < COOKIE_B64_LENGTH + |passwordHash| then false
    else
      var data := Base64.Decoded(text[COOKIE_B64_LENGTH..]);
      data.Some?
      && ReadBytes(data.value, beyond, SHA256_LENGTH) == k.sha256(text[..COOKIE_B64_LENGTH] + passwordHash)
  }

  /** The challenge-specific requirement on the whole cookie value. */
  function Prevails(k: Secrets, kind: ChallengeType, passwordHash: Str, value: Str, beyond: Memory): bool {
    match kind
    case ShaInverse => ShaHolds(k, value)
    case Auth => AuthHolds(k, value, passwordHash, beyond)
    case Captcha => true
  }

  function Truncated(value: Str): Str {
    if |value| > COOKIE_B64_LENGTH then value[..COOKIE_B64_LENGTH] else value
  }

  /** The outcome of `check_cookie`. */
  function CookiePasses(k: Secrets, answer: Str, jar: Str, ip: Str, kind: ChallengeType, passwordHash: Str,
                        now: Time, beyond: Memory): bool {
    var v := FirstNamed(ParseAll(jar), DEFLECT);
    v.Some?
    && Prevails(k, kind, passwordHash, v.value, beyond)
    && Validated(k.mac, answer, k.key, now, ip, Truncated(v.value), beyond) == Ok
  }

  // ----- the code -----

  method CheckSha(k: Secrets, value: Str) returns (ok: bool)
    ensures ok == ShaHolds(k, value)
  {
    var count := CountZeros(k.sha256(CStr(value)));
    ok := count >= k.zeros;
  }

  method CheckAuthValidity(k: Secrets, value: Str, passwordHash: Str, beyond: Memory) returns (ok: bool)
    ensures ok == AuthHolds(k, value, passwordHash, beyond)
  {
    var text := CStr(value);
    if |text| < COOKIE_B64_LENGTH + |passwordHash| {
      return false;
    }
    var hash := k.sha256(text[..COOKIE_B64_LENGTH] + passwordHash);
    var data := Base64.Decode(text[COOKIE_B64_LENGTH..]);
    if data.None? {
      return false;
    }
    ok := ReadBytes(data.value, beyond, SHA256_LENGTH) == hash;
  }

  method CheckCookie(k: Secrets, answer: Str, jar: Str, ip: Str, kind: ChallengeType, passwordHash: Str,
                     now: Time, beyond: Memory) returns (passed: bool)
    requires TIME_LENGTH + |CStr(ip)| + |CStr(answer)| <= 200
    ensures passed == CookiePasses(k, answer, jar, ip, kind, passwordHash, now, beyond)
  {
    hide ShaHolds, AuthHolds, Validated, FirstNamed, ParseAll, CStr;
    var v := Search(jar, DEFLECT);
    if v.None? {
      return false;
    }
    var prevailed := true;
    if kind.ShaInverse? {
      prevailed := CheckSha(k, v.value);
    } else if kind.Auth? {
      prevailed := CheckAuthValidity(k, v.value, passwordHash, beyond);
    }
    var result := ValidateCookie(k.mac, answer, k.key, now, ip, Truncated(v.value), beyond);
    passed := prevailed && result == 1;
  }

  // ----- end to end -----

  /** The value the server finds in this jar, whatever else the jar holds. */
  ghost predicate Presents(jar: Str, value: Str) {
    FirstNamed(ParseAll(jar), DEFLECT) == Some(value)
  }

  lemma {:induction false} PresentedIsText(jar: Str, value: Str)
    requires Presents(jar, value)
    ensures CStr(value) == value
  {
    hide ParseAll;
    ParsedWithoutNul(jar);
  }

  /** A jar whose first `deflect` cookie has this value: other cookies, the pair in any layout, then what closes it. */
  ghost predicate Carries(jar: Str, value: Str) {
    exists before: seq<Cookie>, ls: seq<Layout>, l: Layout, tail: Str :: CarriesVia(jar, value, before, ls, l, tail)
  }

  ghost predicate CarriesVia(jar: Str, value: Str, before: seq<Cookie>, ls: seq<Layout>, l: Layout, tail: Str) {
    && Printable(before, ls) && Fits(l, value) && Closes(tail, value)
    && (forall c :: c in before ==> c.name != DEFLECT)
    && jar == (if before == [] then [] else Printed(before, ls) + [SEMICOLON])
              + (Spelled(Cookie(DEFLECT, value), l) + tail)
  }

  lemma {:induction false} FirstNamedSkips(cs: seq<Cookie>, rest: seq<Cookie>, name: Str)
    requires forall c :: c in cs ==> c.name != name
    ensures FirstNamed(cs + rest, name) == FirstNamed(rest, name)
  {
    if cs == [] {
      assert cs + rest == rest;
    } else {
      assert (cs + rest)[1..] == cs[1..] + rest;
      assert cs[0] in cs;
      FirstNamedSkips(cs[1..], rest, name);
    }
  }

  lemma {:induction false} DeflectIsWellFormed()
    ensures IsName(DEFLECT)
  {
  }

  /** The search loop finds the carried value. */
  lemma {:induction false} CarriedIsFound(jar: Str, value: Str)
    requires Carries(jar, value) && WellFormedValue(value)
    ensures Presents(jar, value)
  {
    var before, ls, l, tail :| CarriesVia(jar, value, before, ls, l, tail);
    var c := Cookie(DEFLECT, value);
    var rest := Spelled(c, l) + tail;
    DeflectIsWellFormed();
    ParsePair(c, l, tail);
    hide ParseAll, WellFormed, WellFormedValue, Spelled, Fits, Closes;
    assert FirstNamed([c] + ParseAll(AfterSeparator(tail)), DEFLECT) == Some(value);
    if before == [] {
      assert jar == rest;
    } else {
      ParsePrefix(before, ls, rest);
      FirstNamedSkips(before, ParseAll(rest), DEFLECT);
    }
  }

  /** Characters that may follow a token inside the cookie value. */
  predicate IsPlain(s: Str) {
    forall c :: c in s ==> !IsSpace(c) && c != SEMICOLON && c != NUL
  }

  lemma {:induction false} PlainValue(v: Str)
    requires IsPlain(v)
    ensures WellFormedValue(v) && CStr(v) == v
  {
    forall k | 0 <= k < |v| ensures !EndsValue(v, k) {
      assert v[k] in v;
    }
  }

  lemma {:induction false} LegalIsPlain(c: bv8)
    requires Base64.Sextet(c) < 64 || c == EQUALS
    ensures !IsSpace(c) && c != SEMICOLON && c != NUL
  {
  }

  /** The token with anything a client may append, in a jar of printed cookies, is what the server finds. */
  lemma {:induction false} CarriedTokenIsFound(k: Secrets, captcha: Str, t: Time, ip: Str, suffix: Str, jar: Str)
    requires IsPlain(suffix) && Carries(jar, Issued(k.mac, captcha, k.key, t, ip) + suffix)
    ensures Presents(jar, Issued(k.mac, captcha, k.key, t, ip) + suffix)
  {
    hide Issued, Carries;
    var token := Issued(k.mac, captcha, k.key, t, ip);
    IssuedIsPlain(k.mac, captcha, k.key, t, ip);
    var v := token + suffix;
    forall c | c in v ensures !IsSpace(c) && c != SEMICOLON && c != NUL {
      if c in token {
        LegalIsPlain(c);
      }
    }
    PlainValue(v);
    CarriedIsFound(jar, v);
  }

  lemma {:induction false} TruncatedToken(k: Secrets, captcha: Str, t: Time, ip: Str, suffix: Str)
    ensures Truncated(Issued(k.mac, captcha, k.key, t, ip) + suffix) == Issued(k.mac, captcha, k.key, t, ip)
  {
    hide Issued;
    var token := Issued(k.mac, captcha, k.key, t, ip);
    assert (token + suffix)[..40] == token;
  }

  /**
   * An issued token followed by any suffix, in any jar where the server finds it, passes for an address and an answer
   * exactly when the challenge-specific check holds, the MACs agree and the expiry has not passed.
   */
  lemma {:induction false} CarriedTokenPasses(k: Secrets, kind: ChallengeType, passwordHash: Str, captcha: Str,
      t: Time, ip: Str,
                           suffix: Str, jar: Str, answer: Str, from: Str, now: Time, beyond: Memory)
    requires Presents(jar, Issued(k.mac, captcha, k.key, t, ip) + suffix)
    ensures CookiePasses(k, answer, jar, from, kind, passwordHash, now, beyond)
       <==> && Prevails(k, kind, passwordHash, Issued(k.mac, captcha, k.key, t, ip) + suffix, beyond)
            && CookieHash(k.mac, answer, k.key, t, from) == CookieHash(k.mac, captcha, k.key, t, ip)
            && now <= t
  {
    hide Issued, CookieHash, Prevails, Validated, ParseAll, Truncated;
    TruncatedToken(k, captcha, t, ip, suffix);
    IssuedVerdict(k.mac, captcha, k.key, t, ip, answer, from, now, beyond);
  }

  /** The headline: a token issued with an empty answer is accepted until its expiry, for the address it was issued to. */
  lemma {:induction false} IssuedTokenAccepted(k: Secrets, kind: ChallengeType, passwordHash: Str, t: Time, ip: Str,
                            suffix: Str, jar: Str, now: Time, beyond: Memory)
    requires Presents(jar, Issued(k.mac, [], k.key, t, ip) + suffix)
    ensures CookiePasses(k, [], jar, ip, kind, passwordHash, now, beyond)
       <==> now <= t && Prevails(k, kind, passwordHash, Issued(k.mac, [], k.key, t, ip) + suffix, beyond)
  {
    hide Issued, CookieHash, Prevails, CookiePasses, Presents;
    CarriedTokenPasses(k, kind, passwordHash, [], t, ip, suffix, jar, [], ip, now, beyond);
  }

  // ----- exactly which jars pass -----

  /** What each kind of challenge asks of a whole value, in terms of the hex digits or bytes of hashes. */
  ghost predicate Worth(k: Secrets, kind: ChallengeType, passwordHash: Str, v: Str, beyond: Memory) {
    match kind
    case Captcha => true
    case ShaInverse => LeadingZeros(HexBits(Hex(k.sha256(v)))) >= k.zeros
    case Auth =>
      && |v| >= 40 + |passwordHash| && Base64.Decoded(v[40..]).Some?
      && ReadBytes(Base64.Decoded(v[40..]).value, beyond, 32) == k.sha256(v[..40] + passwordHash)
  }

  lemma {:induction false} PrevailsExactly(k: Secrets, kind: ChallengeType, passwordHash: Str, v: Str, beyond: Memory)
    requires CStr(v) == v
    ensures Prevails(k, kind, passwordHash, v, beyond) <==> Worth(k, kind, passwordHash, v, beyond)
  {
    hide LeadingZeros, Hex, HexBits, DigestBits, Base64.Decoded, ReadBytes;
    PageAndServerAgree(k.sha256(v), k.zeros);
  }

  /** The value begins with 40 characters that are a valid token for the address and the answer. */
  ghost predicate Opens(k: Secrets, answer: Str, ip: Str, now: Time, v: Str, beyond: Memory) {
    |v| >= 40 && StillValid(k.mac, answer, k.key, now, ip, v[..40], beyond)
  }

  lemma {:induction false} TruncatedOpens(k: Secrets, answer: Str, ip: Str, now: Time, v: Str, beyond: Memory)
    requires CStr(v) == v
    ensures Validated(k.mac, answer, k.key, now, ip, Truncated(v), beyond) == Ok <==> Opens(k, answer, ip, now, v, beyond)
  {
    hide Validated, StillValid;
    var text := Truncated(v);
    assert NUL !in v;
    assert CStr(text) == text;
    ValidatedExactly(k.mac, answer, k.key, now, ip, text, beyond);
    hide CStr;
    if |v| == 40 {
      assert v[..40] == v;
    }
  }

  /**
   * Which jars pass: those whose first `deflect` value begins with a genuine token that has not expired and is worth
   * what the challenge asks. No other jar passes, whatever it holds.
   */
  lemma {:induction false} PassesExactly(k: Secrets, answer: Str, jar: Str, ip: Str, kind: ChallengeType,
                                         passwordHash: Str,
                                         now: Time, beyond: Memory)
    ensures CookiePasses(k, answer, jar, ip, kind, passwordHash, now, beyond)
       <==> exists v: Str :: Presents(jar, v) && Opens(k, answer, ip, now, v, beyond)
                             && Worth(k, kind, passwordHash, v, beyond)
  {
    var found := FirstNamed(ParseAll(jar), DEFLECT);
    if found.Some? {
      var v := found.value;
      assert Presents(jar, v);
      PresentedIsText(jar, v);
      hide Prevails, Worth, Opens, Validated, Truncated, ParseAll, FirstNamed;
      PrevailsExactly(k, kind, passwordHash, v, beyond);
      TruncatedOpens(k, answer, ip, now, v, beyond);
    }
  }

  /** For an issued token with anything behind it: valid until its expiry, and worth what the challenge asks. */
  lemma {:induction false} TokenPassesExactly(k: Secrets, kind: ChallengeType, passwordHash: Str, t: Time, ip: Str,
                                              text: Str, jar: Str, now: Time, beyond: Memory)
    requires Presents(jar, Issued(k.mac, [], k.key, t, ip) + text)
    ensures CookiePasses(k, [], jar, ip, kind, passwordHash, now, beyond)
       <==> now <= t && Worth(k, kind, passwordHash, Issued(k.mac, [], k.key, t, ip) + text, beyond)
  {
    hide Issued, Presents, CookiePasses, Prevails, Worth;
    var v := Issued(k.mac, [], k.key, t, ip) + text;
    IssuedTokenAccepted(k, kind, passwordHash, t, ip, text, jar, now, beyond);
    PresentedIsText(jar, v);
    PrevailsExactly(k, kind, passwordHash, v, beyond);
  }

  /**
   * The password challenge for every text a client may send behind its token: it passes exactly when the token is valid,
   * the text is as long as the configured hash and decodes, and its first 32 bytes are the right hash.
   */
  lemma {:induction false} PasswordExactly(k: Secrets, passwordHash: Str, t: Time, ip: Str, text: Str, jar: Str,
                                           now: Time, beyond: Memory)
    requires Presents(jar, Issued(k.mac, [], k.key, t, ip) + text)
    ensures CookiePasses(k, [], jar, ip, Auth, passwordHash, now, beyond)
       <==> && now <= t && |text| >= |passwordHash| && Base64.Decoded(text).Some?
            && ReadBytes(Base64.Decoded(text).value, beyond, 32)
               == k.sha256(Issued(k.mac, [], k.key, t, ip) + passwordHash)
  {
    hide Issued, Presents, CookiePasses, Base64.Decoded, ReadBytes;
    var token := Issued(k.mac, [], k.key, t, ip);
    TokenPassesExactly(k, Auth, passwordHash, t, ip, text, jar, now, beyond);
    assert (token + text)[..40] == token && (token + text)[40..] == text;
  }

  /** In particular a text that does not decode, or that decodes to 32 other bytes, is refused. */
  lemma {:induction false} WrongPasswordRefused(k: Secrets, passwordHash: Str, t: Time, ip: Str, text: Str, jar: Str,
                                                now: Time, beyond: Memory)
    requires Presents(jar, Issued(k.mac, [], k.key, t, ip) + text)
    requires Base64.Decoded(text).None? ||
             (|Base64.Decoded(text).value| >= 32
              && Base64.Decoded(text).value[..32] != k.sha256(Issued(k.mac, [], k.key, t, ip) + passwordHash))
    ensures !CookiePasses(k, [], jar, ip, Auth, passwordHash, now, beyond)
  {
    hide Issued, Presents, CookiePasses, Base64.Decoded;
    PasswordExactly(k, passwordHash, t, ip, text, jar, now, beyond);
  }

  // ----- the solver page -----

  function Decimal(n: nat): (s: Str)
    ensures |s| > 0
  {
    if n < 10 then [DecimalDigit(n)] else Decimal(n / 10) + [DecimalDigit(n % 10)]
  }

  function DecimalDigit(d: nat): bv8
    requires d < 10
  {
    [48, 49, 50, 51, 52, 53, 54, 55, 56, 57][d]
  }

  /** The number decimal digits spell. */
  function DecimalValue(s: Str): nat {
    if s == [] then 0 else 10 * DecimalValue(s[..|s| - 1]) + DecimalDigitValue(s[|s| - 1])
  }

  /** '0' is 48. */
  function DecimalDigitValue(c: bv8): nat {
    if 48 <= c && c <= 57 then DigitValue(c - 48) else 0
  }

  lemma {:induction false} DecimalDigitRoundTrip(d: nat)
    requires d < 10
    ensures DecimalDigitValue(DecimalDigit(d)) == d && 48 <= DecimalDigit(d) <= 57 && (DecimalDigit(d) == 48 <==> d == 0)
  {
  }

  /** Decimal numbers spell their number, without leading zeros. */
  lemma {:induction false} DecimalSpells(n: nat)
    ensures DecimalValue(Decimal(n)) == n
    ensures (forall c :: c in Decimal(n) ==> 48 <= c <= 57) && (n > 0 ==> Decimal(n)[0] != 48)
  {
    hide DecimalDigit, DecimalDigitValue;
    DecimalDigitRoundTrip(n % 10);
    if n < 10 {
      assert [DecimalDigit(n)][..0] == [];
    } else {
      DecimalSpells(n / 10);
      var rest, last := Decimal(n / 10), DecimalDigit(n % 10);
      assert (rest + [last])[..|rest|] == rest;
    }
  }

  /** `challenge_token + btoa(i)`. */
  function Solution(token: Str, i: nat): Str {
    token + Base64.Encoded(Decimal(i))
  }

  function PageAccepts(k: Secrets, token: Str, i: nat): bool {
    LeadingZeros(HexBits(Hex(k.sha256(Solution(token, i))))) >= k.zeros
  }

  /** The search of `challenge_solver`; it finds the least solution when there is one. */
  method Solve(k: Secrets, token: Str, ghost some: nat) returns (i: nat, solution: Str)
    requires some >= 1 && PageAccepts(k, token, some)
    ensures i >= 1 && solution == Solution(token, i) && PageAccepts(k, token, i)
    ensures forall j :: 1 <= j < i ==> !PageAccepts(k, token, j)
  {
    hide PageAccepts, Solution;
    i := 0;
    solution := token;
    while true
      invariant i < some && forall j :: 1 <= j <= i ==> !PageAccepts(k, token, j)
      decreases some - i
    {
      i := i + 1;
      solution := MakeSolution(token, i);
      var done := PageTest(k, token, i);
      if done {
        return;
      }
    }
  }

  method MakeSolution(token: Str, i: nat) returns (solution: Str)
    ensures solution == Solution(token, i)
  {
    var add := Base64.Encode(Decimal(i));
    solution := token + add;
  }

  method PageTest(k: Secrets, token: Str, i: nat) returns (ok: bool)
    ensures ok == PageAccepts(k, token, i)
  {
    ok := HasExpectedZeros(Hex(k.sha256(Solution(token, i))), k.zeros);
  }

  /** A solution passes the server exactly when the page took it for one and the token has not expired. */
  lemma {:induction false} SolutionAccepted(k: Secrets, t: Time, ip: Str, i: nat, jar: Str, now: Time, beyond: Memory,
                                            passwordHash: Str)
    requires Presents(jar, Solution(Issued(k.mac, [], k.key, t, ip), i))
    ensures CookiePasses(k, [], jar, ip, ShaInverse, passwordHash, now, beyond)
       <==> now <= t && PageAccepts(k, Issued(k.mac, [], k.key, t, ip), i)
  {
    var token := Issued(k.mac, [], k.key, t, ip);
    var suffix := Base64.Encoded(Decimal(i));
    hide Issued, Presents, Decimal, CookiePasses, LeadingZeros, Hex, DigestBits, HexBits, Base64.Encoded;
    IssuedTokenAccepted(k, ShaInverse, passwordHash, t, ip, suffix, jar, now, beyond);
    PresentedIsText(jar, token + suffix);
    PageAndServerAgree(k.sha256(Solution(token, i)), k.zeros);
  }

  // ----- the password page -----

  /** The suffix the page appends to the token for a client that knows the password hash. */
  function AuthAnswer(k: Secrets, token: Str, passwordHash: Str): (answer: Str)
    ensures |answer| == 44
  {
    Base64.Encoded(k.sha256(token + passwordHash))
  }

  /**
   * Whatever text with the right meaning a client sends behind the token, it passes until expiry exactly when the
   * text is at least as long as the configured password hash: the code compares these two lengths.
   */
  lemma {:induction false} AuthTextAccepted(k: Secrets, passwordHash: Str, t: Time, ip: Str, text: Str, jar: Str,
                                            now: Time, beyond: Memory)
    requires Presents(jar, Issued(k.mac, [], k.key, t, ip) + text)
    requires Base64.Decoded(text) == Some(k.sha256(Issued(k.mac, [], k.key, t, ip) + passwordHash))
    ensures CookiePasses(k, [], jar, ip, Auth, passwordHash, now, beyond) <==> now <= t && |passwordHash| <= |text|
  {
    var token := Issued(k.mac, [], k.key, t, ip);
    var hash := k.sha256(token + passwordHash);
    hide Issued, Presents, CookiePasses, Base64.Decoded;
    IssuedTokenAccepted(k, Auth, passwordHash, t, ip, text, jar, now, beyond);
    PresentedIsText(jar, token + text);
    var v := token + text;
    assert v[..40] == token && v[40..] == text;
    assert ReadBytes(hash, beyond, 32) == hash;
  }

  /** The page's answer followed by any number of pads, which decoding ignores. */
  function PaddedAnswer(k: Secrets, token: Str, passwordHash: Str, pads: nat): Str {
    AuthAnswer(k, token, passwordHash) + seq(pads, _ => EQUALS)
  }

  lemma {:induction false} PaddedMeansAnswer(k: Secrets, token: Str, passwordHash: Str, pads: nat)
    ensures Base64.Decoded(PaddedAnswer(k, token, passwordHash, pads)) == Some(k.sha256(token + passwordHash))
  {
    var hash := k.sha256(token + passwordHash);
    Base64.RoundTrip(hash);
    hide Base64.Encoded, Base64.Decoded;
    var answer, tail := AuthAnswer(k, token, passwordHash), seq(pads, _ => EQUALS);
    Base64.InsertionIgnored(answer, tail, |answer|);
    assert answer[..|answer|] + tail + answer[|answer|..] == answer + tail;
  }

  /**
   * The page's own answer, 44 characters, passes until expiry exactly when the configured hash is no longer than that;
   * with n pads behind it, exactly when the hash is no longer than 44 + n.
   */
  lemma {:induction false} AuthAnswerAccepted(k: Secrets, passwordHash: Str, t: Time, ip: Str, pads: nat, jar: Str,
                                              now: Time, beyond: Memory)
    requires var token := Issued(k.mac, [], k.key, t, ip); Presents(jar, token + PaddedAnswer(k, token, passwordHash, pads))
    ensures CookiePasses(k, [], jar, ip, Auth, passwordHash, now, beyond) <==> now <= t && |passwordHash| <= 44 + pads
  {
    var token := Issued(k.mac, [], k.key, t, ip);
    PaddedMeansAnswer(k, token, passwordHash, pads);
    hide Issued, Presents, CookiePasses, Base64.Decoded, AuthAnswer;
    AuthTextAccepted(k, passwordHash, t, ip, PaddedAnswer(k, token, passwordHash, pads), jar, now, beyond);
  }
}
