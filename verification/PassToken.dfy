/** src/cookiehash.cpp: the pass token, a 20-byte MAC and an 8-byte expiry time in base64. */
module PassToken {
  import opened Bytes
  import Base64

  const HASH_LENGTH := 20
  const TIME_LENGTH := 8
  const COOKIE_LENGTH := HASH_LENGTH + TIME_LENGTH
  const COOKIE_B64_LENGTH := (COOKIE_LENGTH + 2) / 3 * 4

  const TWO_63 := 0x8000_0000_0000_0000
  const TWO_64 := 0x1_0000_0000_0000_0000

  /** `time_t`: a signed 64-bit number of seconds. */
  type Time = t: int | -TWO_63 <= t < TWO_63

  type Digest20 = d: Str | |d| == 20 witness seq(20, _ => 0)

  /** HMAC-SHA1 (RFC 2104) as an unknown function of key and message. */
  type Mac = (Str, Str) -> Digest20

  /** Whatever lies in memory behind the terminating NUL of a string. */
  type Memory = nat -> bv8

  // ----- the 8 bytes of a time_t, least significant first -----

  function LeBytes(u: nat, n: nat): (s: Str)
    ensures |s| == n
  {
    if n == 0 then [] else [ByteOf(u % 256)] + LeBytes(u / 256, n - 1)
  }

  function LeValue(s: Str): nat {
    if s == [] then 0 else ValueOf(s[0]) + 256 * LeValue(s[1..])
  }

  function Power256(n: nat): (p: nat)
    ensures p >= 1
  {
    if n == 0 then 1 else 256 * Power256(n - 1)
  }

  lemma {:induction false} LeRoundTrip(u: nat, n: nat)
    requires u < Power256(n)
    ensures LeValue(LeBytes(u, n)) == u
  {
    hide ByteOf, ValueOf;
    if n > 0 {
      LeRoundTrip(u / 256, n - 1);
      ByteRoundTrip(u % 256);
      assert LeBytes(u, n)[1..] == LeBytes(u / 256, n - 1);
    }
  }

  function TimeBytes(t: Time): (s: Str)
    ensures |s| == TIME_LENGTH
  {
    LeBytes(if t < 0 then t + TWO_64 else t, TIME_LENGTH)
  }

  lemma {:induction false} LeBound(s: Str)
    ensures LeValue(s) < Power256(|s|)
  {
    if s != [] {
      LeBound(s[1..]);
    }
  }

  lemma {:induction false} Power256Of8()
    ensures Power256(TIME_LENGTH) == TWO_64
  {
    assert Power256(4) == 0x1_0000_0000;
    assert Power256(6) == 256 * (256 * Power256(4));
    assert Power256(8) == 256 * (256 * Power256(6));
  }

  function TimeOf(s: Str): Time
    requires |s| == TIME_LENGTH
  {
    LeBound(s);
    Power256Of8();
    var u := LeValue(s);
    if u >= TWO_63 then u - TWO_64 else u
  }

  lemma {:induction false} TimeRoundTrip(t: Time)
    ensures TimeOf(TimeBytes(t)) == t
  {
    Power256Of8();
    LeRoundTrip(if t < 0 then t + TWO_64 else t, TIME_LENGTH);
  }

  lemma {:induction false} LeReverse(s: Str)
    ensures LeBytes(LeValue(s), |s|) == s
  {
    hide ByteOf, ValueOf;
    if s != [] {
      var u, low, high := LeValue(s), ValueOf(s[0]), LeValue(s[1..]);
      LowAndHigh(u, low, high);
      ValueRoundTrip(s[0]);
      LeReverse(s[1..]);
      assert [s[0]] + s[1..] == s;
      hide LeValue;
      assert LeBytes(u, |s|) == [ByteOf(u % 256)] + LeBytes(u / 256, |s| - 1);
    }
  }

  lemma {:induction false} LowAndHigh(u: nat, low: nat, high: nat)
    requires low < 256 && u == low + 256 * high
    ensures u % 256 == low && u / 256 == high
  {
  }

  /** Any eight bytes are those of the time they are read as. */
  lemma {:induction false} BytesRoundTrip(s: Str)
    requires |s| == TIME_LENGTH
    ensures TimeBytes(TimeOf(s)) == s
  {
    LeReverse(s);
    LeBound(s);
    Power256Of8();
    hide LeBytes, LeValue, Power256;
  }

  /** The byte order is that of the processor the plugin is built for: the lowest byte comes first. */
  lemma {:induction false} LowByteFirst(t: Time)
    ensures ValueOf(TimeBytes(t)[0]) == t % 256
  {
    hide ByteOf, ValueOf;
    var u := if t < 0 then t + TWO_64 else t;
    ByteRoundTrip(u % 256);
    assert u % 256 == t % 256;
  }

  // ----- what is computed -----

  /** The bytes under the MAC: expiry, address, answer, with nothing in between. */
  function MacInput(captcha: Str, t: Time, ip: Str): Str {
    TimeBytes(t) + CStr(ip) + CStr(captcha)
  }

  function CookieHash(mac: Mac, captcha: Str, secret: Str, t: Time, ip: Str): Digest20 {
    mac(secret, MacInput(captcha, t, ip))
  }

  function Issued(mac: Mac, captcha: Str, secret: Str, t: Time, ip: Str): (cookie: Str)
    ensures |cookie| == 40
  {
    Base64.Encoded(CookieHash(mac, captcha, secret, t, ip) + TimeBytes(t))
  }

  /** `memcpy(dst, s.c_str(), n)`: the string, its NUL, then whatever lies behind. */
  function ReadBytes(s: Str, beyond: Memory, n: nat): (r: Str)
    ensures |r| == n
    ensures n <= |s| ==> r == s[..n]
  {
    seq(n, i requires 0 <= i => if i < |s| then s[i] else if i == |s| then NUL else beyond(i - |s| - 1))
  }

  datatype Verdict = Ok | HashMismatch | Expired | BadLength | BadBase64

  /** The verdict of `ValidateCookie`: 1, -1, -2, -3 or -4. */
  function Validated(mac: Mac, captcha: Str, secret: Str, now: Time, ip: Str, cookie: Str, beyond: Memory): Verdict {
    var text := CStr(cookie);
    if |text| != COOKIE_B64_LENGTH then BadLength
    else
      var data := Base64.Decoded(text);
      if data.None? then BadBase64
      else
        var raw := ReadBytes(data.value, beyond, COOKIE_LENGTH);
        var until := TimeOf(raw[HASH_LENGTH..]);
        if raw[..HASH_LENGTH] != CookieHash(mac, captcha, secret, until, ip) then HashMismatch
        else if until < now then Expired
        else Ok
  }

  // ----- the code -----

  /** `memcpy` into a buffer. */
  method CopyInto(dst: array<bv8>, at: nat, src: Str)
    requires at + |src| <= dst.Length
    modifies dst
    ensures dst[..] == old(dst[..at]) + src + old(dst[at + |src|..])
  {
    for k := 0 to |src|
      invariant dst[..] == old(dst[..at]) + src[..k] + old(dst[at + k..])
    {
      dst[at + k] := src[k];
    }
    assert src[..|src|] == src;
  }

  method GenerateCookieHash(mac: Mac, captcha: Str, secret: Str, t: Time, ip: Str) returns (obuf: Digest20)
    requires TIME_LENGTH + |CStr(ip)| + |CStr(captcha)| <= 200
    ensures obuf == CookieHash(mac, captcha, secret, t, ip)
  {
    var ibuf := new bv8[200];
    var p := 0;
    CopyInto(ibuf, p, TimeBytes(t));
    p := p + TIME_LENGTH;
    assert ibuf[..p] == TimeBytes(t);
    CopyInto(ibuf, p, CStr(ip));
    p := p + |CStr(ip)|;
    assert ibuf[..p] == TimeBytes(t) + CStr(ip);
    CopyInto(ibuf, p, CStr(captcha));
    p := p + |CStr(captcha)|;
    assert ibuf[..p] == MacInput(captcha, t, ip);
    obuf := mac(secret, ibuf[..p]);
  }

  method GenerateCookie(mac: Mac, captcha: Str, secret: Str, t: Time, ip: Str) returns (cookie: Str)
    requires TIME_LENGTH + |CStr(ip)| + |CStr(captcha)| <= 200
    ensures cookie == Issued(mac, captcha, secret, t, ip)
  {
    var hash := GenerateCookieHash(mac, captcha, secret, t, ip);
    var raw := new bv8[COOKIE_LENGTH];
    CopyInto(raw, 0, hash);
    CopyInto(raw, HASH_LENGTH, TimeBytes(t));
    assert raw[..] == hash + TimeBytes(t);
    cookie := Base64.Encode(raw[..]);
  }

  method ValidateCookie(mac: Mac, captcha: Str, secret: Str, now: Time, ip: Str, cookie: Str, beyond: Memory)
    returns (code: int)
    requires TIME_LENGTH + |CStr(ip)| + |CStr(captcha)| <= 200
    ensures code == match Validated(mac, captcha, secret, now, ip, cookie, beyond)
                    case Ok => 1 case HashMismatch => -1 case Expired => -2 case BadLength => -3 case BadBase64 => -4
  {
    var text := CStr(cookie);
    if |text| != COOKIE_B64_LENGTH {
      return -3;
    }
    var data := Base64.Decode(text);
    if data.None? {
      return -4;
    }
    var raw := ReadBytes(data.value, beyond, COOKIE_LENGTH);
    var until := TimeOf(raw[HASH_LENGTH..]);
    var hash := GenerateCookieHash(mac, captcha, secret, until, ip);
    if raw[..HASH_LENGTH] != hash {
      return -1;
    }
    if until < now {
      return -2;
    }
    return 1;
  }

  // ----- which cookies are accepted -----

  /** The text is 40 characters that decode to the MAC over this expiry, address and answer, followed by the expiry. */
  ghost predicate Genuine(mac: Mac, captcha: Str, secret: Str, t: Time, ip: Str, text: Str, beyond: Memory) {
    && |text| == 40 && Base64.Decoded(text).Some?
    && ReadBytes(Base64.Decoded(text).value, beyond, 28) == mac(secret, MacInput(captcha, t, ip)) + TimeBytes(t)
  }

  /** The text is genuine for an expiry that has not passed. */
  ghost predicate StillValid(mac: Mac, captcha: Str, secret: Str, now: Time, ip: Str, text: Str, beyond: Memory) {
    exists t: Time :: now <= t && Genuine(mac, captcha, secret, t, ip, text, beyond)
  }

  /**
   * Which verdict every possible cookie gets: it is accepted exactly when it is genuine for some expiry that has not
   * passed, expired when that has passed, and refused for its length, its characters or its MAC otherwise.
   */
  lemma {:induction false} ValidatedExactly(mac: Mac, captcha: Str, secret: Str, now: Time, ip: Str, cookie: Str,
                                            beyond: Memory)
    ensures var v, text := Validated(mac, captcha, secret, now, ip, cookie, beyond), CStr(cookie);
            && (v == Ok <==> StillValid(mac, captcha, secret, now, ip, text, beyond))
            && (v == Expired <==> (exists t: Time :: Genuine(mac, captcha, secret, t, ip, text, beyond))
                                  && !StillValid(mac, captcha, secret, now, ip, text, beyond))
            && (v == BadLength <==> |text| != 40)
            && (v == BadBase64 <==> |text| == 40 && exists c :: c in text && !Base64.Legal(c))
  {
    hide Base64.Decoded, CStr, MacInput, Base64.Legal, TimeBytes, TimeOf, Genuine;
    var text := CStr(cookie);
    if t: Time :| Genuine(mac, captcha, secret, t, ip, text, beyond) {
      GenuineReads(mac, captcha, secret, t, ip, text, beyond);
      forall u: Time | Genuine(mac, captcha, secret, u, ip, text, beyond) ensures u == t {
        GenuineReads(mac, captcha, secret, u, ip, text, beyond);
      }
      assert StillValid(mac, captcha, secret, now, ip, text, beyond) <==> now <= t;
      assert Validated(mac, captcha, secret, now, ip, cookie, beyond) == if t < now then Expired else Ok;
    } else if |text| == 40 && Base64.Decoded(text).Some? {
      var until := TimeOf(ReadBytes(Base64.Decoded(text).value, beyond, 28)[20..]);
      GenuineReads(mac, captcha, secret, until, ip, text, beyond);
      assert !Genuine(mac, captcha, secret, until, ip, text, beyond);
    }
  }

  /** The 28 bytes hold this expiry, and the MAC over it. */
  ghost predicate Reads(mac: Mac, captcha: Str, secret: Str, t: Time, ip: Str, raw: Str)
    requires |raw| == 28
  {
    t == TimeOf(raw[20..]) && raw[..20] == CookieHash(mac, captcha, secret, t, ip)
  }

  lemma {:induction false} GenuineReads(mac: Mac, captcha: Str, secret: Str, t: Time, ip: Str, text: Str,
                                        beyond: Memory)
    ensures Genuine(mac, captcha, secret, t, ip, text, beyond)
       <==> |text| == 40 && Base64.Decoded(text).Some?
            && Reads(mac, captcha, secret, t, ip, ReadBytes(Base64.Decoded(text).value, beyond, 28))
  {
    hide Base64.Decoded, MacInput, TimeBytes, TimeOf, ReadBytes;
    if |text| == 40 && Base64.Decoded(text).Some? {
      var raw := ReadBytes(Base64.Decoded(text).value, beyond, 28);
      BytesRoundTrip(raw[20..]);
      TimeRoundTrip(t);
      assert raw == raw[..20] + raw[20..];
      var hash := mac(secret, MacInput(captcha, t, ip));
      assert (hash + TimeBytes(t))[..20] == hash && (hash + TimeBytes(t))[20..] == TimeBytes(t);
    }
  }

  // ----- an issued token comes back -----

  lemma {:induction false} IssuedIsPlain(mac: Mac, captcha: Str, secret: Str, t: Time, ip: Str)
    ensures var cookie := Issued(mac, captcha, secret, t, ip);
            && CStr(cookie) == cookie
            && (forall c :: c in cookie ==> Base64.Sextet(c) < 64 || c == EQUALS)
            && cookie[0] != EQUALS
            && cookie[38..] == [EQUALS, EQUALS] && cookie[37] != EQUALS
  {
    hide CookieHash, TimeBytes, Base64.Encoded, Base64.SextetAt, Base64.Symbol;
    var raw := CookieHash(mac, captcha, secret, t, ip) + TimeBytes(t);
    var cookie := Base64.Encoded(raw);
    Base64.EncodedIsLegal(raw);
    Base64.EncodedAt(raw, 37);
    Base64.EncodedAt(raw, 38);
    Base64.EncodedAt(raw, 39);
    Base64.PadIsSkipped();
    assert NUL !in cookie;
  }

  /**
   * Presented for an address and an answer, an issued token is judged by its MAC and its expiry alone:
   * lengths, padding and encoding always come out right.
   */
  lemma {:induction false} IssuedVerdict(mac: Mac, captcha: Str, secret: Str, t: Time, ip: Str,
                      answer: Str, from: Str, now: Time, beyond: Memory)
    ensures Validated(mac, answer, secret, now, from, Issued(mac, captcha, secret, t, ip), beyond)
         == if CookieHash(mac, answer, secret, t, from) != CookieHash(mac, captcha, secret, t, ip) then HashMismatch
            else if t < now then Expired
            else Ok
  {
    hide CookieHash, TimeBytes, Base64.Encoded, Base64.Decoded, TimeOf, CStr;
    IssuedIsPlain(mac, captcha, secret, t, ip);
    var hash := CookieHash(mac, captcha, secret, t, ip);
    var raw := hash + TimeBytes(t);
    Base64.RoundTrip(raw);
    TimeRoundTrip(t);
    assert ReadBytes(raw, beyond, COOKIE_LENGTH) == raw;
    assert raw[..HASH_LENGTH] == hash && raw[HASH_LENGTH..] == TimeBytes(t);
  }

  // ----- what the MAC distinguishes -----

  predicate IsAddressChar(c: bv8) {
    c == 46 || (48 <= c && c <= 57)
  }

  predicate IsAddress(s: Str) {
    forall c :: c in s ==> IsAddressChar(c)
  }

  predicate IsWord(s: Str) {
    forall c :: c in s ==> (65 <= c && c <= 90) || (97 <= c && c <= 122)
  }

  /** The MAC covers the time in full and otherwise exactly the joined text of address and answer. */
  lemma {:induction false} MacInputEquality(c1: Str, t1: Time, ip1: Str, c2: Str, t2: Time, ip2: Str)
    ensures MacInput(c1, t1, ip1) == MacInput(c2, t2, ip2)
       <==> t1 == t2 && CStr(ip1) + CStr(c1) == CStr(ip2) + CStr(c2)
  {
    hide TimeBytes, CStr, TimeOf;
    var a1, a2 := CStr(ip1) + CStr(c1), CStr(ip2) + CStr(c2);
    var m1, m2 := TimeBytes(t1) + a1, TimeBytes(t2) + a2;
    assert MacInput(c1, t1, ip1) == m1 && MacInput(c2, t2, ip2) == m2;
    if m1 == m2 {
      assert TimeBytes(t1) == m1[..8] == m2[..8] == TimeBytes(t2);
      assert a1 == m1[8..] == m2[8..] == a2;
      TimeRoundTrip(t1);
      TimeRoundTrip(t2);
    }
  }

  /** Addresses of digits and dots and answers of letters cannot be confused for one another. */
  lemma {:induction false} JoinInjective(ip1: Str, c1: Str, ip2: Str, c2: Str)
    requires IsAddress(ip1) && IsAddress(ip2) && IsWord(c1) && IsWord(c2)
    requires ip1 + c1 == ip2 + c2
    ensures ip1 == ip2 && c1 == c2
  {
    var j := ip1 + c1;
    assert forall i :: 0 <= i < |j| ==> (IsAddressChar(j[i]) <==> i < |ip1|) by {
      AddressPart(ip1, c1);
    }
    assert forall i :: 0 <= i < |j| ==> (IsAddressChar(j[i]) <==> i < |ip2|) by {
      AddressPart(ip2, c2);
    }
    hide IsAddressChar, IsAddress, IsWord;
    var m := if |ip1| < |ip2| then |ip1| else |ip2|;
    assert m < |j| ==> (IsAddressChar(j[m]) <==> m < |ip1|);
    assert ip1 == j[..|ip1|] && ip2 == (ip2 + c2)[..|ip1|];
    assert c1 == j[|ip1|..] && c2 == (ip2 + c2)[|ip1|..];
  }

  lemma {:induction false} AddressPart(ip: Str, c: Str)
    requires IsAddress(ip) && IsWord(c)
    ensures forall i :: 0 <= i < |ip + c| ==> (IsAddressChar((ip + c)[i]) <==> i < |ip|)
  {
    forall i | 0 <= i < |ip + c| ensures IsAddressChar((ip + c)[i]) <==> i < |ip| {
      if i < |ip| {
        assert ip[i] in ip;
      } else {
        assert c[i - |ip|] in c;
      }
    }
  }

  /** The MAC input determines time, address and answer on the strings the challenger uses. */
  lemma {:induction false} MacInputInjective(c1: Str, t1: Time, ip1: Str, c2: Str, t2: Time, ip2: Str)
    requires IsAddress(ip1) && IsAddress(ip2) && IsWord(c1) && IsWord(c2)
    requires MacInput(c1, t1, ip1) == MacInput(c2, t2, ip2)
    ensures c1 == c2 && t1 == t2 && ip1 == ip2
  {
    MacInputEquality(c1, t1, ip1, c2, t2, ip2);
    hide TimeBytes, CStr, MacInput;
    assert NUL !in ip1 && NUL !in ip2 && NUL !in c1 && NUL !in c2;
    JoinInjective(ip1, c1, ip2, c2);
  }
}
