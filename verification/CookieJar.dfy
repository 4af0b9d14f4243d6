/** src/cookie.cpp: the parser that eats one name/value pair at a time from a Cookie header. */
module CookieJar {
  import opened Bytes

  datatype Cookie = Cookie(name: Str, value: Str)

  // ----- the pieces of the grammar -----

  predicate IsBlank(s: Str) {
    forall k :: 0 <= k < |s| ==> IsSpace(s[k])
  }

  /** The text without the blanks in front of it. */
  function TrimPrefix(s: Str): (r: Str)
    ensures |r| <= |s| && r == s[|s| - |r|..] && forall k :: 0 <= k < |s| - |r| ==> IsSpace(s[k])
    ensures r != [] ==> !IsSpace(r[0])
  {
    if s != [] && IsSpace(s[0]) then TrimPrefix(s[1..]) else s
  }

  /** The text without the blanks behind it. */
  function TrimSuffix(s: Str): (r: Str)
    ensures r <= s && forall k :: |r| <= k < |s| ==> IsSpace(s[k])
    ensures r != [] ==> !IsSpace(r[|r| - 1])
  {
    if s != [] && IsSpace(s[|s| - 1]) then TrimSuffix(s[..|s| - 1]) else s
  }

  predicate EndsName(c: bv8) {
    c == SEMICOLON || c == EQUALS || IsSpace(c) || c == NUL
  }

  /** Length of the name token in front of `s`. */
  function NameEnd(s: Str): (n: nat)
    ensures n <= |s|
    ensures n < |s| ==> EndsName(s[n])
    ensures forall k :: 0 <= k < n ==> !EndsName(s[k])
  {
    if s == [] || EndsName(s[0]) then 0 else 1 + NameEnd(s[1..])
  }

  /** `is_eol_at`. */
  predicate IsEolAt(s: Str, pos: nat) {
    pos + 2 <= |s| && s[pos] == CR && s[pos + 1] == LF
  }

  predicate EndsValue(s: Str, pos: nat)
    requires pos < |s|
  {
    s[pos] == SEMICOLON || s[pos] == NUL || IsEolAt(s, pos)
  }

  /** Length of the untrimmed value token in front of `s`. */
  function ValueEnd(s: Str): (n: nat)
    ensures n <= |s|
    ensures n < |s| ==> EndsValue(s, n)
    ensures forall k :: 0 <= k < n ==> !EndsValue(s, k)
  {
    if s == [] || EndsValue(s, 0) then 0
    else
      var n := ValueEnd(s[1..]);
      assert forall k :: 0 < k < |s| ==> (EndsValue(s, k) <==> EndsValue(s[1..], k - 1));
      1 + n
  }

  /** The text without the '=' signs in front of it. */
  function DropEquals(s: Str): (r: Str)
    ensures |r| <= |s| && r == s[|s| - |r|..]
    ensures forall k :: 0 <= k < |s| - |r| ==> s[k] == EQUALS
    ensures r != [] ==> r[0] != EQUALS
  {
    if s != [] && s[0] == EQUALS then DropEquals(s[1..]) else s
  }

  /** Everything after the '=' signs: the value and what is left of the jar. */
  function ConsumeValue(name: Str, s: Str): (r: (Option<Cookie>, Str))
    ensures r.0.Some? && |r.1| <= |s|
  {
    var v := TrimPrefix(s);
    var n := ValueEnd(v);
    var rest := if n < |v| && v[n] == SEMICOLON then v[n + 1..] else v[n..];
    (Some(Cookie(name, TrimSuffix(v[..n]))), rest)
  }

  /** What follows the name token, blanks removed. */
  function ConsumeAfterName(name: Str, t: Str): (r: (Option<Cookie>, Str))
    ensures |r.1| <= |t|
    ensures r.0.Some? && t != [] ==> |r.1| < |t|
  {
    if t == [] then (Some(Cookie(name, [])), [])
    else if t[0] == NUL || t[0] == SEMICOLON then (Some(Cookie(name, [])), t[1..])
    else if t[0] == EQUALS then ConsumeValue(name, DropEquals(t[1..]))
    else (None, t)
  }

  /** `consume` on a view without leading blanks. */
  function ConsumeTrimmed(s: Str): (r: (Option<Cookie>, Str))
    ensures |r.1| <= |s|
    ensures r.0.Some? ==> |r.1| < |s|
  {
    if s == [] then (None, s)
    else
      var n := NameEnd(s);
      if n == 0 && s[0] != EQUALS then
        if s[0] == SEMICOLON then (Some(Cookie([], [])), s[1..]) else (None, s)
      else if n == |s| then (Some(Cookie(s, [])), [])
      else ConsumeAfterName(s[..n], TrimPrefix(s[n..]))
  }

  /** `Cookie::consume`: the cookie, if any, and the remaining view. */
  function Consumed(jar: Str): (r: (Option<Cookie>, Str))
    ensures |r.1| <= |jar|
    ensures r.0.Some? ==> |r.1| < |jar|
  {
    ConsumeTrimmed(TrimPrefix(jar))
  }

  // ----- the code -----

  method TrimSpacePrefix(s: Str) returns (r: Str)
    ensures r == TrimPrefix(s)
  {
    r := s;
    while r != [] && IsSpace(r[0])
      invariant TrimPrefix(r) == TrimPrefix(s)
    {
      r := r[1..];
    }
  }

  method TrimSpaceSuffix(s: Str) returns (r: Str)
    ensures r == TrimSuffix(s)
  {
    r := s;
    while r != [] && IsSpace(r[|r| - 1])
      invariant TrimSuffix(r) == TrimSuffix(s)
    {
      r := r[..|r| - 1];
    }
  }

  /** Both token scans stop at the first index that ends the token. */
  lemma {:induction false} NameEndUnique(s: Str, n: nat)
    requires n <= |s| && (n < |s| ==> EndsName(s[n]))
    requires forall k :: 0 <= k < n ==> !EndsName(s[k])
    ensures n == NameEnd(s)
  {
    hide EndsName;
  }

  lemma {:induction false} ValueEndUnique(s: Str, n: nat)
    requires n <= |s| && (n < |s| ==> EndsValue(s, n))
    requires forall k :: 0 <= k < n ==> !EndsValue(s, k)
    ensures n == ValueEnd(s)
  {
    hide EndsValue;
  }

  method ScanName(view: Str) returns (nameEnd: nat)
    ensures nameEnd == NameEnd(view)
  {
    hide EndsName;
    nameEnd := 0;
    while nameEnd < |view| && !EndsName(view[nameEnd])
      invariant 0 <= nameEnd <= |view|
      invariant forall k :: 0 <= k < nameEnd ==> !EndsName(view[k])
    {
      nameEnd := nameEnd + 1;
    }
    NameEndUnique(view, nameEnd);
  }

  method ScanValue(view: Str) returns (valEnd: nat)
    ensures valEnd == ValueEnd(view)
  {
    hide EndsValue;
    valEnd := 0;
    while valEnd < |view| && !EndsValue(view, valEnd)
      invariant 0 <= valEnd <= |view|
      invariant forall k :: 0 <= k < valEnd ==> !EndsValue(view, k)
    {
      valEnd := valEnd + 1;
    }
    ValueEndUnique(view, valEnd);
  }

  method Consume(jar: Str) returns (c: Option<Cookie>, view: Str)
    ensures (c, view) == Consumed(jar)
  {
    hide NameEnd, TrimPrefix, ConsumeAfterName;
    view := TrimSpacePrefix(jar);
    if view == [] {
      return None, view;
    }
    var nameEnd := ScanName(view);
    if nameEnd == 0 && view[0] != EQUALS {
      if view[0] == SEMICOLON {
        return Some(Cookie([], [])), view[1..];
      }
      return None, view;
    }
    var name := view[..nameEnd];
    if nameEnd == |view| {
      assert name == view && view[nameEnd..] == [];
      return Some(Cookie(name, [])), view[nameEnd..];
    }
    view := TrimSpacePrefix(view[nameEnd..]);
    c, view := ConsumeRest(name, view);
  }

  /** The part of `consume` behind the name token. */
  method ConsumeRest(name: Str, t: Str) returns (c: Option<Cookie>, view: Str)
    ensures (c, view) == ConsumeAfterName(name, t)
  {
    hide ConsumeValue;
    view := t;
    if view == [] {
      return Some(Cookie(name, [])), view;
    }
    if view[0] == NUL || view[0] == SEMICOLON {
      return Some(Cookie(name, [])), view[1..];
    }
    if view[0] != EQUALS {
      return None, view;
    }
    view := view[1..];
    while view != [] && view[0] == EQUALS
      invariant DropEquals(view) == DropEquals(t[1..])
    {
      view := view[1..];
    }
    c, view := ConsumeValueToken(name, view);
  }

  method ConsumeValueToken(name: Str, s: Str) returns (c: Option<Cookie>, view: Str)
    ensures (c, view) == ConsumeValue(name, s)
  {
    hide ValueEnd, TrimPrefix, TrimSuffix;
    view := TrimSpacePrefix(s);
    var valEnd := ScanValue(view);
    var value := TrimSpaceSuffix(view[..valEnd]);
    c := Some(Cookie(name, value));
    view := view[valEnd..];
    if view != [] && view[0] == SEMICOLON {
      view := view[1..];
    }
  }

  // ----- repeated consumption -----

  /** All the cookies the loop `while (cookie = consume(view))` sees. */
  function ParseAll(jar: Str): (cs: seq<Cookie>)
    ensures |cs| <= |jar|
    decreases |jar|
  {
    var (c, rest) := Consumed(jar);
    if c.None? then [] else [c.value] + ParseAll(rest)
  }

  /** The value of the first cookie with this name. */
  function FirstNamed(cs: seq<Cookie>, name: Str): (v: Option<Str>)
    ensures v.Some? <==> exists c :: c in cs && c.name == name
    ensures v.Some? ==> Cookie(name, v.value) in cs
  {
    if cs == [] then None
    else if cs[0].name == name then assert cs[0] == Cookie(name, cs[0].value); Some(cs[0].value)
    else FirstNamed(cs[1..], name)
  }

  /** The search loop of `check_cookie`; it terminates because every consumed cookie shortens the view. */
  method Search(jar: Str, name: Str) returns (v: Option<Str>)
    ensures v == FirstNamed(ParseAll(jar), name)
  {
    var view := jar;
    while true
      invariant FirstNamed(ParseAll(view), name) == FirstNamed(ParseAll(jar), name)
      decreases |view|
    {
      ghost var before := view;
      var c;
      c, view := Consume(view);
      if c.None? {
        return None;
      }
      assert ParseAll(before) == [c.value] + ParseAll(view);
      if c.value.name == name {
        return Some(c.value.value);
      }
      assert ([c.value] + ParseAll(view))[1..] == ParseAll(view);
    }
  }

  /** No value the parser returns holds a NUL. */
  lemma {:induction false} ParsedWithoutNul(jar: Str)
    ensures forall c :: c in ParseAll(jar) ==> NUL !in c.value
    decreases |jar|
  {
    var (c, rest) := Consumed(jar);
    if c.Some? {
      ConsumedWithoutNul(jar);
      ParsedWithoutNul(rest);
    }
  }

  lemma {:induction false} ConsumedWithoutNul(jar: Str)
    ensures Consumed(jar).0.Some? ==> NUL !in Consumed(jar).0.value.value
  {
    hide ConsumeAfterName, TrimPrefix, NameEnd;
    var s := TrimPrefix(jar);
    var n := NameEnd(s);
    if s == [] {
    } else if n == 0 && s[0] != EQUALS {
    } else if n == |s| {
    } else {
      AfterNameWithoutNul(s[..n], TrimPrefix(s[n..]));
    }
  }

  lemma {:induction false} AfterNameWithoutNul(name: Str, t: Str)
    ensures ConsumeAfterName(name, t).0.Some? ==> NUL !in ConsumeAfterName(name, t).0.value.value
  {
    hide ConsumeValue, DropEquals;
    if t != [] && t[0] == EQUALS {
      ValueWithoutNul(name, DropEquals(t[1..]));
    }
  }

  lemma {:induction false} ValueWithoutNul(name: Str, s: Str)
    ensures NUL !in ConsumeValue(name, s).0.value.value
  {
    var v := TrimPrefix(s);
    var n := ValueEnd(v);
    forall k | 0 <= k < n ensures v[..n][k] != NUL {
      assert !EndsValue(v, k);
    }
    hide TrimPrefix, ValueEnd, EndsValue;
    TrimmedPart(v[..n]);
  }

  lemma {:induction false} TrimmedPart(s: Str)
    ensures forall c :: c in TrimSuffix(s) ==> c in s
  {
    if s != [] && IsSpace(s[|s| - 1]) {
      TrimmedPart(s[..|s| - 1]);
    }
  }

  // ----- the grammar -----

  predicate IsName(s: Str) {
    forall k :: 0 <= k < |s| ==> !EndsName(s[k])
  }

  predicate WellFormedValue(v: Str) {
    && (forall k :: 0 <= k < |v| ==> !EndsValue(v, k))
    && (v != [] ==> !IsSpace(v[0]) && !IsSpace(v[|v| - 1]))
  }

  predicate WellFormed(c: Cookie) {
    IsName(c.name) && WellFormedValue(c.value)
  }

  /** How a pair is laid out: blanks in front, around its '=' signs (one and any number more) and behind the value. */
  datatype Layout = Layout(lead: Str, gap: Str, more: nat, pad: Str, trail: Str)

  /** No line ends behind the value, and a value that begins with '=' is told apart from the signs. */
  predicate Fits(l: Layout, v: Str) {
    && IsBlank(l.lead) && IsBlank(l.gap) && IsBlank(l.pad) && IsBlank(l.trail)
    && (forall k :: 0 <= k < |l.trail| ==> !IsEolAt(l.trail, k))
    && (v != [] && v[0] == EQUALS ==> l.pad != [])
  }

  function Signs(n: nat): Str {
    seq(n, _ => EQUALS)
  }

  function Spelled(c: Cookie, l: Layout): Str {
    l.lead + (c.name + (l.gap + (Signs(1 + l.more) + (l.pad + (c.value + l.trail)))))
  }

  /** What may follow a value: the end of the header, ';', NUL, or, if there is a value, the end of a line. */
  predicate Closes(tail: Str, v: Str) {
    tail == [] || tail[0] == SEMICOLON || tail[0] == NUL || (v != [] && IsEolAt(tail, 0))
  }

  function AfterSeparator(tail: Str): Str {
    if tail != [] && tail[0] == SEMICOLON then tail[1..] else tail
  }

  /** Nothing but blanks up to the end or a NUL: no cookie; a stray ';' is a cookie without name and value. */
  ghost predicate Stray(jar: Str, c: Option<Cookie>, rest: Str, lead: Str) {
    && IsBlank(lead)
    && ((c == None && jar == lead + rest && (rest == [] || rest[0] == NUL))
        || (c == Some(Cookie([], [])) && jar == lead + ([SEMICOLON] + rest)))
  }

  /** A name without '=': a cookie without value if the header ends, or ';' or NUL follows, and none otherwise. */
  ghost predicate Valueless(jar: Str, c: Option<Cookie>, rest: Str, lead: Str, name: Str, gap: Str) {
    && IsBlank(lead) && IsBlank(gap) && IsName(name) && name != []
    && ((c == Some(Cookie(name, [])) && jar == lead + (name + gap) && rest == [])
        || (c == Some(Cookie(name, [])) && (jar == lead + (name + (gap + ([SEMICOLON] + rest)))
                                            || jar == lead + (name + (gap + ([NUL] + rest)))))
        || (c == None && jar == lead + (name + (gap + rest)) && gap != [] && rest != [] && !EndsName(rest[0])))
  }

  /** A pair in any layout. */
  ghost predicate Spells(jar: Str, c: Option<Cookie>, rest: Str, l: Layout, tail: Str) {
    && c.Some? && WellFormed(c.value) && Fits(l, c.value.value) && Closes(tail, c.value.value)
    && jar == Spelled(c.value, l) + tail && rest == AfterSeparator(tail)
  }

  /** The grammar of one step: what is read from the front of a header, and what is left. */
  ghost predicate Derives(jar: Str, c: Option<Cookie>, rest: Str) {
    || (exists lead: Str :: Stray(jar, c, rest, lead))
    || (exists lead: Str, name: Str, gap: Str :: Valueless(jar, c, rest, lead, name, gap))
    || (exists l: Layout, tail: Str :: Spells(jar, c, rest, l, tail))
  }

  /** The trimmed text is the only one without leading blanks that leaves only blanks out. */
  lemma {:induction false} TrimmedPrefix(blank: Str, s: Str)
    requires IsBlank(blank) && (s != [] ==> !IsSpace(s[0]))
    ensures TrimPrefix(blank + s) == s
  {
    hide IsSpace;
    if blank == [] {
      assert blank + s == s;
    } else {
      assert (blank + s)[1..] == blank[1..] + s;
      TrimmedPrefix(blank[1..], s);
    }
  }

  /** The same from behind. */
  lemma {:induction false} TrimmedSuffix(s: Str, blank: Str)
    requires IsBlank(blank) && (s != [] ==> !IsSpace(s[|s| - 1]))
    ensures TrimSuffix(s + blank) == s
  {
    hide IsSpace;
    var n := |blank| - 1;
    if blank == [] {
      assert s + blank == s;
    } else {
      assert (s + blank)[..|s| + n] == s + blank[..n];
      TrimmedSuffix(s, blank[..n]);
    }
  }

  /** Blanks behind a value are not part of it. */
  lemma {:induction false} TrailingBlanksIgnored(s: Str, blank: Str)
    requires IsBlank(blank)
    ensures TrimSuffix(s + blank) == TrimSuffix(s)
  {
    hide IsSpace, TrimSuffix;
    var r := TrimSuffix(s);
    assert s + blank == r + (s[|r|..] + blank);
    TrimmedSuffix(r, s[|r|..] + blank);
  }

  lemma {:induction false} DroppedSigns(n: nat, s: Str)
    requires s != [] ==> s[0] != EQUALS
    ensures DropEquals(Signs(n) + s) == s
  {
    if n == 0 {
      assert Signs(n) + s == s;
    } else {
      assert (Signs(n) + s)[1..] == Signs(n - 1) + s;
      DroppedSigns(n - 1, s);
    }
  }

  /** A name and the blanks behind it are passed over. */
  lemma {:induction false} NamePassed(lead: Str, name: Str, gap: Str, t: Str)
    requires IsBlank(lead) && IsBlank(gap) && IsName(name) && (t != [] ==> !IsSpace(t[0]))
    requires name == [] ==> t != [] && t[0] == EQUALS
    requires name != [] && gap == [] && t != [] ==> EndsName(t[0])
    ensures Consumed(lead + (name + (gap + t))) == ConsumeAfterName(name, t)
  {
    hide Consumed, ConsumeAfterName, IsSpace, IsBlank, IsName;
    if name == [] {
      assert lead + (name + (gap + t)) == (lead + gap) + t;
      BlanksJoin(lead, gap);
      NamelessPassed(lead + gap, t);
    } else {
      NamedPassed(lead, name, gap, t);
    }
  }

  lemma {:induction false} BlanksJoin(a: Str, b: Str)
    requires IsBlank(a) && IsBlank(b)
    ensures IsBlank(a + b)
  {
    hide IsSpace;
  }

  lemma {:induction false} NamelessPassed(lead: Str, t: Str)
    requires IsBlank(lead) && t != [] && t[0] == EQUALS
    ensures Consumed(lead + t) == ConsumeAfterName([], t)
  {
    EqualsNoSpace();
    hide ConsumeAfterName, NameEnd, TrimPrefix, IsSpace, IsBlank;
    TrimmedPrefix(lead, t);
    NameEndUnique(t, 0);
    NothingBlank();
    TrimmedPrefix([], t);
    assert [] + t == t && t[..0] == [] && t[0..] == t;
  }

  lemma {:induction false} NothingBlank()
    ensures IsBlank([])
  {
  }

  lemma {:induction false} NamedPassed(lead: Str, name: Str, gap: Str, t: Str)
    requires IsBlank(lead) && IsBlank(gap) && IsName(name) && name != [] && (t != [] ==> !IsSpace(t[0]))
    requires gap == [] && t != [] ==> EndsName(t[0])
    ensures Consumed(lead + (name + (gap + t))) == ConsumeAfterName(name, t)
  {
    hide ConsumeAfterName, NameEnd, TrimPrefix, IsSpace, IsBlank;
    var s, n := name + (gap + t), |name|;
    NameToken(name, gap, t);
    TrimmedPrefix(lead, s);
    TrimmedPrefix(gap, t);
    assert s[..n] == name && s[n..] == gap + t;
    if n == |s| {
      assert name == s && t == [];
      NothingBehindName(name);
    }
  }

  lemma {:induction false} NameToken(name: Str, gap: Str, t: Str)
    requires IsBlank(gap) && IsName(name) && name != [] && (gap == [] && t != [] ==> EndsName(t[0]))
    ensures var s := name + (gap + t); !IsSpace(s[0]) && NameEnd(s) == |name|
  {
    var s, n := name + (gap + t), |name|;
    assert s[0] == name[0] && !EndsName(name[0]);
    assert gap != [] ==> s[n] == gap[0];
    assert gap == [] && t != [] ==> s[n] == t[0];
    hide IsSpace, NameEnd;
    NameEndUnique(s, n);
  }

  lemma {:induction false} NothingBehindName(name: Str)
    ensures ConsumeAfterName(name, []) == (Some(Cookie(name, [])), [])
  {
  }

  lemma {:induction false} ValueToken(v: Str, trail: Str, tail: Str)
    requires WellFormedValue(v) && v != [] && IsBlank(trail) && Closes(tail, v)
    requires forall k :: 0 <= k < |trail| ==> !IsEolAt(trail, k)
    ensures ValueEnd(v + (trail + tail)) == |v + trail|
  {
    var s, n := v + (trail + tail), |v + trail|;
    forall k | 0 <= k < n ensures !EndsValue(s, k) {
      if k < |v| {
        assert s[k] == v[k] && !EndsValue(v, k);
        assert k + 1 < |v| ==> s[k + 1] == v[k + 1];
      } else {
        assert s[k] == trail[k - |v|] && !IsEolAt(trail, k - |v|);
        assert k + 1 < n ==> s[k + 1] == trail[k + 1 - |v|];
        assert k + 1 == n && tail != [] ==> s[k + 1] == tail[0];
      }
    }
    assert s[n..] == tail;
    assert tail != [] ==> s[n] == tail[0] && (IsEolAt(tail, 0) ==> s[n + 1] == tail[1]);
    ValueEndUnique(s, n);
  }

  lemma {:induction false} ValueRead(name: Str, pad: Str, v: Str, trail: Str, tail: Str)
    requires WellFormedValue(v) && IsBlank(pad) && IsBlank(trail) && Closes(tail, v)
    requires forall k :: 0 <= k < |trail| ==> !IsEolAt(trail, k)
    ensures ConsumeValue(name, pad + (v + (trail + tail))) == (Some(Cookie(name, v)), AfterSeparator(tail))
  {
    hide ConsumeValue, IsSpace, IsBlank;
    if v == [] {
      assert pad + (v + (trail + tail)) == (pad + trail) + tail;
      BlanksJoin(pad, trail);
      EmptyValueRead(name, pad + trail, tail);
    } else {
      SomeValueRead(name, pad, v, trail, tail);
    }
  }

  lemma {:induction false} EmptyValueRead(name: Str, pad: Str, tail: Str)
    requires IsBlank(pad) && Closes(tail, [])
    ensures ConsumeValue(name, pad + tail) == (Some(Cookie(name, [])), AfterSeparator(tail))
  {
    hide ValueEnd, TrimPrefix, TrimSuffix, IsBlank;
    TrimmedPrefix(pad, tail);
    ValueEndUnique(tail, 0);
    assert tail[..0] == [] && tail[0..] == tail;
    assert TrimSuffix([]) == [];
  }

  lemma {:induction false} SomeValueRead(name: Str, pad: Str, v: Str, trail: Str, tail: Str)
    requires WellFormedValue(v) && v != [] && IsBlank(pad) && IsBlank(trail) && Closes(tail, v)
    requires forall k :: 0 <= k < |trail| ==> !IsEolAt(trail, k)
    ensures ConsumeValue(name, pad + (v + (trail + tail))) == (Some(Cookie(name, v)), AfterSeparator(tail))
  {
    hide ConsumeValue, ValueEnd, TrimPrefix, TrimSuffix, IsBlank, IsSpace, EndsValue, IsEolAt, Closes;
    var w, n := v + (trail + tail), |v + trail|;
    assert w[0] == v[0];
    TrimmedPrefix(pad, w);
    ValueToken(v, trail, tail);
    TrimmedSuffix(v, trail);
    assert w[..n] == v + trail && w[n..] == tail;
    ValueOf(name, pad + w, w, n, v);
  }

  /** One pair in any layout, in front of any text that closes it, is consumed exactly. */
  lemma {:induction false} ConsumePair(c: Cookie, l: Layout, tail: Str)
    requires WellFormed(c) && Fits(l, c.value) && Closes(tail, c.value)
    ensures Consumed(Spelled(c, l) + tail) == (Some(c), AfterSeparator(tail))
  {
    hide Consumed, ConsumeValue, DropEquals, WellFormedValue, IsSpace, IsBlank, IsName;
    var rest := l.pad + (c.value + (l.trail + tail));
    var t := Signs(1 + l.more) + rest;
    SpelledParts(c, l, tail);
    EqualsNoSpace();
    NamePassed(l.lead, c.name, l.gap, t);
    assert t[1..] == Signs(l.more) + rest;
    RestNoSign(c.value, l, tail);
    DroppedSigns(l.more, rest);
    ValueRead(c.name, l.pad, c.value, l.trail, tail);
  }

  lemma {:induction false} EqualsNoSpace()
    ensures !IsSpace(EQUALS) && EndsName(EQUALS)
  {
  }

  lemma {:induction false} RestNoSign(v: Str, l: Layout, tail: Str)
    requires Fits(l, v) && Closes(tail, v)
    ensures var rest := l.pad + (v + (l.trail + tail)); rest != [] ==> rest[0] != EQUALS
  {
    var rest := l.pad + (v + (l.trail + tail));
    if l.pad != [] {
      assert rest[0] == l.pad[0];
    } else if v != [] {
      assert rest[0] == v[0];
    } else if l.trail != [] {
      assert rest[0] == l.trail[0];
    }
  }

  lemma {:induction false} SpelledParts(c: Cookie, l: Layout, tail: Str)
    ensures Spelled(c, l) + tail
         == l.lead + (c.name + (l.gap + (Signs(1 + l.more) + (l.pad + (c.value + (l.trail + tail))))))
  {
    hide Signs;
    var signs, a := Signs(1 + l.more), c.value + l.trail;
    assert a + tail == c.value + (l.trail + tail);
    assert (l.pad + a) + tail == l.pad + (a + tail);
    assert (signs + (l.pad + a)) + tail == signs + ((l.pad + a) + tail);
  }

  /** The other branches: nothing, a stray separator, a name without a value, a name with blanks in it. */
  lemma {:induction false} ConsumeStray(jar: Str, c: Option<Cookie>, rest: Str, lead: Str)
    requires Stray(jar, c, rest, lead)
    ensures Consumed(jar) == (c, rest)
  {
    hide ConsumeAfterName, NameEnd, TrimPrefix;
    var t := if c.None? then rest else [SEMICOLON] + rest;
    TrimmedPrefix(lead, t);
    NameEndUnique(t, 0);
    assert c.Some? ==> t[1..] == rest;
  }

  lemma {:induction false} ConsumeValueless(jar: Str, c: Option<Cookie>, rest: Str, lead: Str, name: Str, gap: Str)
    requires Valueless(jar, c, rest, lead, name, gap)
    ensures Consumed(jar) == (c, rest)
  {
    hide Consumed;
    if jar == lead + (name + gap) && c.Some? && rest == [] {
      assert gap + [] == gap;
      NamePassed(lead, name, gap, []);
    } else {
      var t := if c.None? then rest
               else if jar == lead + (name + (gap + ([NUL] + rest))) then [NUL] + rest
               else [SEMICOLON] + rest;
      NamePassed(lead, name, gap, t);
      assert c.Some? ==> t[1..] == rest;
    }
  }

  // ----- every header has a derivation -----

  lemma {:induction false} ValueDerives(lead: Str, name: Str, gap: Str, t: Str)
    requires IsBlank(lead) && IsBlank(gap) && IsName(name) && t != [] && t[0] == EQUALS
    ensures var (c, rest) := ConsumeValue(name, DropEquals(t[1..]));
            Derives(lead + (name + (gap + t)), c, rest)
  {
    hide ConsumeValue, DropEquals, TrimPrefix, TrimSuffix, ValueEnd, IsSpace, IsBlank, IsName, Derives, Spelled,
         WellFormedValue, Closes, IsEolAt, AfterSeparator;
    var u := DropEquals(t[1..]);
    var w := TrimPrefix(u);
    var n := ValueEnd(w);
    var v := TrimSuffix(w[..n]);
    var l, tail := Layout(lead, gap, |t| - 1 - |u|, u[..|u| - |w|], w[..n][|v|..]), w[n..];
    ValueSpelled(lead, name, gap, t, u, w, n, v);
    ValueFits(w, n, v, u);
    TrailFits(w, n, v, u);
    SpellsThis(lead + (name + (gap + t)), Cookie(name, v), l, tail);
    ValueOf(name, u, w, n, v);
  }

  lemma {:induction false} ValueOf(name: Str, u: Str, w: Str, n: nat, v: Str)
    requires w == TrimPrefix(u) && n == ValueEnd(w) && v == TrimSuffix(w[..n])
    ensures ConsumeValue(name, u) == (Some(Cookie(name, v)), AfterSeparator(w[n..]))
  {
    hide TrimPrefix, TrimSuffix, ValueEnd;
  }

  lemma {:induction false} ValueSpelled(lead: Str, name: Str, gap: Str, t: Str, u: Str, w: Str, n: nat, v: Str)
    requires t != [] && t[0] == EQUALS && u == DropEquals(t[1..])
    requires |w| <= |u| && w == u[|u| - |w|..] && n <= |w| && v <= w[..n]
    ensures var l := Layout(lead, gap, |t| - 1 - |u|, u[..|u| - |w|], w[..n][|v|..]);
            lead + (name + (gap + t)) == Spelled(Cookie(name, v), l) + w[n..]
  {
    hide DropEquals, Spelled, Signs;
    ValueParts(t, u, w, n, v);
    SpelledParts(Cookie(name, v), Layout(lead, gap, |t| - 1 - |u|, u[..|u| - |w|], w[..n][|v|..]), w[n..]);
  }

  lemma {:induction false} ValueParts(t: Str, u: Str, w: Str, n: nat, v: Str)
    requires t != [] && t[0] == EQUALS && u == DropEquals(t[1..])
    requires |w| <= |u| && w == u[|u| - |w|..] && n <= |w| && v <= w[..n]
    ensures t == Signs(1 + (|t| - 1 - |u|)) + (u[..|u| - |w|] + (v + (w[..n][|v|..] + w[n..])))
  {
    hide DropEquals;
    assert t == Signs(1 + (|t| - 1 - |u|)) + u;
    assert w == v + (w[..n][|v|..] + w[n..]);
    assert u == u[..|u| - |w|] + w;
  }

  lemma {:induction false} SpellsThis(jar: Str, c: Cookie, l: Layout, tail: Str)
    requires WellFormed(c) && Fits(l, c.value) && Closes(tail, c.value) && jar == Spelled(c, l) + tail
    ensures Derives(jar, Some(c), AfterSeparator(tail))
  {
    assert Spells(jar, Some(c), AfterSeparator(tail), l, tail);
  }

  /** What the value token and the trimming leave is well-formed, and so are the blanks cut off. */
  lemma {:induction false} ValueFits(w: Str, n: nat, v: Str, u: Str)
    requires n == ValueEnd(w) && v == TrimSuffix(w[..n]) && w == TrimPrefix(u)
    ensures WellFormedValue(v) && Closes(w[n..], v)
  {
    hide TrimPrefix, TrimSuffix, ValueEnd;
    var tail := w[n..];
    forall k | 0 <= k < |v| ensures !EndsValue(v, k) {
      assert v[k] == w[k] && !EndsValue(w, k);
      assert k + 1 < |v| ==> v[k + 1] == w[k + 1];
    }
    assert v != [] ==> v[0] == w[0];
    assert tail != [] ==> EndsValue(w, n) && tail[0] == w[n] && (IsEolAt(w, n) ==> IsEolAt(tail, 0));
    if n > 0 {
      TrimKeepsFirst(w[..n]);
    }
  }

  lemma {:induction false} TrailFits(w: Str, n: nat, v: Str, u: Str)
    requires n == ValueEnd(w) && v == TrimSuffix(w[..n]) && w == TrimPrefix(u) && (u != [] ==> u[0] != EQUALS)
    ensures IsBlank(w[..n][|v|..]) && forall k :: 0 <= k < |w[..n][|v|..]| ==> !IsEolAt(w[..n][|v|..], k)
    ensures IsBlank(u[..|u| - |w|]) && (v != [] && v[0] == EQUALS ==> u[..|u| - |w|] != [])
  {
    hide TrimPrefix, TrimSuffix, ValueEnd, IsSpace;
    var trail := w[..n][|v|..];
    forall k | 0 <= k < |trail| ensures !IsEolAt(trail, k) {
      assert trail[k] == w[|v| + k] && !EndsValue(w, |v| + k);
      assert k + 1 < |trail| ==> trail[k + 1] == w[|v| + k + 1];
    }
    assert v != [] ==> v[0] == w[0];
  }

  lemma {:induction false} TrimKeepsFirst(s: Str)
    requires s != [] && !IsSpace(s[0])
    ensures TrimSuffix(s) != []
  {
    hide IsSpace;
    if IsSpace(s[|s| - 1]) {
      TrimKeepsFirst(s[..|s| - 1]);
    }
  }

  lemma {:induction false} AfterNameDerives(lead: Str, name: Str, gap: Str, t: Str)
    requires IsBlank(lead) && IsBlank(gap) && IsName(name) && (t != [] ==> !IsSpace(t[0]))
    requires name == [] ==> t != [] && t[0] == EQUALS
    requires name != [] && gap == [] && t != [] ==> EndsName(t[0])
    ensures var (c, rest) := ConsumeAfterName(name, t);
            Derives(lead + (name + (gap + t)), c, rest)
  {
    hide ConsumeValue, DropEquals, IsSpace, Stray, Spells;
    var jar := lead + (name + (gap + t));
    if t != [] && t[0] == EQUALS {
      ValueDerives(lead, name, gap, t);
    } else {
      var (c, rest) := ConsumeAfterName(name, t);
      assert t == [] ==> gap + t == gap;
      assert t != [] ==> t == [t[0]] + t[1..];
      assert Valueless(jar, c, rest, lead, name, gap);
    }
  }

  lemma {:induction false} TrimmedDerives(lead: Str, s: Str)
    requires IsBlank(lead) && (s != [] ==> !IsSpace(s[0]))
    ensures Derives(lead + s, ConsumeTrimmed(s).0, ConsumeTrimmed(s).1)
  {
    hide NameEnd, TrimPrefix, ConsumeAfterName, Derives, IsBlank, IsSpace;
    var n := NameEnd(s);
    if s == [] || (n == 0 && s[0] != EQUALS) {
      StrayDerives(lead, s);
    } else {
      NamedDerives(lead, s, n);
    }
  }

  lemma {:induction false} StrayDerives(lead: Str, s: Str)
    requires IsBlank(lead) && (s != [] ==> !IsSpace(s[0]) && NameEnd(s) == 0 && s[0] != EQUALS)
    ensures Derives(lead + s, ConsumeTrimmed(s).0, ConsumeTrimmed(s).1)
  {
    hide NameEnd, TrimPrefix, ConsumeAfterName, Valueless, Spells, IsBlank, IsSpace;
    assert s != [] ==> s == [s[0]] + s[1..];
    assert Stray(lead + s, ConsumeTrimmed(s).0, ConsumeTrimmed(s).1, lead);
  }

  lemma {:induction false} NamedDerives(lead: Str, s: Str, n: nat)
    requires IsBlank(lead) && s != [] && !IsSpace(s[0]) && n == NameEnd(s) && (n == 0 ==> s[0] == EQUALS)
    ensures Derives(lead + s, ConsumeTrimmed(s).0, ConsumeTrimmed(s).1)
  {
    hide NameEnd, TrimPrefix, ConsumeAfterName, Derives, IsSpace, EndsName;
    var name, u := s[..n], s[n..];
    var t := TrimPrefix(u);
    var gap := u[..|u| - |t|];
    assert s == name + (gap + t);
    if n == 0 {
      NothingBlank();
      TrimmedPrefix([], s);
      assert [] + s == s == u;
    }
    assert gap == [] && t != [] ==> t[0] == s[n];
    AfterNameDerives(lead, name, gap, t);
    if n == |s| {
      assert t == [] && name == s;
      NothingBehindName(name);
    }
  }

  /** The parser is the grammar: what one step returns and leaves is exactly what the grammar derives. */
  lemma {:induction false} ConsumedExactly(jar: Str, c: Option<Cookie>, rest: Str)
    ensures Consumed(jar) == (c, rest) <==> Derives(jar, c, rest)
  {
    hide TrimPrefix, ConsumeTrimmed, Stray, Valueless, Spells;
    var s := TrimPrefix(jar);
    assert jar == jar[..|jar| - |s|] + s;
    TrimmedDerives(jar[..|jar| - |s|], s);
    if lead: Str :| Stray(jar, c, rest, lead) {
      ConsumeStray(jar, c, rest, lead);
    } else if lead: Str, name: Str, gap: Str :| Valueless(jar, c, rest, lead, name, gap) {
      ConsumeValueless(jar, c, rest, lead, name, gap);
    } else if l: Layout, tail: Str :| Spells(jar, c, rest, l, tail) {
      ConsumeSpelled(jar, c, rest, l, tail);
    }
  }

  lemma {:induction false} ConsumeSpelled(jar: Str, c: Option<Cookie>, rest: Str, l: Layout, tail: Str)
    requires Spells(jar, c, rest, l, tail)
    ensures Consumed(jar) == (c, rest)
  {
    hide Consumed, WellFormed, Fits, Closes, Spelled, AfterSeparator;
    ConsumePair(c.value, l, tail);
  }

  // ----- whole headers -----

  lemma {:induction false} ConsumeSkipsSpaces(blanks: Str, s: Str)
    requires IsBlank(blanks)
    ensures Consumed(blanks + s) == Consumed(s)
    ensures ParseAll(blanks + s) == ParseAll(s)
  {
    hide ConsumeTrimmed, IsSpace, TrimPrefix;
    var r := TrimPrefix(s);
    var cut := s[..|s| - |r|];
    assert blanks + s == (blanks + cut) + r;
    TrimmedPrefix(blanks + cut, r);
  }

  /** A jar printed with any layout of each pair. */
  function Printed(cs: seq<Cookie>, ls: seq<Layout>): Str
    requires |ls| == |cs|
  {
    if cs == [] then []
    else if |cs| == 1 then Spelled(cs[0], ls[0])
    else Spelled(cs[0], ls[0]) + [SEMICOLON] + Printed(cs[1..], ls[1..])
  }

  ghost predicate Printable(cs: seq<Cookie>, ls: seq<Layout>) {
    |ls| == |cs| && forall i :: 0 <= i < |cs| ==> WellFormed(cs[i]) && Fits(ls[i], cs[i].value)
  }

  /** One printed pair is one step of the consuming loop. */
  lemma {:induction false} ParsePair(c: Cookie, l: Layout, tail: Str)
    requires WellFormed(c) && Fits(l, c.value) && Closes(tail, c.value)
    ensures ParseAll(Spelled(c, l) + tail) == [c] + ParseAll(AfterSeparator(tail))
  {
    hide WellFormed, Fits, Closes, Spelled, Consumed;
    ConsumePair(c, l, tail);
  }

  lemma {:induction false} ParseNothing()
    ensures ParseAll([]) == []
  {
  }

  lemma {:induction false} TailPrintable(cs: seq<Cookie>, ls: seq<Layout>)
    requires cs != [] && Printable(cs, ls)
    ensures WellFormed(cs[0]) && Fits(ls[0], cs[0].value) && Printable(cs[1..], ls[1..])
  {
    hide WellFormed, Fits;
  }

  /** Printer and parser undo each other on every list of well-formed cookies in every layout. */
  lemma {:induction false} PrintParse(cs: seq<Cookie>, ls: seq<Layout>)
    requires Printable(cs, ls)
    ensures ParseAll(Printed(cs, ls)) == cs
  {
    hide WellFormed, Fits, Spelled, ParseAll;
    if cs == [] {
      ParseNothing();
    } else {
      TailPrintable(cs, ls);
      PrintParse(cs[1..], ls[1..]);
      var tail := if |cs| == 1 then [] else [SEMICOLON] + Printed(cs[1..], ls[1..]);
      ParsePair(cs[0], ls[0], tail);
      assert Printed(cs, ls) == Spelled(cs[0], ls[0]) + tail;
      assert AfterSeparator(tail) == Printed(cs[1..], ls[1..]);
    }
  }

  /** Well-formed cookies in front of any other text are read off one by one, whatever the text is. */
  lemma {:induction false} ParsePrefix(cs: seq<Cookie>, ls: seq<Layout>, rest: Str)
    requires cs != [] && Printable(cs, ls)
    ensures ParseAll(Printed(cs, ls) + [SEMICOLON] + rest) == cs + ParseAll(rest)
  {
    hide WellFormed, Fits, Spelled, ParseAll;
    TailPrintable(cs, ls);
    var after := if |cs| == 1 then rest else Printed(cs[1..], ls[1..]) + [SEMICOLON] + rest;
    ParsePair(cs[0], ls[0], [SEMICOLON] + after);
    if |cs| > 1 {
      ParsePrefix(cs[1..], ls[1..], rest);
    }
    assert Printed(cs, ls) + [SEMICOLON] + rest == Spelled(cs[0], ls[0]) + ([SEMICOLON] + after);
    hide Printed;
    assert AfterSeparator([SEMICOLON] + after) == after;
    assert cs + ParseAll(rest) == [cs[0]] + (cs[1..] + ParseAll(rest));
  }
}
