/** src/base64.cpp: the 32-bit bit accumulator behind `Base64::Encode` and `Base64::Decode`. */
module Base64 {
  import opened Bytes

  // ----- the two lookup tables -----

  /** b64_table: A-Z, a-z, 0-9, '+', '/'. */
  function Symbol(v: bv8): (c: bv8)
    requires v < 64
    ensures !Skipped(c) && c < 128
    ensures Sextet(c) == v
  {
    if v < 26 then v + 65
    else if v < 52 then v + 71
    else if v < 62 then v - 4
    else if v == 62 then 43
    else 47
  }

  /** reverse_table, with 64 for every byte outside the alphabet (bytes above 127 are negative chars). */
  function Sextet(c: bv8): (v: bv8)
    ensures v <= 64
  {
    if 65 <= c && c <= 90 then c - 65
    else if 97 <= c && c <= 122 then c - 71
    else if 48 <= c && c <= 57 then c + 4
    else if c == 43 then 62
    else if c == 47 then 63
    else 64
  }

  /** The characters `Decode` steps over. */
  predicate Skipped(c: bv8) {
    IsSpace(c) || c == EQUALS
  }

  predicate Legal(c: bv8) {
    Skipped(c) || Sextet(c) < 64
  }

  // ----- section 4 of RFC 4648 -----

  /** Three octets read as one 24-bit group. */
  function Group(x: bv8, y: bv8, z: bv8): bv24 {
    (x as bv24 << 16) | (y as bv24 << 8) | (z as bv24)
  }

  /** The k-th of the four 6-bit numbers of a 24-bit group. */
  function SextetOf(g: bv24, k: nat): (v: bv8)
    requires k < 4
    ensures v < 64
  {
    if k == 0 then (g >> 18) as bv8
    else if k == 1 then ((g >> 12) & 63) as bv8
    else if k == 2 then ((g >> 6) & 63) as bv8
    else (g & 63) as bv8
  }

  /** RFC 4648: groups of three octets become four symbols; a short last group is zero-filled and padded. */
  function Encoded(b: Str): (s: Str)
    ensures |s| == (|b| + 2) / 3 * 4
  {
    if |b| == 0 then []
    else if |b| == 1 then
      var g := Group(b[0], 0, 0);
      [Symbol(SextetOf(g, 0)), Symbol(SextetOf(g, 1)), EQUALS, EQUALS]
    else if |b| == 2 then
      var g := Group(b[0], b[1], 0);
      [Symbol(SextetOf(g, 0)), Symbol(SextetOf(g, 1)), Symbol(SextetOf(g, 2)), EQUALS]
    else
      var g := Group(b[0], b[1], b[2]);
      [Symbol(SextetOf(g, 0)), Symbol(SextetOf(g, 1)), Symbol(SextetOf(g, 2)), Symbol(SextetOf(g, 3))]
      + Encoded(b[3..])
  }

  /** The octet at index `i`, or the zero fill behind the end. */
  function OctetAt(b: Str, i: nat): bv8 {
    if i < |b| then b[i] else 0
  }

  /** The k-th 6-bit number of the zero-filled input. */
  function SextetAt(b: Str, k: nat): (v: bv8)
    ensures v < 64
  {
    var i := k / 4 * 3;
    SextetOf(Group(OctetAt(b, i), OctetAt(b, i + 1), OctetAt(b, i + 2)), k % 4)
  }

  /** How many symbols carry data; the rest of the output is padding. */
  function SymbolCount(n: nat): nat {
    (8 * n + 5) / 6
  }

  lemma {:induction false} SextetAtGroup(b: Str, q: nat, r: nat)
    requires r < 4
    ensures SextetAt(b, 4 * q + r)
         == SextetOf(Group(OctetAt(b, 3 * q), OctetAt(b, 3 * q + 1), OctetAt(b, 3 * q + 2)), r)
  {
    assert (4 * q + r) / 4 == q && (4 * q + r) % 4 == r;
  }

  lemma {:induction false} EncodedAt(b: Str, k: nat)
    requires k < |Encoded(b)|
    ensures SymbolCount(|b|) <= |Encoded(b)|
    ensures Encoded(b)[k] == if k < SymbolCount(|b|) then Symbol(SextetAt(b, k)) else EQUALS
  {
    hide Symbol, SextetOf, Group, SextetAt;
    if k >= 4 {
      EncodedAt(b[3..], k - 4);
      SextetAtNextGroup(b, k);
    } else {
      EncodedHead(b, k);
    }
  }

  lemma {:induction false} EncodedHead(b: Str, k: nat)
    requires k < |Encoded(b)| && k < 4
    ensures Encoded(b)[k] == if k < SymbolCount(|b|) then Symbol(SextetAt(b, k)) else EQUALS
  {
    hide Symbol, SextetOf, Group, SextetAt;
    SextetAtGroup(b, 0, k);
    if |b| >= 3 {
      FullHead(b, k);
    } else {
      ShortHead(b, k);
    }
  }

  lemma {:induction false} FullHead(b: Str, k: nat)
    requires |b| >= 3 && k < 4
    ensures Encoded(b)[k] == Symbol(SextetOf(Group(b[0], b[1], b[2]), k)) && SymbolCount(|b|) >= 4
  {
    hide Symbol, SextetOf, Group;
  }

  lemma {:induction false} ShortHead(b: Str, k: nat)
    requires 1 <= |b| <= 2 && k < 4
    ensures SymbolCount(|b|) == |b| + 1
    ensures Encoded(b)[k] == if k <= |b| then Symbol(SextetOf(Group(b[0], OctetAt(b, 1), 0), k)) else EQUALS
  {
    hide Symbol, SextetOf, Group;
  }

  lemma {:induction false} SextetAtNextGroup(b: Str, k: nat)
    requires |b| >= 3 && k >= 4
    ensures SextetAt(b, k) == SextetAt(b[3..], k - 4)
  {
    hide SextetOf, Group;
  }

  // ----- Encode -----

  /** The low bits the accumulator still owes the output after `i` octets. */
  ghost predicate Owes(acc: bv32, b: Str, i: nat)
    requires i <= |b|
  {
    && (i % 3 == 1 ==> acc & 3 == (b[i - 1] & 3) as bv32)
    && (i % 3 == 2 ==> acc & 15 == (b[i - 1] & 15) as bv32)
  }

  function Shifted(acc: bv32, octet: bv8): bv32 {
    (acc << 8) | (octet as bv32)
  }

  lemma {:induction false} OwesNext(acc: bv32, b: Str, i: nat)
    requires i < |b|
    ensures Owes(Shifted(acc, b[i]), b, i + 1)
  {
  }

  /** The six bits above the lowest `bits`. */
  function Pick(acc: bv32, bits: nat): (v: bv8)
    requires bits <= 6
    ensures v < 64
  {
    ((acc >> bits) & 63) as bv8
  }

  /** The accumulator after the final `<<=`. */
  function Flushed(acc: bv32, bits: nat): (v: bv8)
    requires bits <= 6
    ensures v < 64
  {
    ((acc << bits) & 63) as bv8
  }

  lemma {:induction false} PickFirst(acc: bv32, x: bv8, y: bv8, z: bv8)
    ensures Pick(Shifted(acc, x), 2) == SextetOf(Group(x, y, z), 0)
  {
  }

  lemma {:induction false} PickSecond(acc: bv32, x: bv8, y: bv8, z: bv8)
    requires acc & 3 == (x & 3) as bv32
    ensures Pick(Shifted(acc, y), 4) == SextetOf(Group(x, y, z), 1)
    ensures Flushed(acc, 4) == SextetOf(Group(x, 0, 0), 1)
  {
  }

  lemma {:induction false} PickLast(acc: bv32, x: bv8, y: bv8, z: bv8)
    requires acc & 15 == (y & 15) as bv32
    ensures Pick(Shifted(acc, z), 6) == SextetOf(Group(x, y, z), 2)
    ensures Pick(Shifted(acc, z), 0) == SextetOf(Group(x, y, z), 3)
    ensures Flushed(acc, 2) == SextetOf(Group(x, y, 0), 2)
  {
  }

  lemma {:induction false} NextSextet(acc: bv32, b: Str, i: nat, out: nat, bits: int)
    requires i < |b| && Owes(acc, b, i)
    requires 0 <= bits <= 6 && 6 * out + bits + 6 == 8 * (i + 1)
    ensures Pick(Shifted(acc, b[i]), bits) == SextetAt(b, out)
  {
    hide SextetOf, Group, Pick, Shifted;
    var g := i / 3;
    if i % 3 == 0 {
      assert bits == 2 && out == 4 * g && i == 3 * g;
      PickFirst(acc, b[i], OctetAt(b, i + 1), OctetAt(b, i + 2));
    } else if i % 3 == 1 {
      assert bits == 4 && out == 4 * g + 1 && i == 3 * g + 1;
      PickSecond(acc, b[i - 1], b[i], OctetAt(b, i + 1));
    } else {
      assert i == 3 * g + 2 && if bits == 6 then out == 4 * g + 2 else bits == 0 && out == 4 * g + 3;
      PickLast(acc, b[i - 2], b[i - 1], b[i]);
    }
  }

  lemma {:induction false} LastSextet(acc: bv32, b: Str, out: nat, bits: int)
    requires Owes(acc, b, |b|)
    requires 0 < bits < 6 && 6 * out + bits == 8 * |b|
    ensures Flushed(acc, 6 - bits) == SextetAt(b, out)
  {
    hide SextetOf, Group, Flushed;
    var g := |b| / 3;
    if |b| % 3 == 1 {
      assert bits == 2 && out == 4 * g + 1 && |b| == 3 * g + 1;
      PickSecond(acc, b[|b| - 1], 0, 0);
    } else {
      assert |b| == 3 * g + 2 && bits == 4 && out == 4 * g + 2;
      PickLast(acc, b[|b| - 2], b[|b| - 1], 0);
    }
  }

  /** The output buffer after `out` symbols: data in front, padding behind. */
  ghost predicate Filled(s: Str, b: Str, out: nat) {
    && |s| == (|b| + 2) / 3 * 4
    && (forall k :: 0 <= k < |s| ==> s[k] == if k < out then Symbol(SextetAt(b, k)) else EQUALS)
  }

  lemma {:induction false} FilledNext(s: Str, b: Str, out: nat)
    requires Filled(s, b, out) && out < |s|
    ensures Filled(s[out := Symbol(SextetAt(b, out))], b, out + 1)
  {
    hide Symbol, SextetAt;
  }

  lemma {:induction false} FilledAll(s: Str, b: Str)
    requires Filled(s, b, SymbolCount(|b|))
    ensures s == Encoded(b)
  {
    hide Symbol, SextetAt;
    forall k | 0 <= k < |s| ensures s[k] == Encoded(b)[k] {
      EncodedAt(b, k);
    }
  }

  method Encode(bindata: Str) returns (retval: Str)
    ensures retval == Encoded(bindata)
  {
    var n := |bindata|;
    var buffer := new bv8[(n + 2) / 3 * 4](_ => EQUALS);
    assert Owes(0, bindata, 0) && Filled(buffer[..], bindata, 0);
    hide Symbol, SextetAt, Owes, Shifted, Pick, Flushed, Filled;
    var outpos, bits := 0, 0;
    var acc: bv32 := 0;
    for i := 0 to n
      invariant 6 * outpos + bits == 8 * i && 0 <= bits < 6
      invariant Owes(acc, bindata, i) && Filled(buffer[..], bindata, outpos)
    {
      ghost var before := acc;
      acc := Shifted(acc, bindata[i]);
      OwesNext(before, bindata, i);
      bits := bits + 8;
      while bits >= 6
        invariant 0 <= bits && 6 * outpos + bits == 8 * (i + 1)
        invariant Filled(buffer[..], bindata, outpos)
      {
        bits := bits - 6;
        NextSextet(before, bindata, i, outpos, bits);
        FilledNext(buffer[..], bindata, outpos);
        buffer[outpos] := Symbol(Pick(acc, bits));
        outpos := outpos + 1;
      }
    }
    if bits > 0 {
      LastSextet(acc, bindata, outpos, bits);
      FilledNext(buffer[..], bindata, outpos);
      buffer[outpos] := Symbol(Flushed(acc, 6 - bits));
      outpos := outpos + 1;
    }
    retval := buffer[..];
    FilledAll(retval, bindata);
  }

  // ----- Decode -----

  /** The 6-bit numbers a text spells out, or None when it holds an illegal character. */
  function Sextets(s: Str): (r: Option<Str>)
    ensures r.Some? <==> forall c :: c in s ==> Legal(c)
    ensures r.Some? ==> forall v :: v in r.value ==> v < 64
  {
    if s == [] then Some([])
    else if Skipped(s[0]) then Sextets(s[1..])
    else if Sextet(s[0]) > 63 then assert s[0] in s; None
    else
      var rest := Sextets(s[1..]);
      if rest.None? then None else Some([Sextet(s[0])] + rest.value)
  }

  /** Octet `j` of a list of 6-bit numbers laid end to end. */
  function OctetOf(v: Str, j: nat): bv8
    requires 8 * (j + 1) <= 6 * |v|
  {
    var g := j / 3 * 4;
    if j % 3 == 0 then Spliced(v[g], v[g + 1], 0)
    else if j % 3 == 1 then Spliced(v[g + 1], v[g + 2], 1)
    else Spliced(v[g + 2], v[g + 3], 2)
  }

  /** The octet that begins in one 6-bit number and ends in the next, by its place among the three of a group. */
  function Spliced(a: bv8, b: bv8, place: nat): bv8
    requires place < 3
  {
    if place == 0 then (a << 2) | (b >> 4)
    else if place == 1 then (a << 4) | (b >> 2)
    else (a << 6) | b
  }

  /** All whole octets; up to six left-over bits are dropped. */
  function Octets(v: Str): (b: Str)
    ensures |b| == 6 * |v| / 8
  {
    seq(6 * |v| / 8, j requires 0 <= j < 6 * |v| / 8 => OctetOf(v, j))
  }

  /** The meaning of `Base64::Decode`; None is the thrown `invalid_argument`. */
  function Decoded(s: Str): (r: Option<Str>)
    ensures r.Some? <==> forall c :: c in s ==> Legal(c)
  {
    var v := Sextets(s);
    if v.None? then None else Some(Octets(v.value))
  }

  /** The low bits the accumulator still owes the output after all of `v`. */
  ghost predicate OwesOctet(acc: bv32, v: Str) {
    && (|v| % 4 == 1 ==> acc & 63 == v[|v| - 1] as bv32)
    && (|v| % 4 == 2 ==> acc & 15 == (v[|v| - 1] & 15) as bv32)
    && (|v| % 4 == 3 ==> acc & 3 == (v[|v| - 1] & 3) as bv32)
  }

  function Shifted6(acc: bv32, sextet: bv8): bv32 {
    (acc << 6) | (sextet as bv32)
  }

  /** The eight bits above the lowest `bits`. */
  function Octet(acc: bv32, bits: nat): bv8
    requires bits < 8
  {
    ((acc >> bits) & 255) as bv8
  }

  lemma {:induction false} OwesOctetNext(acc: bv32, v: Str, x: bv8)
    requires x < 64
    ensures OwesOctet(Shifted6(acc, x), v + [x])
  {
    assert (v + [x])[|v|] == x;
  }

  /** With so many numbers read, the accumulator owes the octet that the next one completes. */
  lemma {:induction false} OwedAfterOne(acc: bv32, v: Str, x: bv8)
    requires |v| % 4 == 1 && OwesOctet(acc, v) && v[|v| - 1] < 64 && x < 64
    ensures Octet(Shifted6(acc, x), 4) == Spliced(v[|v| - 1], x, 0)
  {
  }

  lemma {:induction false} OwedAfterTwo(acc: bv32, v: Str, x: bv8)
    requires |v| % 4 == 2 && OwesOctet(acc, v) && v[|v| - 1] < 64 && x < 64
    ensures Octet(Shifted6(acc, x), 2) == Spliced(v[|v| - 1], x, 1)
  {
  }

  lemma {:induction false} OwedAfterThree(acc: bv32, v: Str, x: bv8)
    requires |v| % 4 == 3 && OwesOctet(acc, v) && v[|v| - 1] < 64 && x < 64
    ensures Octet(Shifted6(acc, x), 0) == Spliced(v[|v| - 1], x, 2)
  {
  }

  lemma {:induction false} NextOctet(acc: bv32, v: Str, x: bv8, bits: int, out: nat)
    requires OwesOctet(acc, v) && x < 64 && forall y :: y in v ==> y < 64
    requires 0 <= bits < 6 && 8 * (out + 1) + bits == 6 * (|v| + 1)
    ensures Octet(Shifted6(acc, x), bits) == OctetOf(v + [x], out)
  {
    hide Octet, Shifted6, Spliced, OwesOctet;
    var w := v + [x];
    var g := out / 3 * 4;
    var last := v[|v| - 1];
    assert last in v;
    if |v| % 4 == 1 {
      assert bits == 4 && out % 3 == 0 && |v| == g + 1;
      assert w[g] == last && w[g + 1] == x;
      OwedAfterOne(acc, v, x);
    } else if |v| % 4 == 2 {
      assert bits == 2 && out % 3 == 1 && |v| == g + 2;
      assert w[g + 1] == last && w[g + 2] == x;
      OwedAfterTwo(acc, v, x);
    } else {
      assert bits == 0 && out % 3 == 2 && |v| == g + 3;
      assert w[g + 2] == last && w[g + 3] == x;
      OwedAfterThree(acc, v, x);
    }
  }

  lemma {:induction false} SextetsSnoc(s: Str, c: bv8)
    ensures Sextets(s).None? ==> Sextets(s + [c]).None?
    ensures Sextets(s).Some? && Skipped(c) ==> Sextets(s + [c]) == Sextets(s)
    ensures Sextets(s).Some? && !Skipped(c) && Sextet(c) > 63 ==> Sextets(s + [c]).None?
    ensures Sextets(s).Some? && !Skipped(c) && Sextet(c) <= 63
            ==> Sextets(s + [c]) == Some(Sextets(s).value + [Sextet(c)])
  {
    hide Sextet, Skipped;
    if s == [] {
      assert s + [c] == [c] && [c][1..] == [] && Sextets([]) == Some([]);
      assert [Sextet(c)] + [] == [] + [Sextet(c)];
    } else {
      SextetsSnoc(s[1..], c);
      assert (s + [c])[1..] == s[1..] + [c];
      if Sextets(s).Some? && !Skipped(c) && Sextet(c) <= 63 && !Skipped(s[0]) {
        var h, t := [Sextet(s[0])], Sextets(s[1..]).value;
        assert h + (t + [Sextet(c)]) == (h + t) + [Sextet(c)];
      }
    }
  }

  /** A prefix with an illegal character spoils the whole text. */
  lemma {:induction false} SextetsPrefix(s: Str, k: nat)
    requires k <= |s| && Sextets(s[..k]).None?
    ensures Sextets(s).None?
  {
    hide Legal;
    var c :| c in s[..k] && !Legal(c);
    assert c in s;
  }

  /** What `Decode` holds after reading the 6-bit numbers `v`. */
  ghost predicate Collected(acc: bv32, bits: int, retval: Str, v: Str) {
    && OwesOctet(acc, v)
    && 0 <= bits < 8 && 8 * |retval| + bits == 6 * |v|
    && (forall y :: y in v ==> y < 64)
    && retval == Octets(v)
  }

  lemma {:induction false} OctetsSnoc(v: Str, x: bv8)
    ensures Octets(v) <= Octets(v + [x])
  {
  }

  lemma {:induction false} CollectedNext(acc: bv32, bits: int, retval: Str, v: Str, x: bv8)
    requires Collected(acc, bits, retval, v) && x < 64
    ensures bits < 2 ==> Collected(Shifted6(acc, x), bits + 6, retval, v + [x])
    ensures bits >= 2 ==>
              Collected(Shifted6(acc, x), bits - 2, retval + [Octet(Shifted6(acc, x), bits - 2)], v + [x])
  {
    hide OwesOctet, Shifted6, OctetOf, Octet;
    OwesOctetNext(acc, v, x);
    OctetsSnoc(v, x);
    if bits >= 2 {
      NextOctet(acc, v, x, bits - 2, |retval|);
    }
  }

  method Decode(data: Str) returns (r: Option<Str>)
    ensures r == Decoded(data)
  {
    assert Collected(0, 0, [], []);
    hide Collected, Shifted6, Sextet, Skipped, Octet;
    var retval: Str := [];
    var bits := 0;
    var acc: bv32 := 0;
    ghost var v: Str := [];
    for i := 0 to |data|
      invariant 0 <= bits < 8
      invariant Sextets(data[..i]) == Some(v) && Collected(acc, bits, retval, v)
    {
      var c := data[i];
      SextetsSnoc(data[..i], c);
      assert data[..i] + [c] == data[..i + 1];
      if Skipped(c) {
        continue;
      }
      if Sextet(c) > 63 {
        SextetsPrefix(data, i + 1);
        return None;
      }
      CollectedNext(acc, bits, retval, v, Sextet(c));
      v := v + [Sextet(c)];
      acc := Shifted6(acc, Sextet(c));
      bits := bits + 6;
      if bits >= 8 {
        bits := bits - 8;
        retval := retval + [Octet(acc, bits)];
      }
    }
    CollectedOctets(acc, bits, retval, v);
    assert data[..|data|] == data;
    r := Some(retval);
  }

  lemma {:induction false} CollectedOctets(acc: bv32, bits: int, retval: Str, v: Str)
    requires Collected(acc, bits, retval, v)
    ensures retval == Octets(v)
  {
  }

  // ----- what the two promise together -----

  lemma {:induction false} SextetsConcat(s: Str, t: Str)
    requires Sextets(s).Some? && Sextets(t).Some?
    ensures Sextets(s + t) == Some(Sextets(s).value + Sextets(t).value)
  {
    hide Sextet, Skipped, Legal;
    if s == [] {
      assert s + t == t && [] + Sextets(t).value == Sextets(t).value;
    } else {
      assert (s + t)[1..] == s[1..] + t;
      SextetsConcat(s[1..], t);
      if !Skipped(s[0]) {
        var h, v, w := [Sextet(s[0])], Sextets(s[1..]).value, Sextets(t).value;
        assert h + (v + w) == (h + v) + w;
      }
    }
  }

  lemma {:induction false} SextetsOfSkipped(w: Str)
    requires forall c :: c in w ==> Skipped(c)
    ensures Sextets(w) == Some([])
  {
    if w != [] {
      assert w[0] in w;
      SextetsOfSkipped(w[1..]);
    }
  }

  lemma {:induction false} SextetsOfSymbols(v: Str, s: Str)
    requires |s| == |v|
    requires forall k :: 0 <= k < |v| ==> v[k] < 64 && s[k] == Symbol(v[k])
    ensures Sextets(s) == Some(v)
  {
    hide Symbol, Sextet, Skipped;
    if v != [] {
      SextetsOfSymbols(v[1..], s[1..]);
      assert v == [v[0]] + v[1..];
    }
  }

  lemma {:induction false} GroupOctets(x: bv8, y: bv8, z: bv8)
    ensures var g := Group(x, y, z);
            && (SextetOf(g, 0) << 2) | (SextetOf(g, 1) >> 4) == x
            && (SextetOf(g, 1) << 4) | (SextetOf(g, 2) >> 2) == y
            && (SextetOf(g, 2) << 6) | SextetOf(g, 3) == z
  {
  }

  /** All the 6-bit numbers of a byte string. */
  function SextetList(b: Str): (v: Str)
    ensures |v| == SymbolCount(|b|)
  {
    seq(SymbolCount(|b|), k requires 0 <= k < SymbolCount(|b|) => SextetAt(b, k))
  }

  lemma {:induction false} SextetsOfEncoded(b: Str)
    ensures Sextets(Encoded(b)) == Some(SextetList(b))
  {
    hide Symbol, Sextet, Skipped, Legal, SextetAt;
    var s, v := Encoded(b), SextetList(b);
    var m := |v|;
    forall k | 0 <= k < |s| ensures s[k] == if k < m then Symbol(SextetAt(b, k)) else EQUALS {
      EncodedAt(b, k);
    }
    PadIsSkipped();
    SextetsOfSymbols(v, s[..m]);
    SextetsOfSkipped(s[m..]);
    SextetsConcat(s[..m], s[m..]);
    assert s[..m] + s[m..] == s && v + [] == v;
  }

  lemma {:induction false} OctetOfSextets(b: Str, j: nat)
    requires j < |b|
    ensures OctetOf(SextetList(b), j) == b[j]
  {
    hide SextetOf, Group, SextetAt;
    var q, v := j / 3, SextetList(b);
    GroupOctets(OctetAt(b, 3 * q), OctetAt(b, 3 * q + 1), OctetAt(b, 3 * q + 2));
    SextetAtGroup(b, q, 0);
    SextetAtGroup(b, q, 1);
    SextetAtGroup(b, q, 2);
    SextetAtGroup(b, q, 3);
    if j % 3 == 0 {
      assert j == 3 * q && v[4 * q] == SextetAt(b, 4 * q + 0) && v[4 * q + 1] == SextetAt(b, 4 * q + 1);
    } else if j % 3 == 1 {
      assert j == 3 * q + 1 && v[4 * q + 1] == SextetAt(b, 4 * q + 1) && v[4 * q + 2] == SextetAt(b, 4 * q + 2);
    } else {
      assert j == 3 * q + 2 && v[4 * q + 2] == SextetAt(b, 4 * q + 2) && v[4 * q + 3] == SextetAt(b, 4 * q + 3);
    }
  }

  /** `Decode` inverts `Encode` on every byte string. */
  lemma {:induction false} RoundTrip(b: Str)
    ensures Decoded(Encoded(b)) == Some(b)
  {
    hide OctetOf, SextetAt, Encoded;
    SextetsOfEncoded(b);
    forall j | 0 <= j < |b| ensures OctetOf(SextetList(b), j) == b[j] {
      OctetOfSextets(b, j);
    }
    assert Octets(SextetList(b)) == b;
  }

  lemma {:induction false} PadIsSkipped()
    ensures Skipped(EQUALS)
  {
  }

  /** Whitespace and '=' may be inserted anywhere, any number of times, without changing the result. */
  lemma {:induction false} InsertionIgnored(s: Str, w: Str, i: nat)
    requires i <= |s| && forall c :: c in w ==> Skipped(c)
    ensures Decoded(s[..i] + w + s[i..]) == Decoded(s)
  {
    hide Sextet, Skipped, Octets;
    var t := s[..i] + w + s[i..];
    assert forall c :: c in s ==> c in t;
    assert s[..i] + s[i..] == s;
    if Sextets(s).Some? {
      SextetsOfSkipped(w);
      SextetsConcat(s[..i], s[i..]);
      SextetsConcat(s[..i], w);
      SextetsConcat(s[..i] + w, s[i..]);
      assert Sextets(s[..i]).value + [] == Sextets(s[..i]).value;
    }
  }

  /** Only the alphabet characters of an encoding matter: 4 characters in, 3 octets out, whatever follows. */
  lemma {:induction false} EncodedIsLegal(b: Str)
    ensures forall c :: c in Encoded(b) ==> Sextet(c) < 64 || c == EQUALS
    ensures |b| > 0 ==> Encoded(b)[0] != EQUALS
  {
    hide SextetOf;
    forall k | 0 <= k < |Encoded(b)|
      ensures Sextet(Encoded(b)[k]) < 64 || Encoded(b)[k] == EQUALS
      ensures k == 0 ==> Encoded(b)[k] != EQUALS
    {
      EncodedAt(b, k);
    }
  }

  // ----- what decoding keeps of any text -----

  lemma {:induction false} FirstSextet(a: bv8, b: bv8, y: bv8, z: bv8)
    requires a < 64 && b < 64
    ensures SextetOf(Group(Spliced(a, b, 0), y, z), 0) == a
  {
  }

  lemma {:induction false} SecondSextet(a: bv8, b: bv8, c: bv8, z: bv8)
    requires a < 64 && b < 64 && c < 64
    ensures SextetOf(Group(Spliced(a, b, 0), Spliced(b, c, 1), z), 1) == b
  {
  }

  lemma {:induction false} ThirdSextet(y: bv8, b: bv8, c: bv8, d: bv8)
    requires b < 64 && c < 64 && d < 64
    ensures SextetOf(Group(y, Spliced(b, c, 1), Spliced(c, d, 2)), 2) == c
  {
  }

  lemma {:induction false} FourthSextet(y: bv8, z: bv8, c: bv8, d: bv8)
    requires c < 64 && d < 64
    ensures SextetOf(Group(y, z, Spliced(c, d, 2)), 3) == d
  {
  }

  lemma {:induction false} OctetInGroup(v: Str, q: nat, r: nat)
    requires r < 3 && 8 * (3 * q + r + 1) <= 6 * |v|
    ensures 4 * q + r + 1 < |v| && 3 * q + r < |Octets(v)|
    ensures OctetAt(Octets(v), 3 * q + r) == Spliced(v[4 * q + r], v[4 * q + r + 1], r)
  {
    hide Spliced;
    assert (3 * q + r) / 3 == q && (3 * q + r) % 3 == r;
  }

  /**
   * Decoding any text keeps its 6-bit numbers: they are those of the decoded bytes, and at most six bits at the end,
   * which do not fill a byte, are lost.
   */
  lemma {:induction false} DecodingKeeps(s: Str, i: nat)
    requires Decoded(s).Some? && 6 * (i + 1) <= 8 * |Decoded(s).value|
    ensures var v := Sextets(s).value;
            |Decoded(s).value| == 6 * |v| / 8 && i < |v| && SextetAt(Decoded(s).value, i) == v[i]
  {
    hide Sextets, Spliced, Group, SextetOf, SextetAt, Octets, OctetAt;
    var v, d := Sextets(s).value, Decoded(s).value;
    var q, r := i / 4, i % 4;
    assert i == 4 * q + r;
    assert forall k :: 0 <= k < |v| ==> v[k] in v;
    SextetAtGroup(d, q, r);
    var x, y, z := OctetAt(d, 3 * q), OctetAt(d, 3 * q + 1), OctetAt(d, 3 * q + 2);
    if r == 0 {
      OctetInGroup(v, q, 0);
      FirstSextet(v[4 * q], v[4 * q + 1], y, z);
    } else if r == 1 {
      OctetInGroup(v, q, 0);
      OctetInGroup(v, q, 1);
      SecondSextet(v[4 * q], v[4 * q + 1], v[4 * q + 2], z);
    } else if r == 2 {
      OctetInGroup(v, q, 1);
      OctetInGroup(v, q, 2);
      ThirdSextet(x, v[4 * q + 1], v[4 * q + 2], v[4 * q + 3]);
    } else {
      OctetInGroup(v, q, 2);
      FourthSextet(x, y, v[4 * q + 2], v[4 * q + 3]);
    }
  }
}
