/**
 * The proof of work: the server counts zero bits of a digest byte by byte (`check_sha`),
 * the page counts them over the lowercase hexadecimal text (`has_expected_zeros`).
 */
module ZeroCount {
  import opened Bytes

  /** Length of the run of zeros in front of a bit string. */
  function LeadingZeros(bits: seq<bool>): (n: nat)
    ensures n <= |bits|
    ensures n < |bits| ==> bits[n]
    ensures forall k :: 0 <= k < n ==> !bits[k]
  {
    if bits == [] || bits[0] then 0 else 1 + LeadingZeros(bits[1..])
  }

  /** The bits of a nibble, least significant first. */
  function NibbleBits(v: bv8): (r: seq<bool>)
    ensures |r| == 4
  {
    [v & 1 != 0, v & 2 != 0, v & 4 != 0, v & 8 != 0]
  }

  /** The bit string the proof of work is about: per byte the high nibble, then the low one. */
  function DigestBits(digest: Str): (r: seq<bool>)
    ensures |r| == 8 * |digest|
  {
    if digest == [] then []
    else NibbleBits(digest[0] >> 4) + NibbleBits(digest[0] & 15) + DigestBits(digest[1..])
  }

  // ----- hexadecimal text -----

  function HexChar(v: bv8): bv8
    requires v < 16
  {
    if v < 10 then v + 48 else v + 87
  }

  /** The lowercase hexadecimal form that the page's hash library returns. */
  function Hex(digest: Str): (r: Str)
    ensures |r| == 2 * |digest|
  {
    if digest == [] then []
    else [HexChar(digest[0] >> 4), HexChar(digest[0] & 15)] + Hex(digest[1..])
  }

  /** `'0123456789abcdef'.indexOf(c)`; the -1 for any other character has all bits set. */
  function HexIndex(c: bv8): bv8 {
    if 48 <= c && c <= 57 then c - 48
    else if 97 <= c && c <= 102 then c - 87
    else 255
  }

  function HexBits(nibbles: Str): (r: seq<bool>)
    ensures |r| == 4 * |nibbles|
  {
    if nibbles == [] then [] else NibbleBits(HexIndex(nibbles[0])) + HexBits(nibbles[1..])
  }

  lemma {:induction false} HexRoundTrip(v: bv8)
    requires v < 16
    ensures HexIndex(HexChar(v)) == v
  {
  }

  /** Both sides look at the same bits, for digests of every length. */
  lemma {:induction false} SameBits(digest: Str)
    ensures HexBits(Hex(digest)) == DigestBits(digest)
  {
    hide NibbleBits, HexChar, HexIndex;
    if digest != [] {
      var h := digest[0];
      HexRoundTrip(h >> 4);
      HexRoundTrip(h & 15);
      SameBits(digest[1..]);
      var t := Hex(digest);
      assert t[1..] == [HexChar(h & 15)] + Hex(digest[1..]);
      assert t[1..][1..] == Hex(digest[1..]);
    }
  }

  // ----- the two loops -----

  lemma {:induction false} LeadingZerosExact(bits: seq<bool>, n: nat)
    requires n <= |bits| && (n < |bits| ==> bits[n]) && forall k :: 0 <= k < n ==> !bits[k]
    ensures LeadingZeros(bits) == n
  {
  }

  lemma {:induction false} DigestBitAt(digest: Str, i: nat)
    requires i < |digest|
    ensures DigestBits(digest)[8 * i..8 * i + 8] == NibbleBits(digest[i] >> 4) + NibbleBits(digest[i] & 15)
  {
    hide NibbleBits;
    if i > 0 {
      DigestBitAt(digest[1..], i - 1);
      var head := NibbleBits(digest[0] >> 4) + NibbleBits(digest[0] & 15);
      assert DigestBits(digest) == head + DigestBits(digest[1..]);
      assert (head + DigestBits(digest[1..]))[8 * i..8 * i + 8] == DigestBits(digest[1..])[8 * (i - 1)..8 * (i - 1) + 8];
    }
  }

  lemma {:induction false} HexBitAt(nibbles: Str, i: nat)
    requires i < |nibbles|
    ensures HexBits(nibbles)[4 * i..4 * i + 4] == NibbleBits(HexIndex(nibbles[i]))
  {
    hide NibbleBits, HexIndex;
    if i > 0 {
      HexBitAt(nibbles[1..], i - 1);
      var head := NibbleBits(HexIndex(nibbles[0]));
      assert HexBits(nibbles) == head + HexBits(nibbles[1..]);
      assert (head + HexBits(nibbles[1..]))[4 * i..4 * i + 4] == HexBits(nibbles[1..])[4 * (i - 1)..4 * (i - 1) + 4];
    }
  }

  /** The eight bits of a byte in the order of the server's masks. */
  function MaskBits(h: bv8): (r: seq<bool>)
    ensures |r| == 8
  {
    [h & 16 != 0, h & 32 != 0, h & 64 != 0, h & 128 != 0, h & 1 != 0, h & 2 != 0, h & 4 != 0, h & 8 != 0]
  }

  lemma {:induction false} Masks(h: bv8)
    ensures NibbleBits(h >> 4) + NibbleBits(h & 15) == MaskBits(h)
  {
  }

  /** The counting loop of `check_sha`. */
  method CountZeros(digest: Str) returns (count: nat)
    ensures count == LeadingZeros(DigestBits(digest))
  {
    hide MaskBits, NibbleBits;
    ghost var bits := DigestBits(digest);
    count := 0;
    for i := 0 to |digest|
      invariant count == 8 * i && forall k :: 0 <= k < count ==> !bits[k]
    {
      DigestBitAt(digest, i);
      Masks(digest[i]);
      assert forall k :: 8 * i <= k < 8 * i + 8 ==> bits[k] == bits[8 * i..8 * i + 8][k - 8 * i];
      var more := CountByte(digest[i]);
      count := count + more;
      if more < 8 {
        LeadingZerosExact(bits, count);
        return;
      }
    }
    LeadingZerosExact(bits, count);
  }

  /** One pass of the loop body: eight mask tests, leaving at the first set bit. */
  method CountByte(h: bv8) returns (count: nat)
    ensures count <= 8 && forall k :: 0 <= k < count ==> !MaskBits(h)[k]
    ensures count < 8 ==> MaskBits(h)[count]
  {
    if h & 16 != 0 { return 0; }
    if h & 32 != 0 { return 1; }
    if h & 64 != 0 { return 2; }
    if h & 128 != 0 { return 3; }
    if h & 1 != 0 { return 4; }
    if h & 2 != 0 { return 5; }
    if h & 4 != 0 { return 6; }
    if h & 8 != 0 { return 7; }
    return 8;
  }

  /** `has_expected_zeros` of the solver page. */
  method HasExpectedZeros(nibbles: Str, zeroCount: nat) returns (ok: bool)
    ensures ok <==> LeadingZeros(HexBits(nibbles)) >= zeroCount
  {
    ghost var bits := HexBits(nibbles);
    var c := 0;
    for i := 0 to |nibbles|
      invariant c == 4 * i && forall k :: 0 <= k < c ==> !bits[k]
    {
      var dec := HexIndex(nibbles[i]);
      HexBitAt(nibbles, i);
      ghost var m := bits[4 * i..4 * i + 4];
      assert forall k :: 0 <= k < 4 ==> m[k] == bits[4 * i + k];
      if dec & 1 == 0 { assert !m[0]; c := c + 1; } else { assert m[0]; break; }
      if dec & 2 == 0 { assert !m[1]; c := c + 1; } else { assert m[1]; break; }
      if dec & 4 == 0 { assert !m[2]; c := c + 1; } else { assert m[2]; break; }
      if dec & 8 == 0 { assert !m[3]; c := c + 1; } else { assert m[3]; break; }
    }
    LeadingZerosExact(bits, c);
    ok := c >= zeroCount;
  }

  /** A hash the page takes for solved is one the server takes for solved, at every difficulty, and conversely. */
  lemma {:induction false} PageAndServerAgree(digest: Str, difficulty: nat)
    ensures LeadingZeros(HexBits(Hex(digest))) >= difficulty <==> LeadingZeros(DigestBits(digest)) >= difficulty
  {
    SameBits(digest);
  }
}
