/** Byte strings as the C++ code sees them: a `std::string` is a sequence of 8-bit values. */
module Bytes {

  type Str = seq<bv8>

  datatype Option<+T> = None | Some(value: T)

  const NUL: bv8 := 0
  const CR: bv8 := 13
  const LF: bv8 := 10
  const SPACE: bv8 := 32
  const SEMICOLON: bv8 := 59
  const EQUALS: bv8 := 61
  const QUESTION: bv8 := 63
  const SLASH: bv8 := 47

  function Power2(n: nat): (p: nat)
    ensures p >= 1
  {
    if n == 0 then 1 else 2 * Power2(n - 1)
  }

  /** `isspace` of the C locale: space, \t, \n, \v, \f and \r. */
  predicate IsSpace(c: bv8) {
    c == 32 || (9 <= c && c <= 13)
  }

  /** What a callee that uses `strlen` sees of a string: everything before the first NUL. */
  function CStr(s: Str): (r: Str)
    ensures NUL !in r && r <= s
    ensures r == s || s[|r|] == NUL
    ensures NUL !in s ==> r == s
  {
    if s == [] || s[0] == NUL then [] else [s[0]] + CStr(s[1..])
  }

  /** `needle` occurs in `s` at position `i`. */
  predicate OccursAt(s: Str, needle: Str, i: int) {
    0 <= i && i + |needle| <= |s| && s[i..i + |needle|] == needle
  }

  ghost predicate Occurs(s: Str, needle: Str) {
    exists i :: OccursAt(s, needle, i)
  }

  // Numbers and bytes, converted hexadecimal digit by hexadecimal digit.

  function Digit(k: nat): (d: bv8)
    requires k < 16
    ensures d < 16
  {
    [0, 1, 2, 3, 4, 5, 6, 7, 8, 9, 10, 11, 12, 13, 14, 15][k]
  }

  function DigitValue(d: bv8): (k: nat)
    requires d < 16
    ensures k < 16 && Digit(k) == d
  {
    if d < 8 then
      if d == 0 then 0 else if d == 1 then 1 else if d == 2 then 2 else if d == 3 then 3
      else if d == 4 then 4 else if d == 5 then 5 else if d == 6 then 6 else 7
    else
      if d == 8 then 8 else if d == 9 then 9 else if d == 10 then 10 else if d == 11 then 11
      else if d == 12 then 12 else if d == 13 then 13 else if d == 14 then 14 else 15
  }

  function ByteOf(n: nat): bv8
    requires n < 256
  {
    (Digit(n / 16) << 4) | Digit(n % 16)
  }

  function ValueOf(b: bv8): (n: nat)
    ensures n < 256
  {
    16 * DigitValue(b >> 4) + DigitValue(b & 15)
  }

  lemma {:induction false} DigitRoundTrip(k: nat)
    requires k < 16
    ensures DigitValue(Digit(k)) == k
  {
  }

  lemma {:induction false} DigitsOfByte(h: bv8, l: bv8)
    requires h < 16 && l < 16
    ensures ((h << 4) | l) >> 4 == h && ((h << 4) | l) & 15 == l
  {
  }

  lemma {:induction false} ByteRoundTrip(n: nat)
    requires n < 256
    ensures ValueOf(ByteOf(n)) == n
  {
    hide Digit, DigitValue;
    DigitsOfByte(Digit(n / 16), Digit(n % 16));
    DigitRoundTrip(n / 16);
    DigitRoundTrip(n % 16);
  }

  lemma {:induction false} ByteOfDigits(b: bv8)
    ensures ((b >> 4) << 4) | (b & 15) == b && b >> 4 < 16 && b & 15 < 16
  {
  }

  lemma {:induction false} ValueRoundTrip(b: bv8)
    ensures ByteOf(ValueOf(b)) == b
  {
    ByteOfDigits(b);
    hide Digit, DigitValue;
    assert (16 * DigitValue(b >> 4) + DigitValue(b & 15)) / 16 == DigitValue(b >> 4);
  }

  /** `s.find(c)`: the first position of a byte. */
  function Find(s: Str, c: bv8): (r: Option<nat>)
    ensures r.None? <==> c !in s
    ensures r.Some? ==> r.value < |s| && s[r.value] == c && c !in s[..r.value]
  {
    if s == [] then None
    else if s[0] == c then Some(0)
    else
      match Find(s[1..], c)
      case None => None
      case Some(i) => assert s[..i + 1] == [s[0]] + s[1..][..i]; Some(i + 1)
  }
}
