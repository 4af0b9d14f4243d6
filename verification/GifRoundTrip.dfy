/** The reader gets back exactly the picture the writer was given. */
module GifRoundTrip {
  import opened Bytes
  import opened Gif
  import opened GifDecoder

  /** The 4-bit pixels of a picture. */
  function Pixels(im: Str): (r: Str)
    ensures |r| == |im|
  {
    seq(|im|, i requires 0 <= i < |im| => Level(im[i]))
  }

  // ----- sub-blocks -----

  lemma {:induction false} GroupsJoin(im: Str, g: nat, m: nat, n: nat)
    requires 4 * (g + m + n) <= |im|
    ensures Groups(im, g, m) + Groups(im, g + m, n) == Groups(im, g, m + n)
  {
    hide PackedGroup;
    if n == 0 {
      assert Groups(im, g, m) + [] == Groups(im, g, m);
    } else {
      GroupsJoin(im, g, m, n - 1);
      var last := PackedGroup(im, g + m + n - 1);
      assert Groups(im, g + m, n) == Groups(im, g + m, n - 1) + last;
      assert Groups(im, g, m) + (Groups(im, g + m, n - 1) + last)
          == (Groups(im, g, m) + Groups(im, g + m, n - 1)) + last;
    }
  }

  lemma {:induction false} HeaderValues()
    ensures ValueOf(250) == 250 && ValueOf(1) == 1 && ValueOf(0) == 0 && ValueOf(4) == 4
    ensures ValueOf(200) == 200 && ValueOf(70) == 70 && ValueOf(131 & 7) == 3
  {
  }

  lemma {:induction false} OneSubBlock(len: bv8, block: Str, s: Str)
    requires ValueOf(len) == |block| > 0 && SubBlocks(s).Some?
    ensures SubBlocks([len] + block + s) == Some((block + SubBlocks(s).value.0, SubBlocks(s).value.1))
  {
    hide ValueOf;
    var t := [len] + block + s;
    assert t[1..1 + |block|] == block && t[1 + |block|..] == s;
  }

  /** Reading the first `y` rows yields their packed groups, whatever blocks follow. */
  lemma {:induction false} RowsAreBlocks(im: Str, y: nat, s: Str)
    requires y <= HEIGHT && |im| == WIDTH * HEIGHT && SubBlocks(s).Some?
    ensures SubBlocks(Rows(im, y) + s) == Some((Groups(im, 0, 50 * y) + SubBlocks(s).value.0, SubBlocks(s).value.1))
  {
    hide ValueOf, PackedGroup, SubBlocks;
    var (data, rest) := SubBlocks(s).value;
    if y == 0 {
      assert Rows(im, y) + s == s && [] + data == data;
    } else {
      var row := Groups(im, 50 * (y - 1), 50);
      var t := [250] + row + s;
      HeaderValues();
      OneSubBlock(250, row, s);
      assert Rows(im, y) + s == Rows(im, y - 1) + t;
      RowsAreBlocks(im, y - 1, t);
      GroupsJoin(im, 0, 50 * (y - 1), 50);
      assert Groups(im, 0, 50 * (y - 1)) + (row + data) == Groups(im, 0, 50 * y) + data;
    }
  }

  lemma {:induction false} TrailerBlocks()
    ensures SubBlocks(TRAILER) == Some(([17], [59]))
  {
    HeaderValues();
    var end: Str := [0, 59];
    assert end[1..] == [59];
    assert SubBlocks(end) == Some(([], [59]));
    var block: Str := [17];
    OneSubBlock(1, block, end);
    assert [1] + block + end == TRAILER && block + [] == block;
  }

  /** The image data of the file: all groups, then the byte with the end code. */
  function ImageData(im: Str): (d: Str)
    requires |im| == WIDTH * HEIGHT
    ensures |d| == 17501
  {
    Groups(im, 0, 3500) + [17]
  }

  // ----- codes -----

  /** Codes depend only on the bits they cover. */
  lemma {:induction false} CodeShift(data: Str, at: nat, part: Str, q: nat, width: nat)
    requires at + |part| <= |data| && data[at..at + |part|] == part
    requires q + width <= 8 * |part|
    ensures CodeAt(data, 8 * at + q, width) == CodeAt(part, q, width)
    decreases width
  {
    hide BitOf;
    if width > 0 {
      assert (8 * at + q) / 8 == at + q / 8 && (8 * at + q) % 8 == q % 8;
      assert data[at + q / 8] == part[q / 8];
      CodeShift(data, at, part, q + 1, width - 1);
    }
  }

  /** Five given bits as a code. */
  function Code5(b0: bool, b1: bool, b2: bool, b3: bool, b4: bool): nat {
    (if b0 then 1 else 0) + (if b1 then 2 else 0) + (if b2 then 4 else 0) + (if b3 then 8 else 0) + (if b4 then 16 else 0)
  }

  lemma {:induction false} CodeOfBits(data: Str, q: nat)
    requires q + 5 <= 8 * |data|
    ensures CodeAt(data, q, 5)
         == Code5(Bit(data, q), Bit(data, q + 1), Bit(data, q + 2), Bit(data, q + 3), Bit(data, q + 4))
  {
    hide Bit;
    assert CodeAt(data, q + 3, 2) == (if Bit(data, q + 3) then 1 else 0) + 2 * CodeAt(data, q + 4, 1);
    assert CodeAt(data, q + 1, 4) == (if Bit(data, q + 1) then 1 else 0) + 2 * CodeAt(data, q + 2, 3);
  }

  lemma {:induction false} NibbleCode(v: bv8)
    requires v < 16
    ensures DigitValue(v) == Code5(v & 1 != 0, v & 2 != 0, v & 4 != 0, v & 8 != 0, false)
  {
  }

  // The eight codes of a packed group, two by two.

  lemma {:induction false} PackBitsA(a: bv8, b: bv8, c: bv8, d: bv8)
    requires a < 16 && b < 16 && c < 16 && d < 16
    ensures var p := Pack(a, b, c, d); CodeAt(p, 0, 5) == 16 && CodeAt(p, 5, 5) == DigitValue(a)
  {
    hide CodeAt, DigitValue;
    var p := Pack(a, b, c, d);
    CodeOfBits(p, 0);
    CodeOfBits(p, 5);
    NibbleCode(a);
  }

  lemma {:induction false} PackBitsB(a: bv8, b: bv8, c: bv8, d: bv8)
    requires a < 16 && b < 16 && c < 16 && d < 16
    ensures var p := Pack(a, b, c, d); CodeAt(p, 10, 5) == 16 && CodeAt(p, 15, 5) == DigitValue(b)
  {
    hide CodeAt, DigitValue;
    var p := Pack(a, b, c, d);
    CodeOfBits(p, 10);
    CodeOfBits(p, 15);
    NibbleCode(b);
  }

  lemma {:induction false} PackBitsC(a: bv8, b: bv8, c: bv8, d: bv8)
    requires a < 16 && b < 16 && c < 16 && d < 16
    ensures var p := Pack(a, b, c, d); CodeAt(p, 20, 5) == 16 && CodeAt(p, 25, 5) == DigitValue(c)
  {
    hide CodeAt, DigitValue;
    var p := Pack(a, b, c, d);
    CodeOfBits(p, 20);
    CodeOfBits(p, 25);
    NibbleCode(c);
  }

  lemma {:induction false} PackBitsD(a: bv8, b: bv8, c: bv8, d: bv8)
    requires a < 16 && b < 16 && c < 16 && d < 16
    ensures var p := Pack(a, b, c, d); CodeAt(p, 30, 5) == 16 && CodeAt(p, 35, 5) == DigitValue(d)
  {
    hide CodeAt, DigitValue;
    var p := Pack(a, b, c, d);
    CodeOfBits(p, 30);
    CodeOfBits(p, 35);
    NibbleCode(d);
  }

  lemma {:induction false} GroupAt(im: Str, n: nat, g: nat)
    requires g < n && 4 * n <= |im|
    ensures Groups(im, 0, n)[5 * g..5 * g + 5] == PackedGroup(im, g)
  {
    hide PackedGroup;
    if g < n - 1 {
      GroupAt(im, n - 1, g);
      assert Groups(im, 0, n)[5 * g..5 * g + 5] == Groups(im, 0, n - 1)[5 * g..5 * g + 5];
    }
  }

  lemma {:induction false} GroupCodes(im: Str, g: nat, r: nat)
    requires 4 * g + 4 <= |im| && r < 4
    ensures CodeAt(PackedGroup(im, g), 10 * r, 5) == 16
    ensures CodeAt(PackedGroup(im, g), 10 * r + 5, 5) == DigitValue(Level(im[4 * g + r]))
  {
    hide CodeAt, DigitValue, Pack, Level;
    var a, b, c, d := Level(im[4 * g]), Level(im[4 * g + 1]), Level(im[4 * g + 2]), Level(im[4 * g + 3]);
    if r == 0 {
      PackBitsA(a, b, c, d);
    } else if r == 1 {
      PackBitsB(a, b, c, d);
    } else if r == 2 {
      PackBitsC(a, b, c, d);
    } else {
      PackBitsD(a, b, c, d);
    }
  }

  /** The code stream is clear, pixel, clear, pixel, ... */
  lemma {:induction false} Codes(im: Str, i: nat)
    requires |im| == WIDTH * HEIGHT && i < |im|
    ensures CodeAt(ImageData(im), 10 * i, 5) == 16
    ensures CodeAt(ImageData(im), 10 * i + 5, 5) == DigitValue(Level(im[i]))
  {
    hide CodeAt, DigitValue, PackedGroup, Level;
    var g, r, data := i / 4, i % 4, ImageData(im);
    GroupAt(im, 3500, g);
    assert data[5 * g..5 * g + 5] == PackedGroup(im, g);
    CodeShift(data, 5 * g, PackedGroup(im, g), 10 * r, 5);
    CodeShift(data, 5 * g, PackedGroup(im, g), 10 * r + 5, 5);
    GroupCodes(im, g, r);
    assert 8 * (5 * g) + 10 * r == 10 * i;
  }

  lemma {:induction false} EndCode(im: Str)
    requires |im| == WIDTH * HEIGHT
    ensures CodeAt(ImageData(im), 140000, 5) == 17
  {
    hide Groups;
    var data := ImageData(im);
    assert data[17500..17501] == [17];
    CodeShift(data, 17500, [17], 0, 5);
    CodeOfBits([17], 0);
  }

  // ----- the decoder on this stream -----

  lemma {:induction false} Powers()
    ensures Power2(4) == 16 && Power2(5) == 32
  {
    assert Power2(2) == 4;
  }

  lemma {:induction false} NibbleByte(v: bv8)
    requires v < 16
    ensures ByteOf(DigitValue(v)) == v
  {
    DigitsOfByte(0, v);
  }

  /** From pixel `i` on, in any decoder state of width five, the decoder returns the remaining pixels. */
  lemma {:induction false} DecodeFrom(im: Str, i: nat, table: seq<Str>, prev: Option<Str>)
    requires |im| == WIDTH * HEIGHT && i <= |im|
    ensures Lzw(ImageData(im), 10 * i, 4, 5, table, prev) == Some(Pixels(im)[i..])
    decreases |im| - i
  {
    hide CodeAt, DigitValue, ByteOf, ImageData, Power2, Level;
    Powers();
    var data := ImageData(im);
    if i == |im| {
      EndCode(im);
      assert Pixels(im)[i..] == [];
    } else {
      Codes(im, i);
      var pixel := [Level(im[i])];
      NibbleByte(Level(im[i]));
      DecodeFrom(im, i + 1, [], Some(pixel));
      assert Pixels(im)[i..] == pixel + Pixels(im)[i + 1..];
      LiteralStep(data, 10 * i + 5, Level(im[i]), Pixels(im)[i + 1..]);
    }
  }

  /** A literal right after a clear code: no table entry, no change of width. */
  lemma {:induction false} LiteralStep(data: Str, q: nat, v: bv8, rest: Str)
    requires v < 16 && q + 5 <= 8 * |data| && CodeAt(data, q, 5) == DigitValue(v)
    requires Lzw(data, q + 5, 4, 5, [], Some([v])) == Some(rest)
    ensures Lzw(data, q, 4, 5, [], None) == Some([v] + rest)
  {
    hide CodeAt, DigitValue, ByteOf, Power2;
    Powers();
    NibbleByte(v);
    assert Entry(DigitValue(v), 16, [], None) == Some([v]);
  }

  // ----- the whole file -----

  lemma {:induction false} HeaderFields(f: Str)
    requires |f| >= 72 && f[..72] == Header()
    ensures f[..6] == [71, 73, 70, 56, 57, 97] && f[10] == 131
    ensures f[6] == 200 && f[7] == 0 && f[8] == 70 && f[9] == 0
    ensures f[13..61] == PALETTE && f[61..72] == DESCRIPTOR
  {
    assert f[..13] == f[..72][..13] == SCREEN;
    assert f[..6] == SCREEN[..6];
    assert f[13..61] == f[..72][13..61] == PALETTE;
    assert f[61..72] == f[..72][61..72] == DESCRIPTOR;
    assert forall k :: 0 <= k < 13 ==> f[k] == SCREEN[k];
  }

  /** The image part of the file reads back as the picture. */
  lemma {:induction false} ImageReads(im: Str, s: Str)
    requires |im| == WIDTH * HEIGHT && s == DESCRIPTOR + (Rows(im, HEIGHT) + TRAILER)
    ensures ReadImage(s, WIDTH, HEIGHT, PALETTE) == Some(Picture(WIDTH, HEIGHT, PALETTE, Pixels(im)))
  {
    hide ValueOf, SubBlocks, Groups, Rows, Lzw, Power2;
    HeaderValues();
    assert s[11..] == Rows(im, HEIGHT) + TRAILER;
    assert forall k :: 0 <= k < 11 ==> s[k] == DESCRIPTOR[k];
    TrailerBlocks();
    RowsAreBlocks(im, HEIGHT, TRAILER);
    DecodeFrom(im, 0, [], None);
    assert Pixels(im)[0..] == Pixels(im);
  }

  /** For every picture, the GIF reader returns its size, the grey table and exactly its pixels. */
  lemma {:induction false} GifReadsBack(im: Str)
    requires |im| == WIDTH * HEIGHT
    ensures ReadGif(GifFile(im)) == Some(Picture(WIDTH, HEIGHT, PALETTE, Pixels(im)))
  {
    var f := GifFile(im);
    assert f[..72] == Header();
    HeaderFields(f);
    hide ValueOf, ReadImage, Rows;
    HeaderValues();
    TableOf131();
    assert f[61..] == f[61..72] + f[72..] && f[72..] == Rows(im, HEIGHT) + TRAILER;
    ImageReads(im, f[61..]);
  }

  lemma {:induction false} TableOf131()
    ensures TableLength(131) == 48 && (131 as bv8) & 128 != 0
  {
    HeaderValues();
    Powers();
  }
}
