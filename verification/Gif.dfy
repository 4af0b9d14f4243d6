/** src/libcaptcha.c: `makegif`, which packs a 200x70 picture as clear and literal LZW codes of five bits. */
module Gif {
  import opened Bytes

  const WIDTH := 200
  const HEIGHT := 70
  const GIF_SIZE := 17646

  /** "GIF89a", 200x70, a global table of 16 colours, background and aspect 0. */
  const SCREEN: Str := [71, 73, 70, 56, 57, 97, 200, 0, 70, 0, 131, 0, 0]

  /** The 16 greys of the colour table. */
  const PALETTE: Str :=
    [
      0, 0, 0, 16, 16, 16, 32, 32, 32, 48, 48, 48,
      64, 64, 64, 80, 80, 80, 96, 96, 96, 112, 112, 112,
      128, 128, 128, 144, 144, 144, 160, 160, 160, 176, 176, 176,
      192, 192, 192, 208, 208, 208, 224, 224, 224, 255, 255, 255
    ]

  /** Image separator, corner, size, flags, LZW code size. */
  const DESCRIPTOR: Str := [44, 0, 0, 0, 0, 200, 0, 70, 0, 0, 4]

  /** Last data block with the end code, block terminator, GIF trailer. */
  const TRAILER: Str := [1, 17, 0, 59]

  function Header(): (h: Str)
    ensures |h| == 72
  {
    SCREEN + PALETTE + DESCRIPTOR
  }

  /** Four 4-bit pixels as the codes 16, a, 16, b, 16, c, 16, d of five bits each, least significant bit first. */
  function Pack(a: bv8, b: bv8, c: bv8, d: bv8): (p: Str)
    ensures |p| == 5
  {
    [16 | (a << 5), (a >> 3) | 64 | (b << 7), b >> 1, 1 | (c << 1), 4 | (d << 3)]
  }

  /** The 4-bit grey level of a pixel. */
  function Level(v: bv8): (r: bv8)
    ensures r < 16
  {
    v >> 4
  }

  /** The packed bytes of four-pixel group `g`. */
  function PackedGroup(im: Str, g: nat): (p: Str)
    requires 4 * g + 4 <= |im|
    ensures |p| == 5
  {
    Pack(Level(im[4 * g]), Level(im[4 * g + 1]), Level(im[4 * g + 2]), Level(im[4 * g + 3]))
  }

  /** `n` consecutive groups from group `g` on. */
  function Groups(im: Str, g: nat, n: nat): (p: Str)
    requires 4 * (g + n) <= |im|
    ensures |p| == 5 * n
  {
    if n == 0 then [] else Groups(im, g, n - 1) + PackedGroup(im, g + n - 1)
  }

  /** The data sub-blocks of the first `y` picture rows. */
  function Rows(im: Str, y: nat): (p: Str)
    requires y <= HEIGHT && |im| == WIDTH * HEIGHT
    ensures |p| == 251 * y
  {
    if y == 0 then [] else Rows(im, y - 1) + ([250] + Groups(im, 50 * (y - 1), 50))
  }

  function GifFile(im: Str): (f: Str)
    requires |im| == WIDTH * HEIGHT
    ensures |f| == GIF_SIZE
  {
    Header() + Rows(im, HEIGHT) + TRAILER
  }

  /** Each of the first `to` bytes of the buffer has been written once, no other byte at all. */
  ghost predicate WrittenOnce(writes: seq<nat>, to: nat) {
    && |writes| == GIF_SIZE
    && forall k :: 0 <= k < GIF_SIZE ==> writes[k] == if k < to then 1 else 0
  }

  lemma {:induction false} WrittenOnceNext(writes: seq<nat>, to: nat)
    requires to < GIF_SIZE && WrittenOnce(writes, to)
    ensures WrittenOnce(writes[to := writes[to] + 1], to + 1)
  {
  }

  /** Writes `s` at the current end of the file. */
  method Emit(gif: array<bv8>, p: nat, s: Str, ghost before: seq<nat>) returns (ghost writes: seq<nat>)
    requires gif.Length == GIF_SIZE && p + |s| <= GIF_SIZE && WrittenOnce(before, p)
    modifies gif
    ensures gif[..p + |s|] == old(gif[..p]) + s
    ensures WrittenOnce(writes, p + |s|)
  {
    hide WrittenOnce;
    writes := before;
    WrittenLength(writes, p);
    for j := 0 to |s|
      invariant |writes| == GIF_SIZE && WrittenOnce(writes, p + j)
      invariant gif[..p + j] == old(gif[..p]) + s[..j]
    {
      WrittenOnceNext(writes, p + j);
      gif[p + j] := s[j];
      writes := writes[p + j := writes[p + j] + 1];
      assert gif[..p + j + 1] == gif[..p + j] + [s[j]];
    }
  }

  lemma {:induction false} WrittenLength(writes: seq<nat>, to: nat)
    requires WrittenOnce(writes, to)
    ensures |writes| == GIF_SIZE
  {
  }

  /** One pass of the outer loop: the length byte and the fifty packed groups of row `y`. */
  method EmitRow(im: array<bv8>, gif: array<bv8>, y: nat, ghost before: seq<nat>) returns (ghost writes: seq<nat>)
    requires im.Length == WIDTH * HEIGHT && gif.Length == GIF_SIZE && im != gif && y < HEIGHT
    requires gif[..72 + 251 * y] == Header() + Rows(im[..], y) && WrittenOnce(before, 72 + 251 * y)
    modifies gif
    ensures gif[..72 + 251 * (y + 1)] == Header() + Rows(im[..], y + 1) && WrittenOnce(writes, 72 + 251 * (y + 1))
  {
    hide WrittenOnce, Header, PackedGroup, Groups, Rows;
    var i, p := WIDTH * y, 72 + 251 * y;
    NoGroups(im[..], y);
    ghost var front := Header() + Rows(im[..], y);
    writes := Emit(gif, p, [250], before);
    p := p + 1;
    for x := 0 to 50
      invariant i == WIDTH * y + 4 * x && p == 73 + 251 * y + 5 * x
      invariant gif[..p] == front + ([250] + Groups(im[..], 50 * y, x))
      invariant WrittenOnce(writes, p)
    {
      var group := PackPixels(im, i, 50 * y + x);
      writes := Emit(gif, p, group, writes);
      i := i + 4;
      p := p + 5;
      NextGroup(im[..], y, x, front, group);
    }
    NextRow(im[..], y, Header());
  }

  lemma {:induction false} NoGroups(im: Str, y: nat)
    requires y < HEIGHT && |im| == WIDTH * HEIGHT
    ensures [250] + Groups(im, 50 * y, 0) == [250]
  {
  }

  lemma {:induction false} NextGroup(im: Str, y: nat, x: nat, front: Str, group: Str)
    requires y < HEIGHT && x < 50 && |im| == WIDTH * HEIGHT && group == PackedGroup(im, 50 * y + x)
    ensures front + ([250] + Groups(im, 50 * y, x)) + group == front + ([250] + Groups(im, 50 * y, x + 1))
  {
    hide PackedGroup;
    assert Groups(im, 50 * y, x + 1) == Groups(im, 50 * y, x) + group;
  }

  lemma {:induction false} NextRow(im: Str, y: nat, front: Str)
    requires y < HEIGHT && |im| == WIDTH * HEIGHT
    ensures front + Rows(im, y) + ([250] + Groups(im, 50 * y, 50)) == front + Rows(im, y + 1)
  {
    hide Groups;
    assert Rows(im, y + 1) == Rows(im, y) + ([250] + Groups(im, 50 * y, 50));
  }

  method PackPixels(im: array<bv8>, i: nat, ghost g: nat) returns (p: Str)
    requires i == 4 * g && i + 4 <= im.Length
    ensures p == PackedGroup(im[..], g)
  {
    hide Pack, Level;
    var a, b, c, d := Level(im[i]), Level(im[i + 1]), Level(im[i + 2]), Level(im[i + 3]);
    p := Pack(a, b, c, d);
  }

  /** Every byte of the file is written, each exactly once, and the file is `GifFile`. */
  method MakeGif(im: array<bv8>, gif: array<bv8>) returns (ghost writes: seq<nat>)
    requires im.Length == WIDTH * HEIGHT && gif.Length == GIF_SIZE && im != gif
    modifies gif
    ensures gif[..] == GifFile(im[..])
    ensures WrittenOnce(writes, GIF_SIZE)
  {
    writes := seq(GIF_SIZE, _ => 0);
    assert WrittenOnce(writes, 0);
    hide WrittenOnce, Header;
    writes := Emit(gif, 0, Header(), writes);
    for y := 0 to HEIGHT
      invariant gif[..72 + 251 * y] == Header() + Rows(im[..], y)
      invariant WrittenOnce(writes, 72 + 251 * y)
    {
      writes := EmitRow(im, gif, y, writes);
    }
    writes := Emit(gif, GIF_SIZE - 4, TRAILER, writes);
    assert gif[..GIF_SIZE] == gif[..];
  }
}
