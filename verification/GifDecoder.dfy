/** A reader for single-image files of the GIF89a specification, independent of the writer. */
module GifDecoder {
  import opened Bytes

  // ----- section 15: data sub-blocks -----

  /** Joins the data sub-blocks in front of `s`, up to the block terminator; also returns what follows. */
  function SubBlocks(s: Str): (r: Option<(Str, Str)>)
    decreases |s|
  {
    if s == [] then None
    else
      var n := ValueOf(s[0]);
      if n == 0 then Some(([], s[1..]))
      else if 1 + n > |s| then None
      else
        var rest := SubBlocks(s[1 + n..]);
        if rest.None? then None else Some((s[1..1 + n] + rest.value.0, rest.value.1))
  }

  // ----- Appendix F: variable-width codes, least significant bit first -----

  function BitOf(b: bv8, k: nat): bool
    requires k < 8
  {
    if k == 0 then b & 1 != 0 else if k == 1 then b & 2 != 0
    else if k == 2 then b & 4 != 0 else if k == 3 then b & 8 != 0
    else if k == 4 then b & 16 != 0 else if k == 5 then b & 32 != 0
    else if k == 6 then b & 64 != 0 else b & 128 != 0
  }

  function Bit(data: Str, q: nat): bool
    requires q < 8 * |data|
  {
    BitOf(data[q / 8], q % 8)
  }

  function CodeAt(data: Str, q: nat, width: nat): nat
    requires q + width <= 8 * |data|
    decreases width
  {
    if width == 0 then 0
    else (if Bit(data, q) then 1 else 0) + 2 * CodeAt(data, q + 1, width - 1)
  }

  /** The string a code stands for; the code about to be defined is the previous string plus its own first pixel. */
  function Entry(code: nat, clear: nat, table: seq<Str>, prev: Option<Str>): (e: Option<Str>)
    requires clear <= 256
  {
    if code < clear then Some([ByteOf(code)])
    else if code < clear + 2 then None
    else if code - (clear + 2) < |table| then Some(table[code - (clear + 2)])
    else if code - (clear + 2) == |table| && prev.Some? && prev.value != [] then Some(prev.value + [prev.value[0]])
    else None
  }

  function Extended(clear: nat, table: seq<Str>, prev: Option<Str>, entry: Str): seq<Str> {
    if prev.Some? && entry != [] && clear + 2 + |table| < 4096 then table + [prev.value + [entry[0]]] else table
  }

  /** The LZW decoder: minimum code size `min`, current code width, table behind the end code, previous string. */
  function Lzw(data: Str, q: nat, min: nat, width: nat, table: seq<Str>, prev: Option<Str>): Option<Str>
    requires 1 <= min <= 8 && 1 <= width
    decreases 8 * |data| - q
  {
    var clear := Power2(min);
    if q + width > 8 * |data| || clear > 256 then None
    else
      var code := CodeAt(data, q, width);
      if code == clear then Lzw(data, q + width, min, min + 1, [], None)
      else if code == clear + 1 then Some([])
      else
        var entry := Entry(code, clear, table, prev);
        if entry.None? then None
        else
          var table' := Extended(clear, table, prev, entry.value);
          var width' := if clear + 2 + |table'| == Power2(width) && width < 12 then width + 1 else width;
          var rest := Lzw(data, q + width, min, width', table', Some(entry.value));
          if rest.None? then None else Some(entry.value + rest.value)
  }

  // ----- the file -----

  datatype Picture = Picture(width: nat, height: nat, palette: Str, pixels: Str)

  function Word(s: Str, i: nat): nat
    requires i + 1 < |s|
  {
    ValueOf(s[i]) + 256 * ValueOf(s[i + 1])
  }

  /** Length of a colour table from the low bits of its flag byte. */
  function TableLength(flags: bv8): nat {
    3 * Power2(1 + ValueOf(flags & 7))
  }

  /** Image descriptor, code size, data and trailer. */
  function ReadImage(s: Str, width: nat, height: nat, palette: Str): Option<Picture> {
    if |s| < 12 || s[0] != 44 || s[9] != 0 || Word(s, 5) != width || Word(s, 7) != height then None
    else
      var min := ValueOf(s[10]);
      var blocks := SubBlocks(s[11..]);
      if min < 1 || min > 8 || blocks.None? || blocks.value.1 != [59] then None
      else
        var pixels := Lzw(blocks.value.0, 0, min, min + 1, [], None);
        if pixels.None? || |pixels.value| != width * height then None
        else Some(Picture(width, height, palette, pixels.value))
  }

  /** A GIF89a file with a global colour table and one full-size, non-interlaced image. */
  function ReadGif(s: Str): Option<Picture> {
    if |s| < 13 || s[..6] != [71, 73, 70, 56, 57, 97] || s[10] & 128 == 0 then None
    else
      var n := TableLength(s[10]);
      if |s| < 13 + n then None
      else ReadImage(s[13 + n..], Word(s, 6), Word(s, 8), s[13..13 + n])
  }
}
