/** The software cursor of src/server.c: the built-in arrow, and a client's ARGB shape blended
    over the screen. */
module Cursors {
  import Windows
  import opened Transport
  import opened SceneBasics

  /** 11x16: 'X' outline, '.' fill, ' ' transparent. */
  const ARROW: seq<string> := [
    "X          ", "XX         ", "X.X        ", "X..X       ",
    "X...X      ", "X....X     ", "X.....X    ", "X......X   ",
    "X.......X  ", "X....XXXXX ", "X..X..X    ", "X.X X..X   ",
    "XX   X..X  ", "X    X..X  ", "      X..X ", "       XX  "]

  const ARROW_W: nat := 11
  const ARROW_H: nat := 16

  lemma ArrowShape()
    ensures |ARROW| == ARROW_H && forall r | 0 <= r < ARROW_H :: |ARROW[r]| == ARROW_W
  {
  }

  function ArrowAt(r: nat, c: nat): char
    requires r < ARROW_H && c < ARROW_W
  {
    ArrowShape();
    ARROW[r][c]
  }

  // ---- blending ------------------------------------------------------------------------

  /** Byte k of a 32-bit word: (v >> 8k) & 0xff. */
  function Byte(v: nat, k: nat): (b: nat)
    requires k < 4
    ensures b < 256
  {
    if k == 0 then v % 0x100
    else if k == 1 then v / 0x100 % 0x100
    else if k == 2 then v / 0x10000 % 0x100
    else v / 0x1000000 % 0x100
  }

  function Alpha(px: nat): nat { Byte(px, 3) }

  lemma NonNegative(a: nat, b: nat)
    ensures 0 <= a * b
  {
  }

  /** One channel of a pixel over another, in C's truncating arithmetic. */
  function Channel(s: nat, d: nat, a: nat): nat
    requires a <= 255
  {
    NonNegative(s, a);
    NonNegative(d, 255 - a);
    (s * a + d * (255 - a)) / 255
  }

  function Pack(r: nat, g: nat, b: nat): nat { r * 0x10000 + g * 0x100 + b }

  /** What the cursor pixel px makes of the screen pixel d. */
  function Blend(px: nat, d: nat): nat {
    var a := Alpha(px);
    if a == 0 then d
    else if a == 0xff then px % 0x1000000
    else Pack(Channel(Byte(px, 2), Byte(d, 2), a), Channel(Byte(px, 1), Byte(d, 1), a), Channel(Byte(px, 0), Byte(d, 0), a))
  }

  lemma Weighted(s: nat, d: nat, a: nat, lo: nat, hi: nat)
    requires a <= 255 && lo <= s <= hi && lo <= d <= hi
    ensures lo * 255 <= s * a + d * (255 - a) <= hi * 255
  {
    assert lo * 255 == lo * a + lo * (255 - a);
    assert hi * 255 == hi * a + hi * (255 - a);
    Scaled(a, lo, s);
    Scaled(255 - a, lo, d);
    Scaled(a, s, hi);
    Scaled(255 - a, d, hi);
  }

  lemma Scaled(k: nat, a: nat, b: nat)
    requires a <= b
    ensures a * k <= b * k
  {
    assert b * k == a * k + (b - a) * k;
  }

  /** A blended channel lies between the two it blends, less than one unit below the exact
      weighted mean, and is one of the two at either end. */
  lemma ChannelIsMean(s: nat, d: nat, a: nat)
    requires a <= 255
    ensures (if s < d then s else d) <= Channel(s, d, a) <= (if s < d then d else s)
    ensures 255 * Channel(s, d, a) <= s * a + d * (255 - a) < 255 * Channel(s, d, a) + 255
    ensures a == 255 ==> Channel(s, d, a) == s
    ensures a == 0 ==> Channel(s, d, a) == d
  {
    Weighted(s, d, a, if s < d then s else d, if s < d then d else s);
  }

  /** Packing keeps the channels apart. */
  lemma PackBytes(r: nat, g: nat, b: nat)
    requires r < 256 && g < 256 && b < 256
    ensures Byte(Pack(r, g, b), 0) == b && Byte(Pack(r, g, b), 1) == g && Byte(Pack(r, g, b), 2) == r && Byte(Pack(r, g, b), 3) == 0
  {
  }

  /** The word as the source computes it, from 32-bit channels. */
  function Ored(r: bv32, g: bv32, b: bv32): nat { ((r << 16) | (g << 8) | b) as nat }

  lemma OrLow(g: bv32, b: bv32)
    requires g < 256 && b < 256
    ensures Ored(0, g, b) == 0x100 * (g as nat) + (b as nat)
  {
    assert (0 << 16) | (g << 8) | b == (g << 8) | b;
  }

  lemma OrHigh(hi: bv32, lo: bv32)
    requires hi < 256 && lo < 0x10000
    ensures ((hi << 16) | lo) as nat == 0x10000 * (hi as nat) + (lo as nat)
  {
  }

  lemma OrSplit(r: bv32, g: bv32, b: bv32)
    requires r < 256 && g < 256 && b < 256
    ensures Ored(r, g, b) == 0x10000 * (r as nat) + Ored(0, g, b)
  {
    OrHigh(r, (g << 8) | b);
    assert (r << 16) | (g << 8) | b == (r << 16) | ((g << 8) | b);
    assert (0 << 16) | (g << 8) | b == (g << 8) | b;
  }

  /** The source's shifts and ors compute the word Pack stands for. */
  lemma PackIsShiftOr(r: bv32, g: bv32, b: bv32)
    requires r < 256 && g < 256 && b < 256
    ensures Ored(r, g, b) == Pack(r as nat, g as nat, b as nat)
  {
    hide Ored;
    OrSplit(r, g, b);
    OrLow(g, b);
  }

  lemma DivUnique(v: int, n: nat, k: int, r: int)
    requires n > 0 && 0 <= r < n && v == n * k + r
    ensures v / n == k && v % n == r
  {
    Windows.ModUnique(v, n, k, r);
    assert n * (v / n - k) == 0;
    Windows.MulAtLeast(n, v / n - k);
  }

  /** Dropping a multiple of 256 * n changes neither the byte above n nor the ones below. */
  lemma HighPart(n: nat, q: nat, m: nat)
    requires n > 0
    ensures (n * 0x100 * q + m) / n % 0x100 == m / n % 0x100
  {
    assert n * (0x100 * q + m / n) == n * 0x100 * q + n * (m / n);
    DivUnique(n * 0x100 * q + m, n, 0x100 * q + m / n, m % n);
    DivUnique(0x100 * q + m / n, 0x100, q + m / n / 0x100, m / n % 0x100);
  }

  lemma LowBytes(px: nat, k: nat)
    requires k < 3
    ensures Byte(px % 0x1000000, k) == Byte(px, k)
  {
    var q, m := px / 0x1000000, px % 0x1000000;
    if k == 0 { HighPart(1, 0x10000 * q, m); }
    else if k == 1 { HighPart(0x100, 0x100 * q, m); }
    else { HighPart(0x10000, q, m); }
  }

  /** Shortcuts included, each colour channel of the result is the blend of the same channel of
      the two pixels, by the cursor pixel's alpha: an opaque pixel replaces, a transparent one
      leaves, and no channel leaks into another. */
  lemma BlendIsPerChannel(px: nat, d: nat, k: nat)
    requires k < 3
    ensures Byte(Blend(px, d), k) == Channel(Byte(px, k), Byte(d, k), Alpha(px))
  {
    var a := Alpha(px);
    ChannelIsMean(Byte(px, k), Byte(d, k), a);
    if a == 0xff {
      LowBytes(px, k);
    } else if a != 0 {
      ChannelIsMean(Byte(px, 2), Byte(d, 2), a);
      ChannelIsMean(Byte(px, 1), Byte(d, 1), a);
      ChannelIsMean(Byte(px, 0), Byte(d, 0), a);
      PackBytes(Channel(Byte(px, 2), Byte(d, 2), a), Channel(Byte(px, 1), Byte(d, 1), a), Channel(Byte(px, 0), Byte(d, 0), a));
    }
  }

  // ---- the shape on the screen ------------------------------------------------------------

  /** Row r, column c of a shape w wide is entry r * w + c, inside the 64x64 buffer. */
  lemma ShapeIndex(r: nat, c: nat, w: nat, h: nat)
    requires r < h <= CURSOR_MAX && c < w <= CURSOR_MAX
    ensures 0 <= r * w + c < CURSOR_MAX * CURSOR_MAX
  {
    Scaled(w, r + 1, h);
    Scaled(h, w, CURSOR_MAX);
    assert h * CURSOR_MAX <= CURSOR_MAX * CURSOR_MAX;
  }

  predicate InShape(cur: Cursor, cx: int, cy: int, x: int, y: int) {
    0 <= x - (cx - cur.hotX) < cur.w && 0 <= y - (cy - cur.hotY) < cur.h
  }

  function ShapePixel(cur: Cursor, r: nat, c: nat): nat
    requires CursorOk(cur) && cur.custom && r < cur.h && c < cur.w
  {
    ShapeIndex(r, c, cur.w, cur.h);
    cur.argb[r * cur.w + c]
  }

  /** The request is served: it shows a shape, and the shape could be mapped. */
  predicate ShapeTaken(m: Body, fds: seq<int>, mem: Mmap)
    requires m.SetCursor?
  {
    && !m.hide && |fds| >= 1 && mem.Mapped?
    && 1 <= AsInt(m.width) <= CURSOR_MAX && 1 <= AsInt(m.height) <= CURSOR_MAX
  }

  /** The cursor becomes the client's own exactly if the request is served, or if it was before and
      the request is refused rather than one to drop it. */
  lemma CustomIff(tp: Tp, m: Body, fds: seq<int>, mem: Mmap)
    requires m.SetCursor?
    ensures OnSetCursor(tp, m, fds, mem).cursor.custom <==>
            ShapeTaken(m, fds, mem) || (tp.cursor.custom && !m.hide && |fds| >= 1)
  {
  }

  /** From a served SET_CURSOR on, the pixel drawn at row r, column c of the cursor is word
      r * width + c of what the client shared. */
  lemma ShapeArrives(tp: Tp, m: Body, fds: seq<int>, mem: Mmap, r: nat, c: nat)
    requires CursorOk(tp.cursor) && m.SetCursor? && ShapeTaken(m, fds, mem)
    requires r < AsInt(m.height) && c < AsInt(m.width) && AsInt(m.width) * AsInt(m.height) <= |mem.words|
    ensures var cur, w := OnSetCursor(tp, m, fds, mem).cursor, AsInt(m.width);
            && CursorOk(cur) && cur.custom && !cur.hidden && cur.w == w && cur.h == AsInt(m.height)
            && cur.hotX == m.hotX && cur.hotY == m.hotY
            && 0 <= r * w + c < |mem.words| && ShapePixel(cur, r, c) == mem.words[r * w + c]
  {
    var w, h := AsInt(m.width), AsInt(m.height);
    ShapeIndex(r, c, w, h);
    Scaled(w, r + 1, h);
    assert (r + 1) * w == r * w + w;
  }

  /** Its mapping is gone again, and the descriptors are closed. */
  lemma ShapeUnmapped(tp: Tp, m: Body, fds: seq<int>, mem: Mmap)
    requires m.SetCursor? && tp.kern.nextMap !in tp.kern.live
    ensures var k := OnSetCursor(tp, m, fds, mem).kern;
            && k.live == tp.kern.live && k.closed == tp.kern.closed + multiset(fds)
            && k.released == tp.kern.released + if ShapeTaken(m, fds, mem) then multiset{tp.kern.nextMap} else multiset{}
  {
  }

  predicate InArrow(cx: int, cy: int, x: int, y: int) {
    0 <= x - cx < ARROW_W && 0 <= y - cy < ARROW_H
  }

  /** A screen pixel of colour d at (x, y) once the cursor is drawn with its hot spot at (cx, cy). */
  function UnderCursor(cur: Cursor, cx: int, cy: int, x: int, y: int, d: nat): nat
    requires CursorOk(cur)
  {
    if cur.hidden then d
    else if cur.custom then
      if InShape(cur, cx, cy, x, y) then Blend(ShapePixel(cur, y - (cy - cur.hotY), x - (cx - cur.hotX)), d) else d
    else if InArrow(cx, cy, x, y) then
      (match ArrowAt(y - cy, x - cx)
       case ' ' => d
       case 'X' => 0x00000000
       case _ => 0x00ffffff)
    else d
  }

  // ---- the cursor on the screen, in full ------------------------------------------------------

  /** Channel number of a colour: 2 is red, 1 green, 0 blue; 3 is the alpha of a cursor pixel. */
  predicate Mixed(v: nat, px: nat, d: nat, shift: nat)
    requires shift > 0
  {
    var s, t, a := px / shift % 0x100, d / shift % 0x100, px / 0x1000000 % 0x100;
    255 * (v / shift % 0x100) <= s * a + t * (255 - a) < 255 * (v / shift % 0x100) + 255
  }

  /** v is pixel px of a cursor over a screen pixel d: where px is transparent it is d, where it is
      opaque the colour of px, and elsewhere each channel is mixed by the alpha of px. */
  predicate Over(v: nat, px: nat, d: nat) {
    var a := px / 0x1000000 % 0x100;
    && (a == 0 ==> v == d)
    && (a == 255 ==> v == px % 0x1000000)
    && (0 < a < 255 ==> v < 0x1000000 && Mixed(v, px, d, 1) && Mixed(v, px, d, 0x100) && Mixed(v, px, d, 0x10000))
  }

  lemma BlendSays(px: nat, d: nat)
    ensures Over(Blend(px, d), px, d)
  {
    hide Channel, Pack;
    var a := Alpha(px);
    if 0 < a < 255 {
      ChannelIsMean(Byte(px, 2), Byte(d, 2), a);
      ChannelIsMean(Byte(px, 1), Byte(d, 1), a);
      ChannelIsMean(Byte(px, 0), Byte(d, 0), a);
      PackBytes(Channel(Byte(px, 2), Byte(d, 2), a), Channel(Byte(px, 1), Byte(d, 1), a), Channel(Byte(px, 0), Byte(d, 0), a));
      PackSmall(Channel(Byte(px, 2), Byte(d, 2), a), Channel(Byte(px, 1), Byte(d, 1), a), Channel(Byte(px, 0), Byte(d, 0), a));
    }
  }

  lemma PackSmall(r: nat, g: nat, b: nat)
    requires r < 256 && g < 256 && b < 256
    ensures Pack(r, g, b) < 0x1000000
  {
  }

  /** A hidden cursor is not on the screen. A client's own has its hot spot at the cursor, and its
      pixel at row r, column c is entry r * w + c of the shape. */
  lemma ShapeSays(cur: Cursor, cx: int, cy: int, x: int, y: int, d: nat)
    requires CursorOk(cur) && cur.custom
    ensures var v, r, c := UnderCursor(cur, cx, cy, x, y, d), y - cy + cur.hotY, x - cx + cur.hotX;
            if !cur.hidden && 0 <= r < cur.h && 0 <= c < cur.w
            then 0 <= r * cur.w + c < |cur.argb| && Over(v, cur.argb[r * cur.w + c], d)
            else v == d
  {
    hide Over, Blend;
    var r, c := y - cy + cur.hotY, x - cx + cur.hotX;
    if !cur.hidden && 0 <= r < cur.h && 0 <= c < cur.w {
      ShapeIndex(r, c, cur.w, cur.h);
      BlendSays(cur.argb[r * cur.w + c], d);
    }
  }

  /** The built-in arrow has its tip at the cursor. In its head, which is a right angle 9 rows high, the
      two edges are black and the inside is white; the tail reaches 16 rows down and 11 columns across.
      Everywhere else the screen shows through. */
  lemma ArrowSays(cur: Cursor, cx: int, cy: int, x: int, y: int, d: nat)
    requires CursorOk(cur) && !cur.custom
    ensures var v, r, c := UnderCursor(cur, cx, cy, x, y, d), y - cy, x - cx;
            && (cur.hidden || r < 0 || c < 0 || r >= 16 || c >= 11 ==> v == d)
            && (v == d || v == 0 || v == 0xffffff)
            && (!cur.hidden && 0 <= r <= 8 && 0 <= c < 11 ==>
                  v == if c == 0 || c == r then 0 else if c < r then 0xffffff else d)
  {
    var r, c := y - cy, x - cx;
    if 0 <= r <= 8 && 0 <= c < 11 { HeadRow(r, c); }
  }

  lemma HeadRow(r: nat, c: nat)
    requires r <= 8 && c < ARROW_W
    ensures ArrowAt(r, c) == if c == 0 || c == r then 'X' else if c < r then '.' else ' '
  {
    if r == 0 { assert ARROW[0] == "X          "; }
    else if r == 1 { assert ARROW[1] == "XX         "; }
    else if r == 2 { assert ARROW[2] == "X.X        "; }
    else if r == 3 { assert ARROW[3] == "X..X       "; }
    else if r == 4 { assert ARROW[4] == "X...X      "; }
    else if r == 5 { assert ARROW[5] == "X....X     "; }
    else if r == 6 { assert ARROW[6] == "X.....X    "; }
    else if r == 7 { assert ARROW[7] == "X......X   "; }
    else { assert ARROW[8] == "X.......X  "; }
  }
}
