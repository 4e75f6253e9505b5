/** What the screen should show, pixel by pixel, independently of the painting loops of
    src/server.c: the colour each window has at a point, and who wins. */
module Pixels {
  import opened Windows
  import opened Transport

  const COLOR_DESKTOP: nat := 0x00101820
  const COLOR_TB_FOCUS: nat := 0x003a6fd0
  const COLOR_TB_PLAIN: nat := 0x00606060

  /** The bytes behind every buffer pointer. */
  type Memory = map<Ptr, seq<U8>>

  /** A 32-bit load, little end first. */
  function Word(mem: seq<U8>, off: nat): nat
    requires off + 4 <= |mem|
  {
    mem[off] as nat + 0x100 * mem[off + 1] as nat + 0x10000 * mem[off + 2] as nat + 0x1000000 * mem[off + 3] as nat
  }

  /** The part of the buffer that blit_buffer reads: clipped to the window's content. */
  function Rows(w: Window): int { if w.h - TitleBar(w) < w.bufH then w.h - TitleBar(w) else w.bufH }

  function Cols(w: Window): int { if w.w < w.bufW then w.w else w.bufW }

  /** The last pixel read ends within len bytes, and no row starts before the first. */
  predicate ReadsWithin(w: Window, len: int) {
    || Rows(w) <= 0 || Cols(w) <= 0
    || ((Rows(w) == 1 || w.bufStride >= 0) && (Rows(w) - 1) * w.bufStride + 4 * Cols(w) <= len)
  }

  /** Whatever is read of the buffer is there. */
  predicate Readable(w: Window, mem: Memory) {
    w.buf.Null? || Rows(w) <= 0 || Cols(w) <= 0 || (w.buf in mem && ReadsWithin(w, |mem[w.buf]|))
  }

  predicate AllReadable(ws: seq<Window>, mem: Memory) { forall i | 0 <= i < |ws| :: Readable(ws[i], mem) }

  lemma Distribute(p: int, a: int, b: int)
    ensures p * (a + b) == p * a + p * b
  {
  }

  /** Row r ends before row number rows begins. */
  lemma RowEnds(p: nat, r: nat, rows: nat)
    requires r < rows
    ensures 0 <= r * p && r * p + p <= p * rows
  {
    Distribute(p, r, rows - r);
    Distribute(p, 1, rows - r - 1);
    assert p * (rows - r - 1) >= 0;
  }

  /** Pixel c of row r ends no later than the last pixel read. */
  lemma OffsetInside(stride: int, rows: int, r: int, c: int, cols: int)
    requires 0 <= r < rows && 0 <= c < cols && (rows == 1 || stride >= 0)
    ensures 0 <= r * stride && r * stride + 4 * c + 4 <= (rows - 1) * stride + 4 * cols
  {
    if rows > 1 {
      Distribute(stride, r, rows - 1 - r);
      assert stride * (rows - 1 - r) >= 0 && stride * r >= 0;
    }
  }

  /** Pixel c of row r lies in the first len bytes. */
  predicate PixelWithin(w: Window, r: int, c: int, len: int) {
    0 <= r * w.bufStride + 4 * c && r * w.bufStride + 4 * c + 4 <= len
  }

  /** The reads of a window's buffer lie within its length exactly when nothing is visible of it, or
      the last visible pixel does and the rows do not run backwards; */
  lemma ReadsWithinIff(w: Window, len: int)
    ensures (forall r, c | 0 <= r < Rows(w) && 0 <= c < Cols(w) :: PixelWithin(w, r, c, len)) <==> ReadsWithin(w, len)
  {
    if Rows(w) > 0 && Cols(w) > 0 {
      if ReadsWithin(w, len) {
        forall r, c | 0 <= r < Rows(w) && 0 <= c < Cols(w) ensures PixelWithin(w, r, c, len) {
          OffsetInside(w.bufStride, Rows(w), r, c, Cols(w));
        }
      } else if Rows(w) == 1 || w.bufStride >= 0 {
        assert !PixelWithin(w, Rows(w) - 1, Cols(w) - 1, len);
      } else {
        assert !PixelWithin(w, 1, 0, len);
      }
    }
  }

  /** so it is enough that a visible row fits the stride, for the length the buffer declares. */
  lemma RowsFit(w: Window)
    requires 4 * Cols(w) <= w.bufStride
    ensures ReadsWithin(w, w.bufStride * w.bufH)
  {
    if Rows(w) > 0 && Cols(w) > 0 {
      RowEnds(w.bufStride, Rows(w) - 1, Rows(w));
      Distribute(w.bufStride, Rows(w), w.bufH - Rows(w));
      assert w.bufStride * (w.bufH - Rows(w)) >= 0;
    }
  }

  /** The client buffer covers this point of the window's content. */
  predicate InBuffer(w: Window, x: int, y: int) {
    && !w.buf.Null?
    && 0 <= x - w.x < w.w && x - w.x < w.bufW
    && 0 <= y - w.y - TitleBar(w) < w.h - TitleBar(w) && y - w.y - TitleBar(w) < w.bufH
  }

  function BufferColor(w: Window, mem: Memory, x: int, y: int): nat
    requires Readable(w, mem) && InBuffer(w, x, y)
  {
    var r, c := y - w.y - TitleBar(w), x - w.x;
    OffsetInside(w.bufStride, Rows(w), r, c, Cols(w));
    Word(mem[w.buf], r * w.bufStride + 4 * c)
  }

  /** The colour a window has at a point: its title bar, its buffer, or its placeholder. */
  function ColorAt(w: Window, focused: bool, mem: Memory, x: int, y: int): nat
    requires Readable(w, mem)
  {
    if HasSsd(w) && y < w.y + TITLEBAR_H then (if focused then COLOR_TB_FOCUS else COLOR_TB_PLAIN)
    else if InBuffer(w, x, y) then BufferColor(w, mem, x, y)
    else w.color
  }

  /** What the user would click on is what the user should see. */
  function ScreenColor(s: Stack, mem: Memory, x: int, y: int): nat
    requires AllReadable(s.ws, mem)
  {
    var i := At(s.ws, x, y);
    if i < 0 then COLOR_DESKTOP else ColorAt(s.ws[i], s.ws[i].id == s.focus, mem, x, y)
  }

  // ---- what the painter does ---------------------------------------------------------

  /** Does painting this window touch the point? The title bar is painted at its full height,
      whatever the height of the window. */
  predicate Paints(w: Window, x: int, y: int) {
    w.mapped && w.x <= x < w.x + w.w &&
    (w.y <= y < w.y + w.h || (HasSsd(w) && w.y <= y < w.y + TITLEBAR_H))
  }

  /** The point after the lowest n windows were painted over the desktop, bottom to top. */
  function PaintedUpTo(s: Stack, mem: Memory, n: nat, x: int, y: int): nat
    requires n <= |s.ws| && AllReadable(s.ws, mem)
  {
    if n == 0 then COLOR_DESKTOP
    else if Paints(s.ws[n - 1], x, y) then ColorAt(s.ws[n - 1], s.ws[n - 1].id == s.focus, mem, x, y)
    else PaintedUpTo(s, mem, n - 1, x, y)
  }

  /** The window's painted area is the area that can be clicked. */
  ghost predicate SeenAsClicked(w: Window) { forall x, y :: Paints(w, x, y) <==> Hit(w, x, y) }

  /** This holds exactly unless a visible window is too low for its own title bar. */
  lemma SeenAsClickedIff(w: Window)
    ensures SeenAsClicked(w) <==> !(w.mapped && HasSsd(w) && w.w >= 1 && w.h < TITLEBAR_H)
  {
    if w.mapped && HasSsd(w) && w.w >= 1 && w.h < TITLEBAR_H {
      assert Paints(w, w.x, w.y + TITLEBAR_H - 1) && !Hit(w, w.x, w.y + TITLEBAR_H - 1);
    }
  }

  predicate TitlesTall(ws: seq<Window>) {
    forall i | 0 <= i < |ws| :: !(ws[i].mapped && HasSsd(ws[i]) && ws[i].w >= 1 && ws[i].h < TITLEBAR_H)
  }

  /** Painting from the bottom to the top shows what the search from the top to the bottom finds. */
  lemma {:induction false} PaintedIsHit(s: Stack, mem: Memory, n: nat, x: int, y: int)
    requires n <= |s.ws| && AllReadable(s.ws, mem) && TitlesTall(s.ws)
    ensures var i := AtFrom(s.ws, x, y, n);
            PaintedUpTo(s, mem, n, x, y) ==
            if i < 0 then COLOR_DESKTOP else ColorAt(s.ws[i], s.ws[i].id == s.focus, mem, x, y)
  {
    if n > 0 {
      SeenAsClickedIff(s.ws[n - 1]);
      assert Paints(s.ws[n - 1], x, y) <==> Hit(s.ws[n - 1], x, y);
      PaintedIsHit(s, mem, n - 1, x, y);
    }
  }

  // ---- what a pixel shows, in full ---------------------------------------------------

  predicate Covers(w: Window, x: int, y: int) { w.mapped && w.x <= x < w.x + w.w && w.y <= y < w.y + w.h }

  /** Window i is the highest mapped one over the point. */
  predicate Topmost(ws: seq<Window>, i: nat, x: int, y: int) {
    i < |ws| && Covers(ws[i], x, y) && forall j | i < j < |ws| :: !Covers(ws[j], x, y)
  }

  predicate ServerDecorated(w: Window) { w.role.Normal? && !w.appDecorated }

  function BarHeight(w: Window): int { if ServerDecorated(w) then 28 else 0 }

  /** The pixel of the buffer at row r, column c is there: four bytes, least significant first. */
  predicate IsPixel(v: nat, bytes: seq<U8>, stride: int, r: int, c: int) {
    var off := r * stride + 4 * c;
    && 0 <= off && off + 4 <= |bytes|
    && v == bytes[off] as nat + 0x100 * bytes[off + 1] as nat + 0x10000 * bytes[off + 2] as nat + 0x1000000 * bytes[off + 3] as nat
  }

  /** v is the colour of window w at the point: in the 28 rows of its title bar, which only windows
      have that the server decorates, by whether it is focused; below it the pixel its buffer has
      there; and where the buffer does not reach, its placeholder. */
  predicate IsColorOf(v: nat, w: Window, focus: nat, mem: Memory, x: int, y: int) {
    var r, c := y - w.y - BarHeight(w), x - w.x;
    if r < 0 then v == if w.id == focus then 0x003a6fd0 else 0x00606060
    else if w.buf.Null? || r >= w.bufH || c >= w.bufW then v == w.color
    else w.buf in mem && IsPixel(v, mem[w.buf], w.bufStride, r, c)
  }

  lemma CoveredColor(w: Window, focus: nat, mem: Memory, x: int, y: int)
    requires Readable(w, mem) && Covers(w, x, y)
    ensures IsColorOf(ColorAt(w, w.id == focus, mem, x, y), w, focus, mem, x, y)
  {
    var r, c := y - w.y - TitleBar(w), x - w.x;
    if !(HasSsd(w) && y < w.y + TITLEBAR_H) && InBuffer(w, x, y) {
      OffsetInside(w.bufStride, Rows(w), r, c, Cols(w));
    }
  }

  /** Each pixel has the colour of the highest window over it, or the desktop's if there is none. */
  lemma ScreenSays(s: Stack, mem: Memory, x: int, y: int)
    requires AllReadable(s.ws, mem)
    ensures (forall i: nat | Topmost(s.ws, i, x, y) :: IsColorOf(ScreenColor(s, mem, x, y), s.ws[i], s.focus, mem, x, y))
    ensures (forall i | 0 <= i < |s.ws| :: !Covers(s.ws[i], x, y)) ==> ScreenColor(s, mem, x, y) == 0x00101820
  {
    hide ColorAt, IsColorOf;
    forall i: nat | Topmost(s.ws, i, x, y) ensures IsColorOf(ScreenColor(s, mem, x, y), s.ws[i], s.focus, mem, x, y) {
      assert At(s.ws, x, y) == i;
      CoveredColor(s.ws[i], s.focus, mem, x, y);
    }
  }

  /** Where something of the window is painted: its rectangle, and below its top edge all 28 rows of a
      title bar, even if it is lower than that. */
  predicate Touches(w: Window, x: int, y: int) {
    w.mapped && w.x <= x < w.x + w.w && (w.y <= y < w.y + w.h || (ServerDecorated(w) && w.y <= y < w.y + 28))
  }

  lemma TouchedColor(w: Window, focus: nat, mem: Memory, x: int, y: int)
    requires Readable(w, mem) && Touches(w, x, y)
    ensures IsColorOf(ColorAt(w, w.id == focus, mem, x, y), w, focus, mem, x, y)
  {
    hide ColorAt, IsColorOf, Readable;
    if Covers(w, x, y) { CoveredColor(w, focus, mem, x, y); } else { TitleColor(w, focus, mem, x, y); }
  }

  lemma TitleColor(w: Window, focus: nat, mem: Memory, x: int, y: int)
    requires Readable(w, mem) && Touches(w, x, y) && !Covers(w, x, y)
    ensures IsColorOf(ColorAt(w, w.id == focus, mem, x, y), w, focus, mem, x, y)
  {
  }

  /** The painter's loop leaves at each point the colour of the highest window that touches it, whatever
      the windows' heights, or the desktop's. */
  lemma {:induction false} PainterSays(s: Stack, mem: Memory, n: nat, i: int, x: int, y: int)
    requires n <= |s.ws| && AllReadable(s.ws, mem) && -1 <= i < n
    requires (i >= 0 ==> Touches(s.ws[i], x, y)) && forall j | i < j < n :: !Touches(s.ws[j], x, y)
    ensures var v := PaintedUpTo(s, mem, n, x, y);
            if i < 0 then v == 0x00101820 else IsColorOf(v, s.ws[i], s.focus, mem, x, y)
  {
    hide ColorAt, IsColorOf;
    if n > 0 {
      if i == n - 1 { TouchedColor(s.ws[i], s.focus, mem, x, y); } else { PainterSays(s, mem, n - 1, i, x, y); }
    }
  }
}
