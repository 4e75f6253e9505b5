/** The CPU compositor of src/server.c: clipped loops over a framebuffer, proved to show exactly
    what module Pixels says each pixel should show. */
module FrameBuffers {
  import opened Windows
  import opened Pixels
  import opened Cursors
  import opened SceneBasics
  import opened Transport
  import opened WindowStacks

  lemma IndexInside(x: nat, y: nat, w: nat, h: nat, pitch: nat)
    requires x < w <= pitch && y < h
    ensures 0 <= y * pitch + x < pitch * h
  {
    RowEnds(pitch, y, h);
  }

  lemma IndexUnique(x: nat, y: nat, a: nat, b: nat, pitch: nat)
    requires x < pitch && a < pitch && y * pitch + x == b * pitch + a
    ensures x == a && y == b
  {
    if y > b { RowEnds(pitch, b, y); }
    if y < b { RowEnds(pitch, y, b); }
  }

  /** struct dumb_fb: pitch is the stride in 32-bit words. */
  class FrameBuffer {
    const w: nat
    const h: nat
    const pitch: nat
    const words: array<nat>

    ghost predicate Valid() { w <= pitch && words.Length == pitch * h }

    predicate Inside(x: int, y: int) { 0 <= x < w && 0 <= y < h }

    function Pixel(x: int, y: int): nat
      requires Valid() && Inside(x, y)
      reads words
    {
      IndexInside(x, y, w, h, pitch);
      words[y * pitch + x]
    }

    constructor (w: nat, h: nat, pitch: nat)
      requires w <= pitch
      ensures Valid() && this.w == w && this.h == h && this.pitch == pitch && fresh(words)
    {
      this.w, this.h, this.pitch := w, h, pitch;
      words := new nat[pitch * h](_ => 0);
    }

    /** row[x] = color */
    method Put(x: int, y: int, color: nat)
      requires Valid() && Inside(x, y)
      modifies words
      ensures forall a, b | Inside(a, b) :: Pixel(a, b) == if a == x && b == y then color else old(Pixel(a, b))
    {
      IndexInside(x, y, w, h, pitch);
      words[y * pitch + x] := color;
      forall a, b | Inside(a, b) ensures Pixel(a, b) == if a == x && b == y then color else old(Pixel(a, b)) {
        IndexInside(a, b, w, h, pitch);
        if b * pitch + a == y * pitch + x { IndexUnique(a, b, x, y, pitch); }
      }
    }

    method FillRect(x: int, y: int, rw: int, rh: int, color: nat)
      requires Valid()
      modifies words
      ensures forall a, b | Inside(a, b) ::
                Pixel(a, b) == if x <= a < x + rw && y <= b < y + rh then color else old(Pixel(a, b))
    {
      var x0, y0 := if x < 0 then 0 else x, if y < 0 then 0 else y;
      var x1, y1 := if x + rw > w then w else x + rw, if y + rh > h then h else y + rh;
      var yy := y0;
      while yy < y1
        invariant y0 <= yy && (yy <= y1 || yy == y0)
        invariant forall a, b | Inside(a, b) ::
                    Pixel(a, b) == if x0 <= a < x1 && y0 <= b < yy then color else old(Pixel(a, b))
      {
        var xx := x0;
        while xx < x1
          invariant x0 <= xx && (xx <= x1 || xx == x0)
          invariant forall a, b | Inside(a, b) ::
                      Pixel(a, b) == if x0 <= a < x1 && (y0 <= b < yy || (b == yy && a < xx)) then color else old(Pixel(a, b))
        {
          Put(xx, yy, color);
          xx := xx + 1;
        }
        yy := yy + 1;
      }
    }

    /** The buffer's pixels over the window's content, clipped to both and to the screen. */
    method BlitBuffer(win: Window, mem: Memory)
      requires Valid() && Readable(win, mem) && !win.buf.Null?
      modifies words
      ensures forall a, b | Inside(a, b) ::
                Pixel(a, b) == if InBuffer(win, a, b) then BufferColor(win, mem, a, b) else old(Pixel(a, b))
    {
      var cy0 := TitleBar(win);
      var dstY0, contentH := win.y + cy0, win.h - cy0;
      var rows := if contentH < win.bufH then contentH else win.bufH;
      var cols := if win.w < win.bufW then win.w else win.bufW;
      var r := 0;
      while r < rows
        invariant 0 <= r && (r <= rows || r == 0)
        invariant forall a, b | Inside(a, b) ::
                    Pixel(a, b) == if InBuffer(win, a, b) && b - dstY0 < r then BufferColor(win, mem, a, b) else old(Pixel(a, b))
      {
        var y := dstY0 + r;
        if 0 <= y < h {
          var c := 0;
          while c < cols
            invariant 0 <= c && (c <= cols || c == 0)
            invariant forall a, b | Inside(a, b) ::
                        Pixel(a, b) == if InBuffer(win, a, b) && (b < y || (b == y && a - win.x < c))
                                       then BufferColor(win, mem, a, b) else old(Pixel(a, b))
          {
            var x := win.x + c;
            if 0 <= x < w {
              OffsetInside(win.bufStride, rows, r, c, cols);
              Put(x, y, Word(mem[win.buf], r * win.bufStride + 4 * c));
            }
            c := c + 1;
          }
        }
        r := r + 1;
      }
    }

    /** One round of composite's loop. */
    method PaintWindow(win: Window, focused: bool, mem: Memory)
      requires Valid() && Readable(win, mem)
      modifies words
      ensures forall a, b | Inside(a, b) ::
                Pixel(a, b) == if Paints(win, a, b) then ColorAt(win, focused, mem, a, b) else old(Pixel(a, b))
    {
      if !win.mapped { return; }
      var cy0 := TitleBar(win);
      if HasSsd(win) { FillRect(win.x, win.y, win.w, TITLEBAR_H, if focused then COLOR_TB_FOCUS else COLOR_TB_PLAIN); }
      FillRect(win.x, win.y + cy0, win.w, win.h - cy0, win.color);
      if !win.buf.Null? { BlitBuffer(win, mem); }
    }

    /** The loop of composite: every pixel shows the colour that the window under it has
        there, where "under it" is what a click at that pixel would hit. */
    method PaintWindows(s: WindowStack, mem: Memory)
      requires Valid() && s.Valid() && AllReadable(s.S().ws, mem)
      modifies words
      ensures forall a, b | Inside(a, b) :: Pixel(a, b) == PaintedUpTo(s.S(), mem, |s.S().ws|, a, b)
      ensures TitlesTall(s.S().ws) ==> forall a, b | Inside(a, b) :: Pixel(a, b) == ScreenColor(s.S(), mem, a, b)
    {
      FillRect(0, 0, w, h, COLOR_DESKTOP);
      var i := 0;
      while i < s.count
        invariant 0 <= i <= s.count
        invariant forall a, b | Inside(a, b) :: Pixel(a, b) == PaintedUpTo(s.S(), mem, i, a, b)
      {
        PaintWindow(s.windows[i], s.windows[i].id == s.focusId, mem);
        i := i + 1;
      }
      if TitlesTall(s.S().ws) {
        forall a, b | Inside(a, b) ensures Pixel(a, b) == ScreenColor(s.S(), mem, a, b) {
          PaintedIsHit(s.S(), mem, |s.S().ws|, a, b);
        }
      }
    }
  
    method DrawCustom(cur: Cursor, cx: int, cy: int)
      requires Valid() && CursorOk(cur) && cur.custom && !cur.hidden
      modifies words
      ensures forall a, b | Inside(a, b) :: Pixel(a, b) == UnderCursor(cur, cx, cy, a, b, old(Pixel(a, b)))
    {
      var ox, oy := cx - cur.hotX, cy - cur.hotY;
      var r := 0;
      while r < cur.h
        invariant 0 <= r <= cur.h
        invariant forall a, b | Inside(a, b) ::
                    Pixel(a, b) == if b - oy < r then UnderCursor(cur, cx, cy, a, b, old(Pixel(a, b))) else old(Pixel(a, b))
      {
        var y := oy + r;
        if 0 <= y < h {
          var c := 0;
          while c < cur.w
            invariant 0 <= c <= cur.w
            invariant forall a, b | Inside(a, b) ::
                        Pixel(a, b) == if b < y || (b == y && a - ox < c)
                                       then UnderCursor(cur, cx, cy, a, b, old(Pixel(a, b))) else old(Pixel(a, b))
          {
            var x := ox + c;
            if 0 <= x < w {
              ShapeIndex(r, c, cur.w, cur.h);
              var px, d := cur.argb[r * cur.w + c], Pixel(x, y);
              var alpha := Alpha(px);
              if alpha == 0xff {
                Put(x, y, px % 0x1000000);
              } else if alpha != 0 {
                Put(x, y, Pack(Channel(Byte(px, 2), Byte(d, 2), alpha),
                               Channel(Byte(px, 1), Byte(d, 1), alpha),
                               Channel(Byte(px, 0), Byte(d, 0), alpha)));
              }
            }
            c := c + 1;
          }
        }
        r := r + 1;
      }
    }

    method DrawArrow(cur: Cursor, cx: int, cy: int)
      requires Valid() && CursorOk(cur) && !cur.custom && !cur.hidden
      modifies words
      ensures forall a, b | Inside(a, b) :: Pixel(a, b) == UnderCursor(cur, cx, cy, a, b, old(Pixel(a, b)))
    {
      hide ArrowAt;
      var r := 0;
      while r < ARROW_H
        invariant 0 <= r <= ARROW_H
        invariant forall a, b | Inside(a, b) ::
                    Pixel(a, b) == if b - cy < r then UnderCursor(cur, cx, cy, a, b, old(Pixel(a, b))) else old(Pixel(a, b))
      {
        var c := 0;
        while c < ARROW_W
          invariant 0 <= c <= ARROW_W
          invariant forall a, b | Inside(a, b) ::
                      Pixel(a, b) == if b - cy < r || (b - cy == r && a - cx < c)
                                     then UnderCursor(cur, cx, cy, a, b, old(Pixel(a, b))) else old(Pixel(a, b))
        {
          var p, x, y := ArrowAt(r, c), cx + c, cy + r;
          if p != ' ' && 0 <= x < w && 0 <= y < h {
            Put(x, y, if p == 'X' then 0x00000000 else 0x00ffffff);
          }
          c := c + 1;
        }
        r := r + 1;
      }
    }

    /** draw_cursor changes the pixels under the visible part of the shape, and no others. */
    method DrawCursor(cur: Cursor, cx: int, cy: int)
      requires Valid() && CursorOk(cur)
      modifies words
      ensures forall a, b | Inside(a, b) :: Pixel(a, b) == UnderCursor(cur, cx, cy, a, b, old(Pixel(a, b)))
    {
      if cur.hidden { return; }
      if cur.custom { DrawCustom(cur, cx, cy); } else { DrawArrow(cur, cx, cy); }
    }
  
    /** composite: the windows, then the cursor over them. */
    method Composite(s: WindowStack, mem: Memory, cur: Cursor, cx: int, cy: int)
      requires Valid() && s.Valid() && AllReadable(s.S().ws, mem) && CursorOk(cur)
      modifies words
      ensures forall a, b | Inside(a, b) ::
                Pixel(a, b) == UnderCursor(cur, cx, cy, a, b, PaintedUpTo(s.S(), mem, |s.S().ws|, a, b))
      ensures TitlesTall(s.S().ws) ==> forall a, b | Inside(a, b) ::
                Pixel(a, b) == UnderCursor(cur, cx, cy, a, b, ScreenColor(s.S(), mem, a, b))
    {
      hide UnderCursor, ScreenColor, PaintedUpTo;
      PaintWindows(s, mem);
      DrawCursor(cur, cx, cy);
    }
  }
}
