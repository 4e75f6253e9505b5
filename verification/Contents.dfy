/** The pixels of a Wayland window: what its client committed last, whatever else happens. */
module Contents {
  import opened Windows
  import opened Wayland
  import opened WaylandProofs
  import opened Pixels
  import opened Session
  import opened SessionProofs
  import Screens
  import Transport
  import WmPolicy

  // ---- the copy ----------------------------------------------------------------------------

  lemma RowPlace(n: nat, r: nat, h: nat)
    requires r < h
    ensures 0 <= r * n && r * n + n <= n * h
  {
    RowEnds(n, r, h);
  }

  /** Byte k of row r of the copy is byte k of row r of the client's buffer. */
  lemma {:induction false} TightAt(data: seq<U8>, stride: nat, n: nat, h: nat, r: nat, k: nat)
    requires (h > 0 ==> (h - 1) * stride + n <= |data|) && r < h && k < n
    ensures 0 <= r * n + k < n * h && 0 <= r * stride + k < |data|
    ensures Tight(data, stride, n, h)[r * n + k] == data[r * stride + k]
  {
    RowBefore(stride, h);
    RowPlace(n, r, h);
    assert n * h == n * (h - 1) + n;
    if r < h - 1 {
      RowPlace(n, r, h - 1);
      TightAt(data, stride, n, h - 1, r, k);
    } else {
      assert (h - 1) * n == n * (h - 1);
    }
  }

  lemma WordAt(a: seq<U8>, i: nat, b: seq<U8>, j: nat)
    requires i + 4 <= |a| && j + 4 <= |b|
    requires a[i] == b[j] && a[i + 1] == b[j + 1] && a[i + 2] == b[j + 2] && a[i + 3] == b[j + 3]
    ensures Word(a, i) == Word(b, j)
  {
  }

  lemma PixelTight(data: seq<U8>, stride: nat, w: nat, h: nat, r: nat, c: nat)
    requires (h - 1) * stride + 4 * w <= |data| && r < h && c < w
    ensures 0 <= r * (4 * w) && r * (4 * w) + 4 * c + 4 <= 4 * w * h && 0 <= r * stride && r * stride + 4 * c + 4 <= |data|
    ensures Word(Tight(data, stride, 4 * w, h), r * (4 * w) + 4 * c) == Word(data, r * stride + 4 * c)
  {
    hide Tight, Word;
    TightAt(data, stride, 4 * w, h, r, 4 * c);
    TightAt(data, stride, 4 * w, h, r, 4 * c + 1);
    TightAt(data, stride, 4 * w, h, r, 4 * c + 2);
    TightAt(data, stride, 4 * w, h, r, 4 * c + 3);
    RowPlace(4 * w, r, h);
    OffsetInside(stride, h, r, c, w);
    WordAt(Tight(data, stride, 4 * w, h), r * (4 * w) + 4 * c, data, r * stride + 4 * c);
  }

  /** So the pixel at row r, column c of the content is the client's pixel. */
  lemma PixelCopied(b: Buffer, r: nat, c: nat)
    requires b.Shm? && r < b.h && c < b.w
    ensures 0 <= r * (4 * b.w) && r * (4 * b.w) + 4 * c + 4 <= |Packed(b)|
    ensures 0 <= r * b.stride && r * b.stride + 4 * c + 4 <= |b.data|
    ensures Word(Packed(b), r * (4 * b.w) + 4 * c) == Word(b.data, r * b.stride + 4 * c)
  {
    hide Tight, Word;
    PixelTight(b.data, b.stride, b.w, b.h, r, c);
  }

  // ---- one commit --------------------------------------------------------------------------

  /** The surface holds exactly the pixels of the buffer. */
  predicate HoldsBuffer(f: Surface, b: Buffer) {
    b.Shm? && b.w > 0 && b.h > 0 && f.content.Heap? && f.cw == b.w && f.ch == b.h && f.pixels == Packed(b)
  }

  /** The commit copies the attached buffer: it is past the first one, and memory can be had. */
  predicate Copies(f: Surface, allocOk: bool) {
    && !(f.xdgSurface && !f.configured) && f.attached && f.pending.Attached?
    && var b := f.pending.buffer;
       b.Shm? && b.w > 0 && b.h > 0 && (allocOk || (f.cw == b.w && f.ch == b.h))
  }

  lemma MapHolds(f: Front, k: nat)
    requires k < |f.fe.surfaces|
    ensures |MapOrUpdate(f, k).fe.surfaces| == |f.fe.surfaces|
    ensures var a, b := f.fe.surfaces[k], MapOrUpdate(f, k).fe.surfaces[k];
            b.content == a.content && b.pixels == a.pixels && b.cw == a.cw && b.ch == a.ch
  {
    hide Create, Focus, Update;
  }

  lemma CommitCopies(f: Front, k: nat, allocOk: bool)
    requires k < |f.fe.surfaces| && Copies(f.fe.surfaces[k], allocOk)
    requires ContentOk(f.fe.surfaces[k], f.fe.heap)
    ensures |Commit(f, k, allocOk).fe.surfaces| == |f.fe.surfaces|
    ensures HoldsBuffer(Commit(f, k, allocOk).fe.surfaces[k], f.fe.surfaces[k].pending.buffer)
  {
    hide MapOrUpdate, Packed;
    var s := f.fe.surfaces[k];
    var taken := f.(fe := SetSurface(f.fe, k, s.(attached := false, pending := NoBuffer)));
    var copied := taken.(fe := CopyShm(taken.fe, k, s.pending.buffer, allocOk));
    MapHolds(copied, k);
  }

  /** Every content point of the surface's window shows the client's pixel. */
  predicate Shows(w: Window, focused: bool, mem: Pixels.Memory, b: Buffer, x: int, y: int)
    requires Readable(w, mem) && b.Shm? && Whole(b)
  {
    var r, c := y - w.y - TITLEBAR_H, x - w.x;
    0 <= r < b.h && 0 <= c < b.w && 0 <= r * b.stride && r * b.stride + 4 * c + 4 <= |b.data| &&
    ColorAt(w, focused, mem, x, y) == Word(b.data, r * b.stride + 4 * c)
  }

  lemma HoldsShows(s: Sys, k: nat, b: Buffer, mem: Pixels.Memory, focused: bool, x: int, y: int)
    requires SysOk(s) && Screens.Backed(s, mem) && k < |s.fe.surfaces| && s.fe.surfaces[k].serverId != 0
    requires HoldsBuffer(s.fe.surfaces[k], b)
    ensures var id := s.fe.surfaces[k].serverId;
            && id in View(s.st.ws) && Readable(View(s.st.ws)[id], mem)
            && (InBuffer(View(s.st.ws)[id], x, y) ==> Shows(View(s.st.ws)[id], focused, mem, b, x, y))
  {
    var f := s.fe.surfaces[k];
    Screens.SurfaceReads(s, mem, k);
    assert Linked(View(s.st.ws), f);
    var w := View(s.st.ws)[f.serverId];
    if InBuffer(w, x, y) { PixelCopied(b, y - w.y - TITLEBAR_H, x - w.x); }
  }

  /** A served commit: when the surface then has a window, every point of its visible content has the
      colour the client put there. */
  lemma CommitShows(s: Sys, k: nat, allocOk: bool, mem: Pixels.Memory, focused: bool, x: int, y: int)
    requires SysOk(s) && k < |s.fe.surfaces| && Copies(s.fe.surfaces[k], allocOk)
    requires Screens.Backed(Step(s, Wl(CommitSurface(k, allocOk))), mem)
    ensures var t, b := Step(s, Wl(CommitSurface(k, allocOk))), s.fe.surfaces[k].pending.buffer;
            && SysOk(t) && k < |t.fe.surfaces| && HoldsBuffer(t.fe.surfaces[k], b)
            && var id := t.fe.surfaces[k].serverId;
               id != 0 ==>
                 && id in View(t.st.ws) && Readable(View(t.st.ws)[id], mem)
                 && (InBuffer(View(t.st.ws)[id], x, y) ==> Shows(View(t.st.ws)[id], focused, mem, b, x, y))
  {
    hide Step, Commit, HoldsBuffer;
    var e := Wl(CommitSurface(k, allocOk));
    StepKeeps(s, e);
    CommitIs(s, k, allocOk);
    CommitCopies(FrontOf(s), k, allocOk);
    if Step(s, e).fe.surfaces[k].serverId != 0 { HoldsShows(Step(s, e), k, s.fe.surfaces[k].pending.buffer, mem, focused, x, y); }
  }

  lemma CommitIs(s: Sys, k: nat, allocOk: bool)
    requires k < |s.fe.surfaces|
    ensures Step(s, Wl(CommitSurface(k, allocOk))) == WithFront(s, Commit(FrontOf(s), k, allocOk))
  {
    hide Commit;
  }

  // ---- until the next one -------------------------------------------------------------------

  predicate SamePixels(a: Surface, b: Surface) {
    b.content == a.content && b.pixels == a.pixels && b.cw == a.cw && b.ch == a.ch
  }

  /** Where in the list surface j was before the request: a new surface goes to the front. */
  function Before(r: Wayland.Request, j: nat): int {
    match r
    case CreateSurface => j - 1
    case DestroySurface(k) => if j < k then j else j + 1
    case _ => j
  }

  /** The content of surface j is a new block, or it is that of one surface before, which is the same
      as it was unless the request is that surface's commit. */
  ghost predicate Descends(a: Frontend, b: Frontend, r: Wayland.Request, j: nat)
    requires j < |b.surfaces|
  {
    var c, i := b.surfaces[j].content, Before(r, j);
    c.Heap? && c.h < a.heap ==>
      && 0 <= i < |a.surfaces| && a.surfaces[i].content == c
      && (SamePixels(a.surfaces[i], b.surfaces[j]) || (r.CommitSurface? && r.k == i))
  }

  lemma CommitSizes(f: Front, k: nat, allocOk: bool)
    requires k < |f.fe.surfaces|
    ensures |Commit(f, k, allocOk).fe.surfaces| == |f.fe.surfaces| && Commit(f, k, allocOk).fe.heap >= f.fe.heap
    ensures var c := Commit(f, k, allocOk).fe.surfaces[k].content;
            c == f.fe.surfaces[k].content || c.Null? || c == Heap(f.fe.heap)
  {
    hide Create, Focus, Update, Destroy, Packed;
  }

  lemma OthersSame(f: Front, k: nat, allocOk: bool, j: nat)
    requires k < |f.fe.surfaces| && j < |f.fe.surfaces| && j != k
    ensures j < |Commit(f, k, allocOk).fe.surfaces| && Commit(f, k, allocOk).fe.surfaces[j] == f.fe.surfaces[j]
  {
    hide Create, Focus, Update, Destroy, Packed;
  }

  lemma ServeDescends(f: Front, r: Wayland.Request, j: nat)
    requires Names(f.fe, r) && j < |Serve(f, r).fe.surfaces|
    ensures Descends(f.fe, Serve(f, r).fe, r, j)
  {
    hide Commit, Destroy;
    match r
    case CommitSurface(k, allocOk) =>
      CommitSizes(f, k, allocOk);
      if j != k { OthersSame(f, k, allocOk, j); }
    case _ =>
  }

  /** Everything but Wayland requests leaves surfaces alone. */
  lemma QuietSurfaces(s: Sys, e: Session.Event)
    requires !e.Wl?
    ensures Step(s, e).fe.surfaces == s.fe.surfaces && Step(s, e).fe.heap == s.fe.heap
  {
    hide FitFrom, Transport.Receive, Transport.Drop, Transport.ExpireFrom, Transport.RouteKey, Transport.RoutePointer,
         Transport.NotifyFocus, Transport.NotifyGeometry, FocusCycle, WmPolicy.MotionAbs, WmPolicy.Button;
  }

  /** The event commits the surface that holds block h. */
  predicate CommitsOn(s: Sys, e: Session.Event, h: nat) {
    && e.Wl? && e.request.CommitSurface? && e.request.k < |s.fe.surfaces|
    && s.fe.surfaces[e.request.k].content == Heap(h)
  }

  lemma StepContent(s: Sys, e: Session.Event, h: nat, j: nat) returns (i: nat)
    requires !CommitsOn(s, e, h) && h < s.fe.heap
    requires j < |Step(s, e).fe.surfaces| && Step(s, e).fe.surfaces[j].content == Heap(h)
    ensures i < |s.fe.surfaces| && s.fe.surfaces[i].content == Heap(h)
    ensures SamePixels(s.fe.surfaces[i], Step(s, e).fe.surfaces[j])
  {
    hide Serve;
    i := j;
    if !e.Wl? { QuietSurfaces(s, e); }
    else if Enabled(s, e) {
      ServeDescends(FrontOf(s), e.request, j);
      i := Before(e.request, j);
    }
  }

  lemma HeapGrows(s: Sys, e: Session.Event)
    ensures Step(s, e).fe.heap >= s.fe.heap
  {
    hide Serve;
    if !e.Wl? { QuietSurfaces(s, e); }
    else if Enabled(s, e) {
      hide Step;
      ServeHeap(FrontOf(s), e.request);
      WlIs(s, e.request);
    }
  }

  lemma WlIs(s: Sys, r: Wayland.Request)
    requires Names(s.fe, r)
    ensures Step(s, Wl(r)) == WithFront(s, Serve(FrontOf(s), r))
  {
    hide Serve;
  }

  lemma ServeHeap(f: Front, r: Wayland.Request)
    requires Names(f.fe, r)
    ensures Serve(f, r).fe.heap >= f.fe.heap
  {
    hide Commit, Destroy;
    if r.CommitSurface? { CommitSizes(f, r.k, r.allocOk); }
  }

  predicate NoCommitOn(s: Sys, es: seq<Session.Event>, n: nat, h: nat)
    requires n <= |es|
  {
    n == 0 || (NoCommitOn(s, es, n - 1, h) && !CommitsOn(RunTo(s, es, n - 1), es[n - 1], h))
  }

  /** As long as its surface does not commit, a content block keeps its pixels through any run. */
  lemma {:induction false} ContentStays(s: Sys, es: seq<Session.Event>, n: nat, k: nat, h: nat, j: nat)
    requires n <= |es| && k < |s.fe.surfaces| && s.fe.surfaces[k].content == Heap(h) && h < s.fe.heap
    requires SurfacesApart(s.fe.surfaces) && NoCommitOn(s, es, n, h)
    ensures RunTo(s, es, n).fe.heap >= s.fe.heap
    ensures j < |RunTo(s, es, n).fe.surfaces| && RunTo(s, es, n).fe.surfaces[j].content == Heap(h) ==>
              SamePixels(s.fe.surfaces[k], RunTo(s, es, n).fe.surfaces[j])
  {
    hide Step, CommitsOn;
    if n > 0 {
      var u := RunTo(s, es, n - 1);
      ContentStays(s, es, n - 1, k, h, 0);
      HeapGrows(u, es[n - 1]);
      if j < |RunTo(s, es, n).fe.surfaces| && RunTo(s, es, n).fe.surfaces[j].content == Heap(h) {
        var i := StepContent(u, es[n - 1], h, j);
        ContentStays(s, es, n - 1, k, h, i);
      }
    }
  }

  /** So over any run: from a served commit until the surface commits again, whatever else happens,
      every visible point of the content of the window that shows it has the colour its client put
      there. */
  lemma LastCommitShows(s: Sys, k: nat, allocOk: bool, es: seq<Session.Event>, j: nat, mem: Pixels.Memory,
                        focused: bool, x: int, y: int)
    requires SysOk(s) && k < |s.fe.surfaces| && Copies(s.fe.surfaces[k], allocOk)
    requires var t := Step(s, Wl(CommitSurface(k, allocOk)));
             && k < |t.fe.surfaces| && t.fe.surfaces[k].content.Heap?
             && NoCommitOn(t, es, |es|, t.fe.surfaces[k].content.h)
             && j < |Run(t, es).fe.surfaces| && Run(t, es).fe.surfaces[j].content == t.fe.surfaces[k].content
             && Screens.Backed(Run(t, es), mem)
    ensures var u, b := Run(Step(s, Wl(CommitSurface(k, allocOk))), es), s.fe.surfaces[k].pending.buffer;
            var id := u.fe.surfaces[j].serverId;
            id != 0 ==>
              && id in View(u.st.ws) && Readable(View(u.st.ws)[id], mem)
              && (InBuffer(View(u.st.ws)[id], x, y) ==> Shows(View(u.st.ws)[id], focused, mem, b, x, y))
  {
    hide Step, Commit, CommitsOn, Shows;
    var e := Wl(CommitSurface(k, allocOk));
    var t, b := Step(s, e), s.fe.surfaces[k].pending.buffer;
    StepKeeps(s, e);
    CommitIs(s, k, allocOk);
    CommitCopies(FrontOf(s), k, allocOk);
    RunKeeps(t, es, |es|);
    assert ContentOk(t.fe.surfaces[k], t.fe.heap);
    ContentStays(t, es, |es|, k, t.fe.surfaces[k].content.h, j);
    if Run(t, es).fe.surfaces[j].serverId != 0 { HoldsShows(Run(t, es), j, b, mem, focused, x, y); }
  }
}
