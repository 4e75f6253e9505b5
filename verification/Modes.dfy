/** Display modes: what the control socket advertises (src/control.c) and what a mode request
    selects (kms_set_mode_wh in src/platform.c). */
module Modes {
  import Windows

  type U16 = n: nat | n < 0x1_0000
  type U32 = n: nat | n < 0x1_0000_0000

  const MAX_MODES: nat := 64

  datatype Mode = Mode(
    hdisplay: U16, vdisplay: U16, htotal: U16, vtotal: U16, clock: U32, vrefresh: U32,
    interlaced: bool, preferred: bool)

  datatype Entry = Entry(w: U32, h: U32, refresh: U32, preferred: bool, current: bool)

  /** mode_refresh_mhz, in uint32_t. */
  function Refresh(m: Mode): U32 {
    if m.htotal != 0 && m.vtotal != 0 then ClockRefresh(m.clock, m.htotal, m.vtotal)
    else m.vrefresh * 1000 % 0x1_0000_0000
  }

  function ClockRefresh(clock: U32, htotal: U16, vtotal: U16): U32
    requires htotal != 0 && vtotal != 0
  {
    var total: nat := htotal * vtotal;
    if total == 0 then 0 else clock * 1000000 / total % 0x1_0000_0000
  }

  predicate Matches(m: Mode, w: int, h: int) { !m.interlaced && m.hdisplay == w && m.vdisplay == h }

  /** Refresh distance; a request of 0 accepts any refresh. */
  function Distance(m: Mode, refresh: U32): nat {
    var rm := Refresh(m);
    if refresh == 0 then 0 else if rm > refresh then rm - refresh else refresh - rm
  }

  /** The mode kms_set_mode_wh has settled on after looking at the first n modes, or -1. */
  function BestOf(modes: seq<Mode>, w: int, h: int, refresh: U32, n: nat): (best: int)
    requires n <= |modes|
    ensures -1 <= best < n
  {
    if n == 0 then -1
    else
      var b := BestOf(modes, w, h, refresh, n - 1);
      if Matches(modes[n - 1], w, h) && (b < 0 || Distance(modes[n - 1], refresh) < Distance(modes[b], refresh))
      then n - 1 else b
  }

  function Select(modes: seq<Mode>, w: int, h: int, refresh: U32): (best: int)
    ensures -1 <= best < |modes|
  {
    BestOf(modes, w, h, refresh, |modes|)
  }

  /** The first n modes have been searched for the first one that minimises the distance. */
  ghost predicate IsBest(modes: seq<Mode>, w: int, h: int, refresh: U32, n: nat, best: int)
    requires n <= |modes|
  {
    && (best < 0 ==> forall i | 0 <= i < n :: !Matches(modes[i], w, h))
    && (best >= 0 ==>
          && best < n && Matches(modes[best], w, h)
          && (forall i | 0 <= i < n && Matches(modes[i], w, h) :: Distance(modes[best], refresh) <= Distance(modes[i], refresh))
          && (forall i | 0 <= i < best && Matches(modes[i], w, h) :: Distance(modes[best], refresh) < Distance(modes[i], refresh)))
  }

  lemma {:induction false} BestOfIsBest(modes: seq<Mode>, w: int, h: int, refresh: U32, n: nat)
    requires n <= |modes|
    ensures IsBest(modes, w, h, refresh, n, BestOf(modes, w, h, refresh, n))
  {
    if n > 0 { BestOfIsBest(modes, w, h, refresh, n - 1); }
  }

  /** The modes advertised after looking at the first n: non-interlaced ones, at most 64. */
  function Listed(modes: seq<Mode>, cur: Mode, n: nat): (r: seq<Entry>)
    requires n <= |modes|
    ensures |r| <= MAX_MODES
  {
    if n == 0 then []
    else
      var r := Listed(modes, cur, n - 1);
      if |r| >= MAX_MODES || modes[n - 1].interlaced then r else r + [EntryOf(modes[n - 1], cur)]
  }

  function EntryOf(m: Mode, cur: Mode): Entry {
    Entry(m.hdisplay, m.vdisplay, Refresh(m), m.preferred,
          m.hdisplay == cur.hdisplay && m.vdisplay == cur.vdisplay && m.vrefresh == cur.vrefresh)
  }

  /** Every entry stands for a mode the connector has. */
  lemma {:induction false} ListedFrom(modes: seq<Mode>, cur: Mode, n: nat, e: nat) returns (i: nat)
    requires n <= |modes| && e < |Listed(modes, cur, n)|
    ensures i < n && !modes[i].interlaced && Listed(modes, cur, n)[e] == EntryOf(modes[i], cur)
  {
    if e < |Listed(modes, cur, n - 1)| { i := ListedFrom(modes, cur, n - 1, e); } else { i := n - 1; }
  }

  /** and the list is complete up to its capacity. */
  lemma {:induction false} ListedAll(modes: seq<Mode>, cur: Mode, n: nat, i: nat) returns (e: nat)
    requires i < n <= |modes| && !modes[i].interlaced && |Listed(modes, cur, i)| < MAX_MODES
    ensures e < |Listed(modes, cur, n)| && Listed(modes, cur, n)[e] == EntryOf(modes[i], cur)
  {
    if i == n - 1 { e := |Listed(modes, cur, i)|; } else { e := ListedAll(modes, cur, n - 1, i); }
  }

  /** Requesting any advertised mode, by its exact nonzero refresh, succeeds and selects a
      non-interlaced mode of exactly that size and refresh. */
  lemma AdvertisedIsSelectable(modes: seq<Mode>, cur: Mode, e: nat)
    requires e < |Listed(modes, cur, |modes|)| && Listed(modes, cur, |modes|)[e].refresh != 0
    ensures var a := Listed(modes, cur, |modes|)[e];
            var best := Select(modes, a.w, a.h, a.refresh);
            best >= 0 && !modes[best].interlaced && modes[best].hdisplay == a.w && modes[best].vdisplay == a.h
            && Refresh(modes[best]) == a.refresh
  {
    var a := Listed(modes, cur, |modes|)[e];
    var i := ListedFrom(modes, cur, |modes|, e);
    BestOfIsBest(modes, a.w, a.h, a.refresh, |modes|);
    assert Matches(modes[i], a.w, a.h) && Distance(modes[i], a.refresh) == 0;
  }

  /** Any size on the list is accepted without a refresh, and then the first such mode wins. */
  lemma AnyRefreshTakesFirst(modes: seq<Mode>, w: int, h: int)
    ensures var best := Select(modes, w, h, 0);
            if best < 0 then forall i | 0 <= i < |modes| :: !Matches(modes[i], w, h)
            else Matches(modes[best], w, h) && forall i | 0 <= i < best :: !Matches(modes[i], w, h)
  {
    BestOfIsBest(modes, w, h, 0, |modes|);
  }

  /** After a switch the new mode is one the next listing marks current. */
  lemma SelectedIsListedCurrent(modes: seq<Mode>, w: int, h: int, refresh: U32, best: nat) returns (e: nat)
    requires best < |modes| && Select(modes, w, h, refresh) == best && |Listed(modes, modes[best], best)| < MAX_MODES
    ensures e < |Listed(modes, modes[best], |modes|)|
    ensures var a := Listed(modes, modes[best], |modes|)[e]; a.current && a.w == w && a.h == h
  {
    BestOfIsBest(modes, w, h, refresh, |modes|);
    e := ListedAll(modes, modes[best], |modes|, best);
  }

  // ---- what the numbers mean --------------------------------------------------------

  /** The refresh of a mode with timings is its pixel rate over its frame size, in mHz, rounded down
      (the clock is in kHz); one without has what it says, in mHz. */
  lemma RefreshIsRate(m: Mode)
    requires m.htotal != 0 && m.vtotal != 0 && m.clock * 1000000 / (m.htotal * m.vtotal) < 0x1_0000_0000
    ensures Refresh(m) * (m.htotal * m.vtotal) <= m.clock * 1000000 < (Refresh(m) + 1) * (m.htotal * m.vtotal)
  {
    var total, rate := m.htotal * m.vtotal, m.clock * 1000000;
    Windows.MulAtLeast(m.htotal, m.vtotal);
    assert total > 0;
    assert Refresh(m) == rate / total;
    DivBounds(rate, total);
  }

  lemma DivBounds(v: nat, n: nat)
    requires n > 0
    ensures v / n * n <= v < (v / n + 1) * n
  {
    assert (v / n + 1) * n == v / n * n + n;
  }

  lemma UntimedRefresh(m: Mode)
    requires (m.htotal == 0 || m.vtotal == 0) && m.vrefresh < 4294967
    ensures Refresh(m) == m.vrefresh * 1000
  {
  }

  function Gap(a: int, b: int): nat { if a < b then b - a else a - b }

  /** What a request selects: a non-interlaced mode of exactly the size asked for; among those, the one
      whose refresh is nearest to a nonzero refresh asked for, and the first of several. */
  lemma SelectNearest(modes: seq<Mode>, w: int, h: int, refresh: U32, i: nat)
    requires refresh != 0 && i < |modes| && !modes[i].interlaced && modes[i].hdisplay == w && modes[i].vdisplay == h
    ensures var best := Select(modes, w, h, refresh);
            && best >= 0 && !modes[best].interlaced && modes[best].hdisplay == w && modes[best].vdisplay == h
            && Gap(Refresh(modes[best]), refresh) <= Gap(Refresh(modes[i]), refresh)
            && (i < best ==> Gap(Refresh(modes[best]), refresh) < Gap(Refresh(modes[i]), refresh))
  {
    hide Refresh;
    BestOfIsBest(modes, w, h, refresh, |modes|);
    assert Matches(modes[i], w, h);
  }

  /** How many of the first n modes are not interlaced. */
  function Progressive(modes: seq<Mode>, n: nat): nat
    requires n <= |modes|
  {
    if n == 0 then 0 else Progressive(modes, n - 1) + if modes[n - 1].interlaced then 0 else 1
  }

  /** The listing has one entry for each non-interlaced mode, in order, until its 64 places are taken;
      the entry says the mode's size and refresh, whether it is preferred, and whether it has the size
      and rate of the mode that is set. */
  lemma {:induction false} ListedSays(modes: seq<Mode>, cur: Mode, n: nat, i: nat)
    requires i < n <= |modes| && !modes[i].interlaced && Progressive(modes, i) < 64
    ensures |Listed(modes, cur, n)| == (if Progressive(modes, n) < 64 then Progressive(modes, n) else 64) > Progressive(modes, i)
    ensures var a, m := Listed(modes, cur, n)[Progressive(modes, i)], modes[i];
            && a.w == m.hdisplay && a.h == m.vdisplay && a.refresh == Refresh(m) && a.preferred == m.preferred
            && (a.current <==> m.hdisplay == cur.hdisplay && m.vdisplay == cur.vdisplay && m.vrefresh == cur.vrefresh)
  {
    hide Refresh;
    ListedSize(modes, cur, n);
    ListedSize(modes, cur, n - 1);
    ListedSize(modes, cur, i);
    if i < n - 1 { ListedSays(modes, cur, n - 1, i); }
  }

  lemma {:induction false} ListedSize(modes: seq<Mode>, cur: Mode, n: nat)
    requires n <= |modes|
    ensures |Listed(modes, cur, n)| == if Progressive(modes, n) < 64 then Progressive(modes, n) else 64
  {
    if n > 0 { ListedSize(modes, cur, n - 1); }
  }

  // ---- the two loops ---------------------------------------------------------------

  class Kms {
    var mode: Mode
    var blob: nat

    constructor (mode: Mode, blob: nat)
      ensures this.mode == mode && this.blob == blob
    {
      this.mode, this.blob := mode, blob;
    }

    /** kms_set_mode_wh over the connector's current modes; newBlob is 0 when the property blob
        cannot be created. */
    method SetModeWh(modes: seq<Mode>, w: int, h: int, refresh: U32, newBlob: nat) returns (ok: bool)
      modifies this
      ensures ok <==> (exists i :: 0 <= i < |modes| && Matches(modes[i], w, h)) && newBlob != 0
      ensures ok ==> Select(modes, w, h, refresh) >= 0 && mode == modes[Select(modes, w, h, refresh)] && blob == newBlob
      ensures !ok ==> mode == old(mode) && blob == old(blob)
    {
      var best := -1;
      var bestDiff := 0xffff_ffff;
      var newMode := mode;
      for i := 0 to |modes|
        invariant best == BestOf(modes, w, h, refresh, i)
        invariant best >= 0 ==> newMode == modes[best] && bestDiff == Distance(newMode, refresh)
        invariant mode == old(mode) && blob == old(blob)
      {
        var m := modes[i];
        if m.interlaced { continue; }
        if m.hdisplay != w || m.vdisplay != h { continue; }
        var rm := Refresh(m);
        var diff := if refresh != 0 then (if rm > refresh then rm - refresh else refresh - rm) else 0;
        if best < 0 || diff < bestDiff {
          best, bestDiff, newMode := i, diff, m;
        }
      }
      BestOfIsBest(modes, w, h, refresh, |modes|);
      if best < 0 { return false; }
      if newBlob == 0 { return false; }
      mode, blob := newMode, newBlob;
      return true;
    }

    /** The mode array handle_get_outputs fills in for one connector. */
    method GetOutputs(modes: seq<Mode>) returns (out: seq<Entry>)
      ensures out == Listed(modes, mode, |modes|)
    {
      var entries := new Entry[MAX_MODES](_ => Entry(0, 0, 0, false, false));
      var num := 0;
      var i := 0;
      while i < |modes| && num < MAX_MODES
        invariant 0 <= i <= |modes| && 0 <= num <= MAX_MODES
        invariant entries[..num] == Listed(modes, mode, i)
      {
        if !modes[i].interlaced {
          entries[num] := EntryOf(modes[i], mode);
          num := num + 1;
          assert entries[..num] == entries[..num - 1] + [entries[num - 1]];
        }
        i := i + 1;
      }
      FullListStays(modes, mode, i, |modes|);
      out := entries[..num];
    }
  }

  lemma {:induction false} FullListStays(modes: seq<Mode>, cur: Mode, i: nat, n: nat)
    requires i <= n <= |modes| && (i == n || |Listed(modes, cur, i)| >= MAX_MODES)
    ensures Listed(modes, cur, n) == Listed(modes, cur, i)
  {
    if i < n { FullListStays(modes, cur, i, n - 1); }
  }
}
