/**
 * Program-RAM segmentation for ISPU memory writes. The ISPU program RAM
 * is reached through a window whose address must be selected again at
 * 0x2000, 0x4000 and 0x6000, so a write of `n` bytes from address `a` is
 * cut into segments at every such boundary inside [a, a + n).
 *
 * `Segments` is the reference definition: the cut points are `a` and the
 * boundaries in range, in ascending order. `SplitProgramRam` follows the
 * driver's loop over the bytes, with its two four-element arrays, and is
 * proved to compute the same segments.
 */
module RamSegments {

  /** One segment: an address select at `addr`, then `len` bytes. */
  datatype Seg = Seg(addr: nat, len: nat)

  /** The addresses at which the program-RAM window must be selected again. */
  predicate IsBoundary(x: nat)
  {
    x == 0x2000 || x == 0x4000 || x == 0x6000
  }

  /** `[x]` if `lo <= x < hi`, otherwise nothing. */
  function Within(lo: nat, x: nat, hi: nat): seq<nat>
  {
    if lo <= x < hi then [x] else []
  }

  /** Where segments start: `a`, then every boundary in [a, a + n) in ascending order. */
  function Cuts(a: nat, n: nat): (c: seq<nat>)
    ensures 1 <= |c| <= 4 && c[0] == a
    ensures forall i :: 0 <= i < |c| ==> a <= c[i] <= a + n
    ensures forall i :: 0 < i < |c| ==> IsBoundary(c[i]) && c[i] < a + n
    ensures forall i :: 0 < i < |c| ==> c[i - 1] <= c[i]
  {
    [a] + Within(a, 0x2000, a + n) + Within(a, 0x4000, a + n) + Within(a, 0x6000, a + n)
  }

  /** Where the segment starting at cut `i` ends: the next cut, or `a + n` for the last one. */
  function CutEnd(c: seq<nat>, i: nat, end: nat): nat
    requires i < |c|
  {
    if i + 1 < |c| then c[i + 1] else end
  }

  /** The reference segmentation of [a, a + n): one segment per cut. */
  function Segments(a: nat, n: nat): (s: seq<Seg>)
    ensures |s| == |Cuts(a, n)|
  {
    var c := Cuts(a, n);
    seq(|c|, i requires 0 <= i < |c| => Seg(c[i], CutEnd(c, i, a + n) - c[i]))
  }

  /** Total length of a list of segments. */
  function SumLens(s: seq<Seg>): nat
  {
    if s == [] then 0 else SumLens(s[..|s| - 1]) + s[|s| - 1].len
  }

  /** One more byte adds a cut exactly when that byte's address is a boundary. */
  lemma CutsStep(a: nat, i: nat)
    ensures IsBoundary(a + i) ==> Cuts(a, i + 1) == Cuts(a, i) + [a + i]
    ensures !IsBoundary(a + i) ==> Cuts(a, i + 1) == Cuts(a, i)
  {
  }

  /**
   * One more byte either opens a new one-byte segment at a boundary or
   * lengthens the last segment by one: the step the driver's loop takes.
   */
  lemma SegmentsStep(a: nat, i: nat)
    ensures var s, t := Segments(a, i), Segments(a, i + 1);
      && (IsBoundary(a + i) ==> t == s + [Seg(a + i, 1)])
      && (!IsBoundary(a + i) ==> t == s[..|s| - 1] + [Seg(s[|s| - 1].addr, s[|s| - 1].len + 1)])
  {
    if IsBoundary(a + i) {
      SegmentsStepAtBoundary(a, i);
    } else {
      SegmentsStepInside(a, i);
    }
  }

  lemma SegmentsStepAtBoundary(a: nat, i: nat)
    requires IsBoundary(a + i)
    ensures Segments(a, i + 1) == Segments(a, i) + [Seg(a + i, 1)]
  {
    var s, t := Segments(a, i), Segments(a, i + 1);
    var c, e := Cuts(a, i), Cuts(a, i + 1);
    CutsStep(a, i);
    assert e == c + [a + i];
    assert |t| == |s| + 1;
    forall k | 0 <= k < |t|
      ensures t[k] == (s + [Seg(a + i, 1)])[k]
    {
      if k < |s| {
        assert e[k] == c[k];
        assert CutEnd(e, k, a + i + 1) == CutEnd(c, k, a + i);
      }
    }
  }

  lemma SegmentsStepInside(a: nat, i: nat)
    requires !IsBoundary(a + i)
    ensures var s := Segments(a, i);
      Segments(a, i + 1) == s[..|s| - 1] + [Seg(s[|s| - 1].addr, s[|s| - 1].len + 1)]
  {
    var s, t := Segments(a, i), Segments(a, i + 1);
    CutsStep(a, i);
    assert Cuts(a, i + 1) == Cuts(a, i);
    var u := s[..|s| - 1] + [Seg(s[|s| - 1].addr, s[|s| - 1].len + 1)];
    assert |t| == |u|;
    forall k | 0 <= k < |t|
      ensures t[k] == u[k]
    {
    }
  }

  /**
   * Shape: between one and four segments, the first at `a`, every later
   * one at a boundary, each starting where the previous one ends, the
   * last ending at `a + n`.
   */
  lemma SegmentsShape(a: nat, n: nat)
    ensures var s := Segments(a, n);
      && 1 <= |s| <= 4
      && s[0].addr == a
      && (forall i :: 0 < i < |s| ==> IsBoundary(s[i].addr))
      && (forall i :: 0 < i < |s| ==> s[i].addr == s[i - 1].addr + s[i - 1].len)
      && s[|s| - 1].addr + s[|s| - 1].len == a + n
  {
  }

  /** No boundary lies strictly inside a segment. */
  lemma NoBoundaryInside(a: nat, n: nat, i: nat, x: nat)
    requires i < |Segments(a, n)|
    requires Segments(a, n)[i].addr < x < Segments(a, n)[i].addr + Segments(a, n)[i].len
    ensures !IsBoundary(x)
  {
  }

  /**
   * An empty write, or a non-empty one starting on a boundary, still has
   * an empty first segment at `a`: an address select followed by a write
   * of nothing.
   */
  lemma EmptyFirstSegment(a: nat, n: nat)
    ensures n == 0 ==> Segments(a, n) == [Seg(a, 0)]
    ensures IsBoundary(a) && n > 0 ==> |Segments(a, n)| >= 2 && Segments(a, n)[0] == Seg(a, 0) && Segments(a, n)[1].addr == a
  {
    if n == 0 {
      assert Cuts(a, 0) == [a];
    }
  }

  /** Every boundary inside [a, a + n) starts a segment of its own. */
  lemma BoundaryStartsSegment(a: nat, n: nat, x: nat)
    requires IsBoundary(x) && a <= x < a + n
    ensures exists i :: 0 < i < |Segments(a, n)| && Segments(a, n)[i].addr == x
  {
    var c := Cuts(a, n);
    var w := Within(a, 0x2000, a + n) + Within(a, 0x4000, a + n) + Within(a, 0x6000, a + n);
    assert c[1..] == w;
    assert x in w;
    var j :| 0 <= j < |w| && w[j] == x;
    assert Segments(a, n)[j + 1].addr == x;
  }

  lemma SumLensSnoc(s: seq<Seg>, g: Seg)
    ensures SumLens(s + [g]) == SumLens(s) + g.len
  {
    assert (s + [g])[..|s|] == s;
  }

  /** The segment lengths add up to the length written. */
  lemma {:induction false} SegmentsCover(a: nat, n: nat)
    ensures SumLens(Segments(a, n)) == n
  {
    if n == 0 {
      EmptyFirstSegment(a, 0);
      assert SumLens([Seg(a, 0)]) == SumLens([]) + 0 by { assert [Seg(a, 0)][..0] == []; }
    } else {
      var i := n - 1;
      SegmentsCover(a, i);
      SegmentsStep(a, i);
      var s := Segments(a, i);
      if IsBoundary(a + i) {
        SumLensSnoc(s, Seg(a + i, 1));
      } else {
        var init, last := s[..|s| - 1], s[|s| - 1];
        assert s == init + [last];
        SumLensSnoc(init, last);
        SumLensSnoc(init, Seg(last.addr, last.len + 1));
      }
    }
  }

  /**
   * The state of the driver's loop after `i` bytes: entries `0..j` of the
   * arrays hold the first `j` finished segments of [a, a + i), and the
   * open segment starts at `addrS[j]` and has `k` bytes so far.
   */
  ghost predicate LoopState(a: nat, i: nat, addrS: seq<nat>, lenS: seq<nat>, j: nat, k: nat)
  {
    && |addrS| == 4 && |lenS| == 4
    && j + 1 == |Segments(a, i)|
    && (forall t :: 0 <= t < j ==> Seg(addrS[t], lenS[t]) == Segments(a, i)[t])
    && Segments(a, i)[j] == Seg(addrS[j], k)
  }

  /** At a boundary the loop closes the open segment and opens a one-byte one; there is room for it. */
  lemma LoopStepAtBoundary(a: nat, i: nat, addrS: seq<nat>, lenS: seq<nat>, j: nat, k: nat)
    requires LoopState(a, i, addrS, lenS, j, k) && IsBoundary(a + i)
    ensures j + 1 < 4
    ensures LoopState(a, i + 1, addrS[j + 1 := a + i], lenS[j := k], j + 1, 1)
  {
    SegmentsStepAtBoundary(a, i);
  }

  /** Elsewhere the loop lengthens the open segment by one byte. */
  lemma LoopStepInside(a: nat, i: nat, addrS: seq<nat>, lenS: seq<nat>, j: nat, k: nat)
    requires LoopState(a, i, addrS, lenS, j, k) && !IsBoundary(a + i)
    ensures LoopState(a, i + 1, addrS, lenS, j, k + 1)
  {
    SegmentsStepInside(a, i);
  }

  /**
   * The driver's segmentation loop: `addrS` and `lenS` are its two
   * four-element arrays and `count` the number of entries used. It visits
   * every byte address `a + i`; at a boundary it closes the current
   * segment and opens a new one there.
   */
  method SplitProgramRam(a: nat, n: nat) returns (addrS: seq<nat>, lenS: seq<nat>, count: nat)
    requires a + n <= 0x10000
    ensures |addrS| == 4 && |lenS| == 4
    ensures count == |Segments(a, n)|
    ensures forall i :: 0 <= i < count ==> Seg(addrS[i], lenS[i]) == Segments(a, n)[i]
  {
    addrS := [a, 0, 0, 0];
    lenS := [0, 0, 0, 0];
    var j: nat := 0;
    var k: nat := 0;
    EmptyFirstSegment(a, 0);
    var i: nat := 0;
    while i < n
      invariant i <= n
      invariant LoopState(a, i, addrS, lenS, j, k)
    {
      if a + i == 0x2000 || a + i == 0x4000 || a + i == 0x6000 {
        LoopStepAtBoundary(a, i, addrS, lenS, j, k);
        lenS := lenS[j := k];
        j := j + 1;
        addrS := addrS[j := a + i];
        k := 0;
      } else {
        LoopStepInside(a, i, addrS, lenS, j, k);
      }
      k := k + 1;
      i := i + 1;
    }
    lenS := lenS[j := k];
    count := j + 1;
  }

  /**
   * The consecutive slices of `data` the segments take, in order: segment
   * `i` takes the bytes after those of the segments before it.
   */
  function Chunks<T>(s: seq<Seg>, data: seq<T>): (r: seq<seq<T>>)
    requires SumLens(s) <= |data|
    ensures |r| == |s|
    ensures forall i :: 0 <= i < |s| ==> |r[i]| == s[i].len
    ensures Flatten(r) == data[..SumLens(s)]
    decreases |s|
  {
    if s == [] then []
    else
      var init := s[..|s| - 1];
      var rest := Chunks(init, data);
      var off := SumLens(init);
      var piece := data[off..off + s[|s| - 1].len];
      FlattenSnoc(rest, piece);
      assert data[..off] + piece == data[..off + s[|s| - 1].len];
      rest + [piece]
  }

  /** The concatenation of a list of sequences. */
  function Flatten<T>(xs: seq<seq<T>>): seq<T>
  {
    if xs == [] then [] else Flatten(xs[..|xs| - 1]) + xs[|xs| - 1]
  }

  lemma FlattenSnoc<T>(xs: seq<seq<T>>, x: seq<T>)
    ensures Flatten(xs + [x]) == Flatten(xs) + x
  {
    assert (xs + [x])[..|xs|] == xs;
  }
}
