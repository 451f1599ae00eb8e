/** `compute_peak_area`: the integrated area under a peak with a constant
    background removed. The index arithmetic follows numpy and Python:
    `searchsorted` as a left insertion point on a sorted Q, slices with negative
    and out-of-range bounds, `np.diff`, `np.mean` of an empty slice giving
    NaN, and the broadcasting rule of the final product. Floats are reals. */
module PeakArea {
  import opened PyCore

  /** A float64 result: a real number, or NaN. */
  datatype Num = Finite(value: real) | NaN

  function Sum(s: seq<real>): real
  {
    if s == [] then 0.0 else s[0] + Sum(s[1..])
  }

  /** `np.mean`: NaN for an empty sequence. */
  function Mean(s: seq<real>): (m: Num)
    ensures m.NaN? <==> s == []
  {
    if s == [] then NaN else Finite(Sum(s) / |s| as real)
  }

  /** `(a + b) / 2` on floats, NaN as soon as either operand is NaN. */
  function Midpoint(a: Num, b: Num): (m: Num)
    ensures m.NaN? <==> a.NaN? || b.NaN?
  {
    if a.Finite? && b.Finite? then Finite((a.value + b.value) / 2.0) else NaN
  }

  /** Every element of `s` plus `c` (`I + c` on an array). */
  function Shift(s: seq<real>, c: real): (r: seq<real>)
    ensures |r| == |s|
    ensures forall k :: 0 <= k < |s| ==> r[k] == s[k] + c
  {
    seq(|s|, k requires 0 <= k < |s| => s[k] + c)
  }

  predicate Sorted(q: seq<real>)
  {
    forall j, k :: 0 <= j <= k < |q| ==> q[j] <= q[k]
  }

  /** `np.searchsorted(q, x)` (side "left"): the least index whose value is
      at least `x`, or `|q|` when there is none. */
  function SearchSorted(q: seq<real>, x: real): (i: nat)
    ensures i <= |q|
    ensures forall k :: 0 <= k < i ==> q[k] < x
    ensures i < |q| ==> x <= q[i]
  {
    if q == [] || x <= q[0] then 0 else 1 + SearchSorted(q[1..], x)
  }

  /** `np.diff`: differences of neighbours. */
  function Diff(s: seq<real>): (d: seq<real>)
    ensures |d| == if s == [] then 0 else |s| - 1
    ensures forall k :: 0 <= k < |d| ==> d[k] == s[k + 1] - s[k]
  {
    if s == [] then [] else seq(|s| - 1, k requires 0 <= k < |s| - 1 => s[k + 1] - s[k])
  }

  /** The region of interest: `start, stop = np.searchsorted(Q, (q_start, q_stop))`
      followed by `stop += 1`. */
  datatype Region = Region(start: nat, stop: nat)

  function RegionOf(q: seq<real>, qStart: real, qStop: real): (r: Region)
    ensures r.start <= |q| && 1 <= r.stop <= |q| + 1
    ensures qStart <= qStop && Sorted(q) ==> r.start < r.stop
  {
    Region(SearchSorted(q, qStart), SearchSorted(q, qStop) + 1)
  }

  /** `I[start:stop]`, the intensities inside the region. */
  function Section(i: seq<real>, r: Region): seq<real>
  {
    PySlice(i, r.start, r.stop)
  }

  /** `np.diff(Q[start:stop + 1])`, the widths of the region's bins. */
  function BinWidths(q: seq<real>, r: Region): seq<real>
  {
    Diff(PySlice(q, r.start, r.stop + 1))
  }

  /** `(np.mean(I[start - 3:start]) + np.mean(I[stop:stop + 3])) / 2`. */
  function Background(i: seq<real>, r: Region): (bg: Num)
    ensures bg.NaN? <==> PySlice(i, r.start - 3, r.start) == [] || PySlice(i, r.stop, r.stop + 3) == []
    ensures r.start == 0 || |i| <= r.stop ==> bg.NaN?
  {
    Midpoint(Mean(PySlice(i, r.start - 3, r.start)), Mean(PySlice(i, r.stop, r.stop + 3)))
  }

  /** numpy broadcasts two one-dimensional arrays when their lengths agree
      or one of them has length 1. */
  predicate Broadcastable(a: nat, b: nat)
  {
    a == b || a == 1 || b == 1
  }

  function BroadcastLength(a: nat, b: nat): nat
    requires Broadcastable(a, b)
  {
    if a == b then a else if a == 1 then b else a
  }

  /** Element `k` of a broadcast operand. */
  function At(s: seq<real>, k: nat): real
    requires k < |s| || |s| == 1
  {
    if |s| == 1 then s[0] else s[k]
  }

  /** One bin's contribution: its intensity above the background times its width. */
  function Contribution(intensity: real, bg: real, width: real): real
  {
    (intensity - bg) * width
  }

  /** Raising the intensity and the background together leaves a bin's
      contribution unchanged. */
  lemma ContributionShift(intensity: real, bg: real, width: real, c: real)
    ensures Contribution(intensity + c, bg + c, width) == Contribution(intensity, bg, width)
  {
  }

  /** `(data_section - background) * dQ` for a finite background. */
  function Terms(section: seq<real>, bg: real, dq: seq<real>): (t: seq<real>)
    requires Broadcastable(|section|, |dq|)
    ensures |t| == BroadcastLength(|section|, |dq|)
  {
    var n := BroadcastLength(|section|, |dq|);
    seq(n, k requires 0 <= k < n => Contribution(At(section, k), bg, At(dq, k)))
  }

  /** `np.sum((data_section - background) * dQ)`: a broadcasting failure
      raises ValueError; an empty product sums to 0.0 even when the
      background is NaN; otherwise a NaN background makes the sum NaN. */
  function Integrate(section: seq<real>, bg: Num, dq: seq<real>): (a: Result<Num>)
    ensures a.Err? <==> !Broadcastable(|section|, |dq|)
    ensures a.Err? ==> a.error == ValueError
    ensures a == Ok(NaN) ==> bg.NaN?
    ensures (section == [] || dq == []) && a.Ok? ==> a.value == Finite(0.0)
  {
    if !Broadcastable(|section|, |dq|) then Err(ValueError)
    else if BroadcastLength(|section|, |dq|) == 0 then Ok(Finite(0.0))
    else if bg.NaN? then Ok(NaN)
    else Ok(Finite(Sum(Terms(section, bg.value, dq))))
  }

  /** `compute_peak_area(Q, I, q_start, q_stop)`. */
  function ComputePeakArea(q: seq<real>, i: seq<real>, qStart: real, qStop: real): (a: Result<Num>)
    ensures a.Err? ==> a.error == ValueError
    ensures |q| == |i| && RegionOf(q, qStart, qStop).stop < |q| ==> a.Ok?
    ensures a == Ok(NaN) ==> Background(i, RegionOf(q, qStart, qStop)).NaN?
  {
    var r := RegionOf(q, qStart, qStop);
    Integrate(Section(i, r), Background(i, r), BinWidths(q, r))
  }

  // ---------------------------------------------------------------------
  // Properties
  // ---------------------------------------------------------------------

  /** On a sorted `Q` the region is delimited by insertion points: `start`
      is where `q_start` would be inserted, `stop - 1` where `q_stop`
      would, and a non-empty window gives `start < stop`. */
  lemma {:induction false} RegionIsInsertionPoints(q: seq<real>, qStart: real, qStop: real)
    requires Sorted(q)
    ensures var r := RegionOf(q, qStart, qStop);
      && r.start <= |q| && 1 <= r.stop <= |q| + 1
      && (forall k :: 0 <= k < |q| ==> (k < r.start <==> q[k] < qStart))
      && (forall k :: 0 <= k < |q| ==> (k < r.stop - 1 <==> q[k] < qStop))
      && (qStart <= qStop ==> r.start < r.stop)
  {
    var r := RegionOf(q, qStart, qStop);
    forall k | 0 <= k < |q| ensures k < r.start <==> q[k] < qStart {
      if r.start <= k { assert q[r.start] <= q[k]; }
    }
    forall k | 0 <= k < |q| ensures k < r.stop - 1 <==> q[k] < qStop {
      if r.stop - 1 <= k { assert q[r.stop - 1] <= q[k]; }
    }
  }

  /** The reference formula for a peak that stays at least three samples
      away from both ends: the background is the mean of the three samples
      before `start` averaged with the mean of the three from `stop` on, and
      the area sums `(I[k] - bg) * (Q[k + 1] - Q[k])` over `start <= k < stop`. */
  function InteriorArea(q: seq<real>, i: seq<real>, r: Region): real
    requires 3 <= r.start <= |i| && r.stop + 3 <= |i| && r.stop + 1 <= |q|
  {
    var bg := InteriorBackground(i, r);
    Sum(ReferenceTerms(q, i, r, bg))
  }

  function InteriorBackground(i: seq<real>, r: Region): real
    requires 3 <= r.start <= |i| && r.stop + 3 <= |i|
  {
    (Sum(i[r.start - 3..r.start]) / 3.0 + Sum(i[r.stop..r.stop + 3]) / 3.0) / 2.0
  }

  lemma BackgroundInterior(i: seq<real>, r: Region)
    requires 3 <= r.start <= |i| && r.stop + 3 <= |i|
    ensures |PySlice(i, r.start - 3, r.start)| == 3 && |PySlice(i, r.stop, r.stop + 3)| == 3
    ensures Background(i, r) == Finite(InteriorBackground(i, r))
  {
    assert PySlice(i, r.start - 3, r.start) == i[r.start - 3..r.start];
    assert PySlice(i, r.stop, r.stop + 3) == i[r.stop..r.stop + 3];
  }

  lemma SectionsInterior(q: seq<real>, i: seq<real>, r: Region)
    requires r.start <= |i| && r.stop + 1 <= |i| && |q| == |i|
    ensures var n := if r.start <= r.stop then r.stop - r.start else 0;
      && |Section(i, r)| == n
      && |BinWidths(q, r)| == n
      && (forall k :: 0 <= k < n ==> Section(i, r)[k] == i[r.start + k])
      && (forall k :: 0 <= k < n ==> BinWidths(q, r)[k] == q[r.start + k + 1] - q[r.start + k])
  {
    if r.start <= r.stop {
      assert Section(i, r) == i[r.start..r.stop];
      assert PySlice(q, r.start, r.stop + 1) == q[r.start..r.stop + 1];
    }
  }

  /** The reference terms `(I[k] - bg) * (Q[k + 1] - Q[k])` for `start <= k < stop`. */
  function ReferenceTerms(q: seq<real>, i: seq<real>, r: Region, bg: real): (t: seq<real>)
    requires r.stop <= |i| && r.stop + 1 <= |q|
    ensures |t| == if r.start <= r.stop then r.stop - r.start else 0
  {
    var n := if r.start <= r.stop then r.stop - r.start else 0;
    seq(n, k requires 0 <= k < n => Contribution(i[r.start + k], bg, q[r.start + k + 1] - q[r.start + k]))
  }

  lemma TermsMatchReference(q: seq<real>, i: seq<real>, r: Region, bg: real)
    requires r.start <= |i| && r.stop + 1 <= |i| && |q| == |i|
    ensures Broadcastable(|Section(i, r)|, |BinWidths(q, r)|)
    ensures Terms(Section(i, r), bg, BinWidths(q, r)) == ReferenceTerms(q, i, r, bg)
  {
    SectionsInterior(q, i, r);
    var section, dq := Section(i, r), BinWidths(q, r);
    var n := |section|;
    assert |dq| == n;
    assert BroadcastLength(n, n) == n;
    var t := Terms(section, bg, dq);
    var ref := ReferenceTerms(q, i, r, bg);
    assert |t| == n == |ref|;
    forall k | 0 <= k < n ensures t[k] == ref[k] {
      assert At(section, k) == i[r.start + k];
      assert At(dq, k) == q[r.start + k + 1] - q[r.start + k];
    }
  }

  /** Away from the edges the slices line up: `I[start:stop]` and the bin
      widths taken from `Q[start:stop + 1]` both have `stop - start`
      elements, both background windows hold three samples, and the result
      is the finite reference area. */
  lemma InteriorRegion(q: seq<real>, i: seq<real>, qStart: real, qStop: real)
    requires |q| == |i|
    requires 3 <= RegionOf(q, qStart, qStop).start
    requires RegionOf(q, qStart, qStop).stop + 3 <= |i|
    ensures var r := RegionOf(q, qStart, qStop);
      var n := if r.start <= r.stop then r.stop - r.start else 0;
      && |Section(i, r)| == n
      && |BinWidths(q, r)| == n
      && |PySlice(i, r.start - 3, r.start)| == 3
      && |PySlice(i, r.stop, r.stop + 3)| == 3
      && ComputePeakArea(q, i, qStart, qStop) == Ok(Finite(InteriorArea(q, i, r)))
  {
    var r := RegionOf(q, qStart, qStop);
    BackgroundInterior(i, r);
    TermsMatchReference(q, i, r, InteriorBackground(i, r));
  }

  lemma {:induction false} SumShift(s: seq<real>, c: real)
    ensures Sum(Shift(s, c)) == Sum(s) + |s| as real * c
  {
    if s != [] {
      assert Shift(s, c)[1..] == Shift(s[1..], c);
      SumShift(s[1..], c);
    }
  }

  lemma MeanShift(s: seq<real>, c: real)
    ensures Mean(Shift(s, c)) == if s == [] then NaN else Finite(Mean(s).value + c)
  {
    if s != [] {
      SumShift(s, c);
      var n := |s| as real;
      assert (Sum(s) + n * c) / n == Sum(s) / n + c;
    }
  }

  lemma SliceShift(s: seq<real>, c: real, a: int, b: int)
    ensures PySlice(Shift(s, c), a, b) == Shift(PySlice(s, a, b), c)
  {
  }

  lemma BackgroundShift(i: seq<real>, r: Region, c: real)
    ensures var bg, bg' := Background(i, r), Background(Shift(i, c), r);
      (bg'.NaN? <==> bg.NaN?) && (bg.Finite? ==> bg'.value == bg.value + c)
  {
    SliceShift(i, c, r.start - 3, r.start);
    SliceShift(i, c, r.stop, r.stop + 3);
    MeanShift(PySlice(i, r.start - 3, r.start), c);
    MeanShift(PySlice(i, r.stop, r.stop + 3), c);
  }

  lemma IntegrateShift(section: seq<real>, bg: Num, dq: seq<real>, c: real)
    ensures Integrate(Shift(section, c), if bg.NaN? then NaN else Finite(bg.value + c), dq)
         == Integrate(section, bg, dq)
  {
    if bg.Finite? && Broadcastable(|section|, |dq|) {
      var section' := Shift(section, c);
      var t, t' := Terms(section, bg.value, dq), Terms(section', bg.value + c, dq);
      forall k | 0 <= k < |t| ensures t[k] == t'[k] {
        assert At(section', k) == At(section, k) + c;
        ContributionShift(At(section, k), bg.value, At(dq, k), c);
      }
      assert t == t';
    }
  }

  /** Adding a constant to every intensity leaves the area unchanged: the
      background moves by the same constant and cancels in
      `I[start:stop] - background`. This holds for every input, edge
      cases included (a NaN or a ValueError stays what it was). */
  lemma OffsetInvariance(q: seq<real>, i: seq<real>, c: real, qStart: real, qStop: real)
    ensures ComputePeakArea(q, Shift(i, c), qStart, qStop) == ComputePeakArea(q, i, qStart, qStop)
  {
    var r := RegionOf(q, qStart, qStop);
    BackgroundShift(i, r, c);
    SliceShift(i, c, r.start, r.stop);
    var bg := Background(i, r);
    IntegrateShift(Section(i, r), bg, BinWidths(q, r), c);
  }

  /** A region that starts at index 0 has an empty left background window
      (`I[-3:0]` is empty), so the result is NaN unless the product is empty. */
  lemma StartAtZeroGivesNaN(q: seq<real>, i: seq<real>, qStart: real, qStop: real)
    requires RegionOf(q, qStart, qStop).start == 0
    ensures var a := ComputePeakArea(q, i, qStart, qStop);
      a.Ok? ==> a.value == NaN || a.value == Finite(0.0)
  {
    var r := RegionOf(q, qStart, qStop);
    assert PySlice(i, r.start - 3, r.start) == [];
  }

  lemma ExampleRegion(q: seq<real>)
    requires q == [1.0, 2.0, 3.0, 4.0, 5.0, 6.0, 7.0, 8.0, 9.0, 10.0]
    ensures RegionOf(q, 3.5, 6.5) == Region(3, 7)
  {
    assert forall k :: 0 <= k < 3 ==> q[k] < 3.5;
    assert q[3] >= 3.5;
    assert forall k :: 0 <= k < 6 ==> q[k] < 6.5;
    assert q[6] >= 6.5;
  }

  lemma SumOfThree(a: real, b: real, c: real)
    ensures Sum([a, b, c]) == a + b + c
  {
    assert [c][1..] == [];
    assert Sum([c]) == c;
    assert [b, c][1..] == [c];
    assert Sum([b, c]) == b + c;
    assert [a, b, c][1..] == [b, c];
  }

  lemma SumOfFour(a: real, b: real, c: real, d: real)
    ensures Sum([a, b, c, d]) == a + b + c + d
  {
    assert [a, b, c, d][1..] == [b, c, d];
    SumOfThree(b, c, d);
  }

  /** The worked example: a triangular peak on a flat zero background over
      `Q = 1..10`, window (3.5, 6.5): start 3, stop 7, background 0, and
      four unit-width bins holding 5, 10, 10, 5. */
  lemma WorkedExample(q: seq<real>, i: seq<real>)
    requires q == [1.0, 2.0, 3.0, 4.0, 5.0, 6.0, 7.0, 8.0, 9.0, 10.0]
    requires i == [0.0, 0.0, 0.0, 5.0, 10.0, 10.0, 5.0, 0.0, 0.0, 0.0]
    ensures ComputePeakArea(q, i, 3.5, 6.5) == Ok(Finite(30.0))
  {
    ExampleRegion(q);
    var r := Region(3, 7);
    InteriorRegion(q, i, 3.5, 6.5);
    assert i[0..3] == [0.0, 0.0, 0.0];
    assert i[7] == 0.0 && i[8] == 0.0 && i[9] == 0.0;
    assert i[7..10] == [0.0, 0.0, 0.0];
    SumOfThree(0.0, 0.0, 0.0);
    assert InteriorBackground(i, r) == 0.0;
    var terms := ReferenceTerms(q, i, r, 0.0);
    assert terms == [5.0, 10.0, 10.0, 5.0];
    SumOfFour(5.0, 10.0, 10.0, 5.0);
  }
}
