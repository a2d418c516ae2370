/** The masked index functions of the slice_scatter and constant_pad_nd lowerings
    (torch_npu/_inductor/lowering_fx.py).  Tensors are partial functions defined on their box only, so an
    out-of-range read would not be well-formed. */
module IndexLowering {
  import opened Basics

  type Index = seq<int>

  ghost predicate InBox(x: Index, sizes: seq<int>) {
    |x| == |sizes| && forall i :: 0 <= i < |x| ==> 0 <= x[i] < sizes[i]
  }

  /** t can be read everywhere in the box. */
  ghost predicate Readable<V>(t: Index --> V, sizes: seq<int>) {
    forall x :: InBox(x, sizes) ==> t.requires(x)
  }

  /** functools.reduce(ops.and_, masks) */
  predicate AndAll(masks: seq<bool>) {
    forall i :: 0 <= i < |masks| ==> masks[i]
  }

  // ----- slice_scatter -----

  /** A slice of dimension dim, after normalize_start_end. */
  datatype Slice = Slice(dim: nat, start: int, end: int, step: int)

  ghost predicate Normalised(s: Slice, sizes: seq<int>) {
    s.dim < |sizes| && 0 <= s.start <= s.end <= sizes[s.dim] && s.step >= 1
  }

  /** src_size[dim] */
  function SrcLength(s: Slice): int
    requires s.step >= 1
  {
    (s.end - s.start + (s.step - 1)) / s.step
  }

  function SrcSizes(s: Slice, sizes: seq<int>): seq<int>
    requires s.dim < |sizes| && s.step >= 1
  {
    sizes[s.dim := SrcLength(s)]
  }

  /** The masks that are not dropped. */
  function SliceMasks(s: Slice, dimSize: int, i: int): seq<bool>
    requires s.step >= 1
  {
    (if s.start != 0 then [i >= s.start] else []) +
    (if s.end != dimSize then [i < s.end] else []) +
    (if s.step != 1 then [(i - s.start) % s.step == 0] else [])
  }

  /** Position i belongs to the slice, as its k-th element. */
  ghost predicate Hits(s: Slice, i: int, k: int)
    requires s.step >= 1
  {
    0 <= k < SrcLength(s) && i == s.start + k * s.step
  }

  /** The slice has as many elements as there are steps before its end. */
  lemma LengthCountsSteps(s: Slice, k: int)
    requires s.step >= 1 && k >= 0 && s.start <= s.end
    ensures k < SrcLength(s) <==> s.start + k * s.step < s.end
  {
    var n, d := s.end - s.start, s.step;
    var q, r := (n + (d - 1)) / d, (n + (d - 1)) % d;
    assert n + (d - 1) == q * d + r;
    if k < q {
      assert k * d <= (q - 1) * d by { MulMono(k, q - 1, d); }
      assert (q - 1) * d == q * d - d;
    } else {
      assert q * d <= k * d by { MulMono(q, k, d); }
    }
  }

  lemma MulMono(a: int, b: int, d: int)
    requires a <= b && d >= 0
    ensures a * d <= b * d
  {
  }

  lemma DivisionOf(s: Slice, i: int)
    requires s.step >= 1
    ensures i == s.start + (i - s.start) / s.step * s.step + (i - s.start) % s.step
  {
  }

  lemma UniqueQuotient(d: int, k: int, m: int)
    requires d >= 1 && m == k * d
    ensures m / d == k && m % d == 0
  {
    var q, r := m / d, m % d;
    assert m == q * d + r;
    assert (k - q) * d == r;
    if k > q {
      MulMono(1, k - q, d);
    } else if k < q {
      MulMono(k - q, -1, d);
    }
  }

  /** The masks hold together exactly on the slice; where they do, the quotient is the slice position. */
  lemma MasksAre(s: Slice, dimSize: int, i: int)
    requires 0 <= s.start <= s.end <= dimSize && s.step >= 1 && 0 <= i < dimSize
    ensures AndAll(SliceMasks(s, dimSize, i)) <==> s.start <= i < s.end && (i - s.start) % s.step == 0
    ensures AndAll(SliceMasks(s, dimSize, i)) ==> Hits(s, i, (i - s.start) / s.step)
    ensures forall k :: Hits(s, i, k) ==> AndAll(SliceMasks(s, dimSize, i)) && k == (i - s.start) / s.step
    ensures SliceMasks(s, dimSize, i) == [] <==> s.start == 0 && s.end == dimSize && s.step == 1
  {
    MaskList(s, dimSize, i);
    var q := (i - s.start) / s.step;
    DivisionOf(s, i);
    if s.start <= i < s.end && (i - s.start) % s.step == 0 {
      LengthCountsSteps(s, q);
    }
    forall k | Hits(s, i, k) ensures s.start <= i < s.end && (i - s.start) % s.step == 0 && k == q {
      LengthCountsSteps(s, k);
      UniqueQuotient(s.step, k, i - s.start);
      MulMono(0, k, s.step);
    }
  }

  lemma MaskList(s: Slice, dimSize: int, i: int)
    requires 0 <= s.start <= s.end <= dimSize && s.step >= 1 && 0 <= i < dimSize
    ensures AndAll(SliceMasks(s, dimSize, i)) <==> s.start <= i < s.end && (i - s.start) % s.step == 0
  {
    var a := if s.start != 0 then [i >= s.start] else [];
    var b := if s.end != dimSize then [i < s.end] else [];
    var c := if s.step != 1 then [(i - s.start) % s.step == 0] else [];
    OneMask(s.start != 0, i >= s.start);
    OneMask(s.end != dimSize, i < s.end);
    OneMask(s.step != 1, (i - s.start) % s.step == 0);
    AndConcat(a, b);
    AndConcat(a + b, c);
  }

  /** A mask that may be dropped. */
  lemma OneMask(keep: bool, b: bool)
    ensures AndAll(if keep then [b] else []) <==> (keep ==> b)
  {
    assert [b][0] == b;
  }

  lemma AndConcat(a: seq<bool>, b: seq<bool>)
    ensures AndAll(a + b) <==> AndAll(a) && AndAll(b)
  {
    if AndAll(a + b) {
      assert forall i :: 0 <= i < |a| ==> a[i] == (a + b)[i];
      assert forall i :: 0 <= i < |b| ==> b[i] == (a + b)[|a| + i];
    }
  }

  /** inner_fn of slice_scatter: None stands for the error raised when no mask is left. */
  function SliceScatter<V>(x: Index --> V, src: Index --> V, zero: V, s: Slice, sizes: seq<int>,
                           idx: Index): (r: Option<V>)
    requires Normalised(s, sizes) && InBox(idx, sizes)
    requires Readable(x, sizes) && Readable(src, SrcSizes(s, sizes))
  {
    var i := idx[s.dim];
    MasksAre(s, sizes[s.dim], i);
    if s.start == 0 && s.end == sizes[s.dim] && s.step == 1 then
      Some(src(idx))
    else
      var masks := SliceMasks(s, sizes[s.dim], i);
      if masks == [] then None
      else
        var mask := AndAll(masks);
        var srcVal := if mask then src(idx[s.dim := (i - s.start) / s.step]) else zero;
        Some(if mask then srcVal else x(idx))
  }

  /** The lowering never fails, takes source element k exactly at start + k * step, and x everywhere else. */
  lemma SliceScatterMeets<V>(x: Index --> V, src: Index --> V, zero: V, s: Slice, sizes: seq<int>, idx: Index)
    requires Normalised(s, sizes) && InBox(idx, sizes)
    requires Readable(x, sizes) && Readable(src, SrcSizes(s, sizes))
    ensures var r := SliceScatter(x, src, zero, s, sizes, idx);
      && r.Some?
      && (forall k :: Hits(s, idx[s.dim], k) ==>
            InBox(idx[s.dim := k], SrcSizes(s, sizes)) && r.value == src(idx[s.dim := k]))
      && ((forall k :: !Hits(s, idx[s.dim], k)) ==> r.value == x(idx))
  {
    var i := idx[s.dim];
    MasksAre(s, sizes[s.dim], i);
    assert idx[s.dim := i] == idx;
  }

  /** Slicing the result again returns the source. */
  lemma ResliceReturnsSource<V>(x: Index --> V, src: Index --> V, zero: V, s: Slice, sizes: seq<int>, j: Index)
    requires Normalised(s, sizes) && InBox(j, SrcSizes(s, sizes))
    requires Readable(x, sizes) && Readable(src, SrcSizes(s, sizes))
    ensures var idx := j[s.dim := s.start + j[s.dim] * s.step];
      InBox(idx, sizes) && SliceScatter(x, src, zero, s, sizes, idx) == Some(src(j))
  {
    var k := j[s.dim];
    var idx := j[s.dim := s.start + k * s.step];
    LengthCountsSteps(s, k);
    MulMono(0, k, s.step);
    assert InBox(idx, sizes);
    SliceScatterMeets(x, src, zero, s, sizes, idx);
    assert Hits(s, idx[s.dim], k) && idx[s.dim := k] == j;
  }

  // ----- constant_pad_nd -----

  /** bounds: pairs of paddings, first the one of the outermost padded dimension. */
  function Bounds(padding: seq<int>): (r: seq<(int, int)>)
    requires |padding| % 2 == 0
    ensures |r| == |padding| / 2
  {
    var b := |padding| / 2;
    seq(b, i requires 0 <= i < b => (padding[2 * (b - 1 - i)], padding[2 * (b - 1 - i) + 1]))
  }

  /** The first padded dimension. */
  function FirstPadded(padding: seq<int>, sizes: seq<int>): int {
    |sizes| - |padding| / 2
  }

  ghost predicate PadOK(padding: seq<int>, sizes: seq<int>) {
    |padding| % 2 == 0 && |padding| / 2 <= |sizes|
  }

  /** How much is put before and after dimension d. */
  function PadAt(padding: seq<int>, sizes: seq<int>, d: nat): (int, int)
    requires |padding| % 2 == 0 && |padding| / 2 <= |sizes| && d < |sizes|
  {
    var n := FirstPadded(padding, sizes);
    if d < n then (0, 0) else Bounds(padding)[d - n]
  }

  /** output_size */
  function PaddedSizes(padding: seq<int>, sizes: seq<int>): (r: seq<int>)
    requires |padding| % 2 == 0 && |padding| / 2 <= |sizes|
    ensures |r| == |sizes|
  {
    seq(|sizes|, d requires 0 <= d < |sizes| => sizes[d] + PadAt(padding, sizes, d).0 + PadAt(padding, sizes, d).1)
  }

  /** new_index of offset_fn */
  function Shifted(padding: seq<int>, sizes: seq<int>, idx: Index): (r: Index)
    requires |padding| % 2 == 0 && |padding| / 2 <= |sizes| == |idx|
    ensures |r| == |idx|
  {
    seq(|idx|, d requires 0 <= d < |idx| => idx[d] - PadAt(padding, sizes, d).0)
  }

  /** The masks of the first k dimensions: a side without padding is not tested. */
  function PadMasks(padding: seq<int>, sizes: seq<int>, j: Index, k: nat): seq<bool>
    requires |padding| % 2 == 0 && |padding| / 2 <= |sizes| == |j| && k <= |j|
  {
    if k == 0 then []
    else
      var p := PadAt(padding, sizes, k - 1);
      PadMasks(padding, sizes, j, k - 1) +
      (if p.0 != 0 then [j[k - 1] >= 0] else []) + (if p.1 != 0 then [j[k - 1] < sizes[k - 1]] else [])
  }

  predicate NoPadding(padding: seq<int>) {
    forall i :: 0 <= i < |padding| ==> padding[i] == 0
  }

  /** The masks of one dimension; the test of a side without padding is implied by the output range. */
  lemma LastMasks(padding: seq<int>, sizes: seq<int>, idx: Index, k: nat)
    requires PadOK(padding, sizes) && InBox(idx, PaddedSizes(padding, sizes)) && k < |idx|
    ensures var j := Shifted(padding, sizes, idx);
      AndAll(PadMasks(padding, sizes, j, k + 1)) <==> AndAll(PadMasks(padding, sizes, j, k)) && 0 <= j[k] < sizes[k]
  {
    var j, p := Shifted(padding, sizes, idx), PadAt(padding, sizes, k);
    var before := PadMasks(padding, sizes, j, k);
    var a, b := if p.0 != 0 then [j[k] >= 0] else [], if p.1 != 0 then [j[k] < sizes[k]] else [];
    OneMask(p.0 != 0, j[k] >= 0);
    OneMask(p.1 != 0, j[k] < sizes[k]);
    AndConcat(before, a);
    AndConcat(before + a, b);
  }

  lemma {:induction false} PadMasksAre(padding: seq<int>, sizes: seq<int>, idx: Index, k: nat)
    requires PadOK(padding, sizes) && InBox(idx, PaddedSizes(padding, sizes)) && k <= |idx|
    ensures var j := Shifted(padding, sizes, idx);
      AndAll(PadMasks(padding, sizes, j, k)) <==> forall d :: 0 <= d < k ==> 0 <= j[d] < sizes[d]
  {
    if k > 0 {
      PadMasksAre(padding, sizes, idx, k - 1);
      LastMasks(padding, sizes, idx, k - 1);
    }
  }

  lemma {:induction false} SomeMask(padding: seq<int>, sizes: seq<int>, j: Index, d: nat, k: nat)
    requires PadOK(padding, sizes) && |j| == |sizes| && d < k <= |j|
    requires PadAt(padding, sizes, d) != (0, 0)
    ensures PadMasks(padding, sizes, j, k) != []
    decreases k
  {
    if d < k - 1 {
      SomeMask(padding, sizes, j, d, k - 1);
    }
  }

  /** An entry of the padding belongs to a dimension. */
  lemma PaddingUsed(padding: seq<int>, sizes: seq<int>, i: nat) returns (d: nat)
    requires PadOK(padding, sizes) && i < |padding|
    ensures d < |sizes| && padding[i] == if i % 2 == 0 then PadAt(padding, sizes, d).0 else PadAt(padding, sizes, d).1
  {
    var b, n := |padding| / 2, FirstPadded(padding, sizes);
    d := n + (b - 1 - i / 2);
    assert Bounds(padding)[d - n] == (padding[2 * (i / 2)], padding[2 * (i / 2) + 1]);
  }

  /** The element constant_pad_nd computes at idx: None stands for reducing an empty list of masks. */
  function ConstantPad<V>(x: Index --> V, fill: V, padding: seq<int>, sizes: seq<int>, idx: Index): (r: Option<V>)
    requires PadOK(padding, sizes) && InBox(idx, PaddedSizes(padding, sizes)) && Readable(x, sizes)
  {
    if NoPadding(padding) then
      Unpadded(padding, sizes);
      Some(x(idx))
    else
      var j := Shifted(padding, sizes, idx);
      var masks := PadMasks(padding, sizes, j, |j|);
      if masks == [] then None
      else
        PadMasksAre(padding, sizes, idx, |j|);
        Some(if AndAll(masks) then x(j) else fill)
  }

  lemma Unpadded(padding: seq<int>, sizes: seq<int>)
    requires PadOK(padding, sizes) && NoPadding(padding)
    ensures PaddedSizes(padding, sizes) == sizes
    ensures forall idx: Index :: |idx| == |sizes| ==> Shifted(padding, sizes, idx) == idx
  {
    forall d: nat | d < |sizes| ensures PadAt(padding, sizes, d) == (0, 0) {}
  }

  /** The padding is given in pairs, the k-th one for the k-th dimension from the end: `wide` are the sizes
      with both entries of each pair added to its dimension. */
  ghost predicate Widens(padding: seq<int>, sizes: seq<int>, wide: seq<int>) {
    && PadOK(padding, sizes) && |wide| == |sizes|
    && (forall k {:trigger padding[2 * k]} :: 0 <= k < |padding| / 2 ==>
          wide[|sizes| - 1 - k] == sizes[|sizes| - 1 - k] + padding[2 * k] + padding[2 * k + 1])
    && (forall d :: 0 <= d < |sizes| - |padding| / 2 ==> wide[d] == sizes[d])
  }

  /** j lies as far before idx in the k-th dimension from the end as the first entry of the k-th pair says. */
  ghost predicate Precedes(padding: seq<int>, sizes: seq<int>, j: Index, idx: Index) {
    && PadOK(padding, sizes) && |j| == |idx| == |sizes|
    && (forall k {:trigger padding[2 * k]} :: 0 <= k < |padding| / 2 ==>
          j[|sizes| - 1 - k] == idx[|sizes| - 1 - k] - padding[2 * k])
    && (forall d :: 0 <= d < |sizes| - |padding| / 2 ==> j[d] == idx[d])
  }

  lemma PadAtIs(padding: seq<int>, sizes: seq<int>, k: nat)
    requires PadOK(padding, sizes) && k < |padding| / 2
    ensures PadAt(padding, sizes, |sizes| - 1 - k) == (padding[2 * k], padding[2 * k + 1])
  {
  }

  lemma PaddedSizesAre(padding: seq<int>, sizes: seq<int>)
    requires PadOK(padding, sizes)
    ensures Widens(padding, sizes, PaddedSizes(padding, sizes))
  {
    forall k | 0 <= k < |padding| / 2
      ensures PaddedSizes(padding, sizes)[|sizes| - 1 - k]
           == sizes[|sizes| - 1 - k] + padding[2 * k] + padding[2 * k + 1]
    {
      PadAtIs(padding, sizes, k);
    }
  }

  lemma ShiftedIs(padding: seq<int>, sizes: seq<int>, idx: Index)
    requires PadOK(padding, sizes) && |idx| == |sizes|
    ensures Precedes(padding, sizes, Shifted(padding, sizes, idx), idx)
  {
    forall k | 0 <= k < |padding| / 2
      ensures Shifted(padding, sizes, idx)[|sizes| - 1 - k] == idx[|sizes| - 1 - k] - padding[2 * k]
    {
      PadAtIs(padding, sizes, k);
    }
  }

  /** For any padding signs: within the widened ranges, the element of x that precedes idx by the paddings of its
      dimensions, where there is one, and the fill value elsewhere. */
  lemma ConstantPadMeets<V>(x: Index --> V, fill: V, padding: seq<int>, sizes: seq<int>, idx: Index)
    requires PadOK(padding, sizes) && InBox(idx, PaddedSizes(padding, sizes)) && Readable(x, sizes)
    ensures Widens(padding, sizes, PaddedSizes(padding, sizes))
    ensures var j := Shifted(padding, sizes, idx);
      && Precedes(padding, sizes, j, idx)
      && ConstantPad(x, fill, padding, sizes, idx) == Some(if InBox(j, sizes) then x(j) else fill)
  {
    PaddedSizesAre(padding, sizes);
    ShiftedIs(padding, sizes, idx);
    if NoPadding(padding) {
      Unpadded(padding, sizes);
    } else {
      var j := Shifted(padding, sizes, idx);
      var i :| 0 <= i < |padding| && padding[i] != 0;
      var d := PaddingUsed(padding, sizes, i);
      SomeMask(padding, sizes, j, d, |j|);
      PadMasksAre(padding, sizes, idx, |j|);
    }
  }

  function Negated(padding: seq<int>): (r: seq<int>)
    ensures |r| == |padding|
  {
    seq(|padding|, i requires 0 <= i < |padding| => -padding[i])
  }

  lemma NegatedAt(padding: seq<int>, sizes: seq<int>, other: seq<int>)
    requires PadOK(padding, sizes) && |other| == |sizes|
    ensures forall d: nat :: d < |sizes| ==>
      PadAt(Negated(padding), other, d) == (-PadAt(padding, sizes, d).0, -PadAt(padding, sizes, d).1)
  {
  }

  /** The padded tensor. */
  ghost function Padded<V>(x: Index --> V, fill: V, padding: seq<int>, sizes: seq<int>): Index --> V
    requires PadOK(padding, sizes) && Readable(x, sizes)
  {
    (idx: Index) requires InBox(idx, PaddedSizes(padding, sizes)) =>
      ConstantPadMeets(x, fill, padding, sizes, idx);
      ConstantPad(x, fill, padding, sizes, idx).value
  }

  /** Only one index precedes another. */
  lemma PrecedesOne(padding: seq<int>, sizes: seq<int>, i: Index, j: Index, idx: Index)
    requires Precedes(padding, sizes, i, idx) && Precedes(padding, sizes, j, idx)
    ensures i == j
  {
    var n := |sizes|;
    forall d | 0 <= d < n ensures i[d] == j[d] {
      if d >= n - |padding| / 2 {
        var k := n - 1 - d;
        assert i[n - 1 - k] == idx[n - 1 - k] - padding[2 * k] == j[n - 1 - k];
      }
    }
  }

  lemma PaddedIs<V>(x: Index --> V, fill: V, padding: seq<int>, sizes: seq<int>)
    requires PadOK(padding, sizes) && Readable(x, sizes)
    ensures Widens(padding, sizes, PaddedSizes(padding, sizes))
    ensures Readable(Padded(x, fill, padding, sizes), PaddedSizes(padding, sizes))
    ensures forall idx: Index, j: Index ::
      InBox(idx, PaddedSizes(padding, sizes)) && Precedes(padding, sizes, j, idx) ==>
        Padded(x, fill, padding, sizes)(idx) == if InBox(j, sizes) then x(j) else fill
  {
    PaddedSizesAre(padding, sizes);
    forall idx: Index, j: Index | InBox(idx, PaddedSizes(padding, sizes)) && Precedes(padding, sizes, j, idx)
      ensures Padded(x, fill, padding, sizes)(idx) == if InBox(j, sizes) then x(j) else fill
    {
      ConstantPadMeets(x, fill, padding, sizes, idx);
      PrecedesOne(padding, sizes, j, Shifted(padding, sizes, idx), idx);
    }
  }

  /** What a lowering returns: the ranges of the result and its element function. */
  datatype Pointwise<!V> = Pointwise(ranges: seq<int>, inner: Index --> V)

  /** constant_pad_nd: None stands for the error raised on a padding of odd length. */
  ghost function ConstantPadNd<V>(x: Index --> V, fill: V, padding: seq<int>,
                                  sizes: seq<int>): (r: Option<Pointwise<V>>)
    requires |padding| / 2 <= |sizes| && Readable(x, sizes)
    ensures r.None? <==> |padding| % 2 != 0
    ensures r.Some? ==> Widens(padding, sizes, r.value.ranges) && Readable(r.value.inner, r.value.ranges)
    ensures r.Some? ==> forall idx: Index, j: Index ::
      InBox(idx, r.value.ranges) && Precedes(padding, sizes, j, idx) ==>
        r.value.inner(idx) == if InBox(j, sizes) then x(j) else fill
  {
    if |padding| % 2 != 0 then None
    else
      PaddedIs(x, fill, padding, sizes);
      Some(Pointwise(PaddedSizes(padding, sizes), Padded(x, fill, padding, sizes)))
  }

  lemma Widened(padding: seq<int>, sizes: seq<int>, idx: Index)
    requires PadOK(padding, sizes) && (forall i :: 0 <= i < |padding| ==> padding[i] >= 0) && InBox(idx, sizes)
    ensures var wide := PaddedSizes(padding, sizes);
      && PaddedSizes(Negated(padding), wide) == sizes
      && InBox(Shifted(Negated(padding), wide, idx), wide)
      && Shifted(padding, sizes, Shifted(Negated(padding), wide, idx)) == idx
  {
    var wide := PaddedSizes(padding, sizes);
    NegatedAt(padding, sizes, wide);
    forall d: nat | d < |sizes| ensures PadAt(padding, sizes, d).0 >= 0 && PadAt(padding, sizes, d).1 >= 0 {}
  }

  /** Cropping by the same amounts undoes padding, whatever the fill values are. */
  lemma CropUndoesPad<V>(x: Index --> V, fill: V, fill': V, padding: seq<int>, sizes: seq<int>, idx: Index)
    requires PadOK(padding, sizes) && (forall i :: 0 <= i < |padding| ==> padding[i] >= 0)
    requires InBox(idx, sizes) && Readable(x, sizes)
    ensures var wide := PaddedSizes(padding, sizes);
      && PaddedSizes(Negated(padding), wide) == sizes
      && ConstantPad(Padded(x, fill, padding, sizes), fill', Negated(padding), wide, idx) == Some(x(idx))
  {
    var wide := PaddedSizes(padding, sizes);
    Widened(padding, sizes, idx);
    var y, j := Padded(x, fill, padding, sizes), Shifted(Negated(padding), wide, idx);
    ConstantPadMeets(y, fill', Negated(padding), wide, idx);
    ConstantPadMeets(x, fill, padding, sizes, j);
  }
}
