/** The index loader of reductions (_make_reduction_inner in torch_npu/_inductor/lowering_fx.py). */
module Reduction {
  import opened Basics

  type Index = seq<nat>

  /** The dimensions below n that are (or are not) reduced, in order. */
  function Dims(n: nat, axis: set<nat>, reduced: bool): seq<nat> {
    if n == 0 then [] else Dims(n - 1, axis, reduced) + if (n - 1 in axis) == reduced then [n - 1] else []
  }

  function Pick(s: Index, at: seq<nat>): (r: Index)
    requires forall p :: 0 <= p < |at| ==> at[p] < |s|
    ensures |r| == |at| && forall p :: 0 <= p < |at| ==> r[p] == s[at[p]]
  {
    seq(|at|, p requires 0 <= p < |at| => s[at[p]])
  }

  lemma {:induction false} DimsAre(n: nat, axis: set<nat>, reduced: bool)
    ensures forall p :: 0 <= p < |Dims(n, axis, reduced)| ==> Dims(n, axis, reduced)[p] < n
    ensures forall p :: 0 <= p < |Dims(n, axis, reduced)| ==> (Dims(n, axis, reduced)[p] in axis) == reduced
    ensures forall p, q :: 0 <= p < q < |Dims(n, axis, reduced)| ==>
      Dims(n, axis, reduced)[p] < Dims(n, axis, reduced)[q]
    ensures forall i: nat :: i < n && ((i in axis) == reduced) ==> i in Dims(n, axis, reduced)
  {
    if n > 0 {
      DimsAre(n - 1, axis, reduced);
    }
  }

  /** Where dimension i stands among the reduced (or kept) ones. */
  function Rank(i: nat, axis: set<nat>): nat {
    |Dims(i, axis, i in axis)|
  }

  lemma {:induction false} RankIs(n: nat, axis: set<nat>, i: nat)
    requires i < n
    ensures Rank(i, axis) < |Dims(n, axis, i in axis)| && Dims(n, axis, i in axis)[Rank(i, axis)] == i
    decreases n
  {
    if i < n - 1 {
      RankIs(n - 1, axis, i);
    }
  }

  lemma {:induction false} RankOfDim(n: nat, axis: set<nat>, reduced: bool, p: nat)
    requires p < |Dims(n, axis, reduced)|
    ensures Dims(n, axis, reduced)[p] < n && ((Dims(n, axis, reduced)[p] in axis) == reduced)
    ensures Rank(Dims(n, axis, reduced)[p], axis) == p
    decreases n
  {
    if p < |Dims(n - 1, axis, reduced)| {
      RankOfDim(n - 1, axis, reduced, p);
    }
  }

  lemma {:induction false} DimsCount(n: nat, axis: set<nat>)
    ensures |Dims(n, axis, true)| + |Dims(n, axis, false)| == n
  {
    if n > 0 {
      DimsCount(n - 1, axis);
    }
  }

  function At(s: Index, p: nat): nat {
    if p < |s| then s[p] else 0
  }

  /** The index whose kept dimensions are k and whose reduced dimensions are r. */
  function Combine(n: nat, axis: set<nat>, k: Index, r: Index): (j: Index)
    ensures |j| == n
  {
    seq(n, i requires 0 <= i < n => At(if i in axis then r else k, Rank(i, axis)))
  }

  // ----- the code -----

  /** The loop that separates kept from reduced dimensions. */
  method SplitAxes(size: seq<nat>, axis: set<nat>)
    returns (keptSizes: seq<nat>, keptIdx: seq<nat>, reducedSizes: seq<nat>, reducedIdx: seq<nat>)
    ensures keptIdx == Dims(|size|, axis, false) && reducedIdx == Dims(|size|, axis, true)
    ensures keptSizes == Sizes(size, axis, false) && reducedSizes == Sizes(size, axis, true)
  {
    keptSizes, keptIdx, reducedSizes, reducedIdx := [], [], [], [];
    for i := 0 to |size|
      invariant keptIdx == Dims(i, axis, false) && reducedIdx == Dims(i, axis, true)
      invariant keptSizes == SizesUpTo(size, axis, false, i) && reducedSizes == SizesUpTo(size, axis, true, i)
    {
      if i in axis {
        reducedIdx := reducedIdx + [i];
        reducedSizes := reducedSizes + [size[i]];
      } else {
        keptIdx := keptIdx + [i];
        keptSizes := keptSizes + [size[i]];
      }
    }
  }

  function SizesUpTo(size: seq<nat>, axis: set<nat>, reduced: bool, n: nat): (r: seq<nat>)
    requires n <= |size|
    ensures |r| == |Dims(n, axis, reduced)|
  {
    if n == 0 then []
    else SizesUpTo(size, axis, reduced, n - 1) + if (n - 1 in axis) == reduced then [size[n - 1]] else []
  }

  function Sizes(size: seq<nat>, axis: set<nat>, reduced: bool): seq<nat> {
    SizesUpTo(size, axis, reduced, |size|)
  }

  /** new_size */
  function OutSize(size: seq<nat>, axis: set<nat>, keepdims: bool): seq<nat> {
    if keepdims then seq(|size|, i requires 0 <= i < |size| => if i in axis then 1 else size[i])
    else Sizes(size, axis, false)
  }

  /** What the loader means: None when the lengths do not fit. */
  function Load(n: nat, axis: set<nat>, keepdims: bool, index: Index, reduction: Index): Option<Index> {
    if |reduction| != |Dims(n, axis, true)| then None
    else if keepdims then
      if |index| != n then None
      else DimsAre(n, axis, false); Some(Combine(n, axis, Pick(index, Dims(n, axis, false)), reduction))
    else if |index| != |Dims(n, axis, false)| then None
    else Some(Combine(n, axis, index, reduction))
  }

  /** new_index after the first c writes at the positions `at`. */
  ghost predicate Written(before: seq<Option<nat>>, after: seq<Option<nat>>, at: seq<nat>, vals: Index, c: nat)
    requires c <= |at| == |vals|
  {
    && |after| == |before|
    && (forall i :: 0 <= i < |after| ==> (i in at[..c] || after[i] == before[i]))
    && (forall p :: 0 <= p < c && at[p] < |after| ==> after[at[p]] == Some(vals[p]))
  }

  /** The loop over zip(idx, values). */
  method WriteAt(before: seq<Option<nat>>, at: seq<nat>, vals: Index) returns (after: seq<Option<nat>>)
    requires |at| == |vals| && (forall p :: 0 <= p < |at| ==> at[p] < |before|)
    requires forall p, q :: 0 <= p < q < |at| ==> at[p] < at[q]
    ensures Written(before, after, at, vals, |at|)
  {
    after := before;
    for c := 0 to |at|
      invariant Written(before, after, at, vals, c)
    {
      assert at[..c + 1] == at[..c] + [at[c]];
      after := after[at[c] := Some(vals[c])];
    }
  }

  /** The two halves of the chain, written into a list of Nones. */
  method Scatter(n: nat, axis: set<nat>, keptIdx: seq<nat>, reducedIdx: seq<nat>, kept: Index, reduction: Index)
    returns (j: Index)
    requires keptIdx == Dims(n, axis, false) && reducedIdx == Dims(n, axis, true)
    requires |kept| == |keptIdx| && |reduction| == |reducedIdx|
    ensures j == Combine(n, axis, kept, reduction)
  {
    DimsAre(n, axis, false);
    DimsAre(n, axis, true);
    DimsCount(n, axis);
    var newIndex := seq(|kept| + |reduction|, _ => None);
    var first := WriteAt(newIndex, keptIdx, kept);
    var second := WriteAt(first, reducedIdx, reduction);
    AllWritten(n, axis, kept, reduction, newIndex, first, second);
    j := seq(n, i requires 0 <= i < n => second[i].value);
  }

  /** loader: where to read the input, or None where it raises. */
  method Loader(n: nat, axis: set<nat>, keptIdx: seq<nat>, reducedIdx: seq<nat>, keepdims: bool,
                index: Index, reduction: Index)
    returns (r: Option<Index>)
    requires keptIdx == Dims(n, axis, false) && reducedIdx == Dims(n, axis, true)
    ensures r == Load(n, axis, keepdims, index, reduction)
    ensures r.None? <==> |reduction| != |reducedIdx| || |index| != if keepdims then n else |keptIdx|
  {
    if |reduction| != |reducedIdx| {
      return None;
    }
    var kept := index;
    if keepdims {
      if |index| != n {
        return None;
      }
      DimsAre(n, axis, false);
      kept := Pick(index, keptIdx);
    }
    if |kept| != |keptIdx| {
      return None;
    }
    var newIndex := Scatter(n, axis, keptIdx, reducedIdx, kept, reduction);
    r := Some(newIndex);
  }

  /** No None is left, and each entry is the one Combine puts there. */
  lemma AllWritten(n: nat, axis: set<nat>, k: Index, r: Index,
                   empty: seq<Option<nat>>, first: seq<Option<nat>>, second: seq<Option<nat>>)
    requires |k| == |Dims(n, axis, false)| && |r| == |Dims(n, axis, true)| && |empty| == n
    requires Written(empty, first, Dims(n, axis, false), k, |k|)
    requires Written(first, second, Dims(n, axis, true), r, |r|)
    ensures |second| == n && forall i :: 0 <= i < n ==> second[i] == Some(Combine(n, axis, k, r)[i])
  {
    var kept, red := Dims(n, axis, false), Dims(n, axis, true);
    assert red[..|r|] == red;
    forall i | 0 <= i < n ensures second[i] == Some(Combine(n, axis, k, r)[i]) {
      RankIs(n, axis, i);
      if i !in axis {
        DimsAre(n, axis, true);
        assert i !in red;
      }
    }
  }

  // ----- the loader is a bijection -----

  ghost predicate InBox(x: Index, sizes: seq<nat>) {
    |x| == |sizes| && forall i :: 0 <= i < |x| ==> x[i] < sizes[i]
  }

  lemma {:induction false} SizesAre(size: seq<nat>, axis: set<nat>, reduced: bool, n: nat)
    requires n <= |size|
    ensures forall p :: 0 <= p < |Dims(n, axis, reduced)| ==>
      Dims(n, axis, reduced)[p] < |size| && SizesUpTo(size, axis, reduced, n)[p] == size[Dims(n, axis, reduced)[p]]
  {
    if n > 0 {
      SizesAre(size, axis, reduced, n - 1);
      DimsAre(n - 1, axis, reduced);
    }
  }

  /** The dimensions of an index that are (or are not) reduced. */
  function Part(j: Index, axis: set<nat>, reduced: bool): (r: Index)
    ensures |r| == |Dims(|j|, axis, reduced)|
  {
    DimsAre(|j|, axis, reduced);
    Pick(j, Dims(|j|, axis, reduced))
  }

  lemma CombineParts(j: Index, axis: set<nat>)
    ensures Combine(|j|, axis, Part(j, axis, false), Part(j, axis, true)) == j
  {
    forall i | 0 <= i < |j| ensures Combine(|j|, axis, Part(j, axis, false), Part(j, axis, true))[i] == j[i] {
      RankIs(|j|, axis, i);
    }
  }

  lemma PartOfCombine(n: nat, axis: set<nat>, k: Index, r: Index, reduced: bool)
    requires |k| == |Dims(n, axis, false)| && |r| == |Dims(n, axis, true)|
    ensures Part(Combine(n, axis, k, r), axis, reduced) == if reduced then r else k
  {
    var j, want := Combine(n, axis, k, r), if reduced then r else k;
    forall p | 0 <= p < |want| ensures Part(j, axis, reduced)[p] == want[p] {
      RankOfDim(n, axis, reduced, p);
    }
  }

  lemma PartInBox(j: Index, size: seq<nat>, axis: set<nat>, reduced: bool)
    requires InBox(j, size)
    ensures InBox(Part(j, axis, reduced), Sizes(size, axis, reduced))
  {
    SizesAre(size, axis, reduced, |size|);
  }

  lemma CombineInBox(size: seq<nat>, axis: set<nat>, k: Index, r: Index)
    requires InBox(k, Sizes(size, axis, false)) && InBox(r, Sizes(size, axis, true))
    ensures InBox(Combine(|size|, axis, k, r), size)
  {
    var j := Combine(|size|, axis, k, r);
    SizesAre(size, axis, false, |size|);
    SizesAre(size, axis, true, |size|);
    forall i | 0 <= i < |j| ensures j[i] < size[i] {
      RankIs(|size|, axis, i);
    }
  }

  /** The output index that reads element j. */
  function OutIndex(j: Index, axis: set<nat>, keepdims: bool): Index {
    if keepdims then seq(|j|, i requires 0 <= i < |j| => if i in axis then 0 else j[i])
    else Part(j, axis, false)
  }

  /** The kept part of an output index. */
  function KeptPart(n: nat, axis: set<nat>, keepdims: bool, index: Index): Index
    requires keepdims ==> |index| == n
  {
    if keepdims then Part(index, axis, false) else index
  }

  lemma LoadIs(n: nat, axis: set<nat>, keepdims: bool, index: Index, r: Index)
    requires |r| == |Dims(n, axis, true)| && |index| == if keepdims then n else |Dims(n, axis, false)|
    ensures Load(n, axis, keepdims, index, r) == Some(Combine(n, axis, KeptPart(n, axis, keepdims, index), r))
  {
    DimsAre(n, axis, false);
  }

  lemma OutIndexInBox(j: Index, size: seq<nat>, axis: set<nat>, keepdims: bool)
    requires InBox(j, size)
    ensures InBox(OutIndex(j, axis, keepdims), OutSize(size, axis, keepdims))
    ensures KeptPart(|size|, axis, keepdims, OutIndex(j, axis, keepdims)) == Part(j, axis, false)
  {
    if keepdims {
      DimsAre(|j|, axis, false);
    } else {
      PartInBox(j, size, axis, false);
    }
  }

  /** Every element of the input is read by some pair of indices in range. */
  lemma EveryElementIsRead(size: seq<nat>, axis: set<nat>, keepdims: bool, j: Index)
    requires InBox(j, size)
    ensures var k, r := OutIndex(j, axis, keepdims), Part(j, axis, true);
      && InBox(k, OutSize(size, axis, keepdims)) && InBox(r, Sizes(size, axis, true))
      && Load(|size|, axis, keepdims, k, r) == Some(j)
  {
    OutIndexInBox(j, size, axis, keepdims);
    PartInBox(j, size, axis, true);
    LoadIs(|size|, axis, keepdims, OutIndex(j, axis, keepdims), Part(j, axis, true));
    CombineParts(j, axis);
  }

  lemma KeptPartInBox(size: seq<nat>, axis: set<nat>, keepdims: bool, index: Index)
    requires InBox(index, OutSize(size, axis, keepdims))
    ensures InBox(KeptPart(|size|, axis, keepdims, index), Sizes(size, axis, false))
  {
    if keepdims {
      SizesAre(size, axis, false, |size|);
      DimsAre(|size|, axis, false);
    }
  }

  lemma OutIndexOfKept(size: seq<nat>, axis: set<nat>, index: Index, j: Index)
    requires InBox(index, OutSize(size, axis, true)) && |j| == |size|
    requires Part(j, axis, false) == Part(index, axis, false)
    ensures OutIndex(j, axis, true) == index
  {
    forall i | 0 <= i < |j| && i !in axis ensures j[i] == index[i] {
      RankIs(|j|, axis, i);
      assert Part(j, axis, false)[Rank(i, axis)] == Part(index, axis, false)[Rank(i, axis)];
    }
  }

  /** Pairs in range read an element of the input, and no other pair in range reads it. */
  lemma NoElementIsReadTwice(size: seq<nat>, axis: set<nat>, keepdims: bool, index: Index, r: Index)
    requires InBox(index, OutSize(size, axis, keepdims)) && InBox(r, Sizes(size, axis, true))
    ensures var j := Load(|size|, axis, keepdims, index, r);
      && j.Some? && InBox(j.value, size)
      && index == OutIndex(j.value, axis, keepdims) && r == Part(j.value, axis, true)
  {
    var k := KeptPart(|size|, axis, keepdims, index);
    KeptPartInBox(size, axis, keepdims, index);
    LoadIs(|size|, axis, keepdims, index, r);
    CombineInBox(size, axis, k, r);
    var j := Combine(|size|, axis, k, r);
    PartOfCombine(|size|, axis, k, r, true);
    PartOfCombine(|size|, axis, k, r, false);
    if keepdims {
      OutIndexOfKept(size, axis, index, j);
    }
  }

  // ----- conservation of the sum -----

  function Sum(n: nat, f: nat -> int): int {
    if n == 0 then 0 else Sum(n - 1, f) + f(n - 1)
  }

  /** f with its last index fixed. */
  function Fix(f: Index -> int, i: nat): Index -> int {
    (x: Index) => f(x + [i])
  }

  /** The sum of f over all indices of a box. */
  function SumBox(sizes: seq<nat>, f: Index -> int): int {
    if sizes == [] then f([])
    else var d := |sizes| - 1; Sum(sizes[d], (i: nat) => SumBox(sizes[..d], Fix(f, i)))
  }

  lemma {:induction false} SumSame(n: nat, f: nat -> int, g: nat -> int)
    requires forall i: nat :: i < n ==> f(i) == g(i)
    ensures Sum(n, f) == Sum(n, g)
  {
    if n > 0 {
      SumSame(n - 1, f, g);
    }
  }

  /** A sum over a box, slice by slice. */
  lemma SumBoxIs(sizes: seq<nat>, f: Index -> int, slices: nat -> int)
    requires sizes != []
    requires forall i: nat :: i < sizes[|sizes| - 1] ==> slices(i) == SumBox(sizes[..|sizes| - 1], Fix(f, i))
    ensures SumBox(sizes, f) == Sum(sizes[|sizes| - 1], slices)
  {
    var d := |sizes| - 1;
    SumSame(sizes[d], (i: nat) => SumBox(sizes[..d], Fix(f, i)), slices);
  }

  function Slices(sizes: seq<nat>, f: Index -> int): nat -> int
    requires sizes != []
  {
    (i: nat) => SumBox(sizes[..|sizes| - 1], Fix(f, i))
  }

  lemma InBoxSnoc(x: Index, i: nat, sizes: seq<nat>)
    requires sizes != [] && InBox(x, sizes[..|sizes| - 1]) && i < sizes[|sizes| - 1]
    ensures InBox(x + [i], sizes)
  {
  }

  lemma {:induction false} SumBoxSame(sizes: seq<nat>, f: Index -> int, g: Index -> int)
    requires forall x: Index :: InBox(x, sizes) ==> f(x) == g(x)
    ensures SumBox(sizes, f) == SumBox(sizes, g)
    decreases |sizes|
  {
    if sizes == [] {
      assert InBox([], sizes);
    } else {
      var d := |sizes| - 1;
      forall i: nat | i < sizes[d] ensures Slices(sizes, f)(i) == SumBox(sizes[..d], Fix(g, i)) {
        forall x: Index | InBox(x, sizes[..d]) ensures Fix(f, i)(x) == Fix(g, i)(x) {
          InBoxSnoc(x, i, sizes);
        }
        SumBoxSame(sizes[..d], Fix(f, i), Fix(g, i));
      }
      SumBoxIs(sizes, f, Slices(sizes, f));
      SumBoxIs(sizes, g, Slices(sizes, f));
    }
  }

  lemma {:induction false} SumAdd(n: nat, f: nat -> int, g: nat -> int, h: nat -> int)
    requires forall i: nat :: i < n ==> h(i) == f(i) + g(i)
    ensures Sum(n, h) == Sum(n, f) + Sum(n, g)
  {
    if n > 0 {
      SumAdd(n - 1, f, g, h);
    }
  }

  lemma {:induction false} SumBoxAdd(sizes: seq<nat>, f: Index -> int, g: Index -> int, h: Index -> int)
    requires forall x: Index :: InBox(x, sizes) ==> h(x) == f(x) + g(x)
    ensures SumBox(sizes, h) == SumBox(sizes, f) + SumBox(sizes, g)
    decreases |sizes|
  {
    if sizes == [] {
      assert InBox([], sizes);
    } else {
      var d := |sizes| - 1;
      forall i: nat | i < sizes[d] ensures Slices(sizes, h)(i) == Slices(sizes, f)(i) + Slices(sizes, g)(i) {
        forall x: Index | InBox(x, sizes[..d]) ensures Fix(h, i)(x) == Fix(f, i)(x) + Fix(g, i)(x) {
          InBoxSnoc(x, i, sizes);
        }
        SumBoxAdd(sizes[..d], Fix(f, i), Fix(g, i), Fix(h, i));
      }
      SumBoxIs(sizes, f, Slices(sizes, f));
      SumBoxIs(sizes, g, Slices(sizes, g));
      SumBoxIs(sizes, h, Slices(sizes, h));
      SumAdd(sizes[d], Slices(sizes, f), Slices(sizes, g), Slices(sizes, h));
    }
  }

  /** Summing over a box and over a range can be exchanged: h(i) is the i-th summand. */
  lemma {:induction false} Exchange(sizes: seq<nat>, n: nat, h: nat -> Index -> int, total: Index -> int,
                                    sums: nat -> int)
    requires forall x: Index :: InBox(x, sizes) ==> total(x) == Sum(n, (i: nat) => h(i)(x))
    requires forall i: nat :: i < n ==> sums(i) == SumBox(sizes, h(i))
    ensures SumBox(sizes, total) == Sum(n, sums)
  {
    if n == 0 {
      SumBoxAdd(sizes, total, total, total);
    } else {
      var before := (x: Index) => Sum(n - 1, (i: nat) => h(i)(x));
      Exchange(sizes, n - 1, h, before, sums);
      forall x: Index | InBox(x, sizes) ensures total(x) == before(x) + h(n - 1)(x) {
        SumSame(n - 1, (i: nat) => h(i)(x), (i: nat) => h(i)(x));
      }
      SumBoxAdd(sizes, before, h(n - 1), total);
    }
  }

  /** The input read at kept index k, as a function of the reduction index. */
  function Reader(n: nat, axis: set<nat>, f: Index -> int, k: Index): Index -> int {
    (r: Index) => f(Combine(n, axis, k, r))
  }

  /** The reduced tensor at kept index k. */
  function Inner(size: seq<nat>, axis: set<nat>, f: Index -> int, k: Index): int {
    SumBox(Sizes(size, axis, true), Reader(|size|, axis, f, k))
  }

  function Reduced(size: seq<nat>, axis: set<nat>, f: Index -> int): Index -> int {
    (k: Index) => Inner(size, axis, f, k)
  }

  /** Summing the reduced tensor over its own indices. */
  function Outer(size: seq<nat>, axis: set<nat>, f: Index -> int): int {
    SumBox(Sizes(size, axis, false), Reduced(size, axis, f))
  }

  lemma {:induction false} SizesPrefix(size: seq<nat>, axis: set<nat>, reduced: bool, n: nat)
    requires n < |size|
    ensures SizesUpTo(size[..|size| - 1], axis, reduced, n) == SizesUpTo(size, axis, reduced, n)
  {
    if n > 0 {
      SizesPrefix(size, axis, reduced, n - 1);
    }
  }

  lemma SizesSnoc(size: seq<nat>, axis: set<nat>, reduced: bool)
    requires size != []
    ensures var d := |size| - 1;
      Sizes(size, axis, reduced) == Sizes(size[..d], axis, reduced) + if (d in axis) == reduced then [size[d]] else []
  {
    SizesPrefix(size, axis, reduced, |size| - 1);
  }

  lemma CombineAt(n: nat, axis: set<nat>, k: Index, r: Index, k': Index, r': Index, q: nat)
    requires q < n && k <= k' && r <= r'
    requires |k| == |Dims(n, axis, false)| && |r| == |Dims(n, axis, true)|
    ensures Combine(n + 1, axis, k', r')[q] == Combine(n, axis, k, r)[q]
  {
    RankIs(n, axis, q);
  }

  /** Combining with one more dimension appends to the combined index. */
  lemma CombineSnoc(n: nat, axis: set<nat>, k: Index, r: Index, i: nat)
    requires |k| == |Dims(n, axis, false)| && |r| == |Dims(n, axis, true)|
    ensures Combine(n + 1, axis, if n in axis then k else k + [i], if n in axis then r + [i] else r)
         == Combine(n, axis, k, r) + [i]
  {
    var k', r' := if n in axis then k else k + [i], if n in axis then r + [i] else r;
    forall q: nat | q < n ensures Combine(n + 1, axis, k', r')[q] == Combine(n, axis, k, r)[q] {
      CombineAt(n, axis, k, r, k', r', q);
    }
    SnocIs(Combine(n + 1, axis, k', r'), Combine(n, axis, k, r), i);
  }

  lemma SnocIs(c: Index, b: Index, i: nat)
    requires |c| == |b| + 1 && c[|b|] == i && forall q: nat :: q < |b| ==> c[q] == b[q]
    ensures c == b + [i]
  {
  }

  lemma InnerReducedLast(size: seq<nat>, axis: set<nat>, f: Index -> int, k: Index, sums: nat -> int)
    requires size != [] && |size| - 1 in axis && |k| == |Dims(|size| - 1, axis, false)|
    requires forall i: nat :: i < size[|size| - 1] ==> sums(i) == Inner(size[..|size| - 1], axis, Fix(f, i), k)
    ensures Inner(size, axis, f, k) == Sum(size[|size| - 1], sums)
  {
    var d := |size| - 1;
    SizesSnoc(size, axis, true);
    var red, small, g := Sizes(size, axis, true), Sizes(size[..d], axis, true), Reader(|size|, axis, f, k);
    assert red[..|red| - 1] == small && red[|red| - 1] == size[d];
    forall i: nat | i < size[d] ensures sums(i) == SumBox(small, Fix(g, i)) {
      forall r: Index | InBox(r, small) ensures Fix(g, i)(r) == Reader(d, axis, Fix(f, i), k)(r) {
        CombineSnoc(d, axis, k, r, i);
      }
      SumBoxSame(small, Fix(g, i), Reader(d, axis, Fix(f, i), k));
    }
    SumBoxIs(red, g, sums);
  }

  lemma InnerKeptLast(size: seq<nat>, axis: set<nat>, f: Index -> int, k: Index, i: nat)
    requires size != [] && |size| - 1 !in axis && |k| == |Dims(|size| - 1, axis, false)|
    ensures Inner(size, axis, f, k + [i]) == Inner(size[..|size| - 1], axis, Fix(f, i), k)
  {
    var d := |size| - 1;
    SizesSnoc(size, axis, true);
    var small := Sizes(size[..d], axis, true);
    assert Sizes(size, axis, true) == small;
    forall r: Index | InBox(r, small) ensures Reader(d + 1, axis, f, k + [i])(r) == Reader(d, axis, Fix(f, i), k)(r) {
      CombineSnoc(d, axis, k, r, i);
    }
    SumBoxSame(small, Reader(d + 1, axis, f, k + [i]), Reader(d, axis, Fix(f, i), k));
  }

  lemma OuterReducedLast(size: seq<nat>, axis: set<nat>, f: Index -> int, sums: nat -> int)
    requires size != [] && |size| - 1 in axis
    requires forall i: nat :: i < size[|size| - 1] ==> sums(i) == Outer(size[..|size| - 1], axis, Fix(f, i))
    ensures Outer(size, axis, f) == Sum(size[|size| - 1], sums)
  {
    var d := |size| - 1;
    var h := (i: nat) => Reduced(size[..d], axis, Fix(f, i));
    SizesSnoc(size, axis, false);
    var kept := Sizes(size[..d], axis, false);
    assert Sizes(size, axis, false) == kept;
    forall k: Index | InBox(k, kept) ensures Reduced(size, axis, f)(k) == Sum(size[d], (i: nat) => h(i)(k)) {
      InnerReducedLast(size, axis, f, k, (i: nat) => h(i)(k));
    }
    Exchange(kept, size[d], h, Reduced(size, axis, f), sums);
  }

  lemma OuterKeptLast(size: seq<nat>, axis: set<nat>, f: Index -> int, sums: nat -> int)
    requires size != [] && |size| - 1 !in axis
    requires forall i: nat :: i < size[|size| - 1] ==> sums(i) == Outer(size[..|size| - 1], axis, Fix(f, i))
    ensures Outer(size, axis, f) == Sum(size[|size| - 1], sums)
  {
    var d := |size| - 1;
    SizesSnoc(size, axis, false);
    var kept, small, g := Sizes(size, axis, false), Sizes(size[..d], axis, false), Reduced(size, axis, f);
    assert kept[..|kept| - 1] == small && kept[|kept| - 1] == size[d];
    forall i: nat | i < size[d] ensures sums(i) == SumBox(small, Fix(g, i)) {
      forall k: Index | InBox(k, small) ensures Fix(g, i)(k) == Reduced(size[..d], axis, Fix(f, i))(k) {
        InnerKeptLast(size, axis, f, k, i);
      }
      SumBoxSame(small, Fix(g, i), Reduced(size[..d], axis, Fix(f, i)));
    }
    SumBoxIs(kept, g, sums);
  }

  /** Nothing is lost or counted twice: summing the reduced tensor gives the sum of the whole input. */
  lemma {:induction false} SumIsConserved(size: seq<nat>, axis: set<nat>, f: Index -> int)
    ensures Outer(size, axis, f) == SumBox(size, f)
    decreases |size|
  {
    if size == [] {
      assert Combine(0, axis, [], []) == [];
    } else {
      var d := |size| - 1;
      forall i: nat | i < size[d] ensures Slices(size, f)(i) == Outer(size[..d], axis, Fix(f, i)) {
        SumIsConserved(size[..d], axis, Fix(f, i));
      }
      if d in axis {
        OuterReducedLast(size, axis, f, Slices(size, f));
      } else {
        OuterKeptLast(size, axis, f, Slices(size, f));
      }
      SumBoxIs(size, f, Slices(size, f));
    }
  }

  // ----- with the loader itself -----

  /** The input as the loader reads it; a rejected index contributes nothing. */
  function Loaded(n: nat, axis: set<nat>, keepdims: bool, f: Index -> int, index: Index): Index -> int {
    (r: Index) => match Load(n, axis, keepdims, index, r) case Some(j) => f(j) case None => 0
  }

  /** The reduced tensor, entry by entry. */
  function ReducedByLoader(size: seq<nat>, axis: set<nat>, keepdims: bool, f: Index -> int): Index -> int {
    (index: Index) => SumBox(Sizes(size, axis, true), Loaded(|size|, axis, keepdims, f, index))
  }

  /** F as a function of full-rank indices. */
  function OfKept(axis: set<nat>, F: Index -> int): Index -> int {
    (index: Index) => F(Part(index, axis, false))
  }

  lemma PartSnoc(x: Index, i: nat, axis: set<nat>)
    ensures Part(x + [i], axis, false) == Part(x, axis, false) + if |x| in axis then [] else [i]
  {
    DimsAre(|x|, axis, false);
    DimsAre(|x| + 1, axis, false);
  }

  lemma OutSizeSnoc(size: seq<nat>, axis: set<nat>)
    requires size != []
    ensures var d := |size| - 1;
      OutSize(size, axis, true) == OutSize(size[..d], axis, true) + [if d in axis then 1 else size[d]]
  {
  }

  /** Dimensions of size one do not change a sum. */
  lemma {:induction false} SumOverKeptDims(size: seq<nat>, axis: set<nat>, F: Index -> int)
    ensures SumBox(OutSize(size, axis, true), OfKept(axis, F)) == SumBox(Sizes(size, axis, false), F)
    decreases |size|
  {
    if size == [] {
      assert Part([], axis, false) == [];
    } else {
      var d := |size| - 1;
      var box, small := OutSize(size, axis, true), OutSize(size[..d], axis, true);
      OutSizeSnoc(size, axis);
      assert box[..|box| - 1] == small;
      SizesSnoc(size, axis, false);
      if d in axis {
        assert Sizes(size, axis, false) == Sizes(size[..d], axis, false) && box[|box| - 1] == 1;
        SumOverKeptDims(size[..d], axis, F);
        KeptDimsSlice(size, axis, F, F, 0);
        assert Sum(1, Slices(box, OfKept(axis, F))) == Slices(box, OfKept(axis, F))(0);
        SumBoxIs(box, OfKept(axis, F), Slices(box, OfKept(axis, F)));
      } else {
        var kept := Sizes(size, axis, false);
        assert kept[..|kept| - 1] == Sizes(size[..d], axis, false);
        forall i: nat | i < size[d] ensures Slices(kept, F)(i) == SumBox(small, Fix(OfKept(axis, F), i)) {
          SumOverKeptDims(size[..d], axis, Fix(F, i));
          KeptDimsSlice(size, axis, F, Fix(F, i), i);
        }
        SumBoxIs(kept, F, Slices(kept, F));
        SumBoxIs(box, OfKept(axis, F), Slices(kept, F));
      }
    }
  }

  lemma KeptDimsSlice(size: seq<nat>, axis: set<nat>, F: Index -> int, G: Index -> int, i: nat)
    requires size != [] && G == if |size| - 1 in axis then F else Fix(F, i)
    ensures var small := OutSize(size[..|size| - 1], axis, true);
      SumBox(small, Fix(OfKept(axis, F), i)) == SumBox(small, OfKept(axis, G))
  {
    var small := OutSize(size[..|size| - 1], axis, true);
    forall x: Index | InBox(x, small) ensures Fix(OfKept(axis, F), i)(x) == OfKept(axis, G)(x) {
      PartSnoc(x, i, axis);
      var k := Part(x, axis, false);
      assert Fix(OfKept(axis, F), i)(x) == F(if |x| in axis then k else k + [i]) by {
        assert k + [] == k;
      }
      assert OfKept(axis, G)(x) == G(k);
    }
    SumBoxSame(small, Fix(OfKept(axis, F), i), OfKept(axis, G));
  }

  lemma LoaderReads(size: seq<nat>, axis: set<nat>, keepdims: bool, f: Index -> int, index: Index)
    requires InBox(index, OutSize(size, axis, keepdims))
    ensures ReducedByLoader(size, axis, keepdims, f)(index) ==
      Inner(size, axis, f, KeptPart(|size|, axis, keepdims, index))
  {
    var red, k := Sizes(size, axis, true), KeptPart(|size|, axis, keepdims, index);
    forall r: Index | InBox(r, red)
      ensures Loaded(|size|, axis, keepdims, f, index)(r) == Reader(|size|, axis, f, k)(r)
    {
      LoadIs(|size|, axis, keepdims, index, r);
    }
    SumBoxSame(red, Loaded(|size|, axis, keepdims, f, index), Reader(|size|, axis, f, k));
  }

  /** With or without keepdims, summing the reduced tensor over its ranges gives the sum of the input. */
  lemma LoaderConservesSum(size: seq<nat>, axis: set<nat>, keepdims: bool, f: Index -> int)
    ensures SumBox(OutSize(size, axis, keepdims), ReducedByLoader(size, axis, keepdims, f)) == SumBox(size, f)
  {
    var box, g := OutSize(size, axis, keepdims), ReducedByLoader(size, axis, keepdims, f);
    SumIsConserved(size, axis, f);
    var h := if keepdims then OfKept(axis, Reduced(size, axis, f)) else Reduced(size, axis, f);
    forall index: Index | InBox(index, box) ensures g(index) == h(index) {
      LoaderReads(size, axis, keepdims, f, index);
    }
    SumBoxSame(box, g, h);
    if keepdims {
      SumOverKeptDims(size, axis, Reduced(size, axis, f));
    }
  }
}
