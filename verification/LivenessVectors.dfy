/** The list-of-lists liveness code of _graph_tree.py computes the set operations that module GraphTree
    reasons with. */
module LivenessVectors {
  import opened Basics
  import opened GraphTree
  import opened Recording

  type Matrix = seq<seq<bool>>

  ghost predicate At(m: Matrix, x: Idx) {
    x.0 < |m| && x.1 < |m[x.0]| && m[x.0][x.1]
  }

  /** The set a liveness matrix stands for. */
  ghost function Trues(m: Matrix): (s: set<Idx>)
    ensures forall x: Idx :: x in s <==> At(m, x)
  {
    set d, i | 0 <= d < |m| && 0 <= i < |m[d]| && At(m, (d, i)) :: (d, i)
  }

  /** The shapes _get_different_indices accepts. */
  predicate Comparable(prev: Matrix, curr: Matrix) {
    |prev| <= |curr| && forall d :: 0 <= d < |prev| ==> |prev[d]| == |curr[d]|
  }

  ghost predicate NoRepeats(s: seq<Idx>) {
    forall i, j :: 0 <= i < j < |s| ==> s[i] != s[j]
  }

  /** What has been collected when the loops stand at (d, i). */
  ghost predicate Collected(prev: Matrix, curr: Matrix, d: nat, i: nat, out: seq<Idx>) {
    && NoRepeats(out)
    && forall x: Idx :: x in out <==>
         && (x.0 < d || (x.0 == d && x.1 < i))
         && x.0 < |prev| && x.0 < |curr| && x.1 < |prev[x.0]| && x.1 < |curr[x.0]|
         && prev[x.0][x.1] != curr[x.0][x.1]
  }

  /** _get_different_indices: None stands for the RuntimeError raised on unequal shapes. */
  method GetDifferentIndices(prev: Matrix, curr: Matrix) returns (r: Option<seq<Idx>>)
    ensures r.Some? <==> Comparable(prev, curr)
    ensures r.Some? ==> NoRepeats(r.value)
    ensures r.Some? ==> (set x | x in r.value) == Differing(Trues(prev), Trues(curr[..|prev|]))
  {
    if |prev| > |curr| {
      return None;
    }
    var out: seq<Idx> := [];
    for d := 0 to |prev|
      invariant forall k :: 0 <= k < d ==> |prev[k]| == |curr[k]|
      invariant Collected(prev, curr, d, 0, out)
    {
      if |prev[d]| != |curr[d]| {
        return None;
      }
      for i := 0 to |prev[d]|
        invariant Collected(prev, curr, d, i, out)
      {
        if prev[d][i] != curr[d][i] {
          out := out + [(d, i)];
        }
      }
    }
    forall x: Idx ensures x in out <==> x in Differing(Trues(prev), Trues(curr[..|prev|])) {}
    return Some(out);
  }

  /** The first of the indices that is alive or has no weak reference at all, which stops the scan. */
  ghost predicate StopsAt(w: World, p: seq<nat>, indices: seq<Idx>, k: nat) {
    && k < |indices| && (RefAt(w, p, indices[k]).None? || IsLive(w, p, indices[k]))
    && forall j :: 0 <= j < k ==> RefAt(w, p, indices[j]).Some? && !IsLive(w, p, indices[j])
  }

  lemma StopIsUnique(w: World, p: seq<nat>, indices: seq<Idx>, k: nat)
    requires StopsAt(w, p, indices, k)
    ensures forall j: nat :: StopsAt(w, p, indices, j) ==> j == k
  {
  }

  /** _check_liveness over the indices of an expected-dead list; None stands for the RuntimeError raised
      when an index has no weak reference. */
  method CheckLiveness(w: World, p: seq<nat>, indices: seq<Idx>) returns (dead: Option<bool>)
    ensures dead.None? <==> exists k: nat :: StopsAt(w, p, indices, k) && RefAt(w, p, indices[k]).None?
    ensures dead.Some? ==> (dead.value <==> AllDead(w, p, set x | x in indices))
  {
    for k := 0 to |indices|
      invariant forall j :: 0 <= j < k ==> RefAt(w, p, indices[j]).Some? && !IsLive(w, p, indices[j])
    {
      if RefAt(w, p, indices[k]).None? {
        assert StopsAt(w, p, indices, k);
        return None;
      }
      if IsLive(w, p, indices[k]) {
        assert indices[k] in set x | x in indices;
        assert StopsAt(w, p, indices, k);
        StopIsUnique(w, p, indices, k);
        return Some(false);
      }
    }
    return Some(true);
  }

  /** The expected-dead indices of a child of the current node all have weak references, so checking
      them never raises. */
  lemma ExpectedDeadHaveRefs(w: World, c: nat, x: Idx)
    requires c < |w.nodes| && Inv(w, w.nodes[c].parent, {}) && Filled(w)
    requires x in w.nodes[c].deadBefore || x in w.nodes[c].deadAfter
    ensures RefAt(w, Path(w.nodes, w.nodes[c].parent), x).Some?
  {
    assert NodeOK(w.nodes, c);
    assert x in After(w.nodes, w.nodes[c].parent);
  }

  /** _get_liveness */
  method GetLiveness(w: World, p: seq<nat>) returns (m: Matrix)
    requires forall d :: 0 <= d < |p| ==> p[d] < |w.refs|
    ensures ShapedLike(w, p, m) && Trues(m) == LiveIdx(w, p)
  {
    m := [];
    for d := 0 to |p|
      invariant |m| == d
      invariant forall k :: 0 <= k < d ==> m[k] == LiveRow(w, p, k)
    {
      m := m + [LiveRow(w, p, d)];
    }
    forall x: Idx ensures x in Trues(m) <==> x in LiveIdx(w, p) {}
  }

  function LiveRow(w: World, p: seq<nat>, d: nat): seq<bool>
    requires d < |p| && p[d] < |w.refs|
  {
    seq(|w.refs[p[d]]|, i requires 0 <= i < |w.refs[p[d]]| => IsLive(w, p, (d, i)))
  }

  /** One row per node of the path, one entry per output. */
  ghost predicate ShapedLike(w: World, p: seq<nat>, m: Matrix) {
    |m| == |p| && forall d :: 0 <= d < |p| ==> p[d] < |w.refs| && |m[d]| == |w.refs[p[d]]|
  }

  /** data_ptrs_dead_since_invocation: the recorded liveness of the current node against the present one.
      The comparison never raises, every differing index has a recorded data pointer, and the pointers
      are those that CheckpointIsExact allows to be freed. */
  method DataPtrsDeadSinceInvocation(w: World, c: nat, recorded: Matrix) returns (ptrs: seq<Addr>)
    requires c < |w.nodes| && Inv(w, Some(c), {})
    requires ShapedLike(w, Path(w.nodes, Some(c)), recorded) && Trues(recorded) == w.nodes[c].after
    ensures forall a :: a in ptrs <==> a in DeadPtrs(w, Some(c))
  {
    hide OnPath, RefsOK, AliasAt;
    var p := Path(w.nodes, Some(c));
    var current := GetLiveness(w, p);
    var different := GetDifferentIndices(recorded, current);
    assert current[..|recorded|] == current;
    var indices := different.value;
    DifferingIsDead(w, c, indices);
    ptrs := [];
    for k := 0 to |indices|
      invariant forall a :: a in ptrs <==> exists j :: 0 <= j < k && PtrAt(w.nodes, p, indices[j]) == a
    {
      ptrs := ptrs + [PtrAt(w.nodes, p, indices[k])];
    }
    DeadPtrsAre(w, c, indices);
  }

  /** Nothing has come alive since the node was recorded, so what differs has died. */
  lemma DifferingIsDead(w: World, c: nat, indices: seq<Idx>)
    requires c < |w.nodes| && Inv(w, Some(c), {})
    requires (set x | x in indices) == Differing(w.nodes[c].after, LiveIdx(w, Path(w.nodes, Some(c))))
    ensures forall x :: x in indices <==> x in w.nodes[c].after - LiveIdx(w, Path(w.nodes, Some(c)))
    ensures forall k :: 0 <= k < |indices| ==> OnPath(w.nodes, Path(w.nodes, Some(c)), indices[k])
  {
    var s := set x | x in indices;
    forall x ensures x in indices <==> x in w.nodes[c].after - LiveIdx(w, Path(w.nodes, Some(c))) {
      assert x in indices <==> x in s;
    }
    forall k | 0 <= k < |indices| ensures OnPath(w.nodes, Path(w.nodes, Some(c)), indices[k]) {
      assert indices[k] in indices;
      assert indices[k] in w.nodes[c].after;
    }
  }

  lemma DeadPtrsAre(w: World, c: nat, indices: seq<Idx>)
    requires c < |w.nodes| && Inv(w, Some(c), {})
    requires forall x :: x in indices <==> x in w.nodes[c].after - LiveIdx(w, Path(w.nodes, Some(c)))
    requires forall k :: 0 <= k < |indices| ==> OnPath(w.nodes, Path(w.nodes, Some(c)), indices[k])
    ensures forall a :: a in DeadPtrs(w, Some(c)) <==>
      exists j :: 0 <= j < |indices| && PtrAt(w.nodes, Path(w.nodes, Some(c)), indices[j]) == a
  {
    var p := Path(w.nodes, Some(c));
    forall a | a in DeadPtrs(w, Some(c))
      ensures exists j :: 0 <= j < |indices| && PtrAt(w.nodes, p, indices[j]) == a
    {
      var x :| x in w.nodes[c].after - LiveIdx(w, p) && PtrAt(w.nodes, p, x) == a;
      assert x in indices;
      var j :| 0 <= j < |indices| && indices[j] == x;
    }
    forall j | 0 <= j < |indices| ensures PtrAt(w.nodes, p, indices[j]) in DeadPtrs(w, Some(c)) {
      assert indices[j] in indices;
    }
  }

  /** live_indices_after_graph, collected by the nested loops at the end of _add_first_outputs. */
  method LiveIndices(w: World, p: seq<nat>) returns (out: seq<Idx>)
    requires forall d :: 0 <= d < |p| ==> p[d] < |w.refs|
    ensures NoRepeats(out) && (set x | x in out) == LiveIdx(w, p)
  {
    out := [];
    for d := 0 to |p|
      invariant NoRepeats(out)
      invariant forall x: Idx :: x in out <==> x in LiveIdx(w, p) && x.0 < d
    {
      for i := 0 to |w.refs[p[d]]|
        invariant NoRepeats(out)
        invariant forall x: Idx :: x in out <==> x in LiveIdx(w, p) && (x.0 < d || (x.0 == d && x.1 < i))
      {
        if IsLive(w, p, (d, i)) {
          out := out + [(d, i)];
        }
      }
    }
  }
}
