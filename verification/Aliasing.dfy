/** How a recording classifies the storages of its outputs (_add_first_outputs), and how a replay
    rebuilds them (reconstruct_outputs). */
module Aliasing {
  import opened Basics
  import opened GraphTree

  /** An output returned by the recorded function. */
  datatype Raw = Value | Tensor(ptr: Addr)

  predicate Before(x: Idx, y: Idx) {
    x.0 < y.0 || (x.0 == y.0 && x.1 < y.1)
  }

  /** A live path output at address a. */
  predicate LiveAt(w: World, p: seq<nat>, a: Addr, x: Idx) {
    IsLive(w, p, x) && RefAt(w, p, x).value < |w.addr| && w.addr[RefAt(w, p, x).value] == a
  }

  /** The result of _is_alias_of_live_recorded_tensor: the first match in path order. */
  ghost predicate FirstAlias(w: World, p: seq<nat>, a: Addr, r: Option<Idx>) {
    match r
    case Some(x) => LiveAt(w, p, a, x) && forall y: Idx :: LiveAt(w, p, a, y) ==> !Before(y, x)
    case None => forall y: Idx :: !LiveAt(w, p, a, y)
  }

  method FindLiveAlias(w: World, p: seq<nat>, a: Addr) returns (r: Option<Idx>)
    requires forall d :: 0 <= d < |p| ==> p[d] < |w.refs|
    ensures FirstAlias(w, p, a, r)
  {
    for d := 0 to |p|
      invariant forall y: Idx :: y.0 < d ==> !LiveAt(w, p, a, y)
    {
      for i := 0 to |w.refs[p[d]]|
        invariant forall y: Idx :: Before(y, (d, i)) ==> !LiveAt(w, p, a, y)
      {
        if LiveAt(w, p, a, (d, i)) {
          return Some((d, i));
        }
      }
    }
    return None;
  }

  /** A CPU tensor that the recording keeps although the graph does not own it; `cpuOutputs` is
      disable_cpu_input_check. */
  predicate KeptOnHost(raw: Raw, cpuOutputs: bool) {
    raw.Tensor? && raw.ptr.Host? && cpuOutputs
  }

  /** Any other CPU tensor makes _add_first_outputs raise, unless its storage is empty. */
  predicate Refused(raw: Raw, cpuOutputs: bool) {
    raw.Tensor? && raw.ptr.Host? && !cpuOutputs && raw.ptr.at != 0
  }

  /** An output without memory, or in the memory of a parameter. */
  predicate Persists(statics: set<Addr>, cpuOutputs: bool, raw: Raw) {
    raw.Tensor? && !KeptOnHost(raw, cpuOutputs) && (raw.ptr.at == 0 || raw.ptr in statics)
  }

  /** An output in device memory that is neither persistent nor owned by an older output. */
  ghost predicate Unmanaged(w: World, p: seq<nat>, statics: set<Addr>, cpuOutputs: bool, raw: Raw) {
    && raw.Tensor? && raw.ptr.Device? && !Persists(statics, cpuOutputs, raw)
    && forall y: Idx :: !LiveAt(w, p, raw.ptr, y)
  }

  /** What output_storage_alias must say about output i, without reference to how it is computed:
      CPU tensors stand alone; persistent memory is static; memory of a live older output is that output;
      the first output in new memory is fresh and each later one names it. */
  ghost predicate ClassifiedAt(w: World, p: seq<nat>, statics: set<Addr>, cpuOutputs: bool, raws: seq<Raw>, i: nat,
                               a: Alias)
    requires i < |raws|
  {
    match a
    case NotTensor => raws[i].Value?
    case OnHost => KeptOnHost(raws[i], cpuOutputs)
    case Static => Persists(statics, cpuOutputs, raws[i])
    case Prior(x) =>
      && raws[i].Tensor? && raws[i].ptr.Device? && !Persists(statics, cpuOutputs, raws[i])
      && FirstAlias(w, p, raws[i].ptr, Some(x))
    case Fresh => Unmanaged(w, p, statics, cpuOutputs, raws[i]) && raws[i] !in raws[..i]
    case New(k) =>
      && Unmanaged(w, p, statics, cpuOutputs, raws[i])
      && k < i && raws[k] == raws[i] && raws[i] !in raws[..k]
  }

  /** The outputs classified so far, none of which was refused. */
  ghost predicate ClassifiedUpTo(w: World, p: seq<nat>, statics: set<Addr>, cpuOutputs: bool, raws: seq<Raw>,
                                 alias: seq<Alias>)
  {
    && |alias| <= |raws|
    && forall i :: 0 <= i < |alias| ==>
         ClassifiedAt(w, p, statics, cpuOutputs, raws, i, alias[i]) && !Refused(raws[i], cpuOutputs)
  }

  ghost predicate Classified(w: World, p: seq<nat>, statics: set<Addr>, cpuOutputs: bool, raws: seq<Raw>,
                             alias: seq<Alias>)
  {
    |alias| == |raws| && ClassifiedUpTo(w, p, statics, cpuOutputs, raws, alias)
  }

  lemma ClassifiedSnoc(w: World, p: seq<nat>, statics: set<Addr>, cpuOutputs: bool, raws: seq<Raw>,
                       alias: seq<Alias>, a: Alias)
    requires ClassifiedUpTo(w, p, statics, cpuOutputs, raws, alias) && |alias| < |raws|
    requires ClassifiedAt(w, p, statics, cpuOutputs, raws, |alias|, a) && !Refused(raws[|alias|], cpuOutputs)
    ensures ClassifiedUpTo(w, p, statics, cpuOutputs, raws, alias + [a])
    ensures PointsBack(alias + [a])
  {
    var more := alias + [a];
    forall i | 0 <= i < |more| && more[i].New? ensures more[i].index < i {
      assert ClassifiedAt(w, p, statics, cpuOutputs, raws, i, more[i]);
    }
  }

  ghost predicate PointsBack(alias: seq<Alias>) {
    forall i :: 0 <= i < |alias| && alias[i].New? ==> alias[i].index < i
  }

  /** Classification is determined by the recorded pointers alone. */
  lemma ClassifiedIsUnique(w: World, p: seq<nat>, statics: set<Addr>, cpuOutputs: bool, raws: seq<Raw>,
                           a: seq<Alias>, b: seq<Alias>)
    requires Classified(w, p, statics, cpuOutputs, raws, a) && Classified(w, p, statics, cpuOutputs, raws, b)
    ensures a == b
  {
    forall i | 0 <= i < |raws| ensures a[i] == b[i] {
      assert ClassifiedAt(w, p, statics, cpuOutputs, raws, i, a[i]);
      assert ClassifiedAt(w, p, statics, cpuOutputs, raws, i, b[i]);
      if a[i].Prior? && b[i].Prior? {
        var x, y := a[i].at, b[i].at;
        assert !Before(x, y) && !Before(y, x);
      }
    }
  }

  /** unaliased_in_all_paths as far as this node knows: outputs no other output shares memory with. */
  ghost predicate OwnUnaliased(alias: seq<Alias>, i: nat) {
    i < |alias| && alias[i].Fresh? && New(i) !in alias
  }

  /** output_new_storages_index: where each piece of new memory was first returned. */
  ghost predicate Indexed(w: World, p: seq<nat>, statics: set<Addr>, cpuOutputs: bool, raws: seq<Raw>, n: nat,
                          newIndex: map<Addr, nat>)
    requires n <= |raws|
  {
    && (forall a :: a in newIndex ==>
          newIndex[a] < n && raws[newIndex[a]] == Tensor(a) && Tensor(a) !in raws[..newIndex[a]])
    && (forall i :: 0 <= i < n && Unmanaged(w, p, statics, cpuOutputs, raws[i]) ==> raws[i].ptr in newIndex)
    && (forall a :: a in newIndex ==> Unmanaged(w, p, statics, cpuOutputs, Tensor(a)))
  }

  /** One iteration of the loop of _add_first_outputs; None stands for the error raised on a CPU tensor. */
  method ClassifyOne(w: World, p: seq<nat>, statics: set<Addr>, cpuOutputs: bool, raws: seq<Raw>, n: nat,
                     newIndex: map<Addr, nat>)
    returns (a: Option<Alias>, newIndex': map<Addr, nat>)
    requires n < |raws| && Indexed(w, p, statics, cpuOutputs, raws, n, newIndex)
    requires forall d :: 0 <= d < |p| ==> p[d] < |w.refs|
    ensures a.None? <==> Refused(raws[n], cpuOutputs)
    ensures a.Some? ==> ClassifiedAt(w, p, statics, cpuOutputs, raws, n, a.value)
    ensures a.Some? ==> Indexed(w, p, statics, cpuOutputs, raws, n + 1, newIndex')
  {
    newIndex' := newIndex;
    if raws[n].Value? {
      a := Some(NotTensor);
    } else if raws[n].ptr.Host? && cpuOutputs {
      a := Some(OnHost);
    } else if raws[n].ptr.Host? && raws[n].ptr.at != 0 {
      a := None;
    } else if raws[n].ptr.at == 0 || raws[n].ptr in statics {
      a := Some(Static);
    } else {
      var pathRef := FindLiveAlias(w, p, raws[n].ptr);
      if pathRef.Some? {
        a := Some(Prior(pathRef.value));
      } else if raws[n].ptr in newIndex {
        a := Some(New(newIndex[raws[n].ptr]));
      } else {
        newIndex' := newIndex[raws[n].ptr := n];
        a := Some(Fresh);
      }
    }
  }

  /** The inner loop over live_npugraph_managed_path_refs. */
  method MarkPreserved(inputRefs: seq<Option<Idx>>, x: Idx, old': set<nat>) returns (preserved: set<nat>)
    ensures forall m: nat :: m in preserved <==> m in old' || (m < |inputRefs| && inputRefs[m] == Some(x))
  {
    preserved := old';
    for m := 0 to |inputRefs|
      invariant forall k: nat :: k in preserved <==> k in old' || (k < m && inputRefs[k] == Some(x))
    {
      if inputRefs[m] == Some(x) {
        preserved := preserved + {m};
      }
    }
  }

  /** What _add_first_outputs keeps besides the alias record: unaliased_in_all_paths, the ancestors' outputs
      passed to _mark_prior_graph_output_as_aliased, and preserved_aliased_inputs. */
  ghost predicate Marked(alias: seq<Alias>, n: nat, inputRefs: seq<Option<Idx>>, unaliased: seq<bool>,
                         marked: set<Idx>, preserved: set<nat>)
  {
    && |unaliased| == n && (forall i: nat :: i < n ==> (unaliased[i] <==> OwnUnaliased(alias, i)))
    && (forall x :: x in marked <==> Prior(x) in alias)
    && (forall m: nat :: m in preserved <==>
          m < |inputRefs| && inputRefs[m].Some? && Prior(inputRefs[m].value) in alias)
  }

  /** What one more classified output changes of it. */
  method MarkOne(alias: seq<Alias>, n: nat, a: Alias, inputRefs: seq<Option<Idx>>, unaliased: seq<bool>,
                 marked: set<Idx>, preserved: set<nat>)
    returns (unaliased': seq<bool>, marked': set<Idx>, preserved': set<nat>)
    requires |alias| < n && Marked(alias, n, inputRefs, unaliased, marked, preserved)
    requires PointsBack(alias + [a])
    ensures Marked(alias + [a], n, inputRefs, unaliased', marked', preserved')
  {
    unaliased', marked', preserved' := unaliased, marked, preserved;
    assert (alias + [a])[|alias|] == a;
    assert forall i :: 0 <= i < |alias| ==> (alias + [a])[i] == alias[i];
    if a.Prior? {
      marked' := marked + {a.at};
      preserved' := MarkPreserved(inputRefs, a.at, preserved);
    } else if a.New? {
      unaliased' := unaliased[a.index := false];
    } else if a.Fresh? {
      unaliased' := unaliased[|alias| := true];
    }
    forall b ensures b in alias + [a] <==> b in alias || b == a {}
  }

  /** _add_first_outputs.  `inputRefs` is live_npugraph_managed_path_refs. */
  method ClassifyOutputs(w: World, p: seq<nat>, statics: set<Addr>, cpuOutputs: bool, raws: seq<Raw>,
                         inputRefs: seq<Option<Idx>>)
    returns (ok: bool, alias: seq<Alias>, unaliased: seq<bool>, marked: set<Idx>, preserved: set<nat>)
    requires forall d :: 0 <= d < |p| ==> p[d] < |w.refs|
    ensures ok <==> forall i :: 0 <= i < |raws| ==> !Refused(raws[i], cpuOutputs)
    ensures ok ==> Classified(w, p, statics, cpuOutputs, raws, alias)
    ensures ok ==> Marked(alias, |raws|, inputRefs, unaliased, marked, preserved)
  {
    var newIndex: map<Addr, nat> := map[];
    alias, marked, preserved := [], {}, {};
    unaliased := seq(|raws|, _ => false);
    for n := 0 to |raws|
      invariant |alias| == n && Indexed(w, p, statics, cpuOutputs, raws, n, newIndex)
      invariant Marked(alias, |raws|, inputRefs, unaliased, marked, preserved)
      invariant ClassifiedUpTo(w, p, statics, cpuOutputs, raws, alias)
    {
      hide Indexed, Marked, ClassifiedAt, ClassifiedUpTo, PointsBack;
      var a;
      a, newIndex := ClassifyOne(w, p, statics, cpuOutputs, raws, n, newIndex);
      if a.None? {
        return false, alias, unaliased, marked, preserved;
      }
      ClassifiedSnoc(w, p, statics, cpuOutputs, raws, alias, a.value);
      unaliased, marked, preserved := MarkOne(alias, |raws|, a.value, inputRefs, unaliased, marked, preserved);
      alias := alias + [a.value];
    }
    ok := true;
  }

  /** AliasesNewOutput always points back at a fresh output. */
  lemma NewNamesFresh(w: World, p: seq<nat>, statics: set<Addr>, cpuOutputs: bool, raws: seq<Raw>,
                      alias: seq<Alias>, i: nat)
    requires Classified(w, p, statics, cpuOutputs, raws, alias) && i < |raws| && alias[i].New?
    ensures alias[i].index < i && alias[alias[i].index] == Fresh
  {
    var k := alias[i].index;
    assert ClassifiedAt(w, p, statics, cpuOutputs, raws, i, alias[i]);
    assert ClassifiedAt(w, p, statics, cpuOutputs, raws, k, alias[k]);
  }

  /** What a caller gets back for one output. */
  datatype Returned = Plain | Persistent | OnStorage(storage: nat)

  /** reconstruct_outputs.  `cached` is cached_tensor_outputs (empty when not populated).  The new weak
      references are exactly Row(w, c), and `outs` hands the caller the same storages. */
  method ReconstructOutputs(w: World, c: nat, cached: seq<bool>, unaliased: seq<bool>)
    returns (outs: seq<Returned>, row: seq<Option<nat>>, cached': seq<bool>)
    requires c < |w.nodes| && Inv(w, w.nodes[c].parent, {}) && Replayable(w, c)
    requires |unaliased| == |w.nodes[c].alias|
    requires forall i :: 0 <= i < |unaliased| && unaliased[i] ==> w.nodes[c].alias[i].Fresh?
    requires cached == [] || |cached| == |w.nodes[c].alias|
    requires forall i :: 0 <= i < |cached| && cached[i] ==> unaliased[i]
    ensures row == Row(w, c) && |outs| == |row|
    ensures forall i :: 0 <= i < |row| ==>
      && (outs[i].Plain? <==> w.nodes[c].alias[i].NotTensor?)
      && (outs[i].Persistent? <==> w.nodes[c].alias[i].Static?)
      && (row[i].Some? <==> outs[i].OnStorage?)
    ensures forall i :: 0 <= i < |row| && row[i].Some? ==> outs[i].storage == row[i].value
    ensures forall i, j :: 0 <= i < |outs| && 0 <= j < |outs| && outs[i].OnStorage? && outs[j].OnStorage? ==>
      (outs[i] == outs[j] <==> i == j || (w.nodes[c].ptr[i] == w.nodes[c].ptr[j] && w.nodes[c].ptr[i].Device?))
    ensures cached' == (if cached == [] then unaliased else cached) && |cached'| == |w.nodes[c].alias|
    ensures forall i :: 0 <= i < |cached'| && cached'[i] ==> unaliased[i]
  {
    hide RefsOK, Covered, LiveOK, Above, Ptrs;
    var n := w.nodes[c];
    var p := Path(w.nodes, n.parent);
    assert NodeOK(w.nodes, c);
    PathStep(w.nodes, c);
    cached' := if cached == [] then unaliased else cached;
    outs, row := [], [];
    for i := 0 to |n.alias|
      invariant |outs| == |row| == i
      invariant forall j :: 0 <= j < i ==> row[j] == StorageFor(w, c, j)
      invariant forall j :: 0 <= j < i ==>
        && (outs[j].Plain? <==> n.alias[j].NotTensor?)
        && (outs[j].Persistent? <==> n.alias[j].Static?)
        && (row[j].Some? <==> outs[j].OnStorage?)
      invariant forall j :: 0 <= j < i && row[j].Some? ==> outs[j].storage == row[j].value
    {
      if n.alias[i].NotTensor? {
        outs, row := outs + [Plain], row + [None];
      } else if cached'[i] || n.alias[i].Fresh? || n.alias[i].OnHost? {
        // a cached tensor comes back to life; an uncached fresh or CPU output gets a storage of its own
        outs, row := outs + [OnStorage(|w.addr| + i)], row + [Some(|w.addr| + i)];
      } else if n.alias[i].Static? {
        outs, row := outs + [Persistent], row + [None];
      } else {
        assert Tracked(n, i);
        if n.alias[i].New? {
          var s := outs[n.alias[i].index].storage;
          outs, row := outs + [OnStorage(s)], row + [Some(s)];
        } else {
          var s := RefAt(w, p, n.alias[i].at).value;
          outs, row := outs + [OnStorage(s)], row + [Some(s)];
        }
      }
    }
    forall i, j | 0 <= i < |outs| && 0 <= j < |outs| && outs[i].OnStorage? && outs[j].OnStorage?
      ensures outs[i] == outs[j] <==> i == j || (n.ptr[i] == n.ptr[j] && n.ptr[i].Device?)
    {
      AliasingReproduced(w, c, i, j);
    }
  }
}
