/** Recording a new node under the current one (the constructor of NPUGraphNode). */
module Recording {
  import opened Basics
  import opened GraphTree
  import opened Aliasing

  /** What capturing a function did: which storages died while it ran, what it returned, which
      persistent pointers it was given, which addresses handed out by the allocator its kernels write, and
      whether CPU outputs were tolerated (disable_cpu_input_check). */
  datatype Capture = Capture(dies: set<nat>, outputs: seq<Raw>, statics: set<Addr>, writes: set<Addr>,
                             cpuOutputs: bool)

  function DeadAddrs(w: World, dead: set<nat>): set<Addr>
    requires LiveOK(w)
  {
    set s | s in w.live && s in dead :: w.addr[s]
  }

  /** The caching allocator hands out device memory only and no block that stays allocated, and a function
      can return older memory that is still held only if it was given it. */
  predicate CaptureOK(w: World, inputs: seq<Option<Addr>>, k: Capture)
    requires LiveOK(w)
  {
    && k.writes !! w.pool - DeadAddrs(w, k.dies)
    && (forall a :: a in k.writes ==> a.Device?)
    && forall i :: 0 <= i < |k.outputs| && k.outputs[i].Tensor?
                   && k.outputs[i].ptr in OnDevice(Addrs(w)) - DeadAddrs(w, k.dies) ==>
         Some(k.outputs[i].ptr) in inputs
  }

  /** _is_npu_graph_recorded_tensor */
  predicate Recorded(nodes: seq<Node>, p: seq<nat>, a: Addr)
    requires Parents(nodes) && forall d :: 0 <= d < |p| ==> p[d] < |nodes|
  {
    exists d, i | 0 <= d < |p| && 0 <= i < |nodes[p[d]].alias| ::
      OnPath(nodes, p, (d, i)) && PtrAt(nodes, p, (d, i)) == a
  }

  function Managed(nodes: seq<Node>, p: seq<nat>, inputs: seq<Option<Addr>>): map<nat, Addr>
    requires Parents(nodes) && forall d :: 0 <= d < |p| ==> p[d] < |nodes|
  {
    map m | 0 <= m < |inputs| && inputs[m].Some? && Recorded(nodes, p, inputs[m].value) :: inputs[m].value
  }

  function Pointers(raws: seq<Raw>): (ps: seq<Addr>)
    ensures |ps| == |raws|
  {
    seq(|raws|, i requires 0 <= i < |raws| => if raws[i].Tensor? then raws[i].ptr else Device(0))
  }

  /** _get_different_indices on two liveness sets */
  function Differing(prev: set<Idx>, curr: set<Idx>): set<Idx> {
    (prev - curr) + (curr - prev)
  }

  function Own(alias: seq<Alias>, d: nat): set<Idx> {
    set i: nat | i < |alias| && (alias[i].Fresh? || alias[i].New? || alias[i].Prior? || alias[i].OnHost?) :: (d, i)
  }

  function FreshPtrs(alias: seq<Alias>, ptr: seq<Addr>): set<Addr>
    requires |ptr| == |alias|
  {
    set i | 0 <= i < |alias| && alias[i].Fresh? :: ptr[i]
  }

  function NewNode(w: World, cur: Option<nat>, f: nat, inputs: seq<Option<Addr>>, k: Capture,
                         alias: seq<Alias>, preserved: set<nat>): Node
    requires WorldOK(w) && (cur.Some? ==> cur.value < |w.nodes|) && |alias| == |k.outputs|
  {
    var p := Path(w.nodes, cur);
    var before := LiveIdx(w, p);
    var mid := LiveIdx(Kill(w, k.dies), p);
    var ptr := Pointers(k.outputs);
    Node(f, cur, alias, ptr, before, mid + Own(alias, |p|),
         Differing(After(w.nodes, cur), before), Differing(before, mid),
         w.pool - DeadAddrs(w, k.dies) + FreshPtrs(alias, ptr),
         k.writes, Managed(w.nodes, p, inputs), preserved)
  }

  /** The world right after the capture, before the outputs' weak references are filled in. */
  function WithNode(w: World, n: Node, k: Capture): World {
    Kill(w, k.dies).(nodes := w.nodes + [n], refs := w.refs + [[]])
  }

  /** The world when record_function returns. */
  function Record(w: World, n: Node, k: Capture): World
    requires Parents(w.nodes + [n]) && |w.refs| == |w.nodes|
  {
    Incarnate(WithNode(w, n, k), |w.nodes|).(pool := n.checkpoint)
  }

  /** preserved_aliased_inputs marks the inputs whose storage an output aliases. */
  ghost predicate PreservedOK(w: World, p: seq<nat>, inputs: seq<Option<Addr>>, alias: seq<Alias>,
                              preserved: set<nat>)
  {
    forall m: nat, x: Idx ::
      m < |inputs| && inputs[m].Some? && FirstAlias(w, p, inputs[m].value, Some(x)) && Prior(x) in alias
      ==> m in preserved
  }

  ghost predicate RecordOK(w: World, cur: Option<nat>, inputs: seq<Option<Addr>>, k: Capture,
                           alias: seq<Alias>, preserved: set<nat>)
  {
    && Inv(w, cur, {}) && w.pool == OnDevice(Addrs(w))
    && CaptureOK(w, inputs, k)
    && Classified(Kill(w, k.dies), Path(w.nodes, cur), k.statics, k.cpuOutputs, k.outputs, alias)
    && PreservedOK(w, Path(w.nodes, cur), inputs, alias, preserved)
  }

  /** The first live alias of a storage that survives the capture is the same before and after it. */
  lemma FirstAliasSurvives(w: World, cur: Option<nat>, dead: set<nat>, a: Addr, x: Idx)
    requires Inv(w, cur, {})
    requires FirstAlias(Kill(w, dead), Path(w.nodes, cur), a, Some(x)) && a.Device?
    ensures FirstAlias(w, Path(w.nodes, cur), a, Some(x))
  {
    var p := Path(w.nodes, cur);
    var w1 := Kill(w, dead);
    assert RefAt(w1, p, x) == RefAt(w, p, x);
    forall y: Idx | LiveAt(w, p, a, y) ensures !Before(y, x) {
      assert RefAt(w1, p, y) == RefAt(w, p, y);
      assert LiveAt(w1, p, a, y);
    }
  }

  lemma NewParents(w: World, cur: Option<nat>, f: nat, inputs: seq<Option<Addr>>, k: Capture,
                   alias: seq<Alias>, preserved: set<nat>)
    requires RecordOK(w, cur, inputs, k, alias, preserved)
    ensures var n := NewNode(w, cur, f, inputs, k, alias, preserved);
      && Parents(w.nodes + [n])
      && Path(w.nodes + [n], cur) == Path(w.nodes, cur)
      && Path(w.nodes + [n], Some(|w.nodes|)) == Path(w.nodes, cur) + [|w.nodes|]
  {
    var n := NewNode(w, cur, f, inputs, k, alias, preserved);
    PathAppend(w.nodes, n, cur);
  }

  /** Path indices keep their meaning when a node is appended and the path extended by it. */
  lemma SameIndex(nodes: seq<Node>, n: Node, p: seq<nat>, x: Idx)
    requires Parents(nodes) && Parents(nodes + [n]) && OnPath(nodes, p, x)
    ensures OnPath(nodes + [n], p + [|nodes|], x)
    ensures PtrAt(nodes + [n], p + [|nodes|], x) == PtrAt(nodes, p, x)
  {
  }

  lemma LiveOnPath(w: World, cur: Option<nat>, dead: set<nat>, x: Idx)
    requires Inv(w, cur, {}) && x in LiveIdx(Kill(w, dead), Path(w.nodes, cur))
    ensures OnPath(w.nodes, Path(w.nodes, cur), x)
  {
  }

  lemma NewOnPath(w: World, cur: Option<nat>, f: nat, inputs: seq<Option<Addr>>, k: Capture,
                   alias: seq<Alias>, preserved: set<nat>)
    requires RecordOK(w, cur, inputs, k, alias, preserved)
    ensures var n := NewNode(w, cur, f, inputs, k, alias, preserved);
      var nodes := w.nodes + [n];
      && Parents(nodes)
      && AllOnPath(nodes, Path(nodes, Some(|w.nodes|)), n.after)
      && forall x :: x in n.after && x.0 < |Path(w.nodes, cur)| ==>
           && x in LiveIdx(Kill(w, k.dies), Path(w.nodes, cur)) && OnPath(w.nodes, Path(w.nodes, cur), x)
           && PtrAt(nodes, Path(nodes, Some(|w.nodes|)), x) == PtrAt(w.nodes, Path(w.nodes, cur), x)
  {
    var n := NewNode(w, cur, f, inputs, k, alias, preserved);
    var p := Path(w.nodes, cur);
    NewParents(w, cur, f, inputs, k, alias, preserved);
    forall x | x in n.after
      ensures OnPath(w.nodes + [n], p + [|w.nodes|], x)
      ensures x.0 < |p| ==> x in LiveIdx(Kill(w, k.dies), p) && OnPath(w.nodes, p, x)
      ensures x.0 < |p| ==> PtrAt(w.nodes + [n], p + [|w.nodes|], x) == PtrAt(w.nodes, p, x)
    {
      if x in LiveIdx(Kill(w, k.dies), p) {
        LiveOnPath(w, cur, k.dies, x);
        SameIndex(w.nodes, n, p, x);
      }
    }
  }

  lemma NewFreshOK(w: World, cur: Option<nat>, f: nat, inputs: seq<Option<Addr>>, k: Capture,
                   alias: seq<Alias>, preserved: set<nat>, i: nat)
    requires RecordOK(w, cur, inputs, k, alias, preserved)
    requires i < |alias| && alias[i].Fresh?
    ensures var n := NewNode(w, cur, f, inputs, k, alias, preserved);
      var p := Path(w.nodes, cur);
      && (forall x :: x in LiveIdx(Kill(w, k.dies), p) && OnPath(w.nodes, p, x) ==> PtrAt(w.nodes, p, x) != n.ptr[i])
      && (forall j :: 0 <= j < |alias| && alias[j].Fresh? && n.ptr[j] == n.ptr[i] ==> j == i)
  {
    hide Covered, LiveOK, Follows, CaptureOK, AliasAt;
    var n := NewNode(w, cur, f, inputs, k, alias, preserved);
    var p := Path(w.nodes, cur);
    var w1 := Kill(w, k.dies);
    KillKeepsInv(w, cur, {}, k.dies);
    assert ClassifiedAt(w1, p, k.statics, k.cpuOutputs, k.outputs, i, alias[i]);
    forall x | x in LiveIdx(w1, p) && OnPath(w.nodes, p, x) ensures PtrAt(w.nodes, p, x) != n.ptr[i] {
      assert !LiveAt(w1, p, n.ptr[i], x);
    }
    forall j | 0 <= j < |alias| && alias[j].Fresh? && n.ptr[j] == n.ptr[i] ensures j == i {
      assert ClassifiedAt(w1, p, k.statics, k.cpuOutputs, k.outputs, j, alias[j]);
      assert k.outputs[i] == k.outputs[j];
    }
  }

  lemma NewAliasAt(w: World, cur: Option<nat>, f: nat, inputs: seq<Option<Addr>>, k: Capture,
                   alias: seq<Alias>, preserved: set<nat>, i: nat)
    requires RecordOK(w, cur, inputs, k, alias, preserved)
    requires Tracked(NewNode(w, cur, f, inputs, k, alias, preserved), i)
    ensures var n := NewNode(w, cur, f, inputs, k, alias, preserved);
      var nodes := w.nodes + [n];
      && Parents(nodes)
      && var p := Path(nodes, Some(|w.nodes|));
         AllOnPath(nodes, p, n.after) && AliasAt(nodes, p, n, i)
  {
    var p := Path(w.nodes, cur);
    NewParents(w, cur, f, inputs, k, alias, preserved);
    NewOnPath(w, cur, f, inputs, k, alias, preserved);
    NewIsWhere(w, cur, f, inputs, k, alias, preserved, i);
    match alias[i] {
      case Fresh =>
        NewFreshOK(w, cur, f, inputs, k, alias, preserved, i);
      case New(_) =>
        NewNamesFresh(Kill(w, k.dies), p, k.statics, k.cpuOutputs, k.outputs, alias, i);
        assert ClassifiedAt(Kill(w, k.dies), p, k.statics, k.cpuOutputs, k.outputs, i, alias[i]);
      case Prior(_) =>
        NewPriorOK(w, cur, f, inputs, k, alias, preserved, i);
      case _ =>
    }
  }

  /** CPU outputs, and no others, have host pointers. */
  lemma NewIsWhere(w: World, cur: Option<nat>, f: nat, inputs: seq<Option<Addr>>, k: Capture,
                   alias: seq<Alias>, preserved: set<nat>, i: nat)
    requires RecordOK(w, cur, inputs, k, alias, preserved)
    requires Tracked(NewNode(w, cur, f, inputs, k, alias, preserved), i)
    ensures alias[i].OnHost? <==> Pointers(k.outputs)[i].Host?
  {
    hide CaptureOK, PreservedOK;
    assert ClassifiedAt(Kill(w, k.dies), Path(w.nodes, cur), k.statics, k.cpuOutputs, k.outputs, i, alias[i]);
  }

  lemma NewAliasOK(w: World, cur: Option<nat>, f: nat, inputs: seq<Option<Addr>>, k: Capture,
                   alias: seq<Alias>, preserved: set<nat>)
    requires RecordOK(w, cur, inputs, k, alias, preserved)
    ensures var n := NewNode(w, cur, f, inputs, k, alias, preserved);
      var nodes := w.nodes + [n];
      && Parents(nodes)
      && var p := Path(nodes, Some(|w.nodes|));
         AllOnPath(nodes, p, n.after) && AliasOK(nodes, p, n)
  {
    hide AliasAt;
    var n := NewNode(w, cur, f, inputs, k, alias, preserved);
    hide RecordOK, NewNode;
    NewParents(w, cur, f, inputs, k, alias, preserved);
    NewOnPath(w, cur, f, inputs, k, alias, preserved);
    forall i: nat | Tracked(n, i) ensures AliasAt(w.nodes + [n], Path(w.nodes + [n], Some(|w.nodes|)), n, i) {
      NewAliasAt(w, cur, f, inputs, k, alias, preserved, i);
    }
  }

  lemma PriorIsLive(w: World, cur: Option<nat>, f: nat, inputs: seq<Option<Addr>>, k: Capture,
                   alias: seq<Alias>, preserved: set<nat>, i: nat)
    requires RecordOK(w, cur, inputs, k, alias, preserved)
    requires i < |alias| && alias[i].Prior?
    ensures var p := Path(w.nodes, cur);
      var x, a := alias[i].at, Pointers(k.outputs)[i];
      && x in LiveIdx(Kill(w, k.dies), p) && OnPath(w.nodes, p, x) && PtrAt(w.nodes, p, x) == a
      && FirstAlias(w, p, a, Some(x)) && a in OnDevice(Addrs(w)) - DeadAddrs(w, k.dies) && k.outputs[i] == Tensor(a)
  {
    var p := Path(w.nodes, cur);
    var x, a := alias[i].at, Pointers(k.outputs)[i];
    assert ClassifiedAt(Kill(w, k.dies), p, k.statics, k.cpuOutputs, k.outputs, i, alias[i]);
    assert LiveAt(Kill(w, k.dies), p, a, x);
    FirstAliasSurvives(w, cur, k.dies, a, x);
    assert RefAt(w, p, x).value in w.live;
    KilledAddrs(w, k.dies);
    assert a in OnDevice(Addrs(Kill(w, k.dies)));
  }

  lemma NewPriorOK(w: World, cur: Option<nat>, f: nat, inputs: seq<Option<Addr>>, k: Capture,
                   alias: seq<Alias>, preserved: set<nat>, i: nat)
    requires RecordOK(w, cur, inputs, k, alias, preserved)
    requires i < |alias| && alias[i].Prior?
    ensures var n := NewNode(w, cur, f, inputs, k, alias, preserved);
      var p := Path(w.nodes, cur);
      var x := alias[i].at;
      && x in n.after && OnPath(w.nodes, p, x) && PtrAt(w.nodes, p, x) == n.ptr[i]
      && (exists m :: m in n.managed && m in n.preserved && n.managed[m] == n.ptr[i])
  {
    hide LiveIdx, OnDevice, ClassifiedUpTo;
    var n := NewNode(w, cur, f, inputs, k, alias, preserved);
    var p := Path(w.nodes, cur);
    PriorIsLive(w, cur, f, inputs, k, alias, preserved, i);
    var x := alias[i].at;
    var m :| 0 <= m < |inputs| && inputs[m] == Some(n.ptr[i]);
    assert OnPath(w.nodes, p, (x.0, x.1)) && Recorded(w.nodes, p, n.ptr[i]);
    assert alias[i] == Prior(x) && Prior(x) in alias;
    assert m in n.managed && m in preserved;
  }

  /** The live addresses, seen through the path. */
  lemma PathAddrs(w: World, cur: Option<nat>)
    requires Inv(w, cur, {})
    ensures var p := Path(w.nodes, cur);
      AllOnPath(w.nodes, p, LiveIdx(w, p)) && Ptrs(w.nodes, p, LiveIdx(w, p)) == Addrs(w)
  {
    var p := Path(w.nodes, cur);
    forall s | s in w.live ensures w.addr[s] in Ptrs(w.nodes, p, LiveIdx(w, p)) {
      var x :| x in LiveIdx(w, p) && RefAt(w, p, x) == Some(s);
      assert PtrAt(w.nodes, p, x) == w.addr[s];
    }
    forall x | x in LiveIdx(w, p) ensures PtrAt(w.nodes, p, x) in Addrs(w) {
      assert RefAt(w, p, x).value in w.live;
    }
  }

  lemma SurvivorAddrs(w: World, cur: Option<nat>, dead: set<nat>)
    requires Inv(w, cur, {})
    ensures Inv(Kill(w, dead), cur, {})
    ensures var w1 := Kill(w, dead); var p := Path(w.nodes, cur);
      && AllOnPath(w.nodes, p, LiveIdx(w1, p))
      && Ptrs(w.nodes, p, LiveIdx(w1, p)) == Addrs(w1)
      && OnDevice(Addrs(w1)) == OnDevice(Addrs(w)) - DeadAddrs(w, dead)
  {
    KillKeepsInv(w, cur, {}, dead);
    PathAddrs(Kill(w, dead), cur);
    KilledAddrs(w, dead);
  }

  /** Because live storages do not overlap in device memory, freeing the dead ones frees nothing else. */
  lemma KilledAddrs(w: World, dead: set<nat>)
    requires LiveOK(w)
    ensures OnDevice(Addrs(Kill(w, dead))) == OnDevice(Addrs(w)) - DeadAddrs(w, dead)
  {
  }

  lemma NewLivenessOK(w: World, cur: Option<nat>, f: nat, inputs: seq<Option<Addr>>, k: Capture,
                      alias: seq<Alias>, preserved: set<nat>)
    requires RecordOK(w, cur, inputs, k, alias, preserved)
    ensures var n := NewNode(w, cur, f, inputs, k, alias, preserved);
      var d := |Path(w.nodes, cur)|;
      && Above(n.after, d) == LiveIdx(Kill(w, k.dies), Path(w.nodes, cur)) <= n.before
      && n.before <= After(w.nodes, cur)
      && n.deadBefore == After(w.nodes, cur) - n.before
      && n.deadAfter == n.before - n.after
      && (forall i: nat :: Tracked(n, i) ==> (d, i) in n.after)
  {
    hide Covered;
    var n := NewNode(w, cur, f, inputs, k, alias, preserved);
    var p := Path(w.nodes, cur);
    assert LiveIdx(Kill(w, k.dies), p) <= n.before;
    assert Above(n.after, |p|) == LiveIdx(Kill(w, k.dies), p);
  }

  /** A block that stayed allocated during the capture belongs to an older output. */
  lemma SurvivorOnPath(w: World, cur: Option<nat>, f: nat, inputs: seq<Option<Addr>>, k: Capture,
                       alias: seq<Alias>, preserved: set<nat>, a: Addr) returns (x: Idx)
    requires RecordOK(w, cur, inputs, k, alias, preserved) && a in w.pool - DeadAddrs(w, k.dies)
    ensures var n := NewNode(w, cur, f, inputs, k, alias, preserved);
      var nodes := w.nodes + [n];
      && Parents(nodes) && x in n.after && OnPath(nodes, Path(nodes, Some(|w.nodes|)), x)
      && PtrAt(nodes, Path(nodes, Some(|w.nodes|)), x) == a
  {
    hide NodeOK, AliasOK, CaptureOK, Classified, PreservedOK;
    var p := Path(w.nodes, cur);
    SurvivorAddrs(w, cur, k.dies);
    x :| x in LiveIdx(Kill(w, k.dies), p) && PtrAt(w.nodes, p, x) == a;
    NewParents(w, cur, f, inputs, k, alias, preserved);
    SameIndex(w.nodes, NewNode(w, cur, f, inputs, k, alias, preserved), p, x);
  }

  /** A block handed out during the capture belongs to a fresh output. */
  lemma FreshOnPath(w: World, cur: Option<nat>, f: nat, inputs: seq<Option<Addr>>, k: Capture,
                    alias: seq<Alias>, preserved: set<nat>, i: nat)
    requires RecordOK(w, cur, inputs, k, alias, preserved) && i < |alias| && alias[i].Fresh?
    ensures var n := NewNode(w, cur, f, inputs, k, alias, preserved);
      var nodes, x := w.nodes + [n], (|Path(w.nodes, cur)|, i);
      && Parents(nodes) && x in n.after && OnPath(nodes, Path(nodes, Some(|w.nodes|)), x)
      && PtrAt(nodes, Path(nodes, Some(|w.nodes|)), x) == n.ptr[i] && n.ptr[i].Device?
  {
    hide NodeOK, CaptureOK, ClassifiedUpTo, PreservedOK, Follows, Covered, RefsOK, LiveOK;
    assert Tracked(NewNode(w, cur, f, inputs, k, alias, preserved), i);
    NewIsWhere(w, cur, f, inputs, k, alias, preserved, i);
    NewParents(w, cur, f, inputs, k, alias, preserved);
    assert (|Path(w.nodes, cur)|, i) in Own(alias, |Path(w.nodes, cur)|);
  }

  lemma AllocatedIsOnPath(w: World, cur: Option<nat>, f: nat, inputs: seq<Option<Addr>>, k: Capture,
                          alias: seq<Alias>, preserved: set<nat>, a: Addr)
    requires RecordOK(w, cur, inputs, k, alias, preserved)
    requires a in NewNode(w, cur, f, inputs, k, alias, preserved).checkpoint
    ensures var n := NewNode(w, cur, f, inputs, k, alias, preserved);
      var nodes := w.nodes + [n];
      && Parents(nodes)
      && a.Device?
      && exists x :: x in n.after && OnPath(nodes, Path(nodes, Some(|w.nodes|)), x)
                     && PtrAt(nodes, Path(nodes, Some(|w.nodes|)), x) == a
  {
    hide Inv, CaptureOK, ClassifiedUpTo, PreservedOK;
    var ptr := Pointers(k.outputs);
    if i: nat :| i < |alias| && alias[i].Fresh? && ptr[i] == a {
      FreshOnPath(w, cur, f, inputs, k, alias, preserved, i);
    } else {
      assert a !in FreshPtrs(alias, ptr);
      var x := SurvivorOnPath(w, cur, f, inputs, k, alias, preserved, a);
    }
  }

  lemma NewWritesOK(w: World, cur: Option<nat>, f: nat, inputs: seq<Option<Addr>>, k: Capture,
                   alias: seq<Alias>, preserved: set<nat>)
    requires RecordOK(w, cur, inputs, k, alias, preserved)
    ensures var n := NewNode(w, cur, f, inputs, k, alias, preserved);
      var nodes := w.nodes + [n];
      && Parents(nodes)
      && var q := Path(nodes, Some(|w.nodes|));
         AllOnPath(nodes, q, n.after) && n.writes !! Ptrs(nodes, q, Above(n.after, |q| - 1))
  {
    var n := NewNode(w, cur, f, inputs, k, alias, preserved);
    var p := Path(w.nodes, cur);
    NewParents(w, cur, f, inputs, k, alias, preserved);
    NewOnPath(w, cur, f, inputs, k, alias, preserved);
    SurvivorAddrs(w, cur, k.dies);
    forall x | x in Above(n.after, |p|)
      ensures PtrAt(w.nodes + [n], p + [|w.nodes|], x) !in n.writes
    {
      assert PtrAt(w.nodes, p, x) in Addrs(Kill(w, k.dies));
    }
  }

  lemma NewCheckpointOK(w: World, cur: Option<nat>, f: nat, inputs: seq<Option<Addr>>, k: Capture,
                   alias: seq<Alias>, preserved: set<nat>)
    requires RecordOK(w, cur, inputs, k, alias, preserved)
    ensures var n := NewNode(w, cur, f, inputs, k, alias, preserved);
      var nodes := w.nodes + [n];
      && Parents(nodes)
      && var q := Path(nodes, Some(|w.nodes|));
         && AllOnPath(nodes, q, n.after)
         && n.checkpoint == OnDevice(Ptrs(nodes, q, n.after))
         && n.writes !! Ptrs(nodes, q, Above(n.after, |q| - 1))
  {
    var n := NewNode(w, cur, f, inputs, k, alias, preserved);
    NewWritesOK(w, cur, f, inputs, k, alias, preserved);
    var nodes := w.nodes + [n];
    var q := Path(nodes, Some(|w.nodes|));
    forall a | a in n.checkpoint ensures a in OnDevice(Ptrs(nodes, q, n.after)) {
      AllocatedIsOnPath(w, cur, f, inputs, k, alias, preserved, a);
    }
    forall x | x in n.after && PtrAt(nodes, q, x).Device? ensures PtrAt(nodes, q, x) in n.checkpoint {
      OwnPtrIsAllocated(w, cur, f, inputs, k, alias, preserved, x);
    }
  }

  lemma OwnPtrIsAllocated(w: World, cur: Option<nat>, f: nat, inputs: seq<Option<Addr>>, k: Capture,
                          alias: seq<Alias>, preserved: set<nat>, x: Idx)
    requires RecordOK(w, cur, inputs, k, alias, preserved)
    requires x in NewNode(w, cur, f, inputs, k, alias, preserved).after
    ensures var n := NewNode(w, cur, f, inputs, k, alias, preserved);
      var nodes := w.nodes + [n];
      && Parents(nodes) && OnPath(nodes, Path(nodes, Some(|w.nodes|)), x)
      && (PtrAt(nodes, Path(nodes, Some(|w.nodes|)), x).Device? ==>
            PtrAt(nodes, Path(nodes, Some(|w.nodes|)), x) in n.checkpoint)
  {
    NewOnPath(w, cur, f, inputs, k, alias, preserved);
    NewParents(w, cur, f, inputs, k, alias, preserved);
    var p := Path(w.nodes, cur);
    if x.0 < |p| {
      SurvivorAddrs(w, cur, k.dies);
      assert PtrAt(w.nodes, p, x) in Ptrs(w.nodes, p, LiveIdx(Kill(w, k.dies), p));
    } else {
      if Pointers(k.outputs)[x.1].Device? {
        NewPtrIsAllocated(w, cur, f, inputs, k, alias, preserved, x.1);
      }
    }
  }

  lemma NewPtrIsAllocated(w: World, cur: Option<nat>, f: nat, inputs: seq<Option<Addr>>, k: Capture,
                          alias: seq<Alias>, preserved: set<nat>, i: nat)
    requires RecordOK(w, cur, inputs, k, alias, preserved)
    requires Tracked(NewNode(w, cur, f, inputs, k, alias, preserved), i) && Pointers(k.outputs)[i].Device?
    ensures var n := NewNode(w, cur, f, inputs, k, alias, preserved);
      n.ptr[i] in n.checkpoint
  {
    var n := NewNode(w, cur, f, inputs, k, alias, preserved);
    var p := Path(w.nodes, cur);
    var w1 := Kill(w, k.dies);
    assert ClassifiedAt(w1, p, k.statics, k.cpuOutputs, k.outputs, i, alias[i]);
    if alias[i].Prior? {
      assert LiveAt(w1, p, n.ptr[i], alias[i].at);
      assert RefAt(w1, p, alias[i].at).value in w1.live;
      KilledAddrs(w, k.dies);
    } else if alias[i].New? {
      NewNamesFresh(w1, p, k.statics, k.cpuOutputs, k.outputs, alias, i);
      assert n.ptr[alias[i].index] in FreshPtrs(alias, n.ptr);
    }
  }

  lemma NewNodeOK(w: World, cur: Option<nat>, f: nat, inputs: seq<Option<Addr>>, k: Capture,
                  alias: seq<Alias>, preserved: set<nat>)
    requires RecordOK(w, cur, inputs, k, alias, preserved)
    ensures var nodes := w.nodes + [NewNode(w, cur, f, inputs, k, alias, preserved)];
      Parents(nodes) && NodeOK(nodes, |w.nodes|)
  {
    hide Tree, OnDevice, LiveIdx, RefsOK, LiveOK, Differing, CaptureOK, ClassifiedAt, Managed, AliasOK;
    var n := NewNode(w, cur, f, inputs, k, alias, preserved);
    NewParents(w, cur, f, inputs, k, alias, preserved);
    NewAliasOK(w, cur, f, inputs, k, alias, preserved);
    NewLivenessOK(w, cur, f, inputs, k, alias, preserved);
    NewCheckpointOK(w, cur, f, inputs, k, alias, preserved);
    assert After(w.nodes + [n], cur) == After(w.nodes, cur);
  }

  lemma AppendWorldOK(w: World, n: Node)
    requires WorldOK(w) && Parents(w.nodes + [n]) && NodeOK(w.nodes + [n], |w.nodes|)
    ensures WorldOK(w.(nodes := w.nodes + [n], refs := w.refs + [[]]))
  {
    hide NodeOK;
    forall id | 0 <= id < |w.nodes| ensures NodeOK(w.nodes + [n], id) {
      NodeAppend(w.nodes, n, id);
    }
    assert RefsOK(w.(nodes := w.nodes + [n], refs := w.refs + [[]]));
  }

  lemma AppendLiveness(w: World, cur: Option<nat>, n: Node)
    requires Inv(w, cur, {}) && Parents(w.nodes + [n])
    ensures var w2 := w.(nodes := w.nodes + [n], refs := w.refs + [[]]);
      && Path(w2.nodes, cur) == Path(w.nodes, cur)
      && (forall x: Idx :: RefAt(w2, Path(w.nodes, cur), x) == RefAt(w, Path(w.nodes, cur), x))
      && LiveIdx(w2, Path(w.nodes, cur)) == LiveIdx(w, Path(w.nodes, cur))
  {
    PathAppend(w.nodes, n, cur);
  }

  /** Adding a well-formed recording to the tree disturbs nothing on the current path. */
  lemma AppendKeepsInv(w: World, cur: Option<nat>, n: Node)
    requires Inv(w, cur, {}) && Parents(w.nodes + [n]) && NodeOK(w.nodes + [n], |w.nodes|)
    ensures var w2 := w.(nodes := w.nodes + [n], refs := w.refs + [[]]);
      && Inv(w2, cur, {})
      && Path(w2.nodes, cur) == Path(w.nodes, cur)
      && LiveIdx(w2, Path(w.nodes, cur)) == LiveIdx(w, Path(w.nodes, cur))
  {
    var w2 := w.(nodes := w.nodes + [n], refs := w.refs + [[]]);
    var p := Path(w.nodes, cur);
    AppendWorldOK(w, n);
    AppendLiveness(w, cur, n);
    assert After(w2.nodes, cur) == After(w.nodes, cur);
    forall x | x in After(w.nodes, cur)
      ensures OnPath(w2.nodes, p, x) && PtrAt(w2.nodes, p, x) == PtrAt(w.nodes, p, x)
    {
      assert OnPath(w.nodes, p, x);
    }
  }

  lemma WithNodeKeepsInv(w: World, cur: Option<nat>, f: nat, inputs: seq<Option<Addr>>, k: Capture,
                         alias: seq<Alias>, preserved: set<nat>)
    requires RecordOK(w, cur, inputs, k, alias, preserved)
    ensures var n := NewNode(w, cur, f, inputs, k, alias, preserved);
      var w2 := WithNode(w, n, k);
      && Inv(w2, cur, {}) && Replayable(w2, |w.nodes|)
      && Above(n.after, |Path(w2.nodes, cur)|) == LiveIdx(w2, Path(w2.nodes, cur))
  {
    var n := NewNode(w, cur, f, inputs, k, alias, preserved);
    NewNodeOK(w, cur, f, inputs, k, alias, preserved);
    NewLivenessOK(w, cur, f, inputs, k, alias, preserved);
    KillKeepsInv(w, cur, {}, k.dies);
    AppendKeepsInv(Kill(w, k.dies), cur, n);
    WithNodeAliases(w, cur, f, inputs, k, alias, preserved);
  }

  lemma WithNodeAliases(w: World, cur: Option<nat>, f: nat, inputs: seq<Option<Addr>>, k: Capture,
                        alias: seq<Alias>, preserved: set<nat>)
    requires RecordOK(w, cur, inputs, k, alias, preserved)
    ensures var w2 := WithNode(w, NewNode(w, cur, f, inputs, k, alias, preserved), k);
      forall i :: 0 <= i < |alias| && alias[i].Prior? ==> IsLive(w2, Path(w.nodes, cur), alias[i].at)
  {
    AliasedAreLive(w, cur, inputs, k, alias, preserved);
  }

  /** The older outputs that a new recording aliases survived its capture. */
  lemma AliasedAreLive(w: World, cur: Option<nat>, inputs: seq<Option<Addr>>, k: Capture,
                       alias: seq<Alias>, preserved: set<nat>)
    requires RecordOK(w, cur, inputs, k, alias, preserved)
    ensures forall i :: 0 <= i < |alias| && alias[i].Prior? ==>
      IsLive(Kill(w, k.dies), Path(w.nodes, cur), alias[i].at)
  {
    forall i | 0 <= i < |alias| && alias[i].Prior?
      ensures IsLive(Kill(w, k.dies), Path(w.nodes, cur), alias[i].at)
    {
      assert ClassifiedAt(Kill(w, k.dies), Path(w.nodes, cur), k.statics, k.cpuOutputs, k.outputs, i, alias[i]);
    }
  }

  /** A recording neither writes over a surviving storage nor loses track of one: afterwards the
      invariant holds at the new node and the allocator's blocks are exactly the live addresses. */
  lemma RecordKeepsInv(w: World, cur: Option<nat>, f: nat, inputs: seq<Option<Addr>>, k: Capture,
                       alias: seq<Alias>, preserved: set<nat>)
    requires RecordOK(w, cur, inputs, k, alias, preserved)
    ensures var n := NewNode(w, cur, f, inputs, k, alias, preserved);
      && Parents(w.nodes + [n])
      && Inv(Record(w, n, k), Some(|w.nodes|), {})
      && Record(w, n, k).pool == OnDevice(Addrs(Record(w, n, k)))
      && n.writes !! Addrs(Kill(w, k.dies))
  {
    hide AliasOK;
    var n := NewNode(w, cur, f, inputs, k, alias, preserved);
    var c := |w.nodes|;
    WithNodeKeepsInv(w, cur, f, inputs, k, alias, preserved);
    var w2 := WithNode(w, n, k);
    ReplayIsSafe(w2, c);
    IncarnateKeepsInv(w2, c);
    var w3 := Incarnate(w2, c);
    AllRecordedAreLive(w2, c);
    CheckpointIsExact(w3, c);
    PoolIsIrrelevant(w3, n.checkpoint, Some(c), {});
  }

  lemma RecordedIsLive(w: World, c: nat, x: Idx)
    requires c < |w.nodes| && Inv(w, w.nodes[c].parent, {}) && Replayable(w, c)
    requires Above(w.nodes[c].after, |Path(w.nodes, w.nodes[c].parent)|) == LiveIdx(w, Path(w.nodes, w.nodes[c].parent))
    requires x in w.nodes[c].after
    ensures x in LiveIdx(Incarnate(w, c), Path(w.nodes, Some(c)))
  {
    hide Covered;
    assert NodeOK(w.nodes, c);
    NewRefs(w, c, x);
    if x.0 < |Path(w.nodes, w.nodes[c].parent)| {
      assert x in LiveIdx(w, Path(w.nodes, w.nodes[c].parent));
    } else {
      IncarnationFacts(w, c, x.1);
      assert Row(w, c)[x.1] == StorageFor(w, c, x.1);
    }
  }

  /** Right after a run every output recorded alive is alive, if that was so on the parent's path. */
  lemma AllRecordedAreLive(w: World, c: nat)
    requires c < |w.nodes| && Inv(w, w.nodes[c].parent, {}) && Replayable(w, c)
    requires Above(w.nodes[c].after, |Path(w.nodes, w.nodes[c].parent)|) == LiveIdx(w, Path(w.nodes, w.nodes[c].parent))
    ensures Inv(Incarnate(w, c), Some(c), {}) && DeadPtrs(Incarnate(w, c), Some(c)) == {}
  {
    IncarnateKeepsInv(w, c);
    forall x | x in w.nodes[c].after ensures x in LiveIdx(Incarnate(w, c), Path(w.nodes, Some(c))) {
      RecordedIsLive(w, c, x);
    }
  }

  lemma PoolIsIrrelevant(w: World, pool: set<Addr>, cur: Option<nat>, extra: set<nat>)
    requires Inv(w, cur, extra)
    ensures Inv(w.(pool := pool), cur, extra)
  {
    var w' := w.(pool := pool);
    var p := Path(w.nodes, cur);
    forall x: Idx ensures RefAt(w', p, x) == RefAt(w, p, x) {}
    assert LiveIdx(w', p) == LiveIdx(w, p);
  }

  // ----- CPU outputs and the checkpoint -----

  const START := World([], [], [], {}, {})

  lemma StartIsFine()
    ensures Inv(START, None, {}) && Path(START.nodes, None) == [] && LiveIdx(START, []) == {}
  {
    assert Path(START.nodes, None) == [];
    assert LiveIdx(START, []) == {};
  }

  /** Capturing a function whose only output is the CPU tensor at h. */
  function CpuCapture(h: nat): Capture {
    Capture({}, [Tensor(Host(h))], {}, {}, true)
  }

  lemma CpuCaptureOK(h: nat)
    ensures RecordOK(START, None, [], CpuCapture(h), [OnHost], {})
  {
    StartIsFine();
    assert ClassifiedAt(START, [], {}, true, CpuCapture(h).outputs, 0, OnHost);
    assert Kill(START, {}) == START;
  }

  lemma CpuNode(f: nat, h: nat)
    requires RecordOK(START, None, [], CpuCapture(h), [OnHost], {})
    ensures var n := NewNode(START, None, f, [], CpuCapture(h), [OnHost], {});
      && n.alias == [OnHost] && n.ptr == [Host(h)] && n.parent == None
      && n.after == {(0, 0)} && n.checkpoint == {}
  {
    StartIsFine();
    assert Kill(START, {}) == START;
    assert Own([OnHost], 0) == {(0, 0)};
    var n := NewNode(START, None, f, [], CpuCapture(h), [OnHost], {});
    assert n.after == LiveIdx(START, []) + Own([OnHost], 0);
  }

  /** A recording whose only output is the CPU tensor at h. */
  lemma CpuRecording(f: nat, h: nat) returns (w: World)
    ensures Inv(w, Some(0), {}) && |w.nodes| == 1 && w.nodes[0].checkpoint == {}
    ensures w.nodes[0].after == {(0, 0)} && w.nodes[0].parent == None && w.nodes[0].ptr == [Host(h)]
  {
    hide Inv, RecordOK, NewNode, OnDevice, Addrs;
    CpuCaptureOK(h);
    CpuNode(f, h);
    var n := NewNode(START, None, f, [], CpuCapture(h), [OnHost], {});
    RecordKeepsInv(START, None, f, [], CpuCapture(h), [OnHost], {});
    w := Record(START, n, CpuCapture(h));
    assert w.nodes == [n];
  }

  /** When a CPU output dies, the pointer freed after the checkpoint was never allocated. */
  lemma DeadCpuOutputBreaksCheckpoint(f: nat, h: nat) returns (w: World)
    ensures |w.nodes| == 1 && Inv(w, Some(0), {}) && HostOutputDied(w, 0)
    ensures w.nodes[0].checkpoint == {} && DeadPtrs(w, Some(0)) == {Host(h)}
  {
    var w1 := CpuRecording(f, h);
    w := Kill(w1, w1.live);
    KillKeepsInv(w1, Some(0), {}, w1.live);
    AllDeadFreed(w);
    var p := Path(w.nodes, Some(0));
    assert p == Path(w.nodes, None) + [0] == [0];
    assert PtrAt(w.nodes, p, (0, 0)) == Host(h) && !IsLive(w, p, (0, 0));
  }

  lemma AllDeadFreed(w: World)
    requires |w.nodes| == 1 && Inv(w, Some(0), {}) && w.live == {}
    ensures DeadPtrs(w, Some(0)) == Ptrs(w.nodes, Path(w.nodes, Some(0)), w.nodes[0].after)
  {
    assert LiveIdx(w, Path(w.nodes, Some(0))) == {};
    assert w.nodes[0].after - {} == w.nodes[0].after;
  }

  ghost predicate NoCpuOutputs(nodes: seq<Node>) {
    forall c, i :: 0 <= c < |nodes| && 0 <= i < |nodes[c].alias| ==> !nodes[c].alias[i].OnHost?
  }

  /** Where CPU outputs are refused, everything on a path lies in device memory. */
  lemma PathOnDevice(w: World, c: nat, x: Idx)
    requires c < |w.nodes| && Inv(w, Some(c), {}) && NoCpuOutputs(w.nodes)
    requires x in w.nodes[c].after
    ensures PtrAt(w.nodes, Path(w.nodes, Some(c)), x).Device?
  {
    var p := Path(w.nodes, Some(c));
    var d := p[x.0];
    assert NodeOK(w.nodes, d) && Tracked(w.nodes[d], x.1);
  }

  /** There, freeing after a checkpoint never fails. */
  lemma WithoutCpuOutputsFreeingIsSafe(w: World, c: nat)
    requires c < |w.nodes| && Inv(w, Some(c), {}) && NoCpuOutputs(w.nodes)
    ensures DeadPtrs(w, Some(c)) <= w.nodes[c].checkpoint
  {
    forall x | x in w.nodes[c].after ensures PtrAt(w.nodes, Path(w.nodes, Some(c)), x).Device? {
      PathOnDevice(w, c, x);
    }
    FreedWereAllocated(w, c);
  }
}
