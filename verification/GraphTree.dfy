/** The recorded-graph tree of torch_npu/npu/_graph_tree.py: what a recording remembers about its
    path, what a replay checks, and what the allocator is told after replays.

    A storage is an identifier with a data pointer and an alive flag.  Liveness vectors are kept as
    the set of path indices (depth, output) that are alive; module LivenessVectors shows that the
    list-of-lists code computes the same sets. */
module GraphTree {
  import opened Basics

  /** A data pointer.  The pool lies in device memory; CPU tensors have host pointers. */
  datatype Addr = Device(at: nat) | Host(at: nat)

  /** (depth on the path, output index) */
  type Idx = (nat, nat)
  /** (graph id, output index) */
  type Key = (nat, nat)

  /** output_storage_alias of one output. */
  datatype Alias =
    | NotTensor                        // an int or None: no weak reference is kept
    | Static                           // aliases a parameter, or an empty storage
    | Fresh                            // UnaliasedStorage
    | OnHost                           // UnaliasedStorage too, but of a CPU tensor
    | New(index: nat)                  // AliasesNewOutput
    | Prior(at: Idx)                   // AliasesPriorGraphOutput

  /** One recording.  `before`/`after` are recorded_liveness_before_graph and _after_graph; `ptr` is
      the data_ptr of outputs_metadata; `managed` holds static_input_data_ptrs at npugraph_managed_idxs;
      `writes` is the set of addresses handed out by the allocator that the captured kernels may write. */
  datatype Node = Node(
    func: nat,
    parent: Option<nat>,
    alias: seq<Alias>,
    ptr: seq<Addr>,
    before: set<Idx>,
    after: set<Idx>,
    deadBefore: set<Idx>,
    deadAfter: set<Idx>,
    checkpoint: set<Addr>,
    writes: set<Addr>,
    managed: map<nat, Addr>,
    preserved: set<nat>)

  /** Outputs with a weak reference in outputs_weakrefs. */
  predicate Tracked(n: Node, i: nat) {
    i < |n.alias| && (n.alias[i].Fresh? || n.alias[i].New? || n.alias[i].Prior? || n.alias[i].OnHost?)
  }

  function OnDevice(addrs: set<Addr>): set<Addr> {
    set a | a in addrs && a.Device?
  }

  predicate Parents(nodes: seq<Node>) {
    && (forall i :: 0 <= i < |nodes| && nodes[i].parent.Some? ==> nodes[i].parent.value < i)
    && (forall i :: 0 <= i < |nodes| ==> |nodes[i].ptr| == |nodes[i].alias|)
  }

  /** _path_from_root */
  function Path(nodes: seq<Node>, cur: Option<nat>): (p: seq<nat>)
    requires Parents(nodes)
    requires cur.Some? ==> cur.value < |nodes|
    ensures forall d :: 0 <= d < |p| ==> p[d] < |nodes|
    ensures cur.Some? ==> p != [] && p[|p| - 1] == cur.value
    ensures cur.None? ==> p == []
    decreases if cur.Some? then cur.value + 1 else 0
  {
    if cur.None? then [] else Path(nodes, nodes[cur.value].parent) + [cur.value]
  }

  /** x names a weakly referenced output on the path p. */
  predicate OnPath(nodes: seq<Node>, p: seq<nat>, x: Idx)
  {
    x.0 < |p| && p[x.0] < |nodes| && Tracked(nodes[p[x.0]], x.1)
  }

  function KeyAt(p: seq<nat>, x: Idx): Key
    requires x.0 < |p|
  {
    (p[x.0], x.1)
  }

  function PtrAt(nodes: seq<Node>, p: seq<nat>, x: Idx): Addr
    requires Parents(nodes) && OnPath(nodes, p, x)
  {
    nodes[p[x.0]].ptr[x.1]
  }

  ghost predicate AllOnPath(nodes: seq<Node>, p: seq<nat>, xs: set<Idx>) {
    forall x :: x in xs ==> OnPath(nodes, p, x)
  }

  function Ptrs(nodes: seq<Node>, p: seq<nat>, xs: set<Idx>): set<Addr>
    requires Parents(nodes) && AllOnPath(nodes, p, xs)
  {
    set x | x in xs :: PtrAt(nodes, p, x)
  }

  function After(nodes: seq<Node>, cur: Option<nat>): set<Idx>
    requires cur.Some? ==> cur.value < |nodes|
  {
    if cur.None? then {} else nodes[cur.value].after
  }

  /** The part of a liveness set that lies strictly above depth d. */
  function Above(xs: set<Idx>, d: nat): set<Idx> {
    set x | x in xs && x.0 < d
  }

  /** Everything one recording knows about its path, as left by the constructor. */
  ghost predicate NodeOK(nodes: seq<Node>, id: nat)
    requires Parents(nodes) && id < |nodes|
  {
    var n := nodes[id];
    var p := Path(nodes, Some(id));
    var d := |p| - 1;
    && AllOnPath(nodes, p, n.after)
    && (forall i: nat :: Tracked(n, i) ==> (d, i) in n.after)
    && Above(n.after, d) <= n.before
    && n.before <= After(nodes, n.parent)
    && n.deadBefore == After(nodes, n.parent) - n.before
    && n.deadAfter == n.before - n.after
    && n.checkpoint == OnDevice(Ptrs(nodes, p, n.after))
    && n.writes !! Ptrs(nodes, p, Above(n.after, d))
    && AliasOK(nodes, p, n)
  }

  /** The alias record is faithful to the data pointers observed while recording. */
  ghost predicate AliasOK(nodes: seq<Node>, p: seq<nat>, n: Node)
    requires Parents(nodes) && |n.ptr| == |n.alias|
    requires p != [] && AllOnPath(nodes, p, n.after)
  {
    forall i: nat :: Tracked(n, i) ==> AliasAt(nodes, p, n, i)
  }

  ghost predicate AliasAt(nodes: seq<Node>, p: seq<nat>, n: Node, i: nat)
    requires Parents(nodes) && |n.ptr| == |n.alias|
    requires p != [] && AllOnPath(nodes, p, n.after) && Tracked(n, i)
  {
    var d := |p| - 1;
    && (n.alias[i].OnHost? <==> n.ptr[i].Host?)
    && match n.alias[i]
       case Fresh =>
         && n.ptr[i] !in Ptrs(nodes, p, Above(n.after, d))
         && (forall j :: 0 <= j < |n.alias| && n.alias[j].Fresh? && n.ptr[j] == n.ptr[i] ==> j == i)
       case New(k) => k < i && n.alias[k].Fresh? && n.ptr[k] == n.ptr[i]
       case Prior(x) =>
         && x in n.after && x.0 < d && PtrAt(nodes, p, x) == n.ptr[i]
         && (exists m :: m in n.managed && m in n.preserved && n.managed[m] == n.ptr[i])
       case _ => true
  }

  ghost predicate Tree(nodes: seq<Node>) {
    Parents(nodes) && forall id :: 0 <= id < |nodes| ==> NodeOK(nodes, id)
  }

  /** The recordings, the weak references they hold, and the allocator's view of the shared pool. */
  datatype World = World(
    nodes: seq<Node>,
    refs: seq<seq<Option<nat>>>,  // outputs_weakrefs of every node: which storage an output names
    addr: seq<Addr>,              // data pointer of every storage created so far
    live: set<nat>,               // storages of the current generation that are still referenced
    pool: set<Addr>)              // blocks the caching allocator believes allocated

  /** Weak references exist for tracked outputs only, and always at the recorded data pointer.  A node
      has none at all until its first outputs are added. */
  ghost predicate RefsOK(w: World) {
    && |w.refs| == |w.nodes|
    && (forall c :: 0 <= c < |w.nodes| ==>
          |w.nodes[c].ptr| == |w.nodes[c].alias| && (w.refs[c] == [] || |w.refs[c]| == |w.nodes[c].alias|))
    && (forall c, i: nat :: 0 <= c < |w.nodes| && i < |w.refs[c]| ==>
          (w.refs[c][i].Some? <==> Tracked(w.nodes[c], i)))
    && (forall c, i :: 0 <= c < |w.nodes| && 0 <= i < |w.refs[c]| && w.refs[c][i].Some? ==>
          w.refs[c][i].value < |w.addr| && w.addr[w.refs[c][i].value] == w.nodes[c].ptr[i])
  }

  /** Every node has had its outputs added. */
  ghost predicate Filled(w: World) {
    forall c :: 0 <= c < |w.nodes| && c < |w.refs| ==> |w.refs[c]| == |w.nodes[c].alias|
  }

  /** Live storages are known and no two of them share device memory. */
  ghost predicate LiveOK(w: World) {
    && (forall s :: s in w.live ==> s < |w.addr|)
    && (forall s, t :: s in w.live && t in w.live && w.addr[s] == w.addr[t] && w.addr[s].Device? ==> s == t)
  }

  ghost predicate WorldOK(w: World) {
    Tree(w.nodes) && RefsOK(w) && LiveOK(w)
  }

  function Addrs(w: World): set<Addr>
    requires forall s :: s in w.live ==> s < |w.addr|
  {
    set s | s in w.live :: w.addr[s]
  }

  /** The storage named by the weak reference at path index x. */
  function RefAt(w: World, p: seq<nat>, x: Idx): Option<nat> {
    if x.0 < |p| && p[x.0] < |w.refs| && x.1 < |w.refs[p[x.0]]| then w.refs[p[x.0]][x.1] else None
  }

  predicate IsLive(w: World, p: seq<nat>, x: Idx)
  {
    RefAt(w, p, x).Some? && RefAt(w, p, x).value in w.live
  }

  /** _get_liveness(path_weakrefs) */
  function LiveIdx(w: World, p: seq<nat>): set<Idx>
    requires forall d :: 0 <= d < |p| ==> p[d] < |w.refs|
  {
    set d, i | 0 <= d < |p| && 0 <= i < |w.refs[p[d]]| && IsLive(w, p, (d, i)) :: (d, i)
  }

  /** Nothing on the path is alive that was dead when the current node was recorded, and the outputs
      alive at that time that had one device pointer still name one storage. */
  ghost predicate Follows(w: World, cur: Option<nat>)
    requires Parents(w.nodes) && |w.refs| == |w.nodes| && (cur.Some? ==> cur.value < |w.nodes|)
  {
    var p := Path(w.nodes, cur);
    var a := After(w.nodes, cur);
    && LiveIdx(w, p) <= a
    && AllOnPath(w.nodes, p, a)
    && (forall x, y :: x in a && y in a && PtrAt(w.nodes, p, x) == PtrAt(w.nodes, p, y) ==>
          PtrAt(w.nodes, p, x).Host? || RefAt(w, p, x) == RefAt(w, p, y))
  }

  /** Every live storage outside `extra` is an output on the current path. */
  ghost predicate Covered(w: World, cur: Option<nat>, extra: set<nat>)
    requires Parents(w.nodes) && |w.refs| == |w.nodes| && (cur.Some? ==> cur.value < |w.nodes|)
  {
    var p := Path(w.nodes, cur);
    forall s :: s in w.live && s !in extra ==> exists x :: x in LiveIdx(w, p) && RefAt(w, p, x) == Some(s)
  }

  /** `extra` are the storages of warmup outputs, which no recording refers to. */
  ghost predicate Inv(w: World, cur: Option<nat>, extra: set<nat>) {
    && WorldOK(w)
    && (cur.Some? ==> cur.value < |w.nodes|)
    && Follows(w, cur)
    && Covered(w, cur, extra)
  }

  // ----- paths -----

  lemma PathStep(nodes: seq<Node>, id: nat)
    requires Parents(nodes) && id < |nodes|
    ensures Path(nodes, Some(id)) == Path(nodes, nodes[id].parent) + [id]
  {
  }

  lemma {:induction false} PathAppend(nodes: seq<Node>, n: Node, cur: Option<nat>)
    requires Parents(nodes) && Parents(nodes + [n])
    requires cur.Some? ==> cur.value < |nodes|
    ensures Path(nodes + [n], cur) == Path(nodes, cur)
    decreases if cur.Some? then cur.value + 1 else 0
  {
    if cur.Some? {
      assert (nodes + [n])[cur.value] == nodes[cur.value];
      PathAppend(nodes, n, nodes[cur.value].parent);
    }
  }

  lemma NodeAppend(nodes: seq<Node>, n: Node, id: nat)
    requires Parents(nodes) && Parents(nodes + [n]) && id < |nodes| && NodeOK(nodes, id)
    ensures NodeOK(nodes + [n], id)
  {
    var more := nodes + [n];
    PathAppend(nodes, n, Some(id));
    var p := Path(nodes, Some(id));
    var m := nodes[id];
    assert more[id] == m;
    forall x | OnPath(nodes, p, x) ensures OnPath(more, p, x) && PtrAt(more, p, x) == PtrAt(nodes, p, x) {}
    assert AllOnPath(more, p, m.after);
    assert Ptrs(more, p, m.after) == Ptrs(nodes, p, m.after);
    var u := Above(m.after, |p| - 1);
    assert Ptrs(more, p, u) == Ptrs(nodes, p, u);
    assert After(more, m.parent) == After(nodes, m.parent);
    assert AliasOK(more, p, m);
  }

  // ----- replay -----

  /** The checks of check_invariants that concern liveness: the indices that had died before, and
      those that died during, the recording are dead now. */
  predicate AllDead(w: World, p: seq<nat>, xs: set<Idx>) {
    forall x :: x in xs ==> !IsLive(w, p, x)
  }

  /** A replay may only start from liveness that is contained in what the recording left alive. */
  lemma CheckedLivenessIsRecorded(w: World, c: nat)
    requires WorldOK(w) && c < |w.nodes| && Follows(w, w.nodes[c].parent)
    requires AllDead(w, Path(w.nodes, w.nodes[c].parent), w.nodes[c].deadBefore)
    requires AllDead(w, Path(w.nodes, w.nodes[c].parent), w.nodes[c].deadAfter)
    ensures LiveIdx(w, Path(w.nodes, w.nodes[c].parent))
         <= Above(w.nodes[c].after, |Path(w.nodes, Some(c))| - 1)
  {
    PathStep(w.nodes, c);
    assert NodeOK(w.nodes, c);
  }

  // ----- new incarnations of a node's outputs -----

  /** The storage that output i of node c names after reconstruct_outputs. */
  function StorageFor(w: World, c: nat, i: nat): Option<nat>
    requires Parents(w.nodes) && c < |w.nodes| && i < |w.nodes[c].alias|
  {
    match w.nodes[c].alias[i]
    case NotTensor => None
    case Static => None
    case Fresh => Some(|w.addr| + i)
    case OnHost => Some(|w.addr| + i)
    case New(k) => Some(|w.addr| + k)
    case Prior(x) => RefAt(w, Path(w.nodes, w.nodes[c].parent), x)
  }

  function Row(w: World, c: nat): (r: seq<Option<nat>>)
    requires Parents(w.nodes) && c < |w.nodes|
  {
    seq(|w.nodes[c].alias|, i requires 0 <= i < |w.nodes[c].alias| => StorageFor(w, c, i))
  }

  /** Running node c: its outputs come alive, fresh ones in new storages, aliases in shared ones. */
  function Incarnate(w: World, c: nat): World
    requires Parents(w.nodes) && |w.refs| == |w.nodes| && c < |w.nodes|
  {
    w.(refs := w.refs[c := Row(w, c)],
       addr := w.addr + w.nodes[c].ptr,
       live := w.live + set r | r in Row(w, c) && r.Some? :: r.value)
  }

  /** A storage that was not alive before names an output of c. */
  lemma ComesAlive(w: World, c: nat, s: nat) returns (i: nat)
    requires Parents(w.nodes) && |w.refs| == |w.nodes| && c < |w.nodes|
    requires s in Incarnate(w, c).live && s !in w.live
    ensures Tracked(w.nodes[c], i) && StorageFor(w, c, i) == Some(s)
  {
    var row := Row(w, c);
    assert s in set r | r in row && r.Some? :: r.value;
    var r :| r in row && r == Some(s);
    i :| 0 <= i < |row| && row[i] == r;
  }

  /** Liveness on the parent's path lies within what node c saw survive its recording, and every
      prior output that c aliases is still alive. */
  ghost predicate Replayable(w: World, c: nat)
    requires Parents(w.nodes) && |w.refs| == |w.nodes| && c < |w.nodes|
  {
    var n := w.nodes[c];
    var p := Path(w.nodes, n.parent);
    && LiveIdx(w, p) <= Above(n.after, |p|)
    && forall i :: 0 <= i < |n.alias| && n.alias[i].Prior? ==> IsLive(w, p, n.alias[i].at)
  }

  /** The live storages of the path lie at addresses that node c never writes. */
  lemma ReplayIsSafe(w: World, c: nat)
    requires c < |w.nodes| && Inv(w, w.nodes[c].parent, {}) && Replayable(w, c)
    ensures w.nodes[c].writes !! Addrs(w)
  {
    var n := w.nodes[c];
    var p := Path(w.nodes, n.parent);
    var q := Path(w.nodes, Some(c));
    PathStep(w.nodes, c);
    assert NodeOK(w.nodes, c);
    forall s | s in w.live ensures w.addr[s] !in n.writes {
      var x :| x in LiveIdx(w, p) && RefAt(w, p, x) == Some(s);
      assert x in Above(n.after, |p|);
      assert PtrAt(w.nodes, q, x) == PtrAt(w.nodes, p, x) == w.addr[s];
    }
  }

  lemma IncarnationFacts(w: World, c: nat, i: nat)
    requires c < |w.nodes| && Inv(w, w.nodes[c].parent, {}) && Replayable(w, c)
    requires Tracked(w.nodes[c], i)
    ensures var s := StorageFor(w, c, i);
      && s.Some? && s.value < |w.addr| + |w.nodes[c].ptr|
      && (w.addr + w.nodes[c].ptr)[s.value] == w.nodes[c].ptr[i]
      && (s.value in w.live || s.value >= |w.addr|)
  {
    PathStep(w.nodes, c);
    assert NodeOK(w.nodes, c);
  }

  /** What the alias record of one output of a recorded node says, and that of the output it names. */
  lemma AliasFacts(nodes: seq<Node>, c: nat, i: nat)
    requires Tree(nodes) && c < |nodes| && Tracked(nodes[c], i)
    ensures Path(nodes, Some(c)) != [] && AllOnPath(nodes, Path(nodes, Some(c)), nodes[c].after)
    ensures AliasAt(nodes, Path(nodes, Some(c)), nodes[c], i)
    ensures nodes[c].alias[i].New? ==>
      && Tracked(nodes[c], nodes[c].alias[i].index)
      && AliasAt(nodes, Path(nodes, Some(c)), nodes[c], nodes[c].alias[i].index)
  {
    assert NodeOK(nodes, c);
  }

  lemma PriorMeetsOnlyPrior(nodes: seq<Node>, c: nat, i: nat, j: nat)
    requires Tree(nodes) && c < |nodes|
    requires Tracked(nodes[c], i) && Tracked(nodes[c], j)
    requires nodes[c].ptr[i] == nodes[c].ptr[j] && nodes[c].alias[i].Prior?
    ensures nodes[c].alias[j].Prior?
  {
    var n := nodes[c];
    var q := Path(nodes, Some(c));
    AliasFacts(nodes, c, i);
    AliasFacts(nodes, c, j);
    var u := Above(n.after, |q| - 1);
    assert n.alias[i].at in u;
    assert n.ptr[i] in Ptrs(nodes, q, u);
  }

  /** Aliasing is reproduced: two outputs of a node share a storage exactly when their recorded device
      pointers are equal.  Each CPU output gets a storage of its own, whatever its pointer. */
  lemma AliasingReproduced(w: World, c: nat, i: nat, j: nat)
    requires c < |w.nodes| && Inv(w, w.nodes[c].parent, {}) && Replayable(w, c)
    requires Tracked(w.nodes[c], i) && Tracked(w.nodes[c], j)
    ensures StorageFor(w, c, i) == StorageFor(w, c, j) <==>
      i == j || (w.nodes[c].ptr[i] == w.nodes[c].ptr[j] && w.nodes[c].ptr[i].Device?)
  {
    var n := w.nodes[c];
    IncarnationFacts(w, c, i);
    IncarnationFacts(w, c, j);
    PathStep(w.nodes, c);
    AliasFacts(w.nodes, c, i);
    AliasFacts(w.nodes, c, j);
    if n.ptr[i] == n.ptr[j] && n.ptr[i].Device? {
      if n.alias[i].Prior? {
        PriorMeetsOnlyPrior(w.nodes, c, i, j);
      } else if n.alias[j].Prior? {
        PriorMeetsOnlyPrior(w.nodes, c, j, i);
      }
    }
  }

  /** The same, between an output of node c and an older output on its path. */
  lemma AliasingWithPath(w: World, c: nat, i: nat, x: Idx)
    requires c < |w.nodes| && Inv(w, w.nodes[c].parent, {}) && Replayable(w, c)
    requires Tracked(w.nodes[c], i)
    requires x in w.nodes[c].after && x.0 < |Path(w.nodes, w.nodes[c].parent)|
    requires OnPath(w.nodes, Path(w.nodes, w.nodes[c].parent), x)
    requires w.nodes[c].ptr[i] == PtrAt(w.nodes, Path(w.nodes, w.nodes[c].parent), x) && w.nodes[c].ptr[i].Device?
    ensures StorageFor(w, c, i) == RefAt(w, Path(w.nodes, w.nodes[c].parent), x)
  {
    var n := w.nodes[c];
    var p := Path(w.nodes, n.parent);
    var q := Path(w.nodes, Some(c));
    PathStep(w.nodes, c);
    AliasFacts(w.nodes, c, i);
    assert PtrAt(w.nodes, q, x) == PtrAt(w.nodes, p, x);
    assert x in Above(n.after, |p|);
    assert n.ptr[i] in Ptrs(w.nodes, q, Above(n.after, |p|));
    var y := n.alias[i].at;
    assert y in Above(n.after, |p|);
    assert NodeOK(w.nodes, c);
    assert PtrAt(w.nodes, q, y) == PtrAt(w.nodes, p, y);
  }

  lemma IncarnateRefsOK(w: World, c: nat)
    requires c < |w.nodes| && Inv(w, w.nodes[c].parent, {}) && Replayable(w, c)
    ensures RefsOK(Incarnate(w, c))
  {
    hide NodeOK, Follows, Covered, LiveOK, Replayable;
    forall i: nat | Tracked(w.nodes[c], i)
      ensures var s := StorageFor(w, c, i);
        s.Some? && s.value < |w.addr + w.nodes[c].ptr| && (w.addr + w.nodes[c].ptr)[s.value] == w.nodes[c].ptr[i]
    {
      IncarnationFacts(w, c, i);
    }
  }

  lemma IncarnateApart(w: World, c: nat, s: nat, t: nat)
    requires c < |w.nodes| && Inv(w, w.nodes[c].parent, {}) && Replayable(w, c)
    requires s in Incarnate(w, c).live && t in Incarnate(w, c).live
    ensures s < |w.addr + w.nodes[c].ptr| && t < |w.addr + w.nodes[c].ptr|
    ensures (w.addr + w.nodes[c].ptr)[s] == (w.addr + w.nodes[c].ptr)[t] ==>
      (w.addr + w.nodes[c].ptr)[s].Host? || s == t
  {
    if s in w.live && t in w.live {
    } else if s in w.live {
      var j := ComesAlive(w, c, t);
      NewStorageIsElsewhere(w, c, t, s);
    } else if t in w.live {
      var i := ComesAlive(w, c, s);
      NewStorageIsElsewhere(w, c, s, t);
    } else {
      var i := ComesAlive(w, c, s);
      var j := ComesAlive(w, c, t);
      IncarnationFacts(w, c, i);
      IncarnationFacts(w, c, j);
      AliasingReproduced(w, c, i, j);
    }
  }

  lemma IncarnateWorldOK(w: World, c: nat)
    requires c < |w.nodes| && Inv(w, w.nodes[c].parent, {}) && Replayable(w, c)
    ensures WorldOK(Incarnate(w, c))
  {
    IncarnateRefsOK(w, c);
    forall s, t | s in Incarnate(w, c).live && t in Incarnate(w, c).live
      ensures s < |w.addr + w.nodes[c].ptr| && t < |w.addr + w.nodes[c].ptr|
      ensures (w.addr + w.nodes[c].ptr)[s] == (w.addr + w.nodes[c].ptr)[t] ==>
        (w.addr + w.nodes[c].ptr)[s].Host? || s == t
    {
      IncarnateApart(w, c, s, t);
    }
  }

  /** A storage that comes alive with node c does not overlap one already alive in device memory. */
  lemma NewStorageIsElsewhere(w: World, c: nat, s: nat, t: nat)
    requires c < |w.nodes| && Inv(w, w.nodes[c].parent, {}) && Replayable(w, c)
    requires s !in w.live && t in w.live
    requires exists i: nat :: Tracked(w.nodes[c], i) && StorageFor(w, c, i) == Some(s)
    ensures s < |w.addr + w.nodes[c].ptr|
    ensures (w.addr + w.nodes[c].ptr)[s] == w.addr[t] ==> w.addr[t].Host?
  {
    var p := Path(w.nodes, w.nodes[c].parent);
    var i: nat :| Tracked(w.nodes[c], i) && StorageFor(w, c, i) == Some(s);
    IncarnationFacts(w, c, i);
    var x :| x in LiveIdx(w, p) && RefAt(w, p, x) == Some(t);
    assert x in Above(w.nodes[c].after, |p|);
    if w.nodes[c].ptr[i] == w.addr[t] && w.addr[t].Device? {
      AliasingWithPath(w, c, i, x);
    }
  }

  /** Where the weak references of the new path point. */
  lemma NewRefs(w: World, c: nat, x: Idx)
    requires Parents(w.nodes) && RefsOK(w) && c < |w.nodes|
    ensures var p := Path(w.nodes, w.nodes[c].parent); var q := Path(w.nodes, Some(c));
      && (x.0 < |p| ==> RefAt(Incarnate(w, c), q, x) == RefAt(w, p, x))
      && (x.0 == |p| && x.1 < |w.nodes[c].alias| ==> RefAt(Incarnate(w, c), q, x) == StorageFor(w, c, x.1))
      && |q| == |p| + 1 && q[|p|] == c && q[..|p|] == p
  {
    PathStep(w.nodes, c);
    PathBelow(w.nodes, w.nodes[c].parent, c);
  }

  lemma IncarnateLiveness(w: World, c: nat)
    requires c < |w.nodes| && Inv(w, w.nodes[c].parent, {}) && Replayable(w, c)
    ensures LiveIdx(Incarnate(w, c), Path(w.nodes, Some(c))) <= w.nodes[c].after
  {
    assert NodeOK(w.nodes, c);
    forall x | x in LiveIdx(Incarnate(w, c), Path(w.nodes, Some(c))) ensures x in w.nodes[c].after {
      NewRefs(w, c, x);
      if x.0 < |Path(w.nodes, w.nodes[c].parent)| {
        OldLiveness(w, c, x);
      } else {
        assert Tracked(w.nodes[c], x.1);
      }
    }
  }

  lemma IncarnateAliases(w: World, c: nat, x: Idx, y: Idx)
    requires c < |w.nodes| && Inv(w, w.nodes[c].parent, {}) && Replayable(w, c)
    requires NodeOK(w.nodes, c) && x in w.nodes[c].after && y in w.nodes[c].after
    requires PtrAt(w.nodes, Path(w.nodes, Some(c)), x) == PtrAt(w.nodes, Path(w.nodes, Some(c)), y)
    requires PtrAt(w.nodes, Path(w.nodes, Some(c)), x).Device?
    ensures RefAt(Incarnate(w, c), Path(w.nodes, Some(c)), x) == RefAt(Incarnate(w, c), Path(w.nodes, Some(c)), y)
  {
    var p := Path(w.nodes, w.nodes[c].parent);
    NewRefs(w, c, x);
    NewRefs(w, c, y);
    if x.0 < |p| && y.0 < |p| {
      assert x in w.nodes[c].before && y in w.nodes[c].before;
    } else if x.0 < |p| {
      AliasingWithPath(w, c, y.1, x);
    } else if y.0 < |p| {
      AliasingWithPath(w, c, x.1, y);
    } else {
      AliasingReproduced(w, c, x.1, y.1);
    }
  }

  lemma IncarnateFollows(w: World, c: nat)
    requires c < |w.nodes| && Inv(w, w.nodes[c].parent, {}) && Replayable(w, c)
    ensures Follows(Incarnate(w, c), Some(c))
  {
    assert NodeOK(w.nodes, c);
    IncarnateLiveness(w, c);
    var q := Path(w.nodes, Some(c));
    forall x, y | x in w.nodes[c].after && y in w.nodes[c].after && PtrAt(w.nodes, q, x) == PtrAt(w.nodes, q, y)
      ensures PtrAt(w.nodes, q, x).Host? || RefAt(Incarnate(w, c), q, x) == RefAt(Incarnate(w, c), q, y)
    {
      if PtrAt(w.nodes, q, x).Device? {
        IncarnateAliases(w, c, x, y);
      }
    }
  }

  lemma {:induction false} PathBelow(nodes: seq<Node>, cur: Option<nat>, c: nat)
    requires Parents(nodes) && (cur.Some? ==> cur.value < |nodes| && cur.value < c)
    ensures forall d :: 0 <= d < |Path(nodes, cur)| ==> Path(nodes, cur)[d] < c
    decreases if cur.Some? then cur.value + 1 else 0
  {
    if cur.Some? {
      PathBelow(nodes, nodes[cur.value].parent, c);
    }
  }

  /** An older output that is alive after the run was already alive before it. */
  lemma OldLiveness(w: World, c: nat, x: Idx)
    requires c < |w.nodes| && Inv(w, w.nodes[c].parent, {}) && Replayable(w, c)
    requires x in LiveIdx(Incarnate(w, c), Path(w.nodes, Some(c))) && x.0 < |Path(w.nodes, w.nodes[c].parent)|
    ensures x in w.nodes[c].after
  {
    var w' := Incarnate(w, c);
    var n := w.nodes[c];
    var p := Path(w.nodes, n.parent);
    PathStep(w.nodes, c);
    PathBelow(w.nodes, n.parent, c);
    assert RefAt(w', Path(w.nodes, Some(c)), x) == RefAt(w, p, x);
    var s := RefAt(w, p, x).value;
    assert s < |w.addr|;
    if s !in w.live {
      var i := ComesAlive(w, c, s);
      IncarnationFacts(w, c, i);
      assert false;
    }
    assert x in LiveIdx(w, p);
  }

  lemma IncarnateCovers(w: World, c: nat, s: nat)
    requires c < |w.nodes| && Inv(w, w.nodes[c].parent, {}) && s in Incarnate(w, c).live
    ensures exists x :: x in LiveIdx(Incarnate(w, c), Path(w.nodes, Some(c)))
                        && RefAt(Incarnate(w, c), Path(w.nodes, Some(c)), x) == Some(s)
  {
    hide NodeOK, LiveOK, Follows;
    var p := Path(w.nodes, w.nodes[c].parent);
    if s in w.live {
      var x :| x in LiveIdx(w, p) && RefAt(w, p, x) == Some(s);
      NewRefs(w, c, x);
      assert IsLive(Incarnate(w, c), Path(w.nodes, Some(c)), (x.0, x.1));
      assert x in LiveIdx(Incarnate(w, c), Path(w.nodes, Some(c)));
    } else {
      var i := ComesAlive(w, c, s);
      NewRefs(w, c, (|p|, i));
      assert (|p|, i) in LiveIdx(Incarnate(w, c), Path(w.nodes, Some(c)));
    }
  }

  lemma IncarnateCovered(w: World, c: nat)
    requires c < |w.nodes| && Inv(w, w.nodes[c].parent, {})
    ensures Covered(Incarnate(w, c), Some(c), {})
  {
    forall s | s in Incarnate(w, c).live
      ensures exists x :: x in LiveIdx(Incarnate(w, c), Path(w.nodes, Some(c)))
                          && RefAt(Incarnate(w, c), Path(w.nodes, Some(c)), x) == Some(s)
    {
      IncarnateCovers(w, c, s);
    }
  }

  /** Running a replayable node makes it the current one with the whole invariant intact. */
  lemma IncarnateKeepsInv(w: World, c: nat)
    requires c < |w.nodes| && Inv(w, w.nodes[c].parent, {}) && Replayable(w, c)
    ensures Inv(Incarnate(w, c), Some(c), {})
  {
    IncarnateWorldOK(w, c);
    IncarnateFollows(w, c);
    IncarnateCovered(w, c);
  }

  // ----- storages die -----

  function Kill(w: World, dead: set<nat>): World {
    w.(live := w.live - dead)
  }

  /** Death never breaks the invariant: everything in it is monotone in liveness. */
  lemma KillKeepsInv(w: World, cur: Option<nat>, extra: set<nat>, dead: set<nat>)
    requires Inv(w, cur, extra)
    ensures Inv(Kill(w, dead), cur, extra)
  {
    var w' := Kill(w, dead);
    var p := Path(w.nodes, cur);
    assert w'.nodes == w.nodes && w'.refs == w.refs && w'.addr == w.addr;
    forall x: Idx ensures RefAt(w', p, x) == RefAt(w, p, x) {}
    assert LiveIdx(w', p) <= LiveIdx(w, p);
    forall s | s in w'.live && s !in extra
      ensures exists x :: x in LiveIdx(w', p) && RefAt(w', p, x) == Some(s)
    {
      var x :| x in LiveIdx(w, p) && RefAt(w, p, x) == Some(s);
      assert x in LiveIdx(w', p);
    }
  }

  // ----- check_invariants -----

  predicate ManagedMatch(n: Node, inputs: seq<Option<Addr>>) {
    forall m :: m in n.managed ==> m < |inputs| && inputs[m] == Some(n.managed[m])
  }

  /** An input tensor that lies at the device pointer of a path output is held by the caller, so its
      storage is alive. */
  predicate Held(w: World, p: seq<nat>, inputs: seq<Option<Addr>>)
    requires Parents(w.nodes) && LiveOK(w) && forall d :: 0 <= d < |p| ==> p[d] < |w.nodes|
  {
    forall m, d, i ::
      0 <= m < |inputs| && 0 <= d < |p| && 0 <= i < |w.nodes[p[d]].alias| && OnPath(w.nodes, p, (d, i)) ==>
      inputs[m] == Some(PtrAt(w.nodes, p, (d, i))) && PtrAt(w.nodes, p, (d, i)).Device? ==>
      PtrAt(w.nodes, p, (d, i)) in Addrs(w)
  }

  /** Dropping the managed inputs does not release the preserved ones. */
  predicate Releases(w: World, n: Node, inputs: seq<Option<Addr>>, dead: set<nat>)
    requires LiveOK(w)
  {
    forall s, m :: s in dead && m in n.preserved ==> Frees(w, inputs, s, m)
  }

  /** Storage s may be freed although input m is kept. */
  predicate Frees(w: World, inputs: seq<Option<Addr>>, s: nat, m: nat)
    requires LiveOK(w)
  {
    s in w.live && m < |inputs| ==> inputs[m] != Some(w.addr[s])
  }

  lemma PriorStillAlive(w: World, c: nat, inputs: seq<Option<Addr>>, i: nat)
    requires c < |w.nodes| && Inv(w, w.nodes[c].parent, {}) && i < |w.nodes[c].alias|
    requires Held(w, Path(w.nodes, w.nodes[c].parent), inputs) && ManagedMatch(w.nodes[c], inputs)
    requires w.nodes[c].alias[i].Prior?
    ensures IsLive(w, Path(w.nodes, w.nodes[c].parent), w.nodes[c].alias[i].at)
    ensures exists m :: m in w.nodes[c].preserved && m < |inputs| && inputs[m] == Some(w.nodes[c].ptr[i])
    ensures w.addr[RefAt(w, Path(w.nodes, w.nodes[c].parent), w.nodes[c].alias[i].at).value] == w.nodes[c].ptr[i]
  {
    var n := w.nodes[c];
    var p := Path(w.nodes, n.parent);
    var q := Path(w.nodes, Some(c));
    PathStep(w.nodes, c);
    assert NodeOK(w.nodes, c);
    assert Tracked(n, i);
    var x := n.alias[i].at;
    assert x in n.before;
    assert PtrAt(w.nodes, p, x) == PtrAt(w.nodes, q, x) == n.ptr[i];
    var m :| m in n.managed && m in n.preserved && n.managed[m] == n.ptr[i];
    assert inputs[m] == Some(n.ptr[i]);
    assert OnPath(w.nodes, p, (x.0, x.1));
    var s :| s in w.live && w.addr[s] == n.ptr[i];
    var y :| y in LiveIdx(w, p) && RefAt(w, p, y) == Some(s);
    assert RefAt(w, p, x) == RefAt(w, p, y);
  }

  lemma PriorSurvivesRelease(w: World, c: nat, inputs: seq<Option<Addr>>, dead: set<nat>, i: nat)
    requires c < |w.nodes| && Inv(w, w.nodes[c].parent, {}) && i < |w.nodes[c].alias|
    requires Held(w, Path(w.nodes, w.nodes[c].parent), inputs) && ManagedMatch(w.nodes[c], inputs)
    requires Releases(w, w.nodes[c], inputs, dead) && w.nodes[c].alias[i].Prior?
    ensures IsLive(Kill(w, dead), Path(w.nodes, w.nodes[c].parent), w.nodes[c].alias[i].at)
  {
    var n := w.nodes[c];
    PriorStillAlive(w, c, inputs, i);
    var m :| m in n.preserved && m < |inputs| && inputs[m] == Some(n.ptr[i]);
    var s := RefAt(w, Path(w.nodes, n.parent), n.alias[i].at).value;
    assert s in dead ==> Frees(w, inputs, s, m);
  }

  /** A child that passes check_invariants is replayable once its inputs have been dropped. */
  lemma CheckEnsuresReplayable(w: World, c: nat, inputs: seq<Option<Addr>>, dead: set<nat>)
    requires c < |w.nodes| && Inv(w, w.nodes[c].parent, {})
    requires Held(w, Path(w.nodes, w.nodes[c].parent), inputs) && ManagedMatch(w.nodes[c], inputs)
    requires Releases(w, w.nodes[c], inputs, dead)
    requires AllDead(w, Path(w.nodes, w.nodes[c].parent), w.nodes[c].deadBefore)
    requires AllDead(Kill(w, dead), Path(w.nodes, w.nodes[c].parent), w.nodes[c].deadAfter)
    ensures Inv(Kill(w, dead), w.nodes[c].parent, {}) && Replayable(Kill(w, dead), c)
  {
    var n := w.nodes[c];
    var p := Path(w.nodes, n.parent);
    KillKeepsInv(w, n.parent, {}, dead);
    assert AllDead(Kill(w, dead), p, n.deadBefore);
    CheckedLivenessIsRecorded(Kill(w, dead), c);
    PathStep(w.nodes, c);
    forall i | 0 <= i < |n.alias| && n.alias[i].Prior? ensures IsLive(Kill(w, dead), p, n.alias[i].at) {
      PriorSurvivesRelease(w, c, inputs, dead, i);
    }
  }

  // ----- apply_checkpoint_execution_state_in_allocator -----

  /** data_ptrs_dead_since_invocation, as a set */
  function DeadPtrs(w: World, cur: Option<nat>): set<Addr>
    requires WorldOK(w) && (cur.Some? ==> cur.value < |w.nodes|) && Follows(w, cur)
  {
    Ptrs(w.nodes, Path(w.nodes, cur), After(w.nodes, cur) - LiveIdx(w, Path(w.nodes, cur)))
  }

  /** An output recorded alive at the device address of a live storage is that storage, so it is alive too. */
  lemma SameAddressSameLife(w: World, c: nat, s: nat, y: Idx)
    requires c < |w.nodes| && Inv(w, Some(c), {}) && s in w.live && w.addr[s].Device?
    requires y in w.nodes[c].after && PtrAt(w.nodes, Path(w.nodes, Some(c)), y) == w.addr[s]
    ensures y in LiveIdx(w, Path(w.nodes, Some(c)))
  {
    var p := Path(w.nodes, Some(c));
    var x :| x in LiveIdx(w, p) && RefAt(w, p, x) == Some(s);
    assert RefAt(w, p, y) == RefAt(w, p, x);
  }

  lemma LiveIsCheckpointed(w: World, c: nat, s: nat)
    requires c < |w.nodes| && Inv(w, Some(c), {}) && s in w.live && w.addr[s].Device?
    ensures w.addr[s] in w.nodes[c].checkpoint && w.addr[s] !in DeadPtrs(w, Some(c))
  {
    var p := Path(w.nodes, Some(c));
    assert NodeOK(w.nodes, c);
    var x :| x in LiveIdx(w, p) && RefAt(w, p, x) == Some(s);
    assert PtrAt(w.nodes, p, x) == w.addr[s];
    forall y | y in w.nodes[c].after - LiveIdx(w, p) ensures PtrAt(w.nodes, p, y) != w.addr[s] {
      if PtrAt(w.nodes, p, y) == w.addr[s] {
        SameAddressSameLife(w, c, s, y);
      }
    }
  }

  lemma CheckpointedIsLive(w: World, c: nat, a: Addr)
    requires c < |w.nodes| && Inv(w, Some(c), {})
    requires a in w.nodes[c].checkpoint && a !in DeadPtrs(w, Some(c))
    ensures a in Addrs(w)
  {
    var p := Path(w.nodes, Some(c));
    assert NodeOK(w.nodes, c);
    var x :| x in w.nodes[c].after && PtrAt(w.nodes, p, x) == a;
    assert x in LiveIdx(w, p);
  }

  /** A CPU output recorded alive has died since. */
  predicate HostOutputDied(w: World, c: nat)
    requires c < |w.nodes| && WorldOK(w) && Follows(w, Some(c))
  {
    exists x | x in w.nodes[c].after ::
      PtrAt(w.nodes, Path(w.nodes, Some(c)), x).Host? && !IsLive(w, Path(w.nodes, Some(c)), x)
  }

  /** Restoring the checkpoint and freeing what has died since leaves exactly the live addresses of the
      device, and no live alias is freed.  Every freed block was allocated exactly when no CPU output has
      died: the code frees host pointers too. */
  lemma CheckpointIsExact(w: World, c: nat)
    requires c < |w.nodes| && Inv(w, Some(c), {})
    ensures w.nodes[c].checkpoint - DeadPtrs(w, Some(c)) == OnDevice(Addrs(w))
    ensures OnDevice(DeadPtrs(w, Some(c))) !! Addrs(w)
    ensures DeadPtrs(w, Some(c)) <= w.nodes[c].checkpoint <==> !HostOutputDied(w, c)
  {
    forall s | s in w.live && w.addr[s].Device?
      ensures w.addr[s] in w.nodes[c].checkpoint && w.addr[s] !in DeadPtrs(w, Some(c))
    {
      LiveIsCheckpointed(w, c, s);
    }
    assert NodeOK(w.nodes, c);
    forall a | a in w.nodes[c].checkpoint && a !in DeadPtrs(w, Some(c)) ensures a in OnDevice(Addrs(w)) {
      CheckpointedIsLive(w, c, a);
    }
    FreedWereAllocated(w, c);
  }

  lemma FreedWereAllocated(w: World, c: nat)
    requires c < |w.nodes| && Inv(w, Some(c), {})
    ensures DeadPtrs(w, Some(c)) <= w.nodes[c].checkpoint <==> !HostOutputDied(w, c)
  {
    var p := Path(w.nodes, Some(c));
    assert NodeOK(w.nodes, c);
    forall x: Idx ensures x in LiveIdx(w, p) <==> IsLive(w, p, x) {}
    if x :| x in w.nodes[c].after && PtrAt(w.nodes, p, x).Host? && !IsLive(w, p, x) {
      assert PtrAt(w.nodes, p, x) in DeadPtrs(w, Some(c)) - w.nodes[c].checkpoint;
    }
  }

  // ----- all_outputs_are_dead -----

  /** Scanning live_indices_after_graph of the current node answers for the whole pool. */
  lemma FastDeathCheckIsExact(w: World, c: nat)
    requires c < |w.nodes| && Inv(w, Some(c), {})
    ensures (forall x :: x in w.nodes[c].after ==> !IsLive(w, Path(w.nodes, Some(c)), x))
       <==> (forall x: Idx :: !IsLive(w, Path(w.nodes, Some(c)), x))
    ensures (forall x :: x in w.nodes[c].after ==> !IsLive(w, Path(w.nodes, Some(c)), x)) <==> w.live == {}
  {
    var p := Path(w.nodes, Some(c));
    forall x: Idx | IsLive(w, p, x) ensures x in w.nodes[c].after {
      assert x in LiveIdx(w, p);
    }
    forall s | s in w.live ensures exists x: Idx :: IsLive(w, p, x) {
      var x :| x in LiveIdx(w, p) && RefAt(w, p, x) == Some(s);
      assert IsLive(w, p, x);
    }
  }
}
