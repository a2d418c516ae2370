/** What the graph-tree manager keeps true, and its steps as transformations of that state. */
module ManagerState {
  import opened Basics
  import opened GraphTree
  import opened Aliasing
  import opened Recording
  import opened TreeBook

  datatype ExecutionState = NONE | WARMUP | RECORDING | EXECUTION

  datatype Current = NoNode | Graph(id: nat) | Warm(wid: nat)

  /** NPUWarmupNode: its parent, the storages its outputs name, and the addresses handed out by the
      allocator that its run wrote. */
  datatype WarmNode = WarmNode(parent: Current, outputs: seq<Option<nat>>, writes: set<Addr>)

  datatype Mode = FORWARD | BACKWARD | INFERENCE

  /** One call of `run`, with what the environment contributes to it: the data pointers of the
      arguments, the storages the program may give up while the call runs, what the function does when it is
      captured or run eagerly in a given world, which storages die when the inputs of a given recording are
      dropped, whether check_for_mutation reports a mutation at a given current node, whether static pointers
      still match a given recording, and the generation counters. */
  datatype Call = Call(
    func: nat,
    inputs: seq<Option<Addr>>,
    dies: set<nat>,
    capture: World -> Capture,
    eager: World -> EagerRun,
    drops: (World, nat) -> set<nat>,
    mode: Mode,
    generation: int,
    markedStep: bool,
    mutatesInputs: bool,
    mutates: Current -> bool,
    staticMatch: nat -> bool)

  /** The settings a manager runs with, from torch._inductor.config and torch._dynamo.config. */
  datatype Config = Config(
    skipWarmup: bool,         // triton.skip_cudagraph_warmup
    forceWarmup: bool,        // triton.force_cudagraphs_warmup
    inlineModules: bool,      // inline_inbuilt_nn_modules
    rerecordOnStatic: bool,   // static pointers are compared
    rerecordLimit: nat)       // triton.cudagraph_unexpected_rerecord_limit

  datatype Status = Success | ManagedMismatch | DeadMismatch | StaticMismatch | CheckFailed

  datatype Outcome = Replayed(node: nat) | Recorded(node: nat) | WarmedUp | Eager | Raised

  /** One step of a session: the program calls a compiled function or drops references. */
  datatype Op = Invoke(call: Call) | Release(dead: set<nat>)

  /** What an eager run inside the pool did. */
  datatype EagerRun = EagerRun(dies: set<nat>, outputs: seq<Option<Addr>>, writes: set<Addr>)

  predicate EagerOK(w: World, r: EagerRun)
    requires LiveOK(w)
  {
    && r.writes !! w.pool - DeadAddrs(w, r.dies)
    && (forall a :: a in r.writes ==> a.Device?)
    && (forall i :: 0 <= i < |r.outputs| && r.outputs[i].Some? ==> r.outputs[i].value.Device?)
  }

  /** What the environment guarantees about a call: captures and eager runs stay within what the allocator
      permits, nothing dies but what the program gives up, an input that is kept keeps its storage, and no
      capture returns a CPU tensor, which would raise. */
  ghost predicate Behaves(call: Call) {
    && (forall w: World :: LiveOK(w) ==> CapturesWell(w, call))
    && (forall w: World :: LiveOK(w) ==> RunsWell(w, call))
    && (forall w: World, c: nat :: LiveOK(w) && c < |w.nodes| ==> DropsWell(w, c, call))
  }

  /** There are such calls: for instance those that do nothing. */
  lemma QuietCallBehaves(call: Call)
    requires forall w: World :: call.capture(w) == Capture({}, [], {}, {}, false)
    requires forall w: World :: call.eager(w) == EagerRun({}, [], {})
    requires forall w: World, c: nat :: call.drops(w, c) == {}
    ensures Behaves(call)
  {
  }

  predicate CapturesWell(w: World, call: Call)
    requires LiveOK(w)
  {
    var k := call.capture(w);
    CaptureOK(w, call.inputs, k) && k.dies <= call.dies && !k.cpuOutputs && NoneRefused(k.outputs)
  }

  predicate RunsWell(w: World, call: Call)
    requires LiveOK(w)
  {
    EagerOK(w, call.eager(w)) && call.eager(w).dies <= call.dies
  }

  predicate DropsWell(w: World, c: nat, call: Call)
    requires LiveOK(w) && c < |w.nodes|
  {
    && call.drops(w, c) <= w.live && call.drops(w, c) <= call.dies
    && Releases(w, w.nodes[c], call.inputs, call.drops(w, c))
  }

  predicate NoneRefused(outputs: seq<Raw>) {
    forall i :: 0 <= i < |outputs| ==> !Refused(outputs[i], false)
  }

  // ----- warmup chains -----

  predicate ChainOK(warm: seq<WarmNode>, n: nat) {
    forall i :: 0 <= i < |warm| ==>
      match warm[i].parent
      case NoNode => true
      case Graph(id) => id < n
      case Warm(j) => j < i
  }

  predicate CurrentOK(warm: seq<WarmNode>, n: nat, cur: Current) {
    match cur
    case NoNode => true
    case Graph(id) => id < n
    case Warm(j) => j < |warm|
  }

  /** The graph node a chain of warmups started from. */
  function Base(warm: seq<WarmNode>, n: nat, cur: Current): (b: Option<nat>)
    requires ChainOK(warm, n) && CurrentOK(warm, n, cur)
    ensures b.Some? ==> b.value < n
    decreases if cur.Warm? then cur.wid + 1 else 0
  {
    match cur
    case NoNode => None
    case Graph(id) => Some(id)
    case Warm(j) => Base(warm, n, warm[j].parent)
  }

  /** The storages named by the outputs of a warmup chain. */
  function Chain(warm: seq<WarmNode>, n: nat, cur: Current): set<nat>
    requires ChainOK(warm, n) && CurrentOK(warm, n, cur)
    decreases if cur.Warm? then cur.wid + 1 else 0
  {
    if cur.Warm?
    then Chain(warm, n, warm[cur.wid].parent) + OutSet(warm[cur.wid].outputs)
    else {}
  }

  lemma {:induction false} ChainStable(warm: seq<WarmNode>, n: nat, x: WarmNode, n': nat, cur: Current)
    requires ChainOK(warm, n) && CurrentOK(warm, n, cur) && n <= n'
    requires ChainOK(warm + [x], n')
    ensures Base(warm + [x], n', cur) == Base(warm, n, cur)
    ensures Chain(warm + [x], n', cur) == Chain(warm, n, cur)
    decreases if cur.Warm? then cur.wid + 1 else 0
  {
    if cur.Warm? {
      assert (warm + [x])[cur.wid] == warm[cur.wid];
      ChainStable(warm, n, x, n', warm[cur.wid].parent);
    }
  }

  // ----- caches -----

  /** unaliased_in_all_paths[i] holds exactly for fresh outputs that no other output of the node and
      no output of a recorded descendant aliases. */
  ghost predicate UnaliasedOK(nodes: seq<Node>, unaliased: seq<seq<bool>>)
    requires Parents(nodes)
  {
    && |unaliased| == |nodes|
    && forall c :: 0 <= c < |nodes| ==>
         && |unaliased[c]| == |nodes[c].alias|
         && forall i: nat :: i < |unaliased[c]| ==>
              (unaliased[c][i] <==> OwnUnaliased(nodes[c].alias, i) && !AliasedBelow(nodes, (c, i)))
  }

  ghost predicate AliasedBelow(nodes: seq<Node>, k: Key)
    requires Parents(nodes)
  {
    exists d, x :: 0 <= d < |nodes| && Prior(x) in nodes[d].alias && PriorKey(nodes, d, x) == Some(k)
  }

  /** The output of an ancestor that a path index of node d names. */
  ghost function PriorKey(nodes: seq<Node>, d: nat, x: Idx): Option<Key>
    requires Parents(nodes) && d < |nodes|
  {
    var p := Path(nodes, Some(d));
    if x.0 < |p| then Some(KeyAt(p, x)) else None
  }

  /** Only unaliased outputs are cached. */
  ghost predicate CachedOK(unaliased: seq<seq<bool>>, cached: seq<seq<bool>>) {
    && |cached| == |unaliased|
    && forall c :: 0 <= c < |cached| ==>
         && (cached[c] == [] || |cached[c]| == |unaliased[c]|)
         && forall i :: 0 <= i < |cached[c]| && cached[c][i] ==> |cached[c]| == |unaliased[c]| && unaliased[c][i]
  }

  ghost predicate CacheCleared(cached: seq<seq<bool>>, p: seq<nat>) {
    forall d :: 0 <= d < |p| && p[d] < |cached| ==> cached[p[d]] == []
  }

  function Unmark(unaliased: seq<seq<bool>>, p: seq<nat>, marked: set<Idx>): (u: seq<seq<bool>>)
    ensures |u| == |unaliased| && forall c :: 0 <= c < |u| ==> |u[c]| == |unaliased[c]|
  {
    seq(|unaliased|, c requires 0 <= c < |unaliased| =>
      seq(|unaliased[c]|, i requires 0 <= i < |unaliased[c]| =>
        unaliased[c][i] && !exists x | x in marked :: x.0 < |p| && p[x.0] == c && x.1 == i))
  }

  function ClearOn(cached: seq<seq<bool>>, p: seq<nat>): (u: seq<seq<bool>>)
    ensures |u| == |cached|
  {
    seq(|cached|, c requires 0 <= c < |cached| => if c in p then [] else cached[c])
  }

  lemma PriorKeyAppend(nodes: seq<Node>, n: Node, d: nat, x: Idx)
    requires Parents(nodes) && Parents(nodes + [n]) && d < |nodes|
    ensures PriorKey(nodes + [n], d, x) == PriorKey(nodes, d, x)
    ensures PriorKey(nodes, d, x).Some? ==> PriorKey(nodes, d, x).value.0 < |nodes|
  {
    PathAppend(nodes, n, Some(d));
  }

  lemma AliasedBelowAppend(nodes: seq<Node>, n: Node, k: Key)
    requires Parents(nodes) && Parents(nodes + [n])
    requires n.parent.Some? ==> n.parent.value < |nodes|
    requires forall x: Idx :: Prior(x) in n.alias ==> x.0 < |Path(nodes, n.parent)|
    ensures AliasedBelow(nodes + [n], k) <==>
      AliasedBelow(nodes, k) || exists x :: Prior(x) in n.alias && KeyAt(Path(nodes, n.parent), x) == k
    ensures k.0 == |nodes| ==> !AliasedBelow(nodes + [n], k)
  {
    hide Parents;
    var more, id := nodes + [n], |nodes|;
    PathAppend(nodes, n, n.parent);
    var p := Path(nodes, n.parent);
    assert more[id] == n && Path(more, Some(id)) == p + [id];
    forall x | Prior(x) in n.alias ensures PriorKey(more, id, x) == Some(KeyAt(p, x)) && KeyAt(p, x).0 < id {}
    forall d: nat, x | d < id ensures PriorKey(more, d, x) == PriorKey(nodes, d, x) && more[d] == nodes[d] {
      PriorKeyAppend(nodes, n, d, x);
    }
    if AliasedBelow(nodes, k) {
      var d, x :| 0 <= d < |nodes| && Prior(x) in nodes[d].alias && PriorKey(nodes, d, x) == Some(k);
      PriorKeyAppend(nodes, n, d, x);
      assert Prior(x) in more[d].alias && PriorKey(more, d, x) == Some(k);
    }
    if x :| Prior(x) in n.alias && KeyAt(p, x) == k {
      assert Prior(x) in more[id].alias && PriorKey(more, id, x) == Some(k);
    }
    if AliasedBelow(more, k) {
      var d, x :| 0 <= d < |more| && Prior(x) in more[d].alias && PriorKey(more, d, x) == Some(k);
      if d < id {
        PriorKeyAppend(nodes, n, d, x);
        assert Prior(x) in nodes[d].alias && PriorKey(nodes, d, x) == Some(k);
      }
    }
  }

  /** Marking what the new recording aliases keeps unaliased_in_all_paths exact in every ancestor. */
  lemma UnmarkKeeps(nodes: seq<Node>, unaliased: seq<seq<bool>>, n: Node, own: seq<bool>, marked: set<Idx>)
    requires Parents(nodes) && Parents(nodes + [n]) && UnaliasedOK(nodes, unaliased)
    requires n.parent.Some? ==> n.parent.value < |nodes|
    requires forall x :: x in marked <==> Prior(x) in n.alias
    requires forall x: Idx :: Prior(x) in n.alias ==> x.0 < |Path(nodes, n.parent)|
    requires |own| == |n.alias| && forall i: nat :: i < |own| ==> (own[i] <==> OwnUnaliased(n.alias, i))
    ensures UnaliasedOK(nodes + [n], Unmark(unaliased, Path(nodes, n.parent), marked) + [own])
  {
    hide AliasedBelow, Path;
    var p := Path(nodes, n.parent);
    var u := Unmark(unaliased, p, marked);
    forall c: nat, i: nat | c < |nodes| && i < |u[c]|
      ensures u[c][i] <==> OwnUnaliased(nodes[c].alias, i) && !AliasedBelow(nodes + [n], (c, i))
    {
      AliasedBelowAppend(nodes, n, (c, i));
    }
    forall i: nat | i < |own| ensures own[i] <==> OwnUnaliased(n.alias, i) && !AliasedBelow(nodes + [n], (|nodes|, i)) {
      AliasedBelowAppend(nodes, n, (|nodes|, i));
    }
  }

  lemma UnmarkKeepsCached(unaliased: seq<seq<bool>>, cached: seq<seq<bool>>, p: seq<nat>, marked: set<Idx>,
                          own: seq<bool>)
    requires CachedOK(unaliased, cached) && CacheCleared(cached, p)
    ensures CachedOK(Unmark(unaliased, p, marked) + [own], cached + [[]])
  {
    var u := Unmark(unaliased, p, marked);
    forall c, i | 0 <= c < |cached| && 0 <= i < |cached[c]| && cached[c][i] ensures |cached[c]| == |u[c]| && u[c][i] {
      forall x | x in marked && x.0 < |p| ensures p[x.0] != c {}
    }
  }

  lemma ClearedGrows(cached: seq<seq<bool>>, p: seq<nat>)
    requires CacheCleared(cached, p)
    ensures CacheCleared(cached + [[]], p + [|cached|])
  {
  }

  // ----- storages created by warmups -----

  /** A storage at an address nobody alive uses can come alive without touching the path. */
  lemma AddStorage(w: World, cur: Option<nat>, extra: set<nat>, a: Addr)
    requires Inv(w, cur, extra) && a !in Addrs(w)
    ensures Inv(w.(addr := w.addr + [a], live := w.live + {|w.addr|}), cur, extra + {|w.addr|})
  {
    var w' := w.(addr := w.addr + [a], live := w.live + {|w.addr|});
    var p := Path(w.nodes, cur);
    forall x: Idx ensures RefAt(w', p, x) == RefAt(w, p, x) {}
    forall x: Idx ensures IsLive(w', p, x) <==> IsLive(w, p, x) {
      assert RefAt(w, p, x).Some? ==> RefAt(w, p, x).value < |w.addr|;
    }
    assert LiveIdx(w', p) == LiveIdx(w, p);
    forall s, t | s in w'.live && t in w'.live && w'.addr[s] == w'.addr[t] && w'.addr[s].Device?
      ensures s == t
    {
      assert s in w.live ==> w.addr[s] in Addrs(w);
      assert t in w.live ==> w.addr[t] in Addrs(w);
    }
  }

  lemma ExtraGrows(w: World, cur: Option<nat>, extra: set<nat>, more: set<nat>)
    requires Inv(w, cur, extra) && extra <= more
    ensures Inv(w, cur, more)
  {
  }

  /** Storages alive after a run were alive before it or are new. */
  lemma IncarnateLive(w: World, c: nat, s: nat)
    requires c < |w.nodes| && Inv(w, w.nodes[c].parent, {}) && Replayable(w, c)
    requires s in Incarnate(w, c).live
    ensures s in w.live || s >= |w.addr|
  {
    if s !in w.live {
      var i := ComesAlive(w, c, s);
      IncarnationFacts(w, c, i);
    }
  }

  lemma RecordLive(w: World, cur: Option<nat>, f: nat, inputs: seq<Option<Addr>>, k: Capture,
                   alias: seq<Alias>, preserved: set<nat>)
    requires RecordOK(w, cur, inputs, k, alias, preserved)
    ensures var n := NewNode(w, cur, f, inputs, k, alias, preserved);
      && Parents(w.nodes + [n])
      && Record(w, n, k).addr == w.addr + n.ptr
      && forall s :: s in Record(w, n, k).live && s < |w.addr| ==> s in w.live && s !in k.dies
  {
    var n := NewNode(w, cur, f, inputs, k, alias, preserved);
    WithNodeKeepsInv(w, cur, f, inputs, k, alias, preserved);
    forall s | s in Record(w, n, k).live && s < |w.addr| ensures s in w.live && s !in k.dies {
      IncarnateLive(WithNode(w, n, k), |w.nodes|, s);
    }
  }

  /** The inputs preserved by ClassifyOutputs are the ones whose first live alias an output shares. */
  lemma SamePreserved(w: World, p: seq<nat>, inputs: seq<Option<Addr>>, inputRefs: seq<Option<Idx>>,
                      alias: seq<Alias>, preserved: set<nat>)
    requires |inputRefs| == |inputs|
    requires forall m :: 0 <= m < |inputs| ==>
      if inputs[m].Some? then FirstAlias(w, p, inputs[m].value, inputRefs[m]) else inputRefs[m].None?
    requires forall m: nat :: m in preserved <==>
      m < |inputRefs| && inputRefs[m].Some? && Prior(inputRefs[m].value) in alias
    ensures PreservedOK(w, p, inputs, alias, preserved)
  {
    forall m: nat, x: Idx | m < |inputs| && inputs[m].Some? && FirstAlias(w, p, inputs[m].value, Some(x))
      && Prior(x) in alias
      ensures m in preserved
    {
      assert LiveAt(w, p, inputs[m].value, x);
      var y := inputRefs[m].value;
      assert !Before(x, y) && !Before(y, x);
      assert x == y;
    }
  }

  lemma PriorsAreAbove(w: World, cur: Option<nat>, f: nat, inputs: seq<Option<Addr>>, k: Capture,
                       alias: seq<Alias>, preserved: set<nat>)
    requires RecordOK(w, cur, inputs, k, alias, preserved)
    ensures forall x: Idx :: Prior(x) in alias ==> x.0 < |Path(w.nodes, cur)|
  {
    forall x: Idx | Prior(x) in alias ensures x.0 < |Path(w.nodes, cur)| {
      var i :| 0 <= i < |alias| && alias[i] == Prior(x);
      NewPriorOK(w, cur, f, inputs, k, alias, preserved, i);
    }
  }

  function OutSet(outs: seq<Option<nat>>): set<nat> {
    set o | o in outs && o.Some? :: o.value
  }

  // ----- the manager's invariant and its steps -----

  ghost predicate StateOK(n: nat, current: Current, state: ExecutionState, warm: seq<WarmNode>) {
    && (state.NONE? <==> current.NoNode?)
    && (state.WARMUP? <==> current.Warm?)
    && (state.RECORDING? || state.EXECUTION? <==> current.Graph?)
    && ChainOK(warm, n) && CurrentOK(warm, n, current)
  }

  /** The current node describes the live storages; `accounted` says whether the allocator mirrors them. */
  ghost predicate PathOK(w: World, current: Current, state: ExecutionState, warm: seq<WarmNode>, accounted: bool) {
    && StateOK(|w.nodes|, current, state, warm)
    && Inv(w, Base(warm, |w.nodes|, current), Chain(warm, |w.nodes|, current))
    && Filled(w) && NoCpuOutputs(w.nodes)
    && w.pool == (if accounted then OnDevice(Addrs(w)) else {})
  }

  /** The tree and its caches; the path's caches are empty whenever a recording may start. */
  ghost predicate BooksOK(nodes: seq<Node>, roots: Dict, children: seq<Dict>, unaliased: seq<seq<bool>>,
                          cached: seq<seq<bool>>, path: seq<nat>, accounted: bool)
  {
    && BookOK(nodes, roots, children)
    && UnaliasedOK(nodes, unaliased)
    && CachedOK(unaliased, cached)
    && (accounted ==> CacheCleared(cached, path))
  }

  /** The manager's whole invariant. */
  ghost predicate MgrOK(w: World, current: Current, state: ExecutionState, warm: seq<WarmNode>, roots: Dict,
                        children: seq<Dict>, unaliased: seq<seq<bool>>, cached: seq<seq<bool>>, accounted: bool)
  {
    && PathOK(w, current, state, warm, accounted)
    && BooksOK(w.nodes, roots, children, unaliased, cached, Path(w.nodes, Base(warm, |w.nodes|, current)), accounted)
  }

  lemma EndPathOK(w: World, current: Current, state: ExecutionState, warm: seq<WarmNode>, accounted: bool)
    requires PathOK(w, current, state, warm, accounted)
    ensures PathOK(w.(live := {}, pool := {}), NoNode, NONE, warm, false)
  {
    var w' := w.(live := {}, pool := {});
    assert RefsOK(w') && LiveOK(w');
    assert Path(w'.nodes, None) == [];
  }

  lemma EndStepOK(w: World, current: Current, state: ExecutionState, warm: seq<WarmNode>, roots: Dict,
                  children: seq<Dict>, unaliased: seq<seq<bool>>, cached: seq<seq<bool>>, accounted: bool)
    requires MgrOK(w, current, state, warm, roots, children, unaliased, cached, accounted)
    ensures MgrOK(w.(live := {}, pool := {}), NoNode, NONE, warm, roots, children, unaliased, cached, false)
  {
    EndPathOK(w, current, state, warm, accounted);
  }

  /** Storages die and real blocks go back to the allocator. */
  lemma DropOK(w: World, current: Current, state: ExecutionState, warm: seq<WarmNode>, roots: Dict,
               children: seq<Dict>, unaliased: seq<seq<bool>>, cached: seq<seq<bool>>, accounted: bool, dead: set<nat>)
    requires MgrOK(w, current, state, warm, roots, children, unaliased, cached, accounted)
    ensures LiveOK(w)
    ensures var w' := Kill(w, dead).(pool := w.pool - DeadAddrs(w, dead));
      && MgrOK(w', current, state, warm, roots, children, unaliased, cached, accounted)
      && Kept(w, w', dead, {})
  {
    hide BooksOK;
    var base, chain := Base(warm, |w.nodes|, current), Chain(warm, |w.nodes|, current);
    KillKeepsInv(w, base, chain, dead);
    KilledAddrs(w, dead);
    PoolIsIrrelevant(Kill(w, dead), w.pool - DeadAddrs(w, dead), base, chain);
  }

  /** Storages die while the allocator does not know of them. */
  lemma DeathOK(w: World, current: Current, state: ExecutionState, warm: seq<WarmNode>, roots: Dict,
                children: seq<Dict>, unaliased: seq<seq<bool>>, cached: seq<seq<bool>>, dead: set<nat>)
    requires MgrOK(w, current, state, warm, roots, children, unaliased, cached, false)
    ensures MgrOK(Kill(w, dead), current, state, warm, roots, children, unaliased, cached, false)
  {
    hide BooksOK;
    KillKeepsInv(w, Base(warm, |w.nodes|, current), Chain(warm, |w.nodes|, current), dead);
  }

  lemma NothingLives(w: World, current: Current, state: ExecutionState, warm: seq<WarmNode>, accounted: bool)
    requires PathOK(w, current, state, warm, accounted) && current.NoNode?
    ensures w.live == {}
  {
    assert Path(w.nodes, None) == [];
    assert LiveIdx(w, []) == {};
  }

  lemma NoneIsAccounted(w: World, state: ExecutionState, warm: seq<WarmNode>)
    requires PathOK(w, NoNode, state, warm, false)
    ensures w.live == {} && PathOK(w, NoNode, state, warm, true)
  {
    NothingLives(w, NoNode, state, warm, false);
  }

  /** A new manager. */
  lemma FirstStepOK()
    ensures MgrOK(START, NoNode, NONE, [], [], [], [], [], false)
  {
    StartIsFine();
    assert Flat([]) == [];
  }

  lemma NoneStepOK(w: World, current: Current, warm: seq<WarmNode>, roots: Dict, children: seq<Dict>,
                   unaliased: seq<seq<bool>>, cached: seq<seq<bool>>)
    requires MgrOK(w, current, NONE, warm, roots, children, unaliased, cached, false)
    ensures MgrOK(w, current, NONE, warm, roots, children, unaliased, cached, true) && w.live == {}
  {
    NoneIsAccounted(w, NONE, warm);
  }

  lemma ExecuteOK(w: World, current: Current, state: ExecutionState, warm: seq<WarmNode>, c: nat)
    requires PathOK(w, current, state, warm, false) && !current.Warm?
    requires c < |w.nodes| && w.nodes[c].parent == Base(warm, |w.nodes|, current) && Replayable(w, c)
    ensures PathOK(Incarnate(w, c), Graph(c), EXECUTION, warm, false)
    ensures w.nodes[c].writes !! Addrs(w)
    ensures Spared(w, Incarnate(w, c), w.nodes[c].writes) && Kept(w, Incarnate(w, c), {}, w.nodes[c].writes)
  {
    ReplayIsSafe(w, c);
    IncarnateKeepsInv(w, c);
    forall s | s in w.live ensures w.addr[s] !in w.nodes[c].writes {
      assert w.addr[s] in Addrs(w);
    }
    forall s | s in Incarnate(w, c).live && s < |w.addr| ensures s in w.live && w.addr[s] !in w.nodes[c].writes {
      IncarnateLive(w, c, s);
      assert w.addr[s] in Addrs(w);
    }
  }

  lemma CacheRowOK(unaliased: seq<seq<bool>>, cached: seq<seq<bool>>, c: nat, row: seq<bool>)
    requires CachedOK(unaliased, cached) && c < |cached|
    requires |row| == |unaliased[c]| && forall i :: 0 <= i < |row| && row[i] ==> unaliased[c][i]
    ensures CachedOK(unaliased, cached[c := row])
  {
  }

  lemma ExecuteStepOK(w: World, current: Current, state: ExecutionState, warm: seq<WarmNode>, roots: Dict,
                      children: seq<Dict>, unaliased: seq<seq<bool>>, cached: seq<seq<bool>>, c: nat, row: seq<bool>)
    requires MgrOK(w, current, state, warm, roots, children, unaliased, cached, false) && !current.Warm?
    requires c < |w.nodes| && w.nodes[c].parent == Base(warm, |w.nodes|, current) && Replayable(w, c)
    requires |row| == |unaliased[c]| && forall i :: 0 <= i < |row| && row[i] ==> unaliased[c][i]
    ensures MgrOK(Incarnate(w, c), Graph(c), EXECUTION, warm, roots, children, unaliased, cached[c := row], false)
  {
    ExecuteOK(w, current, state, warm, c);
    CacheRowOK(unaliased, cached, c, row);
    assert Incarnate(w, c).nodes == w.nodes;
  }

  lemma CheckpointOK(w: World, c: nat, state: ExecutionState, warm: seq<WarmNode>)
    requires PathOK(w, Graph(c), state, warm, false)
    ensures var w' := w.(pool := w.nodes[c].checkpoint - DeadPtrs(w, Some(c)));
      PathOK(w', Graph(c), state, warm, true) && w' == w.(pool := OnDevice(Addrs(w)))
  {
    CheckpointIsExact(w, c);
    PoolIsIrrelevant(w, w.nodes[c].checkpoint - DeadPtrs(w, Some(c)), Some(c), {});
  }

  lemma CheckpointStepOK(w: World, c: nat, state: ExecutionState, warm: seq<WarmNode>, roots: Dict,
                         children: seq<Dict>, unaliased: seq<seq<bool>>, cached: seq<seq<bool>>)
    requires MgrOK(w, Graph(c), state, warm, roots, children, unaliased, cached, false)
    ensures DeadPtrs(w, Some(c)) <= w.nodes[c].checkpoint
    ensures var w' := w.(pool := w.nodes[c].checkpoint - DeadPtrs(w, Some(c)));
      && w' == w.(pool := OnDevice(Addrs(w)))
      && MgrOK(w', Graph(c), state, warm, roots, children, unaliased, ClearOn(cached, Path(w.nodes, Some(c))), true)
  {
    CheckpointOK(w, c, state, warm);
    WithoutCpuOutputsFreeingIsSafe(w, c);
    assert Base(warm, |w.nodes|, Graph(c)) == Some(c);
  }

  /** A recording keeps the storages that its function does not give up, where they are, and writes to
      none of them. */
  lemma RecordSpares(w: World, cur: Option<nat>, f: nat, inputs: seq<Option<Addr>>, k: Capture,
                     alias: seq<Alias>, preserved: set<nat>)
    requires RecordOK(w, cur, inputs, k, alias, preserved)
    ensures var n := NewNode(w, cur, f, inputs, k, alias, preserved);
      && Parents(w.nodes + [n])
      && Spared(w, Record(w, n, k), n.writes) && Kept(w, Record(w, n, k), k.dies, n.writes)
  {
    var n := NewNode(w, cur, f, inputs, k, alias, preserved);
    RecordLive(w, cur, f, inputs, k, alias, preserved);
    RecordKeepsInv(w, cur, f, inputs, k, alias, preserved);
    forall s | s in w.live && s !in k.dies ensures w.addr[s] !in n.writes {
      assert w.addr[s] in Addrs(Kill(w, k.dies));
    }
  }

  /** A recording adds one node, with its outputs in place. */
  lemma RecordShape(w: World, cur: Option<nat>, f: nat, inputs: seq<Option<Addr>>, k: Capture,
                    alias: seq<Alias>, preserved: set<nat>)
    requires RecordOK(w, cur, inputs, k, alias, preserved) && Filled(w)
    ensures var n := NewNode(w, cur, f, inputs, k, alias, preserved);
      && Parents(w.nodes + [n])
      && Record(w, n, k).nodes == w.nodes + [n]
      && RecordedOne(w, Record(w, n, k), cur, f)
      && Filled(Record(w, n, k))
  {
    hide Follows;
    NewParents(w, cur, f, inputs, k, alias, preserved);
  }

  /** Where CPU outputs are refused, none is recorded. */
  lemma RecordsNoCpuOutput(w: World, cur: Option<nat>, f: nat, inputs: seq<Option<Addr>>, k: Capture,
                           alias: seq<Alias>, preserved: set<nat>)
    requires RecordOK(w, cur, inputs, k, alias, preserved) && !k.cpuOutputs && NoCpuOutputs(w.nodes)
    ensures NoCpuOutputs(w.nodes + [NewNode(w, cur, f, inputs, k, alias, preserved)])
  {
    forall i | 0 <= i < |alias| ensures !alias[i].OnHost? {
      assert ClassifiedAt(Kill(w, k.dies), Path(w.nodes, cur), k.statics, k.cpuOutputs, k.outputs, i, alias[i]);
    }
  }

  lemma RecordPathOK(w: World, current: Current, state: ExecutionState, warm: seq<WarmNode>,
                     f: nat, inputs: seq<Option<Addr>>, k: Capture, alias: seq<Alias>, preserved: set<nat>)
    requires PathOK(w, current, state, warm, true) && !current.Warm? && !k.cpuOutputs
    requires RecordOK(w, Base(warm, |w.nodes|, current), inputs, k, alias, preserved)
    ensures var cur := Base(warm, |w.nodes|, current);
      var n := NewNode(w, cur, f, inputs, k, alias, preserved);
      && Parents(w.nodes + [n])
      && PathOK(Record(w, n, k), Graph(|w.nodes|), RECORDING, warm, true)
      && Record(w, n, k).nodes == w.nodes + [n]
  {
    var cur := Base(warm, |w.nodes|, current);
    RecordKeepsInv(w, cur, f, inputs, k, alias, preserved);
    RecordShape(w, cur, f, inputs, k, alias, preserved);
    RecordsNoCpuOutput(w, cur, f, inputs, k, alias, preserved);
  }

  /** record_function as one step of the manager. */
  lemma RecordStepOK(w: World, current: Current, state: ExecutionState, warm: seq<WarmNode>, roots: Dict,
                     children: seq<Dict>, unaliased: seq<seq<bool>>, cached: seq<seq<bool>>,
                     f: nat, inputs: seq<Option<Addr>>, k: Capture, alias: seq<Alias>, preserved: set<nat>,
                     own: seq<bool>, marked: set<Idx>)
    requires MgrOK(w, current, state, warm, roots, children, unaliased, cached, true) && !current.Warm?
    requires RecordOK(w, Base(warm, |w.nodes|, current), inputs, k, alias, preserved) && !k.cpuOutputs
    requires |own| == |alias| && forall i: nat :: i < |own| ==> (own[i] <==> OwnUnaliased(alias, i))
    requires forall x :: x in marked <==> Prior(x) in alias
    ensures var cur := Base(warm, |w.nodes|, current);
      var n := NewNode(w, cur, f, inputs, k, alias, preserved);
      var id := |w.nodes|;
      && Parents(w.nodes + [n])
      && MgrOK(Record(w, n, k), Graph(id), RECORDING, warm,
               if cur.None? then Append(roots, f, id) else roots,
               (if cur.None? then children else children[cur.value := Append(children[cur.value], f, id)]) + [[]],
               Unmark(unaliased, Path(w.nodes, cur), marked) + [own], cached + [[]], true)
  {
    var cur := Base(warm, |w.nodes|, current);
    RecordPathOK(w, current, state, warm, f, inputs, k, alias, preserved);
    RecordBooksOK(w, cur, f, inputs, k, alias, preserved, roots, children, unaliased, cached, own, marked);
  }

  lemma RecordBooksOK(w: World, cur: Option<nat>, f: nat, inputs: seq<Option<Addr>>, k: Capture,
                      alias: seq<Alias>, preserved: set<nat>, roots: Dict, children: seq<Dict>,
                      unaliased: seq<seq<bool>>, cached: seq<seq<bool>>, own: seq<bool>, marked: set<Idx>)
    requires RecordOK(w, cur, inputs, k, alias, preserved)
    requires BooksOK(w.nodes, roots, children, unaliased, cached, Path(w.nodes, cur), true)
    requires |own| == |alias| && forall i: nat :: i < |own| ==> (own[i] <==> OwnUnaliased(alias, i))
    requires forall x :: x in marked <==> Prior(x) in alias
    ensures var n := NewNode(w, cur, f, inputs, k, alias, preserved);
      var id := |w.nodes|;
      var roots' := if cur.None? then Append(roots, f, id) else roots;
      var children' := if cur.None? then children else children[cur.value := Append(children[cur.value], f, id)];
      && Parents(w.nodes + [n])
      && BooksOK(w.nodes + [n], roots', children' + [[]], Unmark(unaliased, Path(w.nodes, cur), marked) + [own],
                 cached + [[]], Path(w.nodes + [n], Some(id)), true)
  {
    var n := NewNode(w, cur, f, inputs, k, alias, preserved);
    NewParents(w, cur, f, inputs, k, alias, preserved);
    AddRecording(w.nodes, roots, children, n);
    PriorsAreAbove(w, cur, f, inputs, k, alias, preserved);
    UnmarkKeeps(w.nodes, unaliased, n, own, marked);
    UnmarkKeepsCached(unaliased, cached, Path(w.nodes, cur), marked, own);
    ClearedGrows(cached, Path(w.nodes, cur));
  }

  lemma EagerStepOK(w: World, v: World, current: Current, state: ExecutionState, warm: seq<WarmNode>,
                    outs: seq<Option<nat>>, writes: set<Addr>, roots: Dict, children: seq<Dict>,
                    unaliased: seq<seq<bool>>, cached: seq<seq<bool>>)
    requires MgrOK(w, current, state, warm, roots, children, unaliased, cached, true)
    requires v.nodes == w.nodes && v.refs == w.refs
    requires Inv(v, Base(warm, |w.nodes|, current), Chain(warm, |w.nodes|, current) + OutSet(outs))
    ensures MgrOK(v.(pool := OnDevice(Addrs(v))), Warm(|warm|), WARMUP, warm + [WarmNode(current, outs, writes)],
                  roots, children, unaliased, cached, true)
  {
    var node := WarmNode(current, outs, writes);
    var base, extra := Base(warm, |w.nodes|, current), Chain(warm, |w.nodes|, current) + OutSet(outs);
    PoolIsIrrelevant(v, OnDevice(Addrs(v)), base, extra);
    ChainStable(warm, |w.nodes|, node, |w.nodes|, current);
    assert (warm + [node])[|warm|] == node;
  }

  lemma TouchBook(nodes: seq<Node>, roots: Dict, children: seq<Dict>, f: nat)
    requires BookOK(nodes, roots, children)
    ensures BookOK(nodes, Touch(roots, f), children)
    ensures forall id :: 0 <= id < |nodes| ==> BookOK(nodes, roots, children[id := Touch(children[id], f)])
  {
    TouchKeeps(nodes, roots, f, None);
    forall id | 0 <= id < |nodes| ensures BookOK(nodes, roots, children[id := Touch(children[id], f)]) {
      TouchKeeps(nodes, children[id], f, Some(id));
    }
  }

  lemma ChildrenAreFiled(nodes: seq<Node>, d: Dict, parent: Option<nat>, f: nat)
    requires ListsChildren(nodes, d, parent)
    ensures forall c: nat :: c in Lookup(d, f) <==> c < |nodes| && nodes[c].parent == parent && nodes[c].func == f
    ensures Ascending(Lookup(d, f))
  {
    LookupAscends(nodes, d, f);
    forall c | c in Lookup(d, f) ensures c < |nodes| && nodes[c].parent == parent && nodes[c].func == f {
      LookupIsFlat(d, f, c);
      var k :| 0 <= k < |d| && d[k].0 == f && c in d[k].1;
      assert FiledEntry(nodes, d[k]);
    }
    forall c: nat | c < |nodes| && nodes[c].parent == parent && nodes[c].func == f ensures c in Lookup(d, f) {
      FlatIsLookedUp(nodes, d, c);
    }
  }

  // ----- what recordings and warmups observe -----

  /** Old storages never come back to life, the living keep their addresses, and none of those
      addresses is written. */
  ghost predicate Spared(w: World, w': World, written: set<Addr>) {
    && w.addr <= w'.addr
    && forall s :: s in w'.live && s < |w.addr| ==> s in w.live && w.addr[s] !in written
  }

  /** Every storage that is not given up stays alive, at its address, and that address is not written. */
  ghost predicate Kept(w: World, w': World, dies: set<nat>, written: set<Addr>) {
    && w.addr <= w'.addr
    && forall s :: s in w.live && s !in dies ==> s in w'.live && s < |w.addr| && w.addr[s] !in written
  }

  /** A recording of function f under the given parent. */
  predicate IsChild(w: World, parent: Option<nat>, f: nat, c: nat) {
    c < |w.nodes| && w.nodes[c].parent == parent && w.nodes[c].func == f
  }

  /** The pointers at the managed positions, or the static ones where they matter, have moved. */
  predicate PointersMoved(w: World, c: nat, call: Call, rerecordOnStatic: bool) {
    && Parents(w.nodes) && c < |w.nodes|
    && (|| !ManagedMatch(w.nodes[c], call.inputs)
        || (&& rerecordOnStatic && !call.staticMatch(c)
            && AllDead(w, Path(w.nodes, w.nodes[c].parent), w.nodes[c].deadBefore)))
  }

  /** The recording c may be replayed as far as pointers and liveness before the call go. */
  predicate Fits(w: World, c: nat, call: Call, rerecordOnStatic: bool) {
    && Parents(w.nodes) && c < |w.nodes|
    && ManagedMatch(w.nodes[c], call.inputs)
    && AllDead(w, Path(w.nodes, w.nodes[c].parent), w.nodes[c].deadBefore)
    && (rerecordOnStatic ==> call.staticMatch(c))
  }

  /** The comparisons of check_invariants that come before any input is dropped, in order. */
  function Compare(w: World, c: nat, call: Call, rerecordOnStatic: bool): (status: Status)
    requires Parents(w.nodes) && c < |w.nodes|
    ensures status.Success? <==> Fits(w, c, call, rerecordOnStatic)
    ensures status.ManagedMismatch? || status.StaticMismatch? <==> PointersMoved(w, c, call, rerecordOnStatic)
    ensures !status.CheckFailed?
  {
    if !ManagedMatch(w.nodes[c], call.inputs) then ManagedMismatch
    else if !AllDead(w, Path(w.nodes, w.nodes[c].parent), w.nodes[c].deadBefore) then DeadMismatch
    else if rerecordOnStatic && !call.staticMatch(c) then StaticMismatch
    else Success
  }

  /** The parent a node recorded now would get. */
  function Place(current: Current): Option<nat> {
    if current.Graph? then Some(current.id) else None
  }

  ghost predicate SomeChildFits(w: World, parent: Option<nat>, call: Call, rerecordOnStatic: bool) {
    exists c: nat :: IsChild(w, parent, call.func, c) && Fits(w, c, call, rerecordOnStatic)
  }

  ghost predicate SomeChildMoved(w: World, parent: Option<nat>, call: Call, rerecordOnStatic: bool) {
    exists c: nat :: IsChild(w, parent, call.func, c) && PointersMoved(w, c, call, rerecordOnStatic)
  }

  /** The first i of the children do not fit; `mismatch` says whether one of them saw pointers move. */
  ghost predicate Tried(w: World, kids: seq<nat>, i: nat, call: Call, rerecordOnStatic: bool, mismatch: bool) {
    && i <= |kids|
    && (forall j :: 0 <= j < i ==> !Fits(w, kids[j], call, rerecordOnStatic))
    && (mismatch <==> exists j :: 0 <= j < i && PointersMoved(w, kids[j], call, rerecordOnStatic))
  }

  /** The loop over the recorded children of a node, up to the first one that fits; what it compares does
      not change the world. */
  method FirstFit(w: World, kids: seq<nat>, call: Call, rerecordOnStatic: bool)
    returns (hit: Option<nat>, mismatch: bool)
    requires Parents(w.nodes) && forall c :: c in kids ==> c < |w.nodes|
    ensures hit.Some? ==>
      && hit.value in kids && Fits(w, hit.value, call, rerecordOnStatic)
      && exists k :: 0 <= k < |kids| && kids[k] == hit.value && Tried(w, kids, k, call, rerecordOnStatic, mismatch)
    ensures hit.None? ==> Tried(w, kids, |kids|, call, rerecordOnStatic, mismatch)
  {
    mismatch := false;
    for i := 0 to |kids|
      invariant Tried(w, kids, i, call, rerecordOnStatic, mismatch)
    {
      assert kids[i] in kids;
      var status := Compare(w, kids[i], call, rerecordOnStatic);
      if status.Success? {
        return Some(kids[i]), mismatch;
      }
      if status.ManagedMismatch? || status.StaticMismatch? {
        mismatch := true;
      }
    }
    return None, mismatch;
  }

  /** When every child has been tried, the answer is about all recordings of the function at the node. */
  lemma TriedAll(w: World, kids: seq<nat>, parent: Option<nat>, call: Call, rerecordOnStatic: bool, mismatch: bool)
    requires Tried(w, kids, |kids|, call, rerecordOnStatic, mismatch)
    requires forall c: nat :: c in kids <==> IsChild(w, parent, call.func, c)
    ensures !SomeChildFits(w, parent, call, rerecordOnStatic)
    ensures mismatch <==> SomeChildMoved(w, parent, call, rerecordOnStatic)
  {
    if mismatch {
      var j :| 0 <= j < |kids| && PointersMoved(w, kids[j], call, rerecordOnStatic);
      assert kids[j] in kids;
    }
  }

  /** c is the oldest recording of the function at the node that fits. */
  ghost predicate FirstFitting(w: World, parent: Option<nat>, call: Call, rerecordOnStatic: bool, c: nat) {
    && IsChild(w, parent, call.func, c) && Fits(w, c, call, rerecordOnStatic)
    && forall d: nat :: d < c && IsChild(w, parent, call.func, d) ==> !Fits(w, d, call, rerecordOnStatic)
  }

  lemma TriedUpTo(w: World, kids: seq<nat>, k: nat, parent: Option<nat>, call: Call, rerecordOnStatic: bool,
                  mismatch: bool)
    requires k < |kids| && Tried(w, kids, k, call, rerecordOnStatic, mismatch)
    requires Fits(w, kids[k], call, rerecordOnStatic)
    requires Ascending(kids) && forall c: nat :: c in kids <==> IsChild(w, parent, call.func, c)
    ensures FirstFitting(w, parent, call, rerecordOnStatic, kids[k])
  {
    forall d: nat | d < kids[k] && IsChild(w, parent, call.func, d) ensures !Fits(w, d, call, rerecordOnStatic) {
      var j :| 0 <= j < |kids| && kids[j] == d;
      assert j < k;
    }
  }

  /** When the inputs of recording c are dropped now, all outputs die that had died by then when it was
      recorded. */
  predicate DropsAsRecorded(w: World, c: nat, call: Call) {
    && Parents(w.nodes) && c < |w.nodes|
    && forall x :: x in w.nodes[c].deadAfter ==>
         !IsLive(Kill(w, call.drops(w, c)), Path(w.nodes, w.nodes[c].parent), x)
  }

  /** The oldest recording that fits is replayed, unless an output that died while it was recorded survives
      the dropping of its inputs, which raises. */
  ghost predicate Answers(w: World, parent: Option<nat>, call: Call, rerecordOnStatic: bool, outcome: Outcome) {
    exists c: nat :: FirstFitting(w, parent, call, rerecordOnStatic, c)
      && outcome == if DropsAsRecorded(w, c, call) then Replayed(c) else Raised
  }

  /** Exactly one recording was added, under the given parent and function. */
  ghost predicate RecordedOne(w: World, w': World, parent: Option<nat>, f: nat) {
    && |w'.nodes| == |w.nodes| + 1 && w'.nodes[..|w.nodes|] == w.nodes
    && w'.nodes[|w.nodes|].func == f && w'.nodes[|w.nodes|].parent == parent
  }

  lemma {:induction false} PathPrefix(nodes: seq<Node>, more: seq<Node>, cur: Option<nat>)
    requires Parents(nodes) && Parents(more) && nodes <= more && (cur.Some? ==> cur.value < |nodes|)
    ensures Path(more, cur) == Path(nodes, cur)
    decreases if cur.Some? then cur.value + 1 else 0
  {
    if cur.Some? {
      assert more[cur.value] == nodes[cur.value];
      PathPrefix(nodes, more, nodes[cur.value].parent);
    }
  }

  /** The tensor lies at the address of an output of the path, whether that is alive or not. */
  ghost predicate LiesOnPath(nodes: seq<Node>, p: seq<nat>, input: Option<Addr>)
    requires Parents(nodes)
  {
    exists x: Idx :: OnPath(nodes, p, x) && input == Some(PtrAt(nodes, p, x))
  }

  /** w is a later world whose tree holds the recording that was made in w0. */
  ghost predicate Holds(w: World, w0: World, parent: Option<nat>, f: nat, inputs: seq<Option<Addr>>, k: Capture,
                        alias: seq<Alias>, preserved: set<nat>)
  {
    && RecordOK(w0, parent, inputs, k, alias, preserved)
    && Parents(w.nodes) && w0.nodes < w.nodes
    && w.nodes[|w0.nodes|] == NewNode(w0, parent, f, inputs, k, alias, preserved)
  }

  lemma LiveIdxIs(w: World, p: seq<nat>)
    requires forall d :: 0 <= d < |p| ==> p[d] < |w.refs|
    ensures forall x: Idx :: x in LiveIdx(w, p) <==> IsLive(w, p, x)
  {
  }

  lemma ManagedIs(nodes: seq<Node>, p: seq<nat>, inputs: seq<Option<Addr>>)
    requires Parents(nodes) && forall d :: 0 <= d < |p| ==> p[d] < |nodes|
    ensures forall m: nat :: m in Managed(nodes, p, inputs) <==> m < |inputs| && LiesOnPath(nodes, p, inputs[m])
    ensures forall m: nat :: m in Managed(nodes, p, inputs) ==> inputs[m] == Some(Managed(nodes, p, inputs)[m])
  {
    forall m: nat | m in Managed(nodes, p, inputs) ensures LiesOnPath(nodes, p, inputs[m]) {
      var d, i :| 0 <= d < |p| && 0 <= i < |nodes[p[d]].alias| && OnPath(nodes, p, (d, i))
        && PtrAt(nodes, p, (d, i)) == inputs[m].value;
      assert OnPath(nodes, p, (d, i));
    }
  }

  lemma ManagedMatchIs(nodes: seq<Node>, p: seq<nat>, inputs: seq<Option<Addr>>, n: Node, now: seq<Option<Addr>>)
    requires Parents(nodes) && (forall d :: 0 <= d < |p| ==> p[d] < |nodes|) && n.managed == Managed(nodes, p, inputs)
    ensures ManagedMatch(n, now) <==>
      forall m: nat :: m < |inputs| && LiesOnPath(nodes, p, inputs[m]) ==> m < |now| && now[m] == inputs[m]
  {
    hide Managed, LiesOnPath;
    ManagedIs(nodes, p, inputs);
  }

  /** What a recording keeps, in terms of the liveness it saw. */
  lemma KeepsWhatItSaw(w: World, parent: Option<nat>, f: nat, inputs: seq<Option<Addr>>, k: Capture,
                       alias: seq<Alias>, preserved: set<nat>)
    requires RecordOK(w, parent, inputs, k, alias, preserved)
    ensures var n, p := NewNode(w, parent, f, inputs, k, alias, preserved), Path(w.nodes, parent);
      && n.parent == parent && n.managed == Managed(w.nodes, p, inputs)
      && (forall x :: x in n.deadBefore <==> x in After(w.nodes, parent) && !IsLive(w, p, x))
      && (forall x :: x in n.deadAfter <==> IsLive(w, p, x) && !IsLive(Kill(w, k.dies), p, x))
  {
    hide NodeOK, Covered, Managed, LiveIdx;
    LiveIdxIs(w, Path(w.nodes, parent));
    LiveIdxIs(Kill(w, k.dies), Path(w.nodes, parent));
  }

  /** A recording fits again exactly when the arguments that lay on the path are where they were, of the outputs
      that its parent had left alive none is alive that was dead then, and its static pointers match where that
      is asked. */
  lemma FitsExactlyWhen(w0: World, parent: Option<nat>, f: nat, inputs: seq<Option<Addr>>, k: Capture,
                        alias: seq<Alias>, preserved: set<nat>, w: World, call: Call, rerecordOnStatic: bool)
    requires Holds(w, w0, parent, f, inputs, k, alias, preserved)
    ensures var c, p := |w0.nodes|, Path(w0.nodes, parent);
      Fits(w, c, call, rerecordOnStatic) <==>
        && (forall m: nat :: m < |inputs| && LiesOnPath(w0.nodes, p, inputs[m]) ==>
              m < |call.inputs| && call.inputs[m] == inputs[m])
        && (forall x :: x in After(w0.nodes, parent) && IsLive(w, p, x) ==> IsLive(w0, p, x))
        && (rerecordOnStatic ==> call.staticMatch(c))
  {
    PathPrefix(w0.nodes, w.nodes, parent);
    hide RecordOK, NewNode, Managed, LiesOnPath, IsLive, Path, ManagedMatch;
    KeepsWhatItSaw(w0, parent, f, inputs, k, alias, preserved);
    ManagedMatchIs(w0.nodes, Path(w0.nodes, parent), inputs, w.nodes[|w0.nodes|], call.inputs);
  }

  /** And it is replayed, not refused, exactly when of the outputs alive before the recording none survives the
      dropping of the inputs now that had died by its end. */
  lemma DropsExactlyWhen(w0: World, parent: Option<nat>, f: nat, inputs: seq<Option<Addr>>, k: Capture,
                         alias: seq<Alias>, preserved: set<nat>, w: World, call: Call)
    requires Holds(w, w0, parent, f, inputs, k, alias, preserved)
    ensures var c, p := |w0.nodes|, Path(w0.nodes, parent);
      DropsAsRecorded(w, c, call) <==>
        forall x :: IsLive(w0, p, x) && IsLive(Kill(w, call.drops(w, c)), p, x) ==> IsLive(Kill(w0, k.dies), p, x)
  {
    PathPrefix(w0.nodes, w.nodes, parent);
    hide RecordOK, NewNode, Managed, IsLive, Path;
    KeepsWhatItSaw(w0, parent, f, inputs, k, alias, preserved);
  }

  /** The recording added is the one its capture determines, and the world changed as the capture says. */
  ghost predicate RecordedAs(w: World, w': World, parent: Option<nat>, call: Call) {
    && |w'.nodes| > |w.nodes| && LiveOK(w)
    && var n, k := w'.nodes[|w.nodes|], call.capture(w);
      && RecordOK(w, parent, call.inputs, k, n.alias, n.preserved)
      && n == NewNode(w, parent, call.func, call.inputs, k, n.alias, n.preserved)
      && Parents(w.nodes + [n]) && w' == Record(w, n, k)
  }

  /** A root of a function is filed under its key, and with nothing alive a root fits now if it will fit once the
      path has been left. */
  lemma RootsOfFunction(w: World, current: Current, state: ExecutionState, warm: seq<WarmNode>, roots: Dict,
                        children: seq<Dict>, unaliased: seq<seq<bool>>, cached: seq<seq<bool>>, accounted: bool,
                        call: Call, rerecordOnStatic: bool)
    requires MgrOK(w, current, state, warm, roots, children, unaliased, cached, accounted)
    ensures SomeChildFits(Left(w), None, call, rerecordOnStatic) ==> HasKey(roots, call.func)
    ensures current.NoNode? && SomeChildFits(Left(w), None, call, rerecordOnStatic) ==>
      SomeChildFits(w, None, call, rerecordOnStatic)
  {
    hide Inv, NodeOK, UnaliasedOK, CachedOK, Path, Base, Chain;
    if SomeChildFits(Left(w), None, call, rerecordOnStatic) {
      var c: nat :| IsChild(Left(w), None, call.func, c) && Fits(Left(w), c, call, rerecordOnStatic);
      FlatIsLookedUp(w.nodes, roots, c);
      LookupHasKey(roots, call.func);
      if current.NoNode? {
        NothingLives(w, current, state, warm, accounted);
        assert IsChild(w, None, call.func, c);
        FitsWhenNothingLives(w, c, call, rerecordOnStatic);
      }
    }
  }

  lemma FitsWhenNothingLives(w: World, c: nat, call: Call, rerecordOnStatic: bool)
    requires w.live == {} && Fits(Left(w), c, call, rerecordOnStatic)
    ensures Fits(w, c, call, rerecordOnStatic)
  {
  }

  /** The tensors passed to a call that lie on outputs of the path to `parent` are alive. */
  predicate HeldNow(w: World, parent: Option<nat>, inputs: seq<Option<Addr>>)
    requires Parents(w.nodes) && LiveOK(w) && (parent.Some? ==> parent.value < |w.nodes|)
  {
    Held(w, Path(w.nodes, parent), inputs)
  }

  ghost predicate HeldAt(w: World, parent: Option<nat>, inputs: seq<Option<Addr>>) {
    Parents(w.nodes) && LiveOK(w) && (parent.Some? ==> parent.value < |w.nodes|) ==> HeldNow(w, parent, inputs)
  }

  lemma NothingHeldAtNone(w: World, inputs: seq<Option<Addr>>)
    ensures HeldAt(w, None, inputs)
  {
  }

  /** How often a function was re-recorded at a node. */
  function Count(numRerecord: map<(Current, nat), nat>, k: (Current, nat)): nat {
    if k in numRerecord then numRerecord[k] else 0
  }

  /** The function is known to mutate inputs of others at this node, as asked now if it was not before, or has been
      re-recorded there more often than the limit. */
  predicate KnownUnsuitable(config: Config, hint: map<(Current, nat), bool>, numRerecord: map<(Current, nat), nat>,
                            current: Current, call: Call)
  {
    var k := (current, call.func);
    || (if k in hint then hint[k] else call.mutates(current))
    || (!config.inlineModules && Count(numRerecord, k) > config.rerecordLimit)
  }

  ghost function Listed(rerecorded: map<(Current, nat), set<nat>>, k: (Current, nat)): set<nat> {
    if k in rerecorded then rerecorded[k] else {}
  }

  lemma KeptMore(w: World, w': World, dies: set<nat>, written: set<Addr>)
    requires Kept(w, w', {}, written)
    ensures Kept(w, w', dies, written)
  {
  }

  // ----- what a call does, and what a session promises -----

  /** What the manager knows when a call begins or ends: the world, path_state, current_node, the warmup nodes,
      the functions that have been warmed up, non_npugraph_managed_mutation_hint, num_rerecord, current_gen, and
      running_forwards_with_pending_backwards. */
  datatype Moment = Moment(
    w: World,
    state: ExecutionState,
    current: Current,
    warm: seq<WarmNode>,
    warmed: set<nat>,
    hint: map<(Current, nat), bool>,
    counts: map<(Current, nat), nat>,
    gen: int,
    pending: bool)

  /** can_start_new_generation */
  predicate MayStart(m: Moment, call: Call) {
    m.gen != call.generation && (call.markedStep || !m.pending)
  }

  /** The current path may be left. */
  predicate Ends(m: Moment, call: Call) {
    MayStart(m, call) || m.w.live == {}
  }

  /** The world once a path has been left. */
  function Left(w: World): World {
    w.(live := {}, pool := {})
  }

  /** Where a call is decided: a recording or warmup that may be left has been left. */
  function Settled(m: Moment, call: Call): Moment {
    if (m.state.RECORDING? || m.state.WARMUP?) && Ends(m, call)
    then m.(w := Left(m.w), state := NONE, current := NoNode)
    else m
  }

  /** The node that the current one was replayed, recorded or warmed up below. */
  function Origin(m: Moment): Current {
    match m.current
    case NoNode => NoNode
    case Graph(c) =>
      if c < |m.w.nodes| && m.w.nodes[c].parent.Some? then Graph(m.w.nodes[c].parent.value) else NoNode
    case Warm(j) => if j < |m.warm| then m.warm[j].parent else NoNode
  }

  /** A recorded graph was run or captured, or the function ran inside the pool. */
  predicate Ran(outcome: Outcome) {
    outcome.Replayed? || outcome.Recorded? || outcome.WarmedUp?
  }

  function PendingAfter(pending: bool, mode: Mode, outcome: Outcome): bool {
    if outcome.Raised? then pending else if mode.FORWARD? then true else if mode.BACKWARD? then false else pending
  }

  /** The addresses that the nodes of the tree say were written. */
  ghost predicate Wrote(m: Moment, outcome: Outcome, written: set<Addr>) {
    if !Ran(outcome) then written == {}
    else match m.current
      case NoNode => false
      case Graph(c) => c < |m.w.nodes| && written == m.w.nodes[c].writes
      case Warm(j) => j < |m.warm| && written == m.warm[j].writes
  }

  /** Nothing but liveness and the pool differs, and liveness only shrank. */
  ghost predicate Leads(w: World, v: World) {
    v.nodes == w.nodes && v.addr == w.addr && v.live <= w.live
  }

  /** A capture or an eager run wrote what the function writes in the world it ran in. */
  ghost predicate Performed(w: World, call: Call, outcome: Outcome, written: set<Addr>) {
    match outcome
    case Recorded(_) => exists v :: Leads(w, v) && written == call.capture(v).writes
    case WarmedUp => exists v :: Leads(w, v) && written == call.eager(v).writes
    case _ => true
  }

  lemma PerformedSince(w: World, v: World, call: Call, outcome: Outcome, written: set<Addr>)
    requires Leads(w, v) && Performed(v, call, outcome, written)
    ensures Performed(w, call, outcome, written)
  {
    match outcome {
      case Recorded(_) =>
        var u :| Leads(v, u) && written == call.capture(u).writes;
        assert Leads(w, u);
      case WarmedUp =>
        var u :| Leads(v, u) && written == call.eager(u).writes;
        assert Leads(w, u);
      case _ =>
    }
  }

  /** What a call does.  Unless it may start a new generation, every storage that the program does not give
      up stays alive, in place and unwritten. */
  ghost predicate Explained(was: Moment, now: Moment, call: Call, outcome: Outcome, written: set<Addr>) {
    && Spared(was.w, now.w, written)
    && (!MayStart(was, call) ==> Kept(was.w, now.w, call.dies, written))
    && Wrote(now, outcome, written) && Performed(was.w, call, outcome, written)
    && now.gen == (if Ran(outcome) then call.generation else was.gen)
    && (now.pending == was.pending || now.pending == PendingAfter(was.pending, call.mode, outcome))
    && now.warmed == was.warmed + (if outcome.WarmedUp? then {call.func} else {})
    && Noted(was, now, call)
    && Extended(was.w, now, call.func, outcome)
    && Continues(was, now, call, outcome)
  }

  /** Whether a function mutates inputs of others is asked about this function only, and what is noted is the
      answer; re-recordings are counted for this function only, at most one. */
  ghost predicate Noted(was: Moment, now: Moment, call: Call) {
    && (forall k :: k in was.hint ==> k in now.hint)
    && (forall k :: k in now.hint ==>
          || (k in was.hint && now.hint[k] == was.hint[k])
          || (k.1 == call.func && now.hint[k] == call.mutates(k.0)))
    && (forall k :: Count(was.counts, k) <= Count(now.counts, k)
                 && Count(now.counts, k) <= Count(was.counts, k) + if k.1 == call.func then 1 else 0)
  }

  /** What happens to the tree of recordings, by outcome. */
  ghost predicate Extended(w0: World, m: Moment, f: nat, outcome: Outcome) {
    var w := m.w;
    match outcome
    case Replayed(c) =>
      m.state.EXECUTION? && m.current == Graph(c) && w.nodes == w0.nodes && c < |w.nodes| && w.nodes[c].func == f
    case Recorded(c) =>
      && m.state.RECORDING? && m.current == Graph(c) && c == |w0.nodes|
      && |w.nodes| == |w0.nodes| + 1 && w.nodes[..c] == w0.nodes && w.nodes[c].func == f
    case WarmedUp => m.state.WARMUP? && m.current.Warm? && w.nodes == w0.nodes
    case Eager => w.nodes == w0.nodes
    case Raised => w.nodes == w0.nodes
  }

  /** What runs in the pool runs below the node that was current, or at the start of a new path if the old one
      may be left; what does not run there stays at that node or leaves it. */
  ghost predicate Continues(was: Moment, now: Moment, call: Call, outcome: Outcome) {
    if Ran(outcome) then Origin(now) == was.current || (Origin(now).NoNode? && Ends(was, call))
    else SamePlace(was, now) || (now.state.NONE? && now.current.NoNode? && Ends(was, call))
  }

  predicate SamePlace(was: Moment, now: Moment) {
    now.state == was.state && now.current == was.current
  }

  /** A recording or warmup that may be left is left before anything runs, an execution before anything is
      recorded. */
  ghost predicate StartsOver(was: Moment, now: Moment, call: Call, outcome: Outcome) {
    Ends(was, call) && Ran(outcome) && (was.state.EXECUTION? ==> outcome.Recorded?) ==> Origin(now).NoNode?
  }

  /** What a call is answered with at moment m, once it neither warms up nor runs on its own: while recording it
      is recorded; otherwise the oldest recording at the current node that fits answers it; otherwise, if the
      path may be left, the oldest root that fits; and if there is none it is recorded. */
  ghost predicate Decided(m: Moment, call: Call, rerecordOnStatic: bool, outcome: Outcome) {
    if m.state.RECORDING? then outcome.Recorded?
    else if SomeChildFits(m.w, Place(m.current), call, rerecordOnStatic)
    then Answers(m.w, Place(m.current), call, rerecordOnStatic, outcome)
    else DecidedAtRoot(m, call, rerecordOnStatic, outcome)
  }

  ghost predicate DecidedAtRoot(m: Moment, call: Call, rerecordOnStatic: bool, outcome: Outcome) {
    if Ends(m, call) && SomeChildFits(Left(m.w), None, call, rerecordOnStatic)
    then Answers(Left(m.w), None, call, rerecordOnStatic, outcome)
    else outcome.Recorded?
  }

  /** The function may be recorded and replayed. */
  predicate ReadyFor(config: Config, warmed: set<nat>, f: nat) {
    (f in warmed || config.skipWarmup) && !config.forceWarmup
  }

  /** The function would have to be recorded at the node, but is reported to mutate inputs of others, or pointers of
      its recordings there have moved more often than the limit allows. */
  ghost predicate Skips(config: Config, counts: map<(Current, nat), nat>, w: World, current: Current, call: Call) {
    || (call.mutatesInputs && call.mutates(current))
    || (&& SomeChildMoved(w, Place(current), call, config.rerecordOnStatic)
        && !config.inlineModules && Count(counts, (current, call.func)) + 1 > config.rerecordLimit)
  }

  /** At the roots, once the path has been left, the function runs on its own. */
  ghost predicate SkipsAtRoot(config: Config, m: Moment, call: Call) {
    || KnownUnsuitable(config, m.hint, m.counts, NoNode, call)
    || (&& !SomeChildFits(Left(m.w), None, call, config.rerecordOnStatic)
        && Skips(config, m.counts, Left(m.w), NoNode, call))
  }

  /** What a call is answered with once it has been neither sent away nor warmed up.  It runs on its own only while
      not recording, if nothing fits at the current node, and it would be skipped there or at the roots. */
  ghost predicate Answered(config: Config, m: Moment, call: Call, outcome: Outcome) {
    if outcome.Eager? then
      && !m.state.RECORDING? && !SomeChildFits(m.w, Place(m.current), call, config.rerecordOnStatic)
      && (|| Skips(config, m.counts, m.w, m.current, call)
          || (!m.current.NoNode? && Ends(m, call) && SkipsAtRoot(config, m, call)))
    else
      && Decided(m, call, config.rerecordOnStatic, outcome)
      && (outcome.Recorded? && !m.state.RECORDING? ==>
            || !Skips(config, m.counts, m.w, m.current, call)
            || (!m.current.NoNode? && Ends(m, call) && !SkipsAtRoot(config, m, call)))
  }

  /** A function that is not ready, or that follows a warmup, warms up; any other is answered. */
  ghost predicate Proceeds(config: Config, m: Moment, call: Call, outcome: Outcome) {
    if !ReadyFor(config, m.warmed, call.func) || m.state.WARMUP? then outcome.WarmedUp?
    else Answered(config, m, call, outcome)
  }

  /** How a call is answered: a function known to be unsuitable runs on its own, any other proceeds. */
  ghost predicate Chosen(config: Config, m: Moment, call: Call, outcome: Outcome) {
    if KnownUnsuitable(config, m.hint, m.counts, m.current, call) then outcome.Eager?
    else Proceeds(config, m, call, outcome)
  }

  /** The known answers, and perhaps the one about the function at this node. */
  ghost predicate Asks(was: map<(Current, nat), bool>, hint: map<(Current, nat), bool>, current: Current, call: Call) {
    && (forall k :: k in was ==> k in hint && hint[k] == was[k])
    && (forall k :: k in hint && k !in was ==> k == (current, call.func) && hint[k] == call.mutates(current))
  }

  /** Having asked about the function at the current node does not matter later on. */
  lemma AskedOnce(config: Config, m: Moment, hint: map<(Current, nat), bool>, call: Call, outcome: Outcome)
    requires Asks(m.hint, hint, m.current, call) && Proceeds(config, m.(hint := hint), call, outcome)
    ensures Proceeds(config, m, call, outcome)
  {
    hide SomeChildFits, SomeChildMoved, Answers;
  }

  /** Nothing but liveness, the pool and the place in the tree differs; only what the call gives up has died, and
      the place is the same, unless the path may be left. */
  ghost predicate Narrowed(was: Moment, now: Moment, call: Call) {
    && Leads(was.w, now.w)
    && now.gen == was.gen && now.pending == was.pending && now.warm == was.warm && now.warmed == was.warmed
    && now.hint == was.hint && now.counts == was.counts
    && (!MayStart(was, call) ==> was.w.live - call.dies <= now.w.live)
    && (|| SamePlace(was, now)
        || (now.state.NONE? && now.current.NoNode? && now.w.live == {} && Ends(was, call)))
  }

  /** Running the plain function changes nothing here. */
  lemma EagerExplained(m: Moment, call: Call)
    requires Kept(m.w, m.w, {}, {})
    ensures Explained(m, m, call, Eager, {})
  {
  }

  lemma RaisedExplained(m: Moment, call: Call)
    requires Kept(m.w, m.w, {}, {})
    ensures Explained(m, m, call, Raised, {})
  {
  }

  /** What happens after storages have died or the path has been left also explains the whole, provided the path
      is not left only because of those deaths. */
  lemma ExplainedSince(was: Moment, mid: Moment, now: Moment, call: Call, outcome: Outcome, written: set<Addr>)
    requires Narrowed(was, mid, call) && Explained(mid, now, call, outcome, written)
    requires SamePlace(was, mid) && mid.w.live != was.w.live ==>
      if Ran(outcome) then Origin(now) == mid.current else SamePlace(mid, now)
    ensures Explained(was, now, call, outcome, written)
  {
    hide Performed;
    PerformedSince(was.w, mid.w, call, outcome, written);
  }

  lemma ReplayExplained(m: Moment, w': World, c: nat, call: Call, written: set<Addr>)
    requires IsChild(m.w, Place(m.current), call.func, c) && !m.current.Warm?
    requires w'.nodes == m.w.nodes && written == w'.nodes[c].writes
    requires Spared(m.w, w', written) && Kept(m.w, w', {}, written)
    ensures var now := m.(w := w', state := EXECUTION, current := Graph(c), gen := call.generation);
      Explained(m, now, call, Replayed(c), written) && Origin(now) == m.current
  {
    hide Spared;
    KeptMore(m.w, w', call.dies, written);
  }

  /** What happens after something has been noted also explains the whole. */
  lemma ExplainedWithNotes(was: Moment, mid: Moment, now: Moment, call: Call, outcome: Outcome, written: set<Addr>)
    requires mid == was.(hint := mid.hint, counts := mid.counts)
    requires Explained(mid, now, call, outcome, written) && Noted(was, now, call)
    ensures Explained(was, now, call, outcome, written)
  {
    hide Performed, Spared, Kept, Noted;
  }

  lemma ExplainedAsked(was: Moment, hint: map<(Current, nat), bool>, now: Moment, call: Call, outcome: Outcome,
                       written: set<Addr>)
    requires Asks(was.hint, hint, was.current, call)
    requires Explained(was.(hint := hint), now, call, outcome, written)
    ensures Explained(was, now, call, outcome, written)
  {
    assert Noted(was, now, call) by {
      hide Performed, Spared, Kept;
      assert Noted(was.(hint := hint), now, call);
    }
    ExplainedWithNotes(was, was.(hint := hint), now, call, outcome, written);
  }

  lemma ExplainedNoted(was: Moment, mid: Moment, now: Moment, call: Call, outcome: Outcome, written: set<Addr>)
    requires mid == was.(hint := mid.hint, counts := mid.counts) && Noted(was, mid, call)
    requires Explained(mid, now, call, outcome, written) && now.hint == mid.hint && now.counts == mid.counts
    ensures Explained(was, now, call, outcome, written)
  {
    hide Explained;
    ExplainedWithNotes(was, mid, now, call, outcome, written);
  }

  /** SkipGraph notes the answer it got, or counts a re-recording. */
  lemma NotedBySkipping(was: Moment, now: Moment, call: Call, mismatch: bool)
    requires now.hint == if call.mutatesInputs then was.hint[(was.current, call.func) := call.mutates(was.current)]
                         else was.hint
    requires now.counts == if mismatch && !(call.mutatesInputs && call.mutates(was.current))
      then was.counts[(was.current, call.func) := Count(was.counts, (was.current, call.func)) + 1]
      else was.counts
    ensures Noted(was, now, call)
  {
  }

  /** The bookkeeping of the mode, after the call, changes nothing else. */
  lemma PendingLater(was: Moment, now: Moment, call: Call, outcome: Outcome, written: set<Addr>)
    requires Explained(was, now, call, outcome, written) && StartsOver(was, now, call, outcome)
    ensures now.pending == was.pending || now.pending == PendingAfter(was.pending, call.mode, outcome)
    ensures
      forall p :: p == PendingAfter(was.pending, call.mode, outcome) || p == now.pending ==>
        Explained(was, now.(pending := p), call, outcome, written) && StartsOver(was, now.(pending := p), call, outcome)
  {
    hide Performed, Spared, Kept;
  }

  /** One step of a session: what the program asked for, the moments before and after, the outcome of a call
      (None for a release, and for a call that cannot be made because an argument is no longer alive), and the
      addresses written. */
  datatype Entry = Entry(op: Op, before: Moment, after: Moment, outcome: Option<Outcome>, written: set<Addr>)

  ghost predicate EntryOK(config: Config, e: Entry) {
    match (e.op, e.outcome)
    case (Invoke(call), Some(outcome)) =>
      && HeldAt(e.before.w, Place(e.before.current), call.inputs)
      && Explained(e.before, e.after, call, outcome, e.written)
      && e.after.pending == PendingAfter(e.before.pending, call.mode, outcome)
      && StartsOver(e.before, e.after, call, outcome)
      && Chosen(config, Settled(e.before, call), call, outcome)
    case (Invoke(call), None) =>
      && !HeldAt(e.before.w, Place(e.before.current), call.inputs)
      && e.after == e.before && e.written == {} && Kept(e.before.w, e.after.w, {}, {})
    case (Release(dead), _) =>
      && e.outcome.None? && e.written == {}
      && e.after == e.before.(w := e.after.w)
      && Kept(e.before.w, e.after.w, dead, {}) && e.after.w.nodes == e.before.w.nodes
      && e.after.w.live == e.before.w.live - dead
  }

  /** The steps of a session: the operations it was given, each one accounted for, each beginning where the
      one before ended. */
  ghost predicate LogOK(config: Config, log: seq<Entry>, ops: seq<Op>, was: Moment, now: Moment) {
    && |log| <= |ops|
    && (forall k :: 0 <= k < |log| ==> log[k].op == ops[k] && EntryOK(config, log[k]))
    && (forall k :: 0 < k < |log| ==> log[k].before == log[k - 1].after)
    && (if log == [] then now == was else log[0].before == was && log[|log| - 1].after == now)
  }

  lemma LogSnoc(config: Config, log: seq<Entry>, ops: seq<Op>, was: Moment, e: Entry)
    requires |log| < |ops| && LogOK(config, log, ops, was, e.before) && e.op == ops[|log|] && EntryOK(config, e)
    ensures LogOK(config, log + [e], ops, was, e.after)
  {
    hide EntryOK;
    var more := log + [e];
    forall k | 0 <= k < |more| ensures more[k].op == ops[k] && EntryOK(config, more[k]) {}
    forall k | 0 < k < |more| ensures more[k].before == more[k - 1].after {}
  }

  /** What the program gives up in a step. */
  function Dies(op: Op): set<nat> {
    match op
    case Invoke(call) => call.dies
    case Release(dead) => dead
  }

  /** The step cannot start a new generation. */
  predicate Stays(e: Entry) {
    e.op.Invoke? ==> !MayStart(e.before, e.op.call)
  }

  /** Steps i to j of a session, during which the program never gives up storage s. */
  ghost predicate Holding(log: seq<Entry>, i: nat, j: nat, s: nat) {
    && i <= j < |log| && s in log[i].before.w.live
    && forall k :: i <= k <= j ==> s !in Dies(log[k].op)
  }

  lemma StepKeepsHeld(config: Config, e: Entry, s: nat)
    requires EntryOK(config, e) && Stays(e) && s in e.before.w.live && s !in Dies(e.op)
    ensures s in e.after.w.live && s < |e.before.w.addr| && e.before.w.addr <= e.after.w.addr
    ensures e.before.w.addr[s] !in e.written
  {
    hide Chosen, StartsOver, Continues, Extended, Wrote, Performed;
  }

  /** Storage s stays alive at its address through steps i to j, and nothing writes there. */
  ghost predicate Untouched(log: seq<Entry>, i: nat, j: nat, s: nat)
    requires i <= j < |log|
  {
    && s in log[j].after.w.live
    && forall k :: i <= k <= j ==>
         && s in log[k].before.w.live && s < |log[i].before.w.addr| && s < |log[k].before.w.addr|
         && log[k].before.w.addr[s] == log[i].before.w.addr[s]
         && log[i].before.w.addr[s] !in log[k].written
  }

  /** As long as no new generation may start, a storage that the program holds stays alive at its address, and
      nothing ever writes there: not a replay, not a capture, not a warmup. */
  lemma {:induction false} HeldIsNeverOverwritten(config: Config, log: seq<Entry>, ops: seq<Op>, was: Moment,
                                                  now: Moment, i: nat, j: nat, s: nat)
    requires LogOK(config, log, ops, was, now) && Holding(log, i, j, s)
    requires forall k :: i <= k <= j ==> Stays(log[k])
    ensures Untouched(log, i, j, s)
    decreases j - i
  {
    hide EntryOK;
    if i < j {
      HeldIsNeverOverwritten(config, log, ops, was, now, i, j - 1, s);
      assert log[j].before == log[j - 1].after;
      StepKeepsHeld(config, log[j - 1], s);
    }
    StepKeepsHeld(config, log[j], s);
  }

  lemma StepKeepsGeneration(config: Config, e: Entry, g: int)
    requires EntryOK(config, e) && e.before.gen == g && (e.op.Invoke? ==> e.op.call.generation == g)
    ensures Stays(e) && e.after.gen == g
  {
    hide Chosen, StartsOver, Continues, Extended, Wrote, Performed;
  }

  /** Calls that all belong to one generation never start a new one. */
  lemma {:induction false} OneGeneration(config: Config, log: seq<Entry>, ops: seq<Op>, was: Moment, now: Moment,
                                         i: nat, j: nat)
    requires LogOK(config, log, ops, was, now) && i <= j < |log|
    requires forall k :: i <= k <= j && ops[k].Invoke? ==> ops[k].call.generation == log[i].before.gen
    ensures forall k :: i <= k <= j ==> Stays(log[k])
    ensures log[j].after.gen == log[i].before.gen
    decreases j - i
  {
    hide EntryOK, Stays;
    if i < j {
      OneGeneration(config, log, ops, was, now, i, j - 1);
      assert log[j].before == log[j - 1].after;
    }
    assert log[j].op == ops[j];
    StepKeepsGeneration(config, log[j], log[i].before.gen);
  }

  /** Replay safety over whole sessions: within one generation, whatever the program still holds is alive at
      its address, and no step writes there. */
  lemma WithinOneGeneration(config: Config, log: seq<Entry>, ops: seq<Op>, was: Moment, now: Moment,
                            i: nat, j: nat, s: nat)
    requires LogOK(config, log, ops, was, now) && Holding(log, i, j, s)
    requires forall k :: i <= k <= j && ops[k].Invoke? ==> ops[k].call.generation == log[i].before.gen
    ensures Untouched(log, i, j, s)
  {
    hide EntryOK, Stays, Untouched;
    OneGeneration(config, log, ops, was, now, i, j);
    HeldIsNeverOverwritten(config, log, ops, was, now, i, j, s);
  }

  // ----- generations and warmups, in terms of the log -----

  /** A call of the given mode that ended without an exception. */
  predicate Completed(e: Entry, mode: Mode) {
    e.op.Invoke? && e.op.call.mode == mode && e.outcome.Some? && !e.outcome.value.Raised?
  }

  /** Before step k a forward has completed whose backward has not. */
  ghost predicate Awaiting(log: seq<Entry>, k: nat)
    requires k <= |log|
  {
    exists f :: 0 <= f < k && Completed(log[f], FORWARD) && forall b :: f < b < k ==> !Completed(log[b], BACKWARD)
  }

  /** No backward has completed before step k. */
  ghost predicate NoBackwardYet(log: seq<Entry>, k: nat)
    requires k <= |log|
  {
    forall b :: 0 <= b < k ==> !Completed(log[b], BACKWARD)
  }

  /** Something ran in the pool. */
  predicate RanIn(e: Entry) {
    e.op.Invoke? && e.outcome.Some? && Ran(e.outcome.value)
  }

  /** Step i is the last one before step k that ran something in the pool. */
  ghost predicate LastRun(log: seq<Entry>, i: nat, k: nat)
    requires k <= |log|
  {
    i < k && RanIn(log[i]) && forall j :: i < j < k ==> !RanIn(log[j])
  }

  /** The moment before step k; the last one of the session when k is its length. */
  ghost function At(log: seq<Entry>, was: Moment, k: nat): Moment
    requires k <= |log|
  {
    if k == 0 then was else log[k - 1].after
  }

  /** What one step does to the generation, the pending flag and the set of warmed-up functions. */
  lemma StepCounts(config: Config, e: Entry)
    requires EntryOK(config, e)
    ensures e.after.pending ==
      (if Completed(e, FORWARD) then true else if Completed(e, BACKWARD) then false else e.before.pending)
    ensures e.after.gen == if RanIn(e) then e.op.call.generation else e.before.gen
    ensures e.after.warmed ==
      e.before.warmed + if e.op.Invoke? && e.outcome == Some(WarmedUp) then {e.op.call.func} else {}
  {
    hide Chosen, StartsOver, Continues, Extended, Wrote, Performed, Kept, Spared;
  }

  lemma AwaitingStep(log: seq<Entry>, k: nat)
    requires k < |log|
    ensures Awaiting(log, k + 1) <==>
      Completed(log[k], FORWARD) || (Awaiting(log, k) && !Completed(log[k], BACKWARD))
    ensures NoBackwardYet(log, k + 1) <==> NoBackwardYet(log, k) && !Completed(log[k], BACKWARD)
  {
    hide Completed;
    if Awaiting(log, k) && !Completed(log[k], BACKWARD) {
      var f :| 0 <= f < k && Completed(log[f], FORWARD) && forall b :: f < b < k ==> !Completed(log[b], BACKWARD);
      assert Completed(log[f], FORWARD) && forall b :: f < b < k + 1 ==> !Completed(log[b], BACKWARD);
    }
  }

  /** The pending flag says whether a forward awaits its backward. */
  lemma {:induction false} PendingIsAwaiting(config: Config, log: seq<Entry>, ops: seq<Op>, was: Moment, now: Moment,
                                             k: nat)
    requires LogOK(config, log, ops, was, now) && k <= |log|
    ensures At(log, was, k).pending <==> Awaiting(log, k) || (was.pending && NoBackwardYet(log, k))
  {
    hide EntryOK, Awaiting, NoBackwardYet, Completed;
    if k == 0 {
      NothingAwaits(log);
    } else {
      PendingIsAwaiting(config, log, ops, was, now, k - 1);
      assert log[k - 1].before == At(log, was, k - 1);
      StepCounts(config, log[k - 1]);
      AwaitingStep(log, k - 1);
      NotBoth(log[k - 1]);
    }
  }

  lemma NothingAwaits(log: seq<Entry>)
    ensures !Awaiting(log, 0) && NoBackwardYet(log, 0)
  {
  }

  lemma NotBoth(e: Entry)
    ensures !(Completed(e, FORWARD) && Completed(e, BACKWARD))
  {
  }

  /** The current generation is that of the last step that ran something in the pool. */
  lemma {:induction false} GenerationIsLastRun(config: Config, log: seq<Entry>, ops: seq<Op>, was: Moment,
                                               now: Moment, i: nat, k: nat)
    requires LogOK(config, log, ops, was, now) && k <= |log| && LastRun(log, i, k)
    ensures At(log, was, k).gen == log[i].op.call.generation
    decreases k
  {
    hide EntryOK, RanIn;
    StepCounts(config, log[k - 1]);
    if i < k - 1 {
      GenerationIsLastRun(config, log, ops, was, now, i, k - 1);
      assert log[k - 1].before == At(log, was, k - 1);
    } else {
      RanInCalls(log[i]);
    }
  }

  lemma RanInCalls(e: Entry)
    requires RanIn(e)
    ensures e.op.Invoke?
  {
  }

  /** Between a forward that has completed and the completion of the next backward, whatever the program
      holds stays alive, in place and unwritten, even when generations change, as long as no step is marked. */
  lemma ForwardIsProtected(config: Config, log: seq<Entry>, ops: seq<Op>, was: Moment, now: Moment,
                           f: nat, i: nat, j: nat, s: nat)
    requires LogOK(config, log, ops, was, now) && Holding(log, i, j, s)
    requires f < i && Completed(log[f], FORWARD) && forall b :: f < b < j ==> !Completed(log[b], BACKWARD)
    requires forall k :: i <= k <= j && ops[k].Invoke? ==> !ops[k].call.markedStep
    ensures Untouched(log, i, j, s)
  {
    hide EntryOK, Untouched, Completed;
    forall k | i <= k <= j ensures Stays(log[k]) {
      assert log[k].before == At(log, was, k) && log[k].op == ops[k];
      PendingIsAwaiting(config, log, ops, was, now, k);
      assert Awaiting(log, k);
    }
    HeldIsNeverOverwritten(config, log, ops, was, now, i, j, s);
  }

  /** A call in a generation other than that of the last step that ran starts a new path, if the step was marked
      or no forward awaits its backward; unless it replays below an execution. */
  lemma NewGenerationStartsOver(config: Config, log: seq<Entry>, ops: seq<Op>, was: Moment, now: Moment,
                                i: nat, k: nat)
    requires LogOK(config, log, ops, was, now) && k < |log| && LastRun(log, i, k) && RanIn(log[k])
    requires ops[k].call.generation != log[i].op.call.generation
    requires ops[k].call.markedStep || (!Awaiting(log, k) && !was.pending)
    requires log[k].before.state.EXECUTION? ==> log[k].outcome.value.Recorded?
    ensures Origin(log[k].after).NoNode?
  {
    hide LastRun, Awaiting, NoBackwardYet, Explained, Chosen, Settled, Origin;
    assert log[k].before == At(log, was, k) && log[k].op == ops[k];
    PendingIsAwaiting(config, log, ops, was, now, k);
    LastRunIs(log, i, k);
    GenerationIsLastRun(config, log, ops, was, now, i, k);
  }

  lemma LastRunIs(log: seq<Entry>, i: nat, k: nat)
    requires k <= |log| && LastRun(log, i, k)
    ensures i < |log| && log[i].op.Invoke?
  {
  }

  /** And only then: while anything is alive, a call in the same generation, or one that follows a forward
      awaiting its backward without a marked step, runs below the node that was current. */
  lemma PathContinues(config: Config, log: seq<Entry>, ops: seq<Op>, was: Moment, now: Moment, i: nat, k: nat)
    requires LogOK(config, log, ops, was, now) && k < |log| && LastRun(log, i, k) && RanIn(log[k])
    requires log[k].before.w.live != {}
    requires ops[k].call.generation == log[i].op.call.generation || (!ops[k].call.markedStep && Awaiting(log, k))
    ensures Origin(log[k].after) == log[k].before.current
  {
    hide LastRun, Awaiting, NoBackwardYet, Chosen, Settled, Origin, Extended, Wrote, Performed, Kept, Spared;
    assert log[k].before == At(log, was, k) && log[k].op == ops[k];
    PendingIsAwaiting(config, log, ops, was, now, k);
    LastRunIs(log, i, k);
    GenerationIsLastRun(config, log, ops, was, now, i, k);
  }

  /** Step i warmed function f up. */
  predicate Warmed(e: Entry, f: nat) {
    e.op.Invoke? && e.op.call.func == f && e.outcome == Some(WarmedUp)
  }

  lemma {:induction false} WarmedIsLogged(config: Config, log: seq<Entry>, ops: seq<Op>, was: Moment, now: Moment,
                                          k: nat, f: nat)
    requires LogOK(config, log, ops, was, now) && k <= |log|
    ensures f in At(log, was, k).warmed <==> f in was.warmed || exists i :: 0 <= i < k && Warmed(log[i], f)
  {
    hide EntryOK;
    if k > 0 {
      WarmedIsLogged(config, log, ops, was, now, k - 1, f);
      assert log[k - 1].before == At(log, was, k - 1);
      StepCounts(config, log[k - 1]);
    }
  }

  /** A function is recorded or replayed only if it was warmed up before, unless warmups are skipped; and never
      where warmups are forced.  Once it was, it warms up again only where they are forced, or below a warmup
      that cannot be left. */
  lemma WarmupComesFirst(config: Config, log: seq<Entry>, ops: seq<Op>, was: Moment, now: Moment, k: nat)
    requires LogOK(config, log, ops, was, now) && k < |log| && RanIn(log[k])
    ensures var f := log[k].op.call.func;
      var warmed := f in was.warmed || exists i :: 0 <= i < k && Warmed(log[i], f);
      && (log[k].outcome.value.Replayed? || log[k].outcome.value.Recorded? ==>
            (warmed || config.skipWarmup) && !config.forceWarmup)
      && (log[k].outcome.value.WarmedUp? ==>
            || !(warmed || config.skipWarmup) || config.forceWarmup
            || (log[k].before.state.WARMUP? && log[k].before.w.live != {}))
  {
    hide Explained, StartsOver;
    assert log[k].before == At(log, was, k);
    WarmedIsLogged(config, log, ops, was, now, k, log[k].op.call.func);
    ChosenWarms(config, log[k].before, log[k].op.call, log[k].outcome.value);
  }

  lemma ChosenWarms(config: Config, m: Moment, call: Call, outcome: Outcome)
    requires Chosen(config, Settled(m, call), call, outcome)
    ensures outcome.Replayed? || outcome.Recorded? ==> ReadyFor(config, m.warmed, call.func)
    ensures outcome.WarmedUp? ==>
      !ReadyFor(config, m.warmed, call.func) || (m.state.WARMUP? && m.w.live != {})
  {
  }

  /** apply_checkpoint_execution_state_in_allocator on values: the new pool and caches. */
  method CheckpointStep(w: World, c: nat, state: ExecutionState, warm: seq<WarmNode>, roots: Dict,
                        children: seq<Dict>, unaliased: seq<seq<bool>>, cached: seq<seq<bool>>)
    returns (w': World, cached': seq<seq<bool>>)
    requires MgrOK(w, Graph(c), state, warm, roots, children, unaliased, cached, false)
    ensures MgrOK(w', Graph(c), state, warm, roots, children, unaliased, cached', true)
    ensures LiveOK(w) && w' == w.(pool := OnDevice(Addrs(w)))
    ensures |cached'| == |cached| && forall d :: 0 <= d < |cached| ==>
      cached'[d] == if d in Path(w.nodes, Some(c)) then [] else cached[d]
  {
    CheckpointStepOK(w, c, state, warm, roots, children, unaliased, cached);
    cached' := ClearOn(cached, Path(w.nodes, Some(c)));
    var dead := DeadPtrs(w, Some(c));
    assert dead <= w.nodes[c].checkpoint;  // raw_delete never fails
    hide BooksOK, Inv;
    w' := w.(pool := w.nodes[c].checkpoint - dead);
  }

  /** live_npugraph_managed_path_refs */
  method InputRefs(w: World, p: seq<nat>, inputs: seq<Option<Addr>>) returns (refs: seq<Option<Idx>>)
    requires forall d :: 0 <= d < |p| ==> p[d] < |w.refs|
    ensures |refs| == |inputs|
    ensures forall m :: 0 <= m < |inputs| ==>
      if inputs[m].Some? then FirstAlias(w, p, inputs[m].value, refs[m]) else refs[m].None?
  {
    refs := [];
    for m := 0 to |inputs|
      invariant |refs| == m
      invariant forall j :: 0 <= j < m ==>
        if inputs[j].Some? then FirstAlias(w, p, inputs[j].value, refs[j]) else refs[j].None?
    {
      if inputs[m].Some? {
        var r := FindLiveAlias(w, p, inputs[m].value);
        refs := refs + [r];
      } else {
        refs := refs + [None];
      }
    }
  }

  /** What the constructor of NPUGraphNode observes while capturing k. */
  method Observe(w: World, cur: Option<nat>, inputs: seq<Option<Addr>>, k: Capture)
    returns (alias: seq<Alias>, own: seq<bool>, marked: set<Idx>, preserved: set<nat>)
    requires Inv(w, cur, {}) && w.pool == OnDevice(Addrs(w))
    requires CaptureOK(w, inputs, k) && !k.cpuOutputs && NoneRefused(k.outputs)
    ensures RecordOK(w, cur, inputs, k, alias, preserved)
    ensures |own| == |alias| && forall i: nat :: i < |own| ==> (own[i] <==> OwnUnaliased(alias, i))
    ensures forall x :: x in marked <==> Prior(x) in alias
  {
    var p := Path(w.nodes, cur);
    var inputRefs := InputRefs(w, p, inputs);
    var ok;
    ok, alias, own, marked, preserved :=
      ClassifyOutputs(Kill(w, k.dies), p, k.statics, k.cpuOutputs, k.outputs, inputRefs);
    SamePreserved(w, p, inputs, inputRefs, alias, preserved);
  }

  /** record_function on values. */
  method RecordStep(w: World, current: Current, state: ExecutionState, warm: seq<WarmNode>, roots: Dict,
                    children: seq<Dict>, unaliased: seq<seq<bool>>, cached: seq<seq<bool>>, call: Call)
    returns (w': World, roots': Dict, children': seq<Dict>, unaliased': seq<seq<bool>>, cached': seq<seq<bool>>,
             written: set<Addr>)
    requires MgrOK(w, current, state, warm, roots, children, unaliased, cached, true) && !current.Warm?
    requires Behaves(call)
    ensures MgrOK(w', Graph(|w.nodes|), RECORDING, warm, roots', children', unaliased', cached', true)
    ensures RecordedOne(w, w', Base(warm, |w.nodes|, current), call.func)
    ensures RecordedAs(w, w', Base(warm, |w.nodes|, current), call)
    ensures written == w'.nodes[|w.nodes|].writes == call.capture(w).writes
    ensures Spared(w, w', written) && Kept(w, w', call.dies, written)
  {
    var cur, k := Base(warm, |w.nodes|, current), call.capture(w);
    assert CapturesWell(w, call);
    var alias, own, marked, preserved := Observe(w, cur, call.inputs, k);
    var n := NewNode(w, cur, call.func, call.inputs, k, alias, preserved);
    RecordShape(w, cur, call.func, call.inputs, k, alias, preserved);
    RecordSpares(w, cur, call.func, call.inputs, k, alias, preserved);
    RecordStepOK(w, current, state, warm, roots, children, unaliased, cached,
                 call.func, call.inputs, k, alias, preserved, own, marked);
    var id := |w.nodes|;
    written := n.writes;
    children' := (if cur.None? then children
                  else children[cur.value := Append(children[cur.value], call.func, id)]) + [[]];
    roots' := if cur.None? then Append(roots, call.func, id) else roots;
    unaliased', cached' := Unmark(unaliased, Path(w.nodes, cur), marked) + [own], cached + [[]];
    w' := Record(w, n, k);
  }

  /** execute_node on values. */
  method ExecuteStep(w: World, current: Current, state: ExecutionState, warm: seq<WarmNode>, roots: Dict,
                     children: seq<Dict>, unaliased: seq<seq<bool>>, cached: seq<seq<bool>>, c: nat)
    returns (w': World, cached': seq<seq<bool>>, written: set<Addr>)
    requires MgrOK(w, current, state, warm, roots, children, unaliased, cached, false) && !current.Warm?
    requires c < |w.nodes| && w.nodes[c].parent == Base(warm, |w.nodes|, current) && Replayable(w, c)
    ensures MgrOK(w', Graph(c), EXECUTION, warm, roots, children, unaliased, cached', false)
    ensures w' == Incarnate(w, c)
    ensures |cached| == |unaliased| == |w.nodes|
    ensures cached' == cached[c := if cached[c] == [] then unaliased[c] else cached[c]]
    ensures written == w.nodes[c].writes && written !! Addrs(w)
    ensures Spared(w, w', written) && Kept(w, w', {}, written)
  {
    ExecuteOK(w, current, state, warm, c);
    var outs, refs, row := ReconstructOutputs(w, c, cached[c], unaliased[c]);
    ExecuteStepOK(w, current, state, warm, roots, children, unaliased, cached, c, row);
    written := w.nodes[c].writes;
    cached' := cached[c := row];
    w' := Incarnate(w, c);
  }

  /** The storage of one output of a warmup: at the address of a live storage it is that storage. */
  method PlaceOutput(w: World, base: Option<nat>, extra: set<nat>, output: Option<Addr>)
    returns (out: Option<nat>, v: World)
    requires Inv(w, base, extra)
    ensures Inv(v, base, extra + OutSet([out]))
    ensures PlacedOne(v, out, output)
    ensures Grown(w, v)
  {
    out, v := None, w;
    if output.Some? {
      var a := output.value;
      if a in Addrs(w) {
        var s :| s in w.live && w.addr[s] == a;
        out := Some(s);
      } else {
        AddStorage(w, base, extra, a);
        out := Some(|w.addr|);
        v := w.(addr := w.addr + [a], live := w.live + {|w.addr|});
      }
    }
    ExtraGrows(v, base, if v == w then extra else extra + {|w.addr|}, extra + OutSet([out]));
  }

  /** Only new storages were added. */
  ghost predicate Grown(w: World, v: World) {
    && v.nodes == w.nodes && v.refs == w.refs && w.addr <= v.addr && w.live <= v.live
    && forall s :: s in v.live && s < |w.addr| ==> s in w.live
  }

  /** Every output is a live storage at its address. */
  ghost predicate Placed(v: World, outs: seq<Option<nat>>, outputs: seq<Option<Addr>>) {
    |outs| == |outputs| && forall i :: 0 <= i < |outs| ==> PlacedOne(v, outs[i], outputs[i])
  }

  ghost predicate PlacedOne(v: World, out: Option<nat>, output: Option<Addr>) {
    && (out.Some? <==> output.Some?)
    && (out.Some? ==> out.value in v.live && out.value < |v.addr| && v.addr[out.value] == output.value)
  }

  lemma PlacedMore(u: World, v: World, outs: seq<Option<nat>>, o: Option<nat>, outputs: seq<Option<Addr>>)
    requires |outs| < |outputs| && Placed(u, outs, outputs[..|outs|]) && Grown(u, v)
    requires PlacedOne(v, o, outputs[|outs|])
    ensures Placed(v, outs + [o], outputs[..|outs| + 1])
  {
    forall i | 0 <= i < |outs| ensures PlacedOne(v, outs[i], outputs[i]) {
      assert PlacedOne(u, outs[i], outputs[..|outs|][i]);
    }
  }

  /** The storages of a warmup's outputs. */
  method PlaceOutputs(w: World, base: Option<nat>, chain: set<nat>, outputs: seq<Option<Addr>>)
    returns (outs: seq<Option<nat>>, v: World)
    requires Inv(w, base, chain)
    ensures Inv(v, base, chain + OutSet(outs)) && Grown(w, v)
    ensures Placed(v, outs, outputs)
  {
    outs, v := [], w;
    assert OutSet([]) == {} && chain + {} == chain;
    for i := 0 to |outputs|
      invariant Inv(v, base, chain + OutSet(outs)) && Grown(w, v) && |outs| == i && Placed(v, outs, outputs[..i])
    {
      hide Inv, Placed;
      var o;
      ghost var u := v;
      o, v := PlaceOutput(v, base, chain + OutSet(outs), outputs[i]);
      PlacedMore(u, v, outs, o, outputs);
      assert chain + OutSet(outs + [o]) == chain + OutSet(outs) + OutSet([o]);
      outs := outs + [o];
    }
    assert outputs[..|outputs|] == outputs;
  }

  /** run_eager on values. */
  method EagerStep(w: World, current: Current, state: ExecutionState, warm: seq<WarmNode>, roots: Dict,
                   children: seq<Dict>, unaliased: seq<seq<bool>>, cached: seq<seq<bool>>, call: Call)
    returns (w': World, warm': seq<WarmNode>, written: set<Addr>)
    requires MgrOK(w, current, state, warm, roots, children, unaliased, cached, true) && Behaves(call)
    ensures MgrOK(w', Warm(|warm|), WARMUP, warm', roots, children, unaliased, cached, true)
    ensures w'.nodes == w.nodes && Spared(w, w', written) && Kept(w, w', call.dies, written)
    ensures |warm'| == |warm| + 1 && warm'[..|warm|] == warm
    ensures warm'[|warm|].parent == current && warm'[|warm|].writes == written == call.eager(w).writes
    ensures Placed(w', warm'[|warm|].outputs, call.eager(w).outputs)
    ensures forall s :: 0 <= s < |w.addr| ==> (s in w'.live <==> s in w.live && s !in call.eager(w).dies)
  {
    var r := call.eager(w);
    assert RunsWell(w, call);
    var base, chain := Base(warm, |w.nodes|, current), Chain(warm, |w.nodes|, current);
    KillKeepsInv(w, base, chain, r.dies);
    var outs, v := PlaceOutputs(Kill(w, r.dies), base, chain, r.outputs);
    written := r.writes;
    EagerSpares(w, r, v);
    EagerStepOK(w, v, current, state, warm, outs, written, roots, children, unaliased, cached);
    w', warm' := v.(pool := OnDevice(Addrs(v))), warm + [WarmNode(current, outs, written)];
  }

  lemma EagerSpares(w: World, r: EagerRun, v: World)
    requires LiveOK(w) && w.pool == OnDevice(Addrs(w)) && EagerOK(w, r) && Grown(Kill(w, r.dies), v)
    ensures Spared(w, v, r.writes) && Kept(w, v, r.dies, r.writes)
  {
    KilledAddrs(w, r.dies);
    forall s | s in w.live && s !in r.dies ensures w.addr[s] !in r.writes {
      assert w.addr[s] in Addrs(Kill(w, r.dies));
      assert w.addr[s].Device? ==> w.addr[s] in OnDevice(Addrs(Kill(w, r.dies)));
    }
  }
}
