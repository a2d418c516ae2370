/** subtract_graph of torch_npu/_inductor/lowering_fx.py: what is left of a graph when another one becomes
    an input of it. */
module Subtraction {
  import opened Basics
  import opened TracedGraphs

  function NameSet(nodes: seq<Node>): set<string> {
    set x | x in nodes :: x.name
  }

  ghost predicate Named(g: Traced, n: string) {
    Has(g.nodes, n)
  }

  /** The name of the placeholder that stands for graph2, if there is one. */
  ghost function Stand(g1: Traced, g2: Traced, nodeName: Option<string>): Option<string> {
    match nodeName
    case None => Some(g2.last)
    case Some(n) => if Named(g1, n) then None else Some(n)
  }

  /** A node of graph1 that stays. */
  ghost predicate Kept(g1: Traced, g2: Traced, n: string) {
    Named(g1, n) && (Named(g2, n) ==> n in g1.syms)
  }

  /** What remains can speak of n: n stays, or is what the placeholder stands for. */
  ghost predicate Reachable(g1: Traced, g2: Traced, nodeName: Option<string>, n: string) {
    Kept(g1, g2, n) || (Stand(g1, g2, nodeName).Some? && n == g2.last)
  }

  /** Node i is removed, or refers to reachable names only. */
  ghost predicate RefsReachable(g1: Traced, g2: Traced, nodeName: Option<string>, i: nat)
    requires i < |g1.nodes|
  {
    Kept(g1, g2, g1.nodes[i].name) ==> forall n :: n in NodeRefs(g1.nodes[i]) ==> Reachable(g1, g2, nodeName, n)
  }

  /** What is left refers to graph2 only through its last node or symbolic sizes. */
  ghost predicate Separable(g1: Traced, g2: Traced, nodeName: Option<string>) {
    && (forall i :: 0 <= i < |g1.nodes| ==> RefsReachable(g1, g2, nodeName, i))
    && Reachable(g1, g2, nodeName, g1.last)
  }

  /** The new name of a reachable name. */
  ghost function NewName(g1: Traced, g2: Traced, nodeName: Option<string>, n: string): string
    requires Reachable(g1, g2, nodeName, n)
  {
    if Kept(g1, g2, n) then n else Stand(g1, g2, nodeName).value
  }

  /** exist_nodes after the first k nodes of graph1. */
  ghost predicate Exist(g1: Traced, g2: Traced, nodeName: Option<string>, k: nat, exist: map<string, string>)
    requires k <= |g1.nodes|
  {
    && (forall n :: n in exist <==>
          (Defined(g1.nodes, k, n) && Kept(g1, g2, n)) || (Stand(g1, g2, nodeName).Some? && n == g2.last))
    && (forall n :: n in exist && Defined(g1.nodes, k, n) && Kept(g1, g2, n) ==> exist[n] == n)
    && (forall n :: n in exist && !(Defined(g1.nodes, k, n) && Kept(g1, g2, n)) ==>
          Stand(g1, g2, nodeName) == Some(exist[n]))
  }

  /** exist_nodes as the loop builds it. */
  ghost function ExistAfter(g1: Traced, g2: Traced, nodeName: Option<string>, k: nat): map<string, string>
    requires k <= |g1.nodes|
  {
    if k == 0 then
      if Stand(g1, g2, nodeName).Some? then map[g2.last := Stand(g1, g2, nodeName).value] else map[]
    else
      var n, before := g1.nodes[k - 1].name, ExistAfter(g1, g2, nodeName, k - 1);
      if Kept(g1, g2, n) then before[n := n] else before
  }

  lemma {:induction false} ExistAfterIs(g1: Traced, g2: Traced, nodeName: Option<string>, k: nat)
    requires k <= |g1.nodes|
    ensures Exist(g1, g2, nodeName, k, ExistAfter(g1, g2, nodeName, k))
  {
    if k > 0 {
      ExistAfterIs(g1, g2, nodeName, k - 1);
      ExistNext(g1, g2, nodeName, k - 1, ExistAfter(g1, g2, nodeName, k - 1));
    }
  }

  /** The copy of a kept node, its arguments renamed. */
  ghost function Renaming(g1: Traced, g2: Traced, nodeName: Option<string>): map<string, string> {
    map n | n in Speakable(g1, g2) && Reachable(g1, g2, nodeName, n) :: NewName(g1, g2, nodeName, n)
  }

  ghost function Speakable(g1: Traced, g2: Traced): set<string> {
    NameSet(g1.nodes) + {g2.last}
  }

  /** The nodes left of the first k of graph1, after the placeholder. */
  ghost function Remaining(g1: Traced, g2: Traced, nodeName: Option<string>, k: nat): seq<Node>
    requires k <= |g1.nodes|
  {
    if k == 0 then
      if Stand(g1, g2, nodeName).Some? then [Placeholder(Stand(g1, g2, nodeName).value)] else []
    else if Kept(g1, g2, g1.nodes[k - 1].name) then
      Remaining(g1, g2, nodeName, k - 1) + [CopyOf(g1.nodes[k - 1], Renaming(g1, g2, nodeName))]
    else
      Remaining(g1, g2, nodeName, k - 1)
  }

  ghost function Difference(g1: Traced, g2: Traced, nodeName: Option<string>): Traced
    requires Reachable(g1, g2, nodeName, g1.last)
  {
    Traced(Remaining(g1, g2, nodeName, |g1.nodes|), NewName(g1, g2, nodeName, g1.last), g1.syms)
  }

  /** Renaming depends only on where the references lead. */
  lemma {:induction false} SameRename(a: Arg, e: map<string, string>, f: map<string, string>)
    requires forall n :: n in Refs(a) ==> n in e && n in f && e[n] == f[n]
    ensures Rename(a, e) == Rename(a, f)
  {
    if a.Tuple? {
      forall i | 0 <= i < |a.items| ensures Rename(a.items[i], e) == Rename(a.items[i], f) {
        SameRename(a.items[i], e, f);
      }
    }
  }

  lemma KnownRefs(g1: Traced, g2: Traced, nodeName: Option<string>, k: nat, exist: map<string, string>)
    requires GraphOK(g1.nodes) && k < |g1.nodes| && Exist(g1, g2, nodeName, k, exist)
    requires forall n :: n in NodeRefs(g1.nodes[k]) ==> Reachable(g1, g2, nodeName, n)
    ensures forall n :: n in NodeRefs(g1.nodes[k]) ==>
      n in exist && n in Renaming(g1, g2, nodeName) && exist[n] == Renaming(g1, g2, nodeName)[n]
  {
    forall n | n in NodeRefs(g1.nodes[k])
      ensures n in exist && n in Renaming(g1, g2, nodeName) && exist[n] == Renaming(g1, g2, nodeName)[n]
    {
      assert Defined(g1.nodes, k, n);
      var j :| 0 <= j < k && g1.nodes[j].name == n;
      assert g1.nodes[j] in g1.nodes && n in Speakable(g1, g2);
      assert Reachable(g1, g2, nodeName, n);
    }
  }

  /** A reference is found in exist_nodes exactly when it is reachable. */
  lemma FoundIsReachable(g1: Traced, g2: Traced, nodeName: Option<string>, k: nat, exist: map<string, string>)
    requires GraphOK(g1.nodes) && k < |g1.nodes| && Exist(g1, g2, nodeName, k, exist)
    ensures NodeRefs(g1.nodes[k]) <= exist.Keys <==>
      forall n :: n in NodeRefs(g1.nodes[k]) ==> Reachable(g1, g2, nodeName, n)
  {
    forall n | n in NodeRefs(g1.nodes[k]) ensures n in exist <==> Reachable(g1, g2, nodeName, n) {
      assert Defined(g1.nodes, k, n);
    }
  }

  lemma ExistNext(g1: Traced, g2: Traced, nodeName: Option<string>, k: nat, exist: map<string, string>)
    requires k < |g1.nodes| && Exist(g1, g2, nodeName, k, exist)
    ensures var n := g1.nodes[k].name;
      Exist(g1, g2, nodeName, k + 1, if Kept(g1, g2, n) then exist[n := n] else exist)
  {
    forall n ensures Defined(g1.nodes, k + 1, n) <==> Defined(g1.nodes, k, n) || n == g1.nodes[k].name {}
  }

  /** One turn of the loop over graph1: the node is skipped or copied; a reference that exist_nodes does
      not know raises KeyError, reported by `ok`. */
  method CopyKept(g1: Traced, g2: Traced, ghost nodeName: Option<string>, k: nat, names2: set<string>,
                  nodes: seq<Node>, exist: map<string, string>)
    returns (ok: bool, nodes': seq<Node>, exist': map<string, string>)
    requires TracedOK(g1) && k < |g1.nodes| && names2 == NameSet(g2.nodes)
    requires nodes == Remaining(g1, g2, nodeName, k) && exist == ExistAfter(g1, g2, nodeName, k)
    ensures ok <==> RefsReachable(g1, g2, nodeName, k)
    ensures ok ==> nodes' == Remaining(g1, g2, nodeName, k + 1) && exist' == ExistAfter(g1, g2, nodeName, k + 1)
  {
    ok, nodes', exist' := true, nodes, exist;
    var node := g1.nodes[k];
    ExistAfterIs(g1, g2, nodeName, k);
    NamesAre(g2.nodes);
    assert Named(g1, node.name);
    if !(node.name in names2 && node.name !in g1.syms) {
      FoundIsReachable(g1, g2, nodeName, k, exist);
      if NodeRefs(node) <= exist.Keys {
        KnownRefs(g1, g2, nodeName, k, exist);
        if node.Call? {
          SameRename(node.args, exist, Renaming(g1, g2, nodeName));
        }
        nodes' := nodes + [CopyOf(node, exist)];
        exist' := exist[node.name := node.name];
      } else {
        ok := false;
      }
    }
  }

  /** The placeholder for graph2, if node_name is not a node of graph1. */
  method PlaceStand(g1: Traced, g2: Traced, nodeName: Option<string>, names1: set<string>)
    returns (nodes: seq<Node>, exist: map<string, string>, placeholder: Option<string>)
    requires names1 == NameSet(g1.nodes)
    ensures nodes == Remaining(g1, g2, nodeName, 0) && exist == ExistAfter(g1, g2, nodeName, 0)
    ensures placeholder == Stand(g1, g2, nodeName)
  {
    nodes, exist, placeholder := [], map[], None;
    NamesAre(g1.nodes);
    if nodeName.None? || nodeName.value !in names1 {
      var name := if nodeName.None? then g2.last else nodeName.value;
      placeholder := Some(name);
      nodes := [Placeholder(name)];
      exist := map[g2.last := name];
    }
  }

  lemma LastFound(g1: Traced, g2: Traced, nodeName: Option<string>, exist: map<string, string>)
    requires TracedOK(g1) && Exist(g1, g2, nodeName, |g1.nodes|, exist)
    ensures g1.last in exist <==> Reachable(g1, g2, nodeName, g1.last)
    ensures g1.last in exist ==> exist[g1.last] == NewName(g1, g2, nodeName, g1.last)
  {
    assert Defined(g1.nodes, |g1.nodes|, g1.last);
  }

  /** The loop over graph1. */
  method CopyAll(g1: Traced, g2: Traced, ghost nodeName: Option<string>, names2: set<string>,
                 placed: seq<Node>, stands: map<string, string>)
    returns (ok: bool, nodes: seq<Node>, exist: map<string, string>)
    requires TracedOK(g1) && names2 == NameSet(g2.nodes)
    requires placed == Remaining(g1, g2, nodeName, 0) && stands == ExistAfter(g1, g2, nodeName, 0)
    ensures ok <==> forall i :: 0 <= i < |g1.nodes| ==> RefsReachable(g1, g2, nodeName, i)
    ensures ok ==> nodes == Remaining(g1, g2, nodeName, |g1.nodes|) && exist == ExistAfter(g1, g2, nodeName, |g1.nodes|)
  {
    ok, nodes, exist := true, placed, stands;
    for k := 0 to |g1.nodes|
      invariant ok && nodes == Remaining(g1, g2, nodeName, k) && exist == ExistAfter(g1, g2, nodeName, k)
      invariant forall i :: 0 <= i < k ==> RefsReachable(g1, g2, nodeName, i)
    {
      ok, nodes, exist := CopyKept(g1, g2, nodeName, k, names2, nodes, exist);
      if !ok {
        return;
      }
    }
  }

  /** subtract_graph; None stands for the KeyError raised when a kept node refers to a removed one. */
  method SubtractGraph(g1: Traced, g2: Traced, nodeName: Option<string>) returns (r: Option<(Traced, Option<string>)>)
    requires TracedOK(g1) && TracedOK(g2)
    ensures r.Some? <==> Separable(g1, g2, nodeName)
    ensures r.Some? ==> r.value == (Difference(g1, g2, nodeName), Stand(g1, g2, nodeName))
    ensures r.Some? && nodeName.None? ==> r.value.1 == Some(g2.last)
    ensures r.Some? && nodeName.Some? ==> r.value.1 == if Has(g1.nodes, nodeName.value) then None else nodeName
  {
    var nodes, exist, placeholder := PlaceStand(g1, g2, nodeName, NameSet(g1.nodes));
    var ok;
    ok, nodes, exist := CopyAll(g1, g2, nodeName, NameSet(g2.nodes), nodes, exist);
    if !ok {
      return None;
    }
    ExistAfterIs(g1, g2, nodeName, |g1.nodes|);
    LastFound(g1, g2, nodeName, exist);
    if g1.last !in exist {
      return None;
    }
    return Some((Traced(nodes, exist[g1.last], g1.syms), placeholder));
  }

  lemma NamesAre(nodes: seq<Node>)
    ensures forall n :: n in NameSet(nodes) <==> Has(nodes, n)
  {
    forall n | Has(nodes, n) ensures n in NameSet(nodes) {
      var i :| 0 <= i < |nodes| && nodes[i].name == n;
      assert nodes[i] in nodes;
    }
  }

  // ----- meaning -----

  /** The same interpretation with one placeholder bound to a given value. */
  function Bind<V>(m: Meaning<V>, n: string, v: V): Meaning<V> {
    m.(input := x => if x == n then v else m.input(x))
  }

  /** The environment the remaining graph should compute: kept nodes as in graph1, the placeholder as
      graph2's result. */
  ghost predicate Carries<V>(env: map<string, V>, g1: Traced, g2: Traced, nodeName: Option<string>, m: Meaning<V>) {
    && (forall n :: Kept(g1, g2, n) ==> n in env && n in Run(g1.nodes, m) && env[n] == Run(g1.nodes, m)[n])
    && (var s := Stand(g1, g2, nodeName);
        s.Some? ==> s.value in env && g2.last in Run(g2.nodes, m) && env[s.value] == Run(g2.nodes, m)[g2.last])
  }

  lemma {:induction false} RenamedValue<V>(a: Arg, ren: map<string, string>, e: map<string, V>, f: map<string, V>)
    requires forall n :: n in Refs(a) ==> n in ren && ren[n] in e && n in f && e[ren[n]] == f[n]
    ensures ArgValue(Rename(a, ren), e) == ArgValue(a, f)
  {
    if a.Tuple? {
      forall i | 0 <= i < |a.items| ensures ArgValue(Rename(a.items[i], ren), e) == ArgValue(a.items[i], f) {
        RenamedValue(a.items[i], ren, e, f);
      }
    }
  }

  /** The placeholder's name is not that of a kept node. */
  ghost predicate Apart(g1: Traced, g2: Traced, nodeName: Option<string>) {
    nodeName.None? ==> g2.last !in g1.syms
  }

  lemma StandIsNew(g1: Traced, g2: Traced, nodeName: Option<string>)
    requires TracedOK(g2) && Apart(g1, g2, nodeName)
    ensures var s := Stand(g1, g2, nodeName); s.Some? ==> !Kept(g1, g2, s.value)
  {
  }

  /** Every reference of a kept node leads to the value it had. */
  lemma RefsCarry<V>(g1: Traced, g2: Traced, nodeName: Option<string>, i: nat, env: map<string, V>, m: Meaning<V>)
    requires TracedOK(g1) && TracedOK(g2) && Agree(g1.nodes, g2.nodes) && Separable(g1, g2, nodeName)
    requires i < |g1.nodes| && Kept(g1, g2, g1.nodes[i].name) && Carries(env, g1, g2, nodeName, m)
    ensures var ren, f := Renaming(g1, g2, nodeName), Run(g1.nodes, m);
      forall n :: n in NodeRefs(g1.nodes[i]) ==> n in ren && ren[n] in env && n in f && env[ren[n]] == f[n]
  {
    var ren, f := Renaming(g1, g2, nodeName), Run(g1.nodes, m);
    forall n | n in NodeRefs(g1.nodes[i]) ensures n in ren && ren[n] in env && n in f && env[ren[n]] == f[n] {
      assert RefsReachable(g1, g2, nodeName, i);
      assert Defined(g1.nodes, i, n);
      var j :| 0 <= j < i && g1.nodes[j].name == n;
      assert g1.nodes[j] in g1.nodes && n in Speakable(g1, g2);
      if !Kept(g1, g2, n) {
        assert Has(g1.nodes, n);
        SharedByName(g1.nodes, g2.nodes, n, m);
      }
    }
  }

  /** The equation of a kept node's copy. */
  lemma CopySolved<V>(g1: Traced, g2: Traced, nodeName: Option<string>, i: nat, env: map<string, V>, m: Meaning<V>,
                      m': Meaning<V>)
    requires TracedOK(g1) && TracedOK(g2) && Agree(g1.nodes, g2.nodes) && Separable(g1, g2, nodeName)
    requires Apart(g1, g2, nodeName) && i < |g1.nodes| && Kept(g1, g2, g1.nodes[i].name)
    requires Carries(env, g1, g2, nodeName, m)
    requires m'.apply == m.apply && forall n :: Kept(g1, g2, n) ==> m'.input(n) == m.input(n)
    ensures var x := CopyOf(g1.nodes[i], Renaming(g1, g2, nodeName));
      x.name == g1.nodes[i].name && x.name in env && env[x.name] == NodeValue(x, env, m')
  {
    var x, f := g1.nodes[i], Run(g1.nodes, m);
    EvalSolves(g1.nodes, |g1.nodes|, m);
    if x.Call? {
      RefsCarry(g1, g2, nodeName, i, env, m);
      RenamedValue(x.args, Renaming(g1, g2, nodeName), env, f);
    }
  }

  /** Where the remaining nodes come from. */
  lemma {:induction false} RemainingNodes(g1: Traced, g2: Traced, nodeName: Option<string>, k: nat, j: nat)
    requires k <= |g1.nodes| && j < |Remaining(g1, g2, nodeName, k)|
    ensures var x := Remaining(g1, g2, nodeName, k)[j];
      (Stand(g1, g2, nodeName).Some? && j == 0 && x == Placeholder(Stand(g1, g2, nodeName).value)) ||
      exists i :: 0 <= i < k && Kept(g1, g2, g1.nodes[i].name) && x == CopyOf(g1.nodes[i], Renaming(g1, g2, nodeName))
  {
    if k > 0 {
      var before := Remaining(g1, g2, nodeName, k - 1);
      if j < |before| {
        RemainingNodes(g1, g2, nodeName, k - 1, j);
      }
    }
  }

  lemma {:induction false} RemainingHas(g1: Traced, g2: Traced, nodeName: Option<string>, k: nat)
    requires k <= |g1.nodes|
    ensures forall n :: Has(Remaining(g1, g2, nodeName, k), n) <==>
      (Defined(g1.nodes, k, n) && Kept(g1, g2, n)) || Stand(g1, g2, nodeName) == Some(n)
  {
    if k == 0 {
      var s, r := Stand(g1, g2, nodeName), Remaining(g1, g2, nodeName, 0);
      if s.Some? {
        assert r[0].name == s.value;
      }
    } else {
      RemainingHas(g1, g2, nodeName, k - 1);
      var before, x := Remaining(g1, g2, nodeName, k - 1), g1.nodes[k - 1];
      forall n ensures Defined(g1.nodes, k, n) <==> Defined(g1.nodes, k - 1, n) || n == x.name {}
      if Kept(g1, g2, x.name) {
        HasSnoc(before, CopyOf(x, Renaming(g1, g2, nodeName)));
      }
    }
  }

  lemma {:induction false} RenamedRefs(a: Arg, ren: map<string, string>, n: string)
    requires n in Refs(Rename(a, ren)) && (forall r :: r in Refs(a) ==> r in ren)
    ensures exists r :: r in Refs(a) && ren[r] == n
  {
    match a
    case Ref(r) =>
    case Lit(_) =>
    case Tuple(items) =>
      var i :| 0 <= i < |items| && n in Refs(Rename(items[i], ren));
      RenamedRefs(items[i], ren, n);
  }

  lemma CopyRefs(g1: Traced, g2: Traced, nodeName: Option<string>, k: nat, n: string)
    requires TracedOK(g1) && Separable(g1, g2, nodeName) && k < |g1.nodes| && Kept(g1, g2, g1.nodes[k].name)
    requires n in NodeRefs(CopyOf(g1.nodes[k], Renaming(g1, g2, nodeName)))
    ensures Has(Remaining(g1, g2, nodeName, k), n)
  {
    var x, ren := g1.nodes[k], Renaming(g1, g2, nodeName);
    assert RefsReachable(g1, g2, nodeName, k);
    forall r | r in NodeRefs(x) ensures r in ren && Reachable(g1, g2, nodeName, r) && Defined(g1.nodes, k, r) {
      assert Defined(g1.nodes, k, r);
      var j :| 0 <= j < k && g1.nodes[j].name == r;
      assert g1.nodes[j] in g1.nodes && r in Speakable(g1, g2);
    }
    RenamedRefs(x.args, ren, n);
    RemainingHas(g1, g2, nodeName, k);
  }

  lemma NotYetThere(g1: Traced, g2: Traced, nodeName: Option<string>, k: nat)
    requires TracedOK(g1) && TracedOK(g2) && Apart(g1, g2, nodeName) && k < |g1.nodes| && Kept(g1, g2, g1.nodes[k].name)
    ensures !Has(Remaining(g1, g2, nodeName, k), g1.nodes[k].name)
  {
    StandIsNew(g1, g2, nodeName);
    RemainingHas(g1, g2, nodeName, k);
  }

  lemma {:induction false} RemainingOK(g1: Traced, g2: Traced, nodeName: Option<string>, k: nat)
    requires TracedOK(g1) && TracedOK(g2) && Separable(g1, g2, nodeName) && Apart(g1, g2, nodeName) && k <= |g1.nodes|
    ensures GraphOK(Remaining(g1, g2, nodeName, k))
  {
    if k > 0 {
      RemainingOK(g1, g2, nodeName, k - 1);
      var x, ren := g1.nodes[k - 1], Renaming(g1, g2, nodeName);
      if Kept(g1, g2, x.name) {
        NotYetThere(g1, g2, nodeName, k - 1);
        forall n | n in NodeRefs(CopyOf(x, ren)) ensures Has(Remaining(g1, g2, nodeName, k - 1), n) {
          CopyRefs(g1, g2, nodeName, k - 1, n);
        }
        SnocOK(Remaining(g1, g2, nodeName, k - 1), CopyOf(x, ren));
      }
    }
  }

  /** The interpretation of the remaining graph: the placeholder is graph2's result. */
  ghost function Bound<V>(g1: Traced, g2: Traced, nodeName: Option<string>, m: Meaning<V>): Meaning<V>
    requires TracedOK(g2)
  {
    EvalDefines(g2.nodes, |g2.nodes|, m);
    match Stand(g1, g2, nodeName)
    case None => m
    case Some(s) => Bind(m, s, Run(g2.nodes, m)[g2.last])
  }

  /** What the remaining graph should compute. */
  ghost function Target<V>(g1: Traced, g2: Traced, nodeName: Option<string>, m: Meaning<V>): map<string, V>
    requires TracedOK(g2)
  {
    EvalDefines(g2.nodes, |g2.nodes|, m);
    var kept := map n | n in Run(g1.nodes, m) && Kept(g1, g2, n) :: Run(g1.nodes, m)[n];
    match Stand(g1, g2, nodeName)
    case None => kept
    case Some(s) => kept[s := Run(g2.nodes, m)[g2.last]]
  }

  lemma TargetCarries<V>(g1: Traced, g2: Traced, nodeName: Option<string>, m: Meaning<V>)
    requires TracedOK(g1) && TracedOK(g2) && Apart(g1, g2, nodeName)
    ensures Carries(Target(g1, g2, nodeName, m), g1, g2, nodeName, m)
  {
    StandIsNew(g1, g2, nodeName);
    EvalDefines(g1.nodes, |g1.nodes|, m);
    EvalDefines(g2.nodes, |g2.nodes|, m);
  }

  lemma TargetSolves<V>(g1: Traced, g2: Traced, nodeName: Option<string>, m: Meaning<V>)
    requires TracedOK(g1) && TracedOK(g2) && Agree(g1.nodes, g2.nodes)
    requires Separable(g1, g2, nodeName) && Apart(g1, g2, nodeName)
    ensures var r := Remaining(g1, g2, nodeName, |g1.nodes|);
      Solves(Target(g1, g2, nodeName, m), r, |r|, Bound(g1, g2, nodeName, m))
  {
    var r, env, m' := Remaining(g1, g2, nodeName, |g1.nodes|), Target(g1, g2, nodeName, m), Bound(g1, g2, nodeName, m);
    TargetCarries(g1, g2, nodeName, m);
    StandIsNew(g1, g2, nodeName);
    forall j | 0 <= j < |r| ensures r[j].name in env && env[r[j].name] == NodeValue(r[j], env, m') {
      RemainingNodes(g1, g2, nodeName, |g1.nodes|, j);
      var s := Stand(g1, g2, nodeName);
      if !(s.Some? && j == 0 && r[j] == Placeholder(s.value)) {
        var i :| && 0 <= i < |g1.nodes| && Kept(g1, g2, g1.nodes[i].name)
                 && r[j] == CopyOf(g1.nodes[i], Renaming(g1, g2, nodeName));
        CopySolved(g1, g2, nodeName, i, env, m, m');
      }
    }
  }

  /** The remaining graph is duplicate-free and closed. */
  lemma DifferenceOK(g1: Traced, g2: Traced, nodeName: Option<string>)
    requires TracedOK(g1) && TracedOK(g2) && Separable(g1, g2, nodeName) && Apart(g1, g2, nodeName)
    ensures TracedOK(Difference(g1, g2, nodeName))
  {
    RemainingOK(g1, g2, nodeName, |g1.nodes|);
    RemainingHas(g1, g2, nodeName, |g1.nodes|);
  }

  /** What remains: the nodes of graph1 that are not in graph2 or are symbolic sizes, and one placeholder, which has
      the node name unless that is a node of graph1, or the name of graph2's last node when none is given. */
  lemma DifferenceNames(g1: Traced, g2: Traced, nodeName: Option<string>, n: string)
    requires TracedOK(g1) && Separable(g1, g2, nodeName)
    ensures Difference(g1, g2, nodeName).syms == g1.syms
    ensures Has(Difference(g1, g2, nodeName).nodes, n) <==>
      || (Has(g1.nodes, n) && (!Has(g2.nodes, n) || n in g1.syms))
      || (if nodeName.None? then n == g2.last else nodeName.value == n && !Has(g1.nodes, n))
  {
    RemainingHas(g1, g2, nodeName, |g1.nodes|);
  }

  /** Subtraction is inverse substitution: with the placeholder bound to graph2's result, every name of
      graph1 that what remains can speak of has the value it has in graph1. */
  lemma SubtractionIsSubstitution<V>(g1: Traced, g2: Traced, nodeName: Option<string>, n: string, m: Meaning<V>)
    requires TracedOK(g1) && TracedOK(g2) && Agree(g1.nodes, g2.nodes)
    requires Separable(g1, g2, nodeName) && Apart(g1, g2, nodeName)
    requires Named(g1, n) && Reachable(g1, g2, nodeName, n)
    ensures var env := Run(Difference(g1, g2, nodeName).nodes, Bound(g1, g2, nodeName, m));
      var n' := NewName(g1, g2, nodeName, n);
      n' in env && n in Run(g1.nodes, m) && env[n'] == Run(g1.nodes, m)[n]
  {
    var r, env, m' := Remaining(g1, g2, nodeName, |g1.nodes|), Target(g1, g2, nodeName, m), Bound(g1, g2, nodeName, m);
    RemainingOK(g1, g2, nodeName, |g1.nodes|);
    TargetSolves(g1, g2, nodeName, m);
    SolutionIsUnique(r, |r|, m', env);
    TargetCarries(g1, g2, nodeName, m);
    RemainingHas(g1, g2, nodeName, |g1.nodes|);
    var n' := NewName(g1, g2, nodeName, n);
    assert Has(r, n');
    var j :| 0 <= j < |r| && r[j].name == n';
    if !Kept(g1, g2, n) {
      SharedByName(g1.nodes, g2.nodes, n, m);
    }
  }

  /** In particular both graphs have the same result. */
  lemma SubtractionKeepsResult<V>(g1: Traced, g2: Traced, nodeName: Option<string>, m: Meaning<V>)
    requires TracedOK(g1) && TracedOK(g2) && Agree(g1.nodes, g2.nodes)
    requires Separable(g1, g2, nodeName) && Apart(g1, g2, nodeName)
    ensures var d := Difference(g1, g2, nodeName);
      var env := Run(d.nodes, Bound(g1, g2, nodeName, m));
      d.last in env && g1.last in Run(g1.nodes, m) && env[d.last] == Run(g1.nodes, m)[g1.last]
  {
    SubtractionIsSubstitution(g1, g2, nodeName, g1.last, m);
  }
}
