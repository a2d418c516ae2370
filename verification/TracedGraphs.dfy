/** The traced graphs of torch_npu/_inductor/lowering_fx.py: ordered lists of named nodes, what they
    compute, and how they are merged and subtracted. */
module TracedGraphs {
  import opened Mangling

  /** An argument of a node: another node by name, a constant, or a list of arguments. */
  datatype Arg = Ref(name: string) | Lit(text: string) | Tuple(items: seq<Arg>)

  datatype Node = Placeholder(name: string) | Call(name: string, fn: string, args: Arg)

  /** TracedGraph: its nodes in order, the name of last_node, and the keys of sym_nodes. */
  datatype Traced = Traced(nodes: seq<Node>, last: string, syms: set<string>)

  function Refs(a: Arg): set<string> {
    match a
    case Ref(n) => {n}
    case Lit(_) => {}
    case Tuple(items) => set i, n | 0 <= i < |items| && n in Refs(items[i]) :: n
  }

  function NodeRefs(x: Node): set<string> {
    if x.Placeholder? then {} else Refs(x.args)
  }

  /** One of the first k nodes is called n. */
  ghost predicate Defined(nodes: seq<Node>, k: nat, n: string)
    requires k <= |nodes|
  {
    exists i :: 0 <= i < k && nodes[i].name == n
  }

  ghost predicate Has(nodes: seq<Node>, n: string) {
    Defined(nodes, |nodes|, n)
  }

  ghost predicate Unique(nodes: seq<Node>) {
    forall i, j :: 0 <= i < j < |nodes| ==> nodes[i].name != nodes[j].name
  }

  /** Nodes refer to earlier nodes only. */
  ghost predicate Closed(nodes: seq<Node>) {
    forall i, n :: 0 <= i < |nodes| && n in NodeRefs(nodes[i]) ==> Defined(nodes, i, n)
  }

  ghost predicate GraphOK(nodes: seq<Node>) {
    Unique(nodes) && Closed(nodes)
  }

  ghost predicate TracedOK(g: Traced) {
    GraphOK(g.nodes) && Has(g.nodes, g.last) && forall n :: n in g.syms ==> Has(g.nodes, n)
  }

  // ----- what a graph computes -----

  datatype Value<V> = One(v: V) | Const(text: string) | Many(items: seq<Value<V>>) | Unbound

  /** An interpretation: what the placeholders are bound to, and what each function computes. */
  datatype Meaning<!V> = Meaning(input: string -> V, apply: (string, Value<V>) -> V)

  function ArgValue<V>(a: Arg, env: map<string, V>): Value<V> {
    match a
    case Ref(n) => if n in env then One(env[n]) else Unbound
    case Lit(t) => Const(t)
    case Tuple(items) => Many(seq(|items|, i requires 0 <= i < |items| => ArgValue(items[i], env)))
  }

  function NodeValue<V>(x: Node, env: map<string, V>, m: Meaning<V>): V {
    match x
    case Placeholder(n) => m.input(n)
    case Call(_, fn, args) => m.apply(fn, ArgValue(args, env))
  }

  /** Running the first k nodes in order. */
  function Eval<V>(nodes: seq<Node>, k: nat, m: Meaning<V>): map<string, V>
    requires k <= |nodes|
  {
    if k == 0 then map[]
    else var env := Eval(nodes, k - 1, m); env[nodes[k - 1].name := NodeValue(nodes[k - 1], env, m)]
  }

  function Run<V>(nodes: seq<Node>, m: Meaning<V>): map<string, V> {
    Eval(nodes, |nodes|, m)
  }

  /** The environment satisfies the equation of each of the first k nodes. */
  ghost predicate Solves<V>(env: map<string, V>, nodes: seq<Node>, k: nat, m: Meaning<V>)
    requires k <= |nodes|
  {
    forall i :: 0 <= i < k ==> nodes[i].name in env && env[nodes[i].name] == NodeValue(nodes[i], env, m)
  }

  lemma {:induction false} ArgLocal<V>(a: Arg, e: map<string, V>, f: map<string, V>)
    requires forall n :: n in Refs(a) ==> n in e && n in f && e[n] == f[n]
    ensures ArgValue(a, e) == ArgValue(a, f)
  {
    match a
    case Ref(n) =>
    case Lit(_) =>
    case Tuple(items) =>
      forall i | 0 <= i < |items| ensures ArgValue(items[i], e) == ArgValue(items[i], f) {
        ArgLocal(items[i], e, f);
      }
  }

  lemma NodeLocal<V>(x: Node, e: map<string, V>, f: map<string, V>, m: Meaning<V>)
    requires forall n :: n in NodeRefs(x) ==> n in e && n in f && e[n] == f[n]
    ensures NodeValue(x, e, m) == NodeValue(x, f, m)
  {
    if x.Call? {
      ArgLocal(x.args, e, f);
    }
  }

  lemma {:induction false} EvalDefines<V>(nodes: seq<Node>, k: nat, m: Meaning<V>)
    requires k <= |nodes|
    ensures forall n :: n in Eval(nodes, k, m) <==> Defined(nodes, k, n)
  {
    if k > 0 {
      EvalDefines(nodes, k - 1, m);
      forall n ensures Defined(nodes, k, n) <==> Defined(nodes, k - 1, n) || n == nodes[k - 1].name {}
    }
  }

  /** Running a graph solves its equations. */
  lemma {:induction false} EvalSolves<V>(nodes: seq<Node>, k: nat, m: Meaning<V>)
    requires GraphOK(nodes) && k <= |nodes|
    ensures Solves(Eval(nodes, k, m), nodes, k, m)
  {
    if k > 0 {
      EvalSolves(nodes, k - 1, m);
      EvalDefines(nodes, k - 1, m);
      var e, f, x := Eval(nodes, k - 1, m), Eval(nodes, k, m), nodes[k - 1];
      forall i | 0 <= i < k ensures nodes[i].name in f && f[nodes[i].name] == NodeValue(nodes[i], f, m) {
        forall n | n in NodeRefs(nodes[i]) ensures n in e && n in f && e[n] == f[n] {
          assert Defined(nodes, i, n);
          var j :| 0 <= j < i && nodes[j].name == n;
          assert nodes[j].name != x.name;
        }
        NodeLocal(nodes[i], e, f, m);
      }
    }
  }

  /** And its equations have no other solution. */
  lemma {:induction false} SolutionIsUnique<V>(nodes: seq<Node>, k: nat, m: Meaning<V>, env: map<string, V>)
    requires GraphOK(nodes) && k <= |nodes| && Solves(env, nodes, k, m)
    ensures forall i :: 0 <= i < k ==>
      nodes[i].name in Eval(nodes, k, m) && Eval(nodes, k, m)[nodes[i].name] == env[nodes[i].name]
  {
    if k > 0 {
      SolutionIsUnique(nodes, k - 1, m, env);
      var e, x := Eval(nodes, k - 1, m), nodes[k - 1];
      forall n | n in NodeRefs(x) ensures n in e && n in env && e[n] == env[n] {
        assert Defined(nodes, k - 1, n);
        var j :| 0 <= j < k - 1 && nodes[j].name == n;
        assert nodes[j].name in e && e[nodes[j].name] == env[nodes[j].name];
      }
      NodeLocal(x, e, env, m);
    }
  }

  /** Two graphs define the names they share alike. */
  ghost predicate Agree(g: seq<Node>, h: seq<Node>) {
    forall i, j :: 0 <= i < |g| && 0 <= j < |h| && g[i].name == h[j].name ==> g[i] == h[j]
  }

  /** Then the shared nodes compute the same in both, whatever else the graphs contain. */
  lemma {:induction false} SharedComputeSame<V>(g: seq<Node>, h: seq<Node>, i: nat, j: nat, m: Meaning<V>)
    requires GraphOK(g) && GraphOK(h) && Agree(g, h)
    requires i < |g| && j < |h| && g[i].name == h[j].name
    ensures g[i].name in Run(g, m) && g[i].name in Run(h, m) && Run(g, m)[g[i].name] == Run(h, m)[g[i].name]
    decreases i
  {
    var e, f, x := Run(g, m), Run(h, m), g[i];
    EvalSolves(g, |g|, m);
    EvalSolves(h, |h|, m);
    assert h[j] == x;
    forall n | n in NodeRefs(x) ensures n in e && n in f && e[n] == f[n] {
      assert Defined(g, i, n) && Defined(h, j, n);
      var i' :| 0 <= i' < i && g[i'].name == n;
      var j' :| 0 <= j' < j && h[j'].name == n;
      SharedComputeSame(g, h, i', j', m);
    }
    NodeLocal(x, e, f, m);
  }

  lemma SharedByName<V>(g: seq<Node>, h: seq<Node>, n: string, m: Meaning<V>)
    requires GraphOK(g) && GraphOK(h) && Agree(g, h) && Has(g, n) && Has(h, n)
    ensures n in Run(g, m) && n in Run(h, m) && Run(g, m)[n] == Run(h, m)[n]
  {
    var i :| 0 <= i < |g| && g[i].name == n;
    var j :| 0 <= j < |h| && h[j].name == n;
    SharedComputeSame(g, h, i, j, m);
  }

  // ----- copying nodes -----

  /** node_copy with its arguments looked up by name in exist_nodes. */
  function Rename(a: Arg, exist: map<string, string>): Arg {
    match a
    case Ref(n) => if n in exist then Ref(exist[n]) else a
    case Lit(_) => a
    case Tuple(items) => Tuple(seq(|items|, i requires 0 <= i < |items| => Rename(items[i], exist)))
  }

  function CopyOf(x: Node, exist: map<string, string>): Node {
    if x.Placeholder? then x else x.(args := Rename(x.args, exist))
  }

  lemma {:induction false} RenameIdentity(a: Arg, exist: map<string, string>)
    requires forall n :: n in exist ==> exist[n] == n
    ensures Rename(a, exist) == a
  {
    if a.Tuple? {
      forall i | 0 <= i < |a.items| ensures Rename(a.items[i], exist) == a.items[i] {
        RenameIdentity(a.items[i], exist);
      }
    }
  }

  // ----- merging -----

  datatype Building = Building(nodes: seq<Node>, syms: set<string>)

  /** One node of an input graph: copied unless its name is there already. */
  ghost function Add(b: Building, x: Node, isSym: bool): Building {
    if Has(b.nodes, x.name) then b
    else Building(b.nodes + [x], if isSym then b.syms + {x.name} else b.syms)
  }

  /** The first k nodes of an input graph. */
  ghost function AddNodes(b: Building, g: Traced, k: nat): Building
    requires k <= |g.nodes|
  {
    if k == 0 then b else Add(AddNodes(b, g, k - 1), g.nodes[k - 1], g.nodes[k - 1].name in g.syms)
  }

  /** The first k input graphs, in order. */
  ghost function AddGraphs(b: Building, gs: seq<Traced>, k: nat): Building
    requires k <= |gs|
  {
    if k == 0 then b else AddNodes(AddGraphs(b, gs, k - 1), gs[k - 1], |gs[k - 1].nodes|)
  }

  /** create_sym_inputs: placeholders for the first k names that have none. */
  ghost function AddSyms(b: Building, names: seq<string>, k: nat): Building
    requires k <= |names|
  {
    if k == 0 then b
    else
      var c := AddSyms(b, names, k - 1);
      if names[k - 1] in c.syms then c else Building(c.nodes + [Placeholder(names[k - 1])], c.syms + {names[k - 1]})
  }

  /** An element of input_graphs. */
  datatype Input = Graph(g: Traced) | Size(e: SizeExpr) | Plain(text: string) | List(items: seq<Input>)

  /** A keyword argument: a symbolic size or anything else. */
  datatype Keyword = Keyword(key: string, value: KeywordValue)
  datatype KeywordValue = SizeValue(e: SizeExpr) | PlainValue(text: string)

  /** The graphs among the first k inputs, as merge_graph meets them. */
  function GraphsOf(inputs: seq<Input>, k: nat): seq<Traced>
    requires k <= |inputs|
    decreases inputs, k
  {
    if k == 0 then []
    else
      GraphsOf(inputs, k - 1) +
      match inputs[k - 1]
      case Graph(g) => [g]
      case List(items) => GraphsOf(items, |items|)
      case _ => []
  }

  /** The symbolic sizes among the first k inputs, as create_sym_inputs meets them. */
  function SizesOf(inputs: seq<Input>, k: nat): seq<string>
    requires k <= |inputs|
    decreases inputs, k
  {
    if k == 0 then []
    else
      SizesOf(inputs, k - 1) +
      match inputs[k - 1]
      case Size(e) => [SymName(e)]
      case List(items) => SizesOf(items, |items|)
      case _ => []
  }

  function SizeGraph(n: string): Traced {
    Traced([Placeholder(n)], n, {n})
  }

  /** The one-node graphs made for the symbolic ones of the first k keyword arguments. */
  function KeywordGraphs(kws: seq<Keyword>, k: nat): seq<Traced>
    requires k <= |kws|
  {
    if k == 0 then []
    else
      KeywordGraphs(kws, k - 1) +
      match kws[k - 1].value
      case SizeValue(e) => [SizeGraph(SymName(e))]
      case PlainValue(_) => []
  }

  function AllGraphs(inputs: seq<Input>, kws: seq<Keyword>): seq<Traced> {
    GraphsOf(inputs, |inputs|) + KeywordGraphs(kws, |kws|)
  }

  /** parse_args on one input */
  function Parsed(inp: Input): Arg {
    match inp
    case Graph(g) => Ref(g.last)
    case Size(e) => Ref(SymName(e))
    case Plain(t) => Lit(t)
    case List(items) => Tuple(seq(|items|, i requires 0 <= i < |items| => Parsed(items[i])))
  }

  function ParsedKeyword(kw: Keyword): Arg {
    Tuple([Lit(kw.key), match kw.value case SizeValue(e) => Ref(SymName(e)) case PlainValue(t) => Lit(t)])
  }

  /** The arguments of the new call: positional ones, then keyword ones. */
  function CallArgs(inputs: seq<Input>, kws: seq<Keyword>): Arg {
    Tuple([Parsed(List(inputs)), Tuple(seq(|kws|, i requires 0 <= i < |kws| => ParsedKeyword(kws[i])))])
  }

  /** Everything merged, before the new call is appended. */
  ghost function Gathered(inputs: seq<Input>, kws: seq<Keyword>): Building {
    var gs, names := AllGraphs(inputs, kws), SizesOf(inputs, |inputs|);
    AddSyms(AddGraphs(Building([], {}), gs, |gs|), names, |names|)
  }

  ghost function Merged(inputs: seq<Input>, fn: string, name: string, kws: seq<Keyword>): Traced {
    var b := Gathered(inputs, kws);
    Traced(b.nodes + [Call(name, fn, CallArgs(inputs, kws))], name, b.syms)
  }

  lemma {:induction false} AddGraphsPrefix(b: Building, gs: seq<Traced>, hs: seq<Traced>, k: nat)
    requires k <= |gs|
    ensures AddGraphs(b, gs + hs, k) == AddGraphs(b, gs, k)
  {
    if k > 0 {
      AddGraphsPrefix(b, gs, hs, k - 1);
    }
  }

  lemma {:induction false} AddGraphsConcat(b: Building, gs: seq<Traced>, hs: seq<Traced>, k: nat)
    requires k <= |hs|
    ensures AddGraphs(b, gs + hs, |gs| + k) == AddGraphs(AddGraphs(b, gs, |gs|), hs, k)
  {
    if k == 0 {
      AddGraphsPrefix(b, gs, hs, |gs|);
    } else {
      AddGraphsConcat(b, gs, hs, k - 1);
      assert (gs + hs)[|gs| + k - 1] == hs[k - 1];
    }
  }

  lemma {:induction false} AddSymsPrefix(b: Building, xs: seq<string>, ys: seq<string>, k: nat)
    requires k <= |xs|
    ensures AddSyms(b, xs + ys, k) == AddSyms(b, xs, k)
  {
    if k > 0 {
      AddSymsPrefix(b, xs, ys, k - 1);
    }
  }

  lemma {:induction false} AddSymsConcat(b: Building, xs: seq<string>, ys: seq<string>, k: nat)
    requires k <= |ys|
    ensures AddSyms(b, xs + ys, |xs| + k) == AddSyms(AddSyms(b, xs, |xs|), ys, k)
  {
    if k == 0 {
      AddSymsPrefix(b, xs, ys, |xs|);
    } else {
      AddSymsConcat(b, xs, ys, k - 1);
      assert (xs + ys)[|xs| + k - 1] == ys[k - 1];
    }
  }

  // ----- the merge as the source runs it -----

  /** exist_nodes while merging: every copied node is found under its own name. */
  ghost predicate Found(nodes: seq<Node>, exist: map<string, string>) {
    && (forall n :: n in exist <==> Has(nodes, n))
    && (forall n :: n in exist ==> exist[n] == n)
  }

  lemma FoundSnoc(nodes: seq<Node>, exist: map<string, string>, x: Node)
    requires Found(nodes, exist)
    ensures Found(nodes + [x], exist[x.name := x.name])
  {
    HasSnoc(nodes, x);
  }

  lemma HasSnoc(nodes: seq<Node>, x: Node)
    ensures forall n :: Has(nodes + [x], n) <==> Has(nodes, n) || n == x.name
  {
    forall n ensures Has(nodes + [x], n) <==> Has(nodes, n) || n == x.name {
      if Has(nodes, n) {
        var i :| 0 <= i < |nodes| && nodes[i].name == n;
        assert (nodes + [x])[i].name == n;
      }
      assert (nodes + [x])[|nodes|] == x;
    }
  }

  /** The loop over the nodes of one input graph. */
  method MergeNodes(g: Traced, b: Building, exist: map<string, string>)
    returns (b': Building, exist': map<string, string>)
    requires Closed(g.nodes) && Found(b.nodes, exist)
    ensures b' == AddNodes(b, g, |g.nodes|) && Found(b'.nodes, exist')
  {
    b', exist' := b, exist;
    for k := 0 to |g.nodes|
      invariant b' == AddNodes(b, g, k) && Found(b'.nodes, exist')
      invariant forall i :: 0 <= i < k ==> g.nodes[i].name in exist'
    {
      var node := g.nodes[k];
      if node.name !in exist' {
        assert forall n :: n in NodeRefs(node) ==> Defined(g.nodes, k, n);
        assert NodeRefs(node) <= exist'.Keys;  // no KeyError in exist_nodes[n.name]
        var newNode := CopyOf(node, exist');
        if node.Call? {
          RenameIdentity(node.args, exist');
        }
        FoundSnoc(b'.nodes, exist', newNode);
        exist' := exist'[node.name := node.name];
        b' := Building(b'.nodes + [newNode], if node.name in g.syms then b'.syms + {node.name} else b'.syms);
      }
    }
  }

  ghost predicate InputsClosed(gs: seq<Traced>) {
    forall i :: 0 <= i < |gs| ==> Closed(gs[i].nodes)
  }

  /** Merging the graphs among the first k inputs. */
  ghost function AddInputs(b: Building, inputs: seq<Input>, k: nat): Building
    requires k <= |inputs|
  {
    AddGraphs(b, GraphsOf(inputs, k), |GraphsOf(inputs, k)|)
  }

  lemma AddInputsStep(b: Building, inputs: seq<Input>, k: nat)
    requires k < |inputs|
    ensures AddInputs(b, inputs, k + 1) ==
      match inputs[k]
      case Graph(g) => AddNodes(AddInputs(b, inputs, k), g, |g.nodes|)
      case List(items) => AddInputs(AddInputs(b, inputs, k), items, |items|)
      case _ => AddInputs(b, inputs, k)
  {
    var gs, c := GraphsOf(inputs, k), AddInputs(b, inputs, k);
    match inputs[k]
    case Graph(g) =>
      AddGraphsConcat(b, gs, [g], 1);
      assert AddGraphs(c, [g], 0) == c;
    case List(items) =>
      AddGraphsConcat(b, gs, GraphsOf(items, |items|), |GraphsOf(items, |items|)|);
    case _ =>
      assert GraphsOf(inputs, k + 1) == gs;
  }

  /** merge_graph, which enters nested lists. */
  method MergeGraph(inputs: seq<Input>, b: Building, exist: map<string, string>)
    returns (b': Building, exist': map<string, string>)
    requires InputsClosed(GraphsOf(inputs, |inputs|)) && Found(b.nodes, exist)
    ensures b' == AddInputs(b, inputs, |inputs|) && Found(b'.nodes, exist')
    decreases inputs
  {
    b', exist' := b, exist;
    for k := 0 to |inputs|
      invariant b' == AddInputs(b, inputs, k) && Found(b'.nodes, exist')
    {
      AddInputsStep(b, inputs, k);
      ClosedAt(inputs, k);
      match inputs[k] {
        case Graph(g) =>
          b', exist' := MergeNodes(g, b', exist');
        case List(items) =>
          b', exist' := MergeGraph(items, b', exist');
        case _ =>
      }
    }
  }

  lemma {:induction false} GraphsOfPrefix(inputs: seq<Input>, k: nat, j: nat)
    requires k <= j <= |inputs|
    ensures GraphsOf(inputs, k) <= GraphsOf(inputs, j)
    decreases j
  {
    if k < j {
      GraphsOfPrefix(inputs, k, j - 1);
    }
  }

  lemma ClosedAt(inputs: seq<Input>, k: nat)
    requires k < |inputs| && InputsClosed(GraphsOf(inputs, |inputs|))
    ensures inputs[k].Graph? ==> Closed(inputs[k].g.nodes)
    ensures inputs[k].List? ==> InputsClosed(GraphsOf(inputs[k].items, |inputs[k].items|))
  {
    var gs, more := GraphsOf(inputs, k), GraphsOf(inputs, k + 1);
    GraphsOfPrefix(inputs, k + 1, |inputs|);
    forall i | |gs| <= i < |more| ensures Closed(more[i].nodes) {
      assert more[i] == GraphsOf(inputs, |inputs|)[i];
    }
    if inputs[k].Graph? {
      assert more[|gs|] == inputs[k].g;
    } else if inputs[k].List? {
      var hs := GraphsOf(inputs[k].items, |inputs[k].items|);
      assert forall i :: 0 <= i < |hs| ==> hs[i] == more[|gs| + i];
    }
  }

  /** Placeholders for the sizes among the first k inputs. */
  ghost function AddSizes(b: Building, inputs: seq<Input>, k: nat): Building
    requires k <= |inputs|
  {
    AddSyms(b, SizesOf(inputs, k), |SizesOf(inputs, k)|)
  }

  lemma AddSizesStep(b: Building, inputs: seq<Input>, k: nat)
    requires k < |inputs|
    ensures AddSizes(b, inputs, k + 1) ==
      match inputs[k]
      case Size(e) => AddSyms(AddSizes(b, inputs, k), [SymName(e)], 1)
      case List(items) => AddSizes(AddSizes(b, inputs, k), items, |items|)
      case _ => AddSizes(b, inputs, k)
  {
    var names := SizesOf(inputs, k);
    match inputs[k]
    case Size(e) =>
      AddSymsConcat(b, names, [SymName(e)], 1);
    case List(items) =>
      AddSymsConcat(b, names, SizesOf(items, |items|), |SizesOf(items, |items|)|);
    case _ =>
      assert SizesOf(inputs, k + 1) == names;
  }

  /** create_sym_inputs on the inputs that are symbolic sizes. */
  method CreateSymInputs(inputs: seq<Input>, b: Building) returns (b': Building)
    ensures b' == AddSizes(b, inputs, |inputs|)
    decreases inputs
  {
    b' := b;
    for k := 0 to |inputs|
      invariant b' == AddSizes(b, inputs, k)
    {
      AddSizesStep(b, inputs, k);
      match inputs[k] {
        case List(items) =>
          b' := CreateSymInputs(items, b');
        case Size(e) =>
          var name := SymName(e);
          assert AddSyms(b', [name], 0) == b';
          if name !in b'.syms {
            b' := Building(b'.nodes + [Placeholder(name)], b'.syms + {name});
          }
        case _ =>
      }
    }
  }

  /** The loop over keyword arguments, then merging the graphs it made. */
  method MergeKeywords(kws: seq<Keyword>, b: Building, exist: map<string, string>)
    returns (b': Building, exist': map<string, string>)
    requires Found(b.nodes, exist)
    ensures var gs := KeywordGraphs(kws, |kws|); b' == AddGraphs(b, gs, |gs|)
    ensures Found(b'.nodes, exist')
  {
    b', exist' := b, exist;
    for k := 0 to |kws|
      invariant var gs := KeywordGraphs(kws, k); b' == AddGraphs(b, gs, |gs|)
      invariant Found(b'.nodes, exist')
    {
      ghost var gs := KeywordGraphs(kws, k);
      if kws[k].value.SizeValue? {
        var g := SizeGraph(SymName(kws[k].value.e));
        AddGraphsConcat(b, gs, [g], 1);
        assert AddGraphs(b', [g], 1) == AddNodes(b', g, |g.nodes|) by { assert AddGraphs(b', [g], 0) == b'; }
        b', exist' := MergeNodes(g, b', exist');
      } else {
        assert KeywordGraphs(kws, k + 1) == gs;
      }
    }
  }

  /** merge_traced_graphs */
  method MergeTracedGraphs(inputs: seq<Input>, fn: string, name: string, kws: seq<Keyword>) returns (g: Traced)
    requires InputsClosed(GraphsOf(inputs, |inputs|))
    ensures g == Merged(inputs, fn, name, kws)
  {
    ghost var gs, hs := GraphsOf(inputs, |inputs|), KeywordGraphs(kws, |kws|);
    AddGraphsConcat(Building([], {}), gs, hs, |hs|);
    var b, exist := MergeGraph(inputs, Building([], {}), map[]);
    b, exist := MergeKeywords(kws, b, exist);
    b := CreateSymInputs(inputs, b);
    g := Traced(b.nodes + [Call(name, fn, CallArgs(inputs, kws))], name, b.syms);
  }

  /** merge_fx_graphs: the merged nodes, and the name of each input's last node. */
  method MergeFxGraphs(inputs: seq<Input>) returns (nodes: seq<Node>, lasts: seq<string>)
    requires InputsClosed(GraphsOf(inputs, |inputs|))
    ensures var gs := GraphsOf(inputs, |inputs|);
      && nodes == AddGraphs(Building([], {}), gs, |gs|).nodes
      && |lasts| == |gs| && forall i :: 0 <= i < |gs| ==> lasts[i] == gs[i].last
  {
    var b, exist := MergeGraph(inputs, Building([], {}), map[]);
    nodes := b.nodes;
    var gs := GraphsOf(inputs, |inputs|);
    lasts := seq(|gs|, i requires 0 <= i < |gs| => gs[i].last);
  }

  // ----- appending a node -----

  lemma SnocOK(nodes: seq<Node>, x: Node)
    requires GraphOK(nodes) && !Has(nodes, x.name) && (forall n :: n in NodeRefs(x) ==> Has(nodes, n))
    ensures GraphOK(nodes + [x])
  {
    var more := nodes + [x];
    forall i, n | 0 <= i < |more| && n in NodeRefs(more[i]) ensures Defined(more, i, n) {
      if i < |nodes| {
        assert Defined(nodes, i, n);
        var j :| 0 <= j < i && nodes[j].name == n;
        assert more[j].name == n;
      } else {
        assert Has(nodes, n);
        var j :| 0 <= j < |nodes| && nodes[j].name == n;
        assert more[j].name == n;
      }
    }
    forall i, j | 0 <= i < j < |more| ensures more[i].name != more[j].name {
      assert j == |nodes| ==> Defined(nodes, |nodes|, nodes[i].name);
    }
  }
}
