/** Merging traced graphs preserves what they compute, and keeps all graphs of a session consistent. */
module MergeMeaning {
  import opened Mangling
  import opened TracedGraphs

  /** What each name stands for in a session, and which names are symbolic sizes. */
  datatype Session = Session(defs: map<string, Node>, syms: set<string>)

  ghost predicate SessionOK(w: Session) {
    && (forall n :: n in w.defs ==> w.defs[n].name == n)
    && (forall n :: n in w.syms && n in w.defs ==> w.defs[n] == Placeholder(n))
  }

  /** Nodes are defined as in the session, and exactly the symbolic ones are listed as such. */
  ghost predicate Conforms(nodes: seq<Node>, syms: set<string>, w: Session) {
    && (forall i :: 0 <= i < |nodes| ==> nodes[i].name in w.defs && w.defs[nodes[i].name] == nodes[i])
    && (forall i :: 0 <= i < |nodes| && nodes[i].name in w.syms ==> nodes[i].name in syms)
    && (forall n :: n in syms ==> n in w.syms && Has(nodes, n))
  }

  /** A graph of the session. */
  ghost predicate Fits(g: Traced, w: Session) {
    TracedOK(g) && Conforms(g.nodes, g.syms, w)
  }

  lemma ConformingAgree(g: seq<Node>, gs: set<string>, h: seq<Node>, hs: set<string>, w: Session)
    requires Conforms(g, gs, w) && Conforms(h, hs, w)
    ensures Agree(g, h)
  {
    forall i, j | 0 <= i < |g| && 0 <= j < |h| && g[i].name == h[j].name ensures g[i] == h[j] {
      assert w.defs[g[i].name] == g[i] && w.defs[h[j].name] == h[j];
    }
  }

  // ----- building -----

  ghost predicate BuildOK(b: Building, w: Session) {
    GraphOK(b.nodes) && Conforms(b.nodes, b.syms, w)
  }

  lemma AppendOK(b: Building, x: Node, isSym: bool, w: Session)
    requires BuildOK(b, w) && !Has(b.nodes, x.name) && (forall n :: n in NodeRefs(x) ==> Has(b.nodes, n))
    requires x.name in w.defs && w.defs[x.name] == x && (isSym <==> x.name in w.syms)
    ensures BuildOK(Building(b.nodes + [x], if isSym then b.syms + {x.name} else b.syms), w)
  {
    SnocOK(b.nodes, x);
    HasSnoc(b.nodes, x);
  }

  /** Everything named in b is named in c. */
  ghost predicate Covers(c: Building, b: Building) {
    forall n :: Has(b.nodes, n) ==> Has(c.nodes, n)
  }

  lemma AddOK(b: Building, x: Node, isSym: bool, w: Session)
    requires BuildOK(b, w) && (forall n :: n in NodeRefs(x) ==> Has(b.nodes, n))
    requires x.name in w.defs && w.defs[x.name] == x && (isSym <==> x.name in w.syms)
    ensures BuildOK(Add(b, x, isSym), w) && Covers(Add(b, x, isSym), b) && Has(Add(b, x, isSym).nodes, x.name)
  {
    if !Has(b.nodes, x.name) {
      AppendOK(b, x, isSym, w);
      HasSnoc(b.nodes, x);
    }
  }

  lemma {:induction false} AddNodesOK(b: Building, g: Traced, k: nat, w: Session)
    requires BuildOK(b, w) && Fits(g, w) && k <= |g.nodes|
    ensures BuildOK(AddNodes(b, g, k), w) && Covers(AddNodes(b, g, k), b)
    ensures forall n :: Defined(g.nodes, k, n) ==> Has(AddNodes(b, g, k).nodes, n)
  {
    if k > 0 {
      AddNodesOK(b, g, k - 1, w);
      var x := g.nodes[k - 1];
      forall n | n in NodeRefs(x) ensures Has(AddNodes(b, g, k - 1).nodes, n) {
        assert Defined(g.nodes, k - 1, n);
      }
      AddOK(AddNodes(b, g, k - 1), x, x.name in g.syms, w);
      forall n | Defined(g.nodes, k, n) ensures Has(AddNodes(b, g, k).nodes, n) {
        assert Defined(g.nodes, k - 1, n) || n == x.name;
      }
    }
  }

  lemma {:induction false} AddGraphsOK(b: Building, gs: seq<Traced>, k: nat, w: Session)
    requires BuildOK(b, w) && k <= |gs| && (forall g :: g in gs ==> Fits(g, w))
    ensures BuildOK(AddGraphs(b, gs, k), w) && Covers(AddGraphs(b, gs, k), b)
    ensures forall i, n :: 0 <= i < k && Has(gs[i].nodes, n) ==> Has(AddGraphs(b, gs, k).nodes, n)
  {
    if k > 0 {
      AddGraphsOK(b, gs, k - 1, w);
      assert gs[k - 1] in gs;
      AddNodesOK(AddGraphs(b, gs, k - 1), gs[k - 1], |gs[k - 1].nodes|, w);
    }
  }

  lemma {:induction false} AddSymsOK(b: Building, names: seq<string>, k: nat, w: Session)
    requires BuildOK(b, w) && k <= |names|
    requires forall n :: n in names ==> n in w.syms && n in w.defs && w.defs[n] == Placeholder(n)
    ensures BuildOK(AddSyms(b, names, k), w) && Covers(AddSyms(b, names, k), b)
    ensures forall i :: 0 <= i < k ==> Has(AddSyms(b, names, k).nodes, names[i])
  {
    if k > 0 {
      AddSymsOK(b, names, k - 1, w);
      var c, n := AddSyms(b, names, k - 1), names[k - 1];
      if n !in c.syms {
        assert !Has(c.nodes, n);
        AppendOK(c, Placeholder(n), true, w);
        HasSnoc(c.nodes, Placeholder(n));
      }
    }
  }

  // ----- the session after a merge -----

  function KeywordSizes(kws: seq<Keyword>): set<string> {
    set kw | kw in kws && kw.value.SizeValue? :: SymName(kw.value.e)
  }

  /** All symbolic sizes a merge mentions by name. */
  function Sizes(inputs: seq<Input>, kws: seq<Keyword>): set<string> {
    (set n | n in SizesOf(inputs, |inputs|)) + KeywordSizes(kws)
  }

  function WithSizes(w: Session, sizes: set<string>): Session {
    Session(w.defs + map n | n in sizes && n !in w.defs :: Placeholder(n), w.syms + sizes)
  }

  function WithCall(w: Session, call: Node): Session {
    w.(defs := w.defs[call.name := call])
  }

  function AfterMerge(w: Session, inputs: seq<Input>, fn: string, name: string, kws: seq<Keyword>): Session {
    WithCall(WithSizes(w, Sizes(inputs, kws)), Call(name, fn, CallArgs(inputs, kws)))
  }

  /** What the callers of merge_traced_graphs provide: graphs of the session, size names that are used for
      nothing else, and a new node name. */
  ghost predicate Mergeable(w: Session, inputs: seq<Input>, name: string, kws: seq<Keyword>) {
    && SessionOK(w)
    && (forall g :: g in GraphsOf(inputs, |inputs|) ==> Fits(g, w))
    && (forall n :: n in Sizes(inputs, kws) ==> n in w.syms || n !in w.defs)
    && name !in w.defs && name !in w.syms && name !in Sizes(inputs, kws)
  }

  lemma WithSizesOK(w: Session, sizes: set<string>)
    requires SessionOK(w) && (forall n :: n in sizes ==> n in w.syms || n !in w.defs)
    ensures SessionOK(WithSizes(w, sizes))
    ensures forall n :: n in sizes ==>
      n in WithSizes(w, sizes).syms && n in WithSizes(w, sizes).defs && WithSizes(w, sizes).defs[n] == Placeholder(n)
  {
  }

  lemma FitsWithSizes(g: Traced, w: Session, sizes: set<string>)
    requires Fits(g, w) && (forall n :: n in sizes ==> n in w.syms || n !in w.defs)
    ensures Fits(g, WithSizes(w, sizes))
  {
  }

  lemma ConformsWithCall(nodes: seq<Node>, syms: set<string>, w: Session, call: Node)
    requires Conforms(nodes, syms, w) && call.name !in w.defs
    ensures Conforms(nodes, syms, WithCall(w, call))
  {
  }

  /** Graphs that fitted before the merge still do. */
  lemma SessionPersists(g: Traced, w: Session, inputs: seq<Input>, fn: string, name: string, kws: seq<Keyword>)
    requires Fits(g, w) && Mergeable(w, inputs, name, kws)
    ensures Fits(g, AfterMerge(w, inputs, fn, name, kws))
  {
    FitsWithSizes(g, w, Sizes(inputs, kws));
    ConformsWithCall(g.nodes, g.syms, WithSizes(w, Sizes(inputs, kws)), Call(name, fn, CallArgs(inputs, kws)));
  }

  lemma SizeGraphFits(n: string, w: Session)
    requires n in w.syms && n in w.defs && w.defs[n] == Placeholder(n)
    ensures Fits(SizeGraph(n), w)
  {
    var nodes := SizeGraph(n).nodes;
    assert nodes[0].name == n;
    assert Has(nodes, n);
  }

  lemma {:induction false} KeywordGraphsFit(kws: seq<Keyword>, k: nat, w: Session)
    requires k <= |kws|
    requires forall n :: n in KeywordSizes(kws) ==> n in w.syms && n in w.defs && w.defs[n] == Placeholder(n)
    ensures forall g :: g in KeywordGraphs(kws, k) ==> Fits(g, w)
    ensures forall i :: 0 <= i < k && kws[i].value.SizeValue? ==>
      SizeGraph(SymName(kws[i].value.e)) in KeywordGraphs(kws, k)
  {
    if k > 0 {
      KeywordGraphsFit(kws, k - 1, w);
      if kws[k - 1].value.SizeValue? {
        assert kws[k - 1] in kws;
        SizeGraphFits(SymName(kws[k - 1].value.e), w);
      }
    }
  }

  /** Before the call is appended: the merged nodes conform, and contain all input nodes and sizes. */
  lemma GatheredOK(w: Session, inputs: seq<Input>, name: string, kws: seq<Keyword>)
    requires Mergeable(w, inputs, name, kws)
    ensures BuildOK(Gathered(inputs, kws), WithSizes(w, Sizes(inputs, kws)))
    ensures forall g, n :: g in AllGraphs(inputs, kws) && Has(g.nodes, n) ==> Has(Gathered(inputs, kws).nodes, n)
    ensures forall n :: n in Sizes(inputs, kws) ==> Has(Gathered(inputs, kws).nodes, n)
  {
    var sizes := Sizes(inputs, kws);
    var w1, gs, names := WithSizes(w, sizes), AllGraphs(inputs, kws), SizesOf(inputs, |inputs|);
    WithSizesOK(w, sizes);
    KeywordGraphsFit(kws, |kws|, w1);
    forall g | g in gs ensures Fits(g, w1) {
      if g in GraphsOf(inputs, |inputs|) {
        FitsWithSizes(g, w, sizes);
      }
    }
    var empty := Building([], {});
    AddGraphsOK(empty, gs, |gs|, w1);
    AddSymsOK(AddGraphs(empty, gs, |gs|), names, |names|, w1);
    forall n | n in KeywordSizes(kws) ensures Has(Gathered(inputs, kws).nodes, n) {
      var kw :| kw in kws && kw.value.SizeValue? && SymName(kw.value.e) == n;
      var i :| 0 <= i < |kws| && kws[i] == kw;
      var g := SizeGraph(n);
      assert g in gs && g.nodes[0].name == n;
      assert Has(g.nodes, n);
    }
  }

  // ----- the arguments of the new call -----

  lemma {:induction false} GraphsOfMember(inputs: seq<Input>, k: nat, i: nat)
    requires i < k <= |inputs|
    ensures inputs[i].Graph? ==> inputs[i].g in GraphsOf(inputs, k)
    ensures inputs[i].List? ==> forall g :: g in GraphsOf(inputs[i].items, |inputs[i].items|) ==>
      g in GraphsOf(inputs, k)
    decreases k
  {
    if i < k - 1 {
      GraphsOfMember(inputs, k - 1, i);
    }
  }

  lemma {:induction false} SizesOfMember(inputs: seq<Input>, k: nat, i: nat)
    requires i < k <= |inputs|
    ensures inputs[i].Size? ==> SymName(inputs[i].e) in SizesOf(inputs, k)
    ensures inputs[i].List? ==> forall n :: n in SizesOf(inputs[i].items, |inputs[i].items|) ==> n in SizesOf(inputs, k)
    decreases k
  {
    if i < k - 1 {
      SizesOfMember(inputs, k - 1, i);
    }
  }

  /** Refs of the parsed inputs are the inputs' last nodes and the sizes. */
  lemma {:induction false} ParsedRefs(inp: Input, n: string)
    requires n in Refs(Parsed(inp))
    ensures (exists g :: g in GraphsOf([inp], 1) && g.last == n) || n in SizesOf([inp], 1)
  {
    match inp
    case Graph(g) => GraphsOfMember([inp], 1, 0);
    case Size(e) => SizesOfMember([inp], 1, 0);
    case Plain(_) =>
    case List(items) =>
      var i :| 0 <= i < |items| && n in Refs(Parsed(items[i]));
      ParsedRefs(items[i], n);
      GraphsOfMember([inp], 1, 0);
      SizesOfMember([inp], 1, 0);
      OneInput(items, i);
  }

  /** What one of several inputs contributes. */
  lemma {:induction false} OneInput(items: seq<Input>, i: nat)
    requires i < |items|
    ensures forall g :: g in GraphsOf([items[i]], 1) ==> g in GraphsOf(items, |items|)
    ensures forall n :: n in SizesOf([items[i]], 1) ==> n in SizesOf(items, |items|)
  {
    GraphsOfMember(items, |items|, i);
    SizesOfMember(items, |items|, i);
    assert GraphsOf([items[i]], 0) == [] && SizesOf([items[i]], 0) == [];
  }

  lemma {:induction false} PositionalRefs(inputs: seq<Input>, n: string)
    requires n in Refs(Parsed(List(inputs)))
    ensures (exists g :: g in GraphsOf(inputs, |inputs|) && g.last == n) || n in SizesOf(inputs, |inputs|)
  {
    var i :| 0 <= i < |inputs| && n in Refs(Parsed(inputs[i]));
    ParsedRefs(inputs[i], n);
    OneInput(inputs, i);
  }

  lemma {:induction false} KeywordRefs(kws: seq<Keyword>, i: nat, n: string)
    requires i < |kws| && n in Refs(ParsedKeyword(kws[i]))
    ensures n in KeywordSizes(kws)
  {
    var a := ParsedKeyword(kws[i]);
    assert Refs(a.items[0]) == {};
    assert n in Refs(a.items[1]);
    assert kws[i] in kws;
  }

  lemma {:induction false} CallRefs(inputs: seq<Input>, kws: seq<Keyword>, n: string)
    requires n in Refs(CallArgs(inputs, kws))
    ensures (exists g :: g in GraphsOf(inputs, |inputs|) && g.last == n) || n in Sizes(inputs, kws)
  {
    var a := CallArgs(inputs, kws);
    if n in Refs(Parsed(List(inputs))) {
      PositionalRefs(inputs, n);
    } else {
      assert n in Refs(a.items[1]);
      var i :| 0 <= i < |kws| && n in Refs(ParsedKeyword(kws[i]));
      KeywordRefs(kws, i, n);
    }
  }

  /** The merged graph is duplicate-free and closed, and is itself a graph of the session. */
  lemma MergedFits(w: Session, inputs: seq<Input>, fn: string, name: string, kws: seq<Keyword>)
    requires Mergeable(w, inputs, name, kws)
    ensures SessionOK(AfterMerge(w, inputs, fn, name, kws))
    ensures Fits(Merged(inputs, fn, name, kws), AfterMerge(w, inputs, fn, name, kws))
    ensures forall g, n :: g in AllGraphs(inputs, kws) && Has(g.nodes, n) ==>
      Has(Merged(inputs, fn, name, kws).nodes, n)
    ensures forall n :: n in Sizes(inputs, kws) ==> Has(Merged(inputs, fn, name, kws).nodes, n)
  {
    var w1, call := WithSizes(w, Sizes(inputs, kws)), Call(name, fn, CallArgs(inputs, kws));
    var b := Gathered(inputs, kws);
    WithSizesOK(w, Sizes(inputs, kws));
    GatheredOK(w, inputs, name, kws);
    ConformsWithCall(b.nodes, b.syms, w1, call);
    forall n | n in NodeRefs(call) ensures Has(b.nodes, n) {
      CallRefs(inputs, kws, n);
      if g :| g in GraphsOf(inputs, |inputs|) && g.last == n {
        assert g in AllGraphs(inputs, kws) && Has(g.nodes, n);
      }
    }
    assert !Has(b.nodes, name);
    AppendOK(b, call, false, WithCall(w1, call));
    HasSnoc(b.nodes, call);
  }

  // ----- meaning -----

  /** What an input stands for: the value of its graph's last node, of a size, or of a constant. */
  ghost function InputValue<V>(inp: Input, m: Meaning<V>): Value<V> {
    match inp
    case Graph(g) => if g.last in Run(g.nodes, m) then One(Run(g.nodes, m)[g.last]) else Unbound
    case Size(e) => One(m.input(SymName(e)))
    case Plain(t) => Const(t)
    case List(items) => Many(seq(|items|, i requires 0 <= i < |items| => InputValue(items[i], m)))
  }

  ghost function KeywordValueOf<V>(kw: Keyword, m: Meaning<V>): Value<V> {
    Many([Const(kw.key), match kw.value case SizeValue(e) => One(m.input(SymName(e))) case PlainValue(t) => Const(t)])
  }

  ghost function ArgsValue<V>(inputs: seq<Input>, kws: seq<Keyword>, m: Meaning<V>): Value<V> {
    Many([InputValue(List(inputs), m), Many(seq(|kws|, i requires 0 <= i < |kws| => KeywordValueOf(kws[i], m)))])
  }

  /** The environment gives each of these graphs' last nodes its own value, and each size its input. */
  ghost predicate Binds<V>(env: map<string, V>, gs: seq<Traced>, names: seq<string>, m: Meaning<V>) {
    && (forall g :: g in gs ==> g.last in env && g.last in Run(g.nodes, m) && env[g.last] == Run(g.nodes, m)[g.last])
    && (forall n :: n in names ==> n in env && env[n] == m.input(n))
  }

  lemma {:induction false} ParsedValue<V>(inp: Input, env: map<string, V>, m: Meaning<V>)
    requires Binds(env, GraphsOf([inp], 1), SizesOf([inp], 1), m)
    ensures ArgValue(Parsed(inp), env) == InputValue(inp, m)
  {
    GraphsOfMember([inp], 1, 0);
    SizesOfMember([inp], 1, 0);
    if inp.List? {
      forall i | 0 <= i < |inp.items| ensures ArgValue(Parsed(inp.items[i]), env) == InputValue(inp.items[i], m) {
        OneInput(inp.items, i);
        ParsedValue(inp.items[i], env, m);
      }
    }
  }

  lemma {:induction false} CallValue<V>(inputs: seq<Input>, kws: seq<Keyword>, env: map<string, V>, m: Meaning<V>)
    requires Binds(env, GraphsOf(inputs, |inputs|), SizesOf(inputs, |inputs|), m)
    requires forall n :: n in KeywordSizes(kws) ==> n in env && env[n] == m.input(n)
    ensures ArgValue(CallArgs(inputs, kws), env) == ArgsValue(inputs, kws, m)
  {
    assert GraphsOf([List(inputs)], 0) == [] && SizesOf([List(inputs)], 0) == [];
    assert GraphsOf([List(inputs)], 1) == GraphsOf(inputs, |inputs|);
    assert SizesOf([List(inputs)], 1) == SizesOf(inputs, |inputs|);
    ParsedValue(List(inputs), env, m);
    forall i | 0 <= i < |kws| ensures ArgValue(ParsedKeyword(kws[i]), env) == KeywordValueOf(kws[i], m) {
      KeywordArg(kws, i, env, m);
    }
    var args := CallArgs(inputs, kws);
    assert ArgValue(args.items[1], env) == ArgsValue(inputs, kws, m).items[1];
  }

  lemma {:induction false} KeywordArg<V>(kws: seq<Keyword>, i: nat, env: map<string, V>, m: Meaning<V>)
    requires i < |kws| && (forall n :: n in KeywordSizes(kws) ==> n in env && env[n] == m.input(n))
    ensures ArgValue(ParsedKeyword(kws[i]), env) == KeywordValueOf(kws[i], m)
  {
    assert kws[i] in kws;
    var a := ParsedKeyword(kws[i]);
    assert kws[i].value.SizeValue? ==> SymName(kws[i].value.e) in KeywordSizes(kws);
    assert ArgValue(a.items[0], env) == Const(kws[i].key);
    assert ArgValue(a.items[1], env) == KeywordValueOf(kws[i], m).items[1];
  }

  /** Every node of an input graph computes in the merged graph what it computes in its own. */
  lemma MergePreserves<V>(w: Session, inputs: seq<Input>, fn: string, name: string, kws: seq<Keyword>,
                          g: Traced, n: string, m: Meaning<V>)
    requires Mergeable(w, inputs, name, kws) && g in GraphsOf(inputs, |inputs|) && Has(g.nodes, n)
    ensures var h := Merged(inputs, fn, name, kws);
      n in Run(h.nodes, m) && n in Run(g.nodes, m) && Run(h.nodes, m)[n] == Run(g.nodes, m)[n]
  {
    var h, w2 := Merged(inputs, fn, name, kws), AfterMerge(w, inputs, fn, name, kws);
    MergedFits(w, inputs, fn, name, kws);
    SessionPersists(g, w, inputs, fn, name, kws);
    ConformingAgree(h.nodes, h.syms, g.nodes, g.syms, w2);
    assert g in AllGraphs(inputs, kws);
    SharedByName(h.nodes, g.nodes, n, m);
  }

  lemma SizeValueInMerged<V>(w: Session, inputs: seq<Input>, fn: string, name: string, kws: seq<Keyword>,
                             n: string, m: Meaning<V>)
    requires Mergeable(w, inputs, name, kws) && n in Sizes(inputs, kws)
    ensures var h := Merged(inputs, fn, name, kws); n in Run(h.nodes, m) && Run(h.nodes, m)[n] == m.input(n)
  {
    var h, w2 := Merged(inputs, fn, name, kws), AfterMerge(w, inputs, fn, name, kws);
    MergedFits(w, inputs, fn, name, kws);
    WithSizesOK(w, Sizes(inputs, kws));
    EvalSolves(h.nodes, |h.nodes|, m);
    var i :| 0 <= i < |h.nodes| && h.nodes[i].name == n;
    assert w2.defs[n] == h.nodes[i] == Placeholder(n);
  }

  /** And the new last node is the function applied to what the inputs stand for. */
  lemma MergeAppliesFunction<V>(w: Session, inputs: seq<Input>, fn: string, name: string, kws: seq<Keyword>,
                                m: Meaning<V>)
    requires Mergeable(w, inputs, name, kws)
    ensures var h := Merged(inputs, fn, name, kws);
      h.last in Run(h.nodes, m) && Run(h.nodes, m)[h.last] == m.apply(fn, ArgsValue(inputs, kws, m))
  {
    var h := Merged(inputs, fn, name, kws);
    var env, call := Run(h.nodes, m), Call(name, fn, CallArgs(inputs, kws));
    MergedFits(w, inputs, fn, name, kws);
    EvalSolves(h.nodes, |h.nodes|, m);
    assert h.nodes[|h.nodes| - 1] == call;
    forall g | g in GraphsOf(inputs, |inputs|)
      ensures g.last in env && g.last in Run(g.nodes, m) && env[g.last] == Run(g.nodes, m)[g.last]
    {
      MergePreserves(w, inputs, fn, name, kws, g, g.last, m);
    }
    forall n | n in Sizes(inputs, kws) ensures n in env && env[n] == m.input(n) {
      SizeValueInMerged(w, inputs, fn, name, kws, n, m);
    }
    CallValue(inputs, kws, env, m);
  }

  /** merge_fx_graphs: every node computes in the union what it computes in its own graph. */
  lemma FxMergePreserves<V>(w: Session, gs: seq<Traced>, g: Traced, n: string, m: Meaning<V>)
    requires (forall h :: h in gs ==> Fits(h, w)) && g in gs && Has(g.nodes, n)
    ensures var nodes := AddGraphs(Building([], {}), gs, |gs|).nodes;
      GraphOK(nodes) && n in Run(nodes, m) && n in Run(g.nodes, m) && Run(nodes, m)[n] == Run(g.nodes, m)[n]
  {
    var b := AddGraphs(Building([], {}), gs, |gs|);
    AddGraphsOK(Building([], {}), gs, |gs|, w);
    ConformingAgree(b.nodes, b.syms, g.nodes, g.syms, w);
    var i :| 0 <= i < |gs| && gs[i] == g;
    SharedByName(b.nodes, g.nodes, n, m);
  }

  // ----- nothing else gets in -----

  /** Each node of b is one of the given graphs', or a placeholder for one of the names. */
  ghost predicate From(b: Building, gs: seq<Traced>, names: seq<string>) {
    forall x :: x in b.nodes ==> (exists g :: g in gs && x in g.nodes) || (x.Placeholder? && x.name in names)
  }

  lemma {:induction false} AddNodesFrom(b: Building, g: Traced, k: nat, gs: seq<Traced>)
    requires k <= |g.nodes| && g in gs && From(b, gs, [])
    ensures From(AddNodes(b, g, k), gs, [])
  {
    if k > 0 {
      AddNodesFrom(b, g, k - 1, gs);
      assert g.nodes[k - 1] in g.nodes;
    }
  }

  lemma {:induction false} AddGraphsFrom(gs: seq<Traced>, k: nat)
    requires k <= |gs|
    ensures From(AddGraphs(Building([], {}), gs, k), gs, [])
  {
    if k > 0 {
      AddGraphsFrom(gs, k - 1);
      AddNodesFrom(AddGraphs(Building([], {}), gs, k - 1), gs[k - 1], |gs[k - 1].nodes|, gs);
    }
  }

  lemma {:induction false} AddSymsFrom(b: Building, names: seq<string>, k: nat, gs: seq<Traced>)
    requires k <= |names| && From(b, gs, [])
    ensures From(AddSyms(b, names, k), gs, names)
  {
    if k > 0 {
      AddSymsFrom(b, names, k - 1, gs);
    }
  }

  /** A merged graph consists of its inputs' nodes, placeholders for sizes, and the new call, which is last. */
  lemma MergedContents(inputs: seq<Input>, fn: string, name: string, kws: seq<Keyword>)
    ensures From(Gathered(inputs, kws), AllGraphs(inputs, kws), SizesOf(inputs, |inputs|))
    ensures Merged(inputs, fn, name, kws).nodes == Gathered(inputs, kws).nodes + [Call(name, fn, CallArgs(inputs, kws))]
  {
    var gs, names := AllGraphs(inputs, kws), SizesOf(inputs, |inputs|);
    AddGraphsFrom(gs, |gs|);
    AddSymsFrom(AddGraphs(Building([], {}), gs, |gs|), names, |names|, gs);
  }

  // ----- where sessions come from -----

  ghost predicate Consistent(gs: seq<Traced>) {
    && (forall g :: g in gs ==> TracedOK(g))
    && (forall g, h :: g in gs && h in gs ==> Agree(g.nodes, h.nodes))
    && (forall g, h, n :: g in gs && h in gs && n in g.syms && Has(h.nodes, n) ==> n in h.syms)
    && (forall g, x :: g in gs && x in g.nodes && x.name in g.syms ==> x == Placeholder(x.name))
  }

  ghost function NodesOf(gs: seq<Traced>): set<Node> {
    set g, x | g in gs && x in g.nodes :: x
  }

  lemma NodesDiffer(gs: seq<Traced>, x: Node, y: Node)
    requires Consistent(gs) && x in NodesOf(gs) && y in NodesOf(gs) && x.name == y.name
    ensures x == y
  {
    var g :| g in gs && x in g.nodes;
    var h :| h in gs && y in h.nodes;
    var i :| 0 <= i < |g.nodes| && g.nodes[i] == x;
    var j :| 0 <= j < |h.nodes| && h.nodes[j] == y;
    assert Agree(g.nodes, h.nodes);
  }

  /** The session a set of consistent graphs belongs to. */
  ghost function SessionOf(gs: seq<Traced>): Session
    requires Consistent(gs)
  {
    assert forall x, y :: x in NodesOf(gs) && y in NodesOf(gs) && x.name == y.name ==> x == y by {
      forall x, y | x in NodesOf(gs) && y in NodesOf(gs) && x.name == y.name ensures x == y {
        NodesDiffer(gs, x, y);
      }
    }
    Session(map x | x in NodesOf(gs) :: x.name := x, set g, n | g in gs && n in g.syms :: n)
  }

  lemma DefinedInSession(gs: seq<Traced>, x: Node)
    requires Consistent(gs) && x in NodesOf(gs)
    ensures x.name in SessionOf(gs).defs && SessionOf(gs).defs[x.name] == x
  {
    forall y | y in NodesOf(gs) && y.name == x.name ensures y == x {
      NodesDiffer(gs, x, y);
    }
  }

  lemma FitsOwnSession(gs: seq<Traced>, g: Traced)
    requires Consistent(gs) && g in gs
    ensures Fits(g, SessionOf(gs))
  {
    var w := SessionOf(gs);
    forall i | 0 <= i < |g.nodes| ensures g.nodes[i].name in w.defs && w.defs[g.nodes[i].name] == g.nodes[i] {
      assert g.nodes[i] in g.nodes && g.nodes[i] in NodesOf(gs);
      DefinedInSession(gs, g.nodes[i]);
    }
    forall i | 0 <= i < |g.nodes| && g.nodes[i].name in w.syms ensures g.nodes[i].name in g.syms {
      var h :| h in gs && g.nodes[i].name in h.syms;
      assert Has(g.nodes, g.nodes[i].name);
    }
  }

  lemma SymsArePlaceholders(gs: seq<Traced>, n: string)
    requires Consistent(gs) && n in SessionOf(gs).syms
    ensures n in SessionOf(gs).defs && SessionOf(gs).defs[n] == Placeholder(n)
  {
    var h :| h in gs && n in h.syms;
    assert Has(h.nodes, n);
    var i :| 0 <= i < |h.nodes| && h.nodes[i].name == n;
    assert h.nodes[i] in h.nodes && h.nodes[i] in NodesOf(gs);
    DefinedInSession(gs, h.nodes[i]);
  }

  /** Graphs that agree with each other are graphs of one session. */
  lemma ConsistentGraphsFormSession(gs: seq<Traced>)
    requires Consistent(gs)
    ensures SessionOK(SessionOf(gs)) && forall g :: g in gs ==> Fits(g, SessionOf(gs))
  {
    forall g | g in gs ensures Fits(g, SessionOf(gs)) {
      FitsOwnSession(gs, g);
    }
    forall n | n in SessionOf(gs).syms ensures n in SessionOf(gs).defs && SessionOf(gs).defs[n] == Placeholder(n) {
      SymsArePlaceholders(gs, n);
    }
  }
}
