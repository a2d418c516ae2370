/** A lowering session: every lowering names its node after its operation and a global counter. */
module Lowering {
  import opened Mangling
  import opened TracedGraphs
  import opened MergeMeaning

  function Digits(k: nat): (s: string)
    ensures s != [] && forall i :: 0 <= i < |s| ==> '0' <= s[i] <= '9'
  {
    var d := ['0' + (k % 10) as char];
    if k < 10 then d else Digits(k / 10) + d
  }

  /** f'{op}_{next(node_id)}' */
  function NodeName(op: string, k: nat): string {
    op + "_" + Digits(k)
  }

  lemma {:induction false} DigitsInjective(j: nat, k: nat)
    requires Digits(j) == Digits(k)
    ensures j == k
  {
    var s, t := Digits(j), Digits(k);
    assert s[|s| - 1] == t[|t| - 1];
    assert (|s| == 1 <==> j < 10) && (|t| == 1 <==> k < 10);
    if j >= 10 {
      assert Digits(j / 10) == s[..|s| - 1] && Digits(k / 10) == t[..|t| - 1];
      DigitsInjective(j / 10, k / 10);
    }
  }

  /** The part after the last underscore is no longer in one reading than in another. */
  lemma NotLonger(p: string, a: string, q: string, b: string)
    requires p + "_" + a == q + "_" + b && '_' !in b
    ensures |b| <= |a|
  {
    assert (p + "_" + a)[|p|] == '_';
    assert forall i :: |q| < i < |q| + 1 + |b| ==> (q + "_" + b)[i] == b[i - |q| - 1] && b[i - |q| - 1] in b;
  }

  /** Names made from different counter values differ, whatever the operations are called. */
  lemma {:induction false} NodeNamesDiffer(op: string, j: nat, op': string, k: nat)
    requires NodeName(op, j) == NodeName(op', k)
    ensures j == k
  {
    var a, b := Digits(j), Digits(k);
    NotLonger(op, a, op', b);
    NotLonger(op', b, op, a);
    var s, n := NodeName(op, j), |op| + 1;
    assert a == s[n..] && b == NodeName(op', k)[n..];
    DigitsInjective(j, k);
  }

  class LoweringSession {
    ghost const ops: set<string>          // the operations that have lowerings
    var nodeId: nat                       // node_id
    var graphs: seq<Traced>               // every traced graph made so far
    ghost var session: Session

    ghost predicate Reserved(n: string)
    {
      exists op, k: nat :: op in ops && n == NodeName(op, k)
    }

    /** Calls carry names already handed out; nothing else is called like one. */
    ghost predicate Numbered()
      reads this
    {
      && (forall n :: n in session.defs && session.defs[n].Call? ==>
            exists op, k: nat :: op in ops && k < nodeId && n == NodeName(op, k))
      && (forall n :: n in session.defs && session.defs[n].Placeholder? ==> !Reserved(n))
      && (forall n :: n in session.syms ==> !Reserved(n))
    }

    ghost predicate Valid()
      reads this
    {
      && SessionOK(session)
      && (forall g :: g in graphs ==> Fits(g, session))
      && Numbered()
    }

    constructor (ghost ops: set<string>)
      ensures Valid() && graphs == [] && this.ops == ops
    {
      this.ops := ops;
      nodeId, graphs := 0, [];
      session := Session(map[], {});
    }

    /** Any two graphs of the session define their shared names alike, and so compute them alike. */
    lemma GraphsAreConsistent<V>(g: Traced, h: Traced, n: string, m: Meaning<V>)
      requires Valid() && g in graphs && h in graphs
      ensures Agree(g.nodes, h.nodes)
      ensures Has(g.nodes, n) && Has(h.nodes, n) ==>
        n in Run(g.nodes, m) && n in Run(h.nodes, m) && Run(g.nodes, m)[n] == Run(h.nodes, m)[n]
    {
      ConformingAgree(g.nodes, g.syms, h.nodes, h.syms, session);
      if Has(g.nodes, n) && Has(h.nodes, n) {
        SharedByName(g.nodes, h.nodes, n, m);
      }
    }

    lemma NextNameIsNew(op: string)
      requires Valid() && op in ops
      ensures NodeName(op, nodeId) !in session.defs && NodeName(op, nodeId) !in session.syms
    {
      var name := NodeName(op, nodeId);
      assert Reserved(name);
      if name in session.defs {
        assert session.defs[name].Call?;
        var op', k: nat :| op' in ops && k < nodeId && name == NodeName(op', k);
        NodeNamesDiffer(op, nodeId, op', k);
        assert false;
      }
    }

    /** fetch_graphs on a buffer without a traced graph: a placeholder of that name. */
    method FetchInput(name: string) returns (g: Traced)
      requires Valid() && !Reserved(name) && name !in session.syms
      modifies this`graphs, this`session
      ensures Valid() && g == Traced([Placeholder(name)], name, {}) && graphs == old(graphs) + [g]
    {
      g := Traced([Placeholder(name)], name, {});
      assert g.nodes[0].name == name;
      assert Has(g.nodes, name);
      ghost var w := Session(session.defs[name := Placeholder(name)], session.syms);
      if name in session.defs {
        assert session.defs[name].Placeholder? && session.defs[name].name == name;
        assert w.defs == session.defs;
      } else {
        forall h | h in graphs ensures Fits(h, w) {
          ConformsWithCall(h.nodes, h.syms, session, Placeholder(name));
        }
      }
      graphs := graphs + [g];
      session := w;
    }

    /** One lowering: merge the inputs' graphs under the next name.  Every graph of the session, the new
        one included, stays consistent with every other. */
    method Lower(op: string, fn: string, inputs: seq<Input>, kws: seq<Keyword>) returns (g: Traced)
      requires Valid() && op in ops
      requires forall h :: h in GraphsOf(inputs, |inputs|) ==> h in graphs
      requires forall n :: n in Sizes(inputs, kws) ==> !Reserved(n) && (n in session.syms || n !in session.defs)
      modifies this
      ensures Valid() && graphs == old(graphs) + [g] && nodeId == old(nodeId) + 1
      ensures g == Merged(inputs, fn, NodeName(op, old(nodeId)), kws) && g.last == NodeName(op, old(nodeId))
      ensures session == AfterMerge(old(session), inputs, fn, g.last, kws)
    {
      var name := NodeName(op, nodeId);
      NextNameIsNew(op);
      assert Reserved(name);
      assert Mergeable(session, inputs, name, kws);
      ghost var w := AfterMerge(session, inputs, fn, name, kws);
      MergedFits(session, inputs, fn, name, kws);
      forall h | h in graphs ensures Fits(h, w) {
        SessionPersists(h, session, inputs, fn, name, kws);
      }
      ClosedInputs(inputs);
      g := MergeTracedGraphs(inputs, fn, name, kws);
      NumberedNext(op, inputs, fn, kws);
      graphs := graphs + [g];
      session := w;
      nodeId := nodeId + 1;
    }

    lemma ClosedInputs(inputs: seq<Input>)
      requires Valid() && (forall h :: h in GraphsOf(inputs, |inputs|) ==> h in graphs)
      ensures InputsClosed(GraphsOf(inputs, |inputs|))
    {
      var gs := GraphsOf(inputs, |inputs|);
      forall i | 0 <= i < |gs| ensures Closed(gs[i].nodes) {
        assert gs[i] in gs;
      }
    }

    lemma NumberedNext(op: string, inputs: seq<Input>, fn: string, kws: seq<Keyword>)
      requires Valid() && op in ops
      requires forall n :: n in Sizes(inputs, kws) ==> !Reserved(n)
      ensures var w := AfterMerge(session, inputs, fn, NodeName(op, nodeId), kws);
        && (forall n :: n in w.defs && w.defs[n].Call? ==>
              exists op, k: nat :: op in ops && k < nodeId + 1 && n == NodeName(op, k))
        && (forall n :: n in w.defs && w.defs[n].Placeholder? ==> !Reserved(n))
        && (forall n :: n in w.syms ==> !Reserved(n))
    {
      var w := AfterMerge(session, inputs, fn, NodeName(op, nodeId), kws);
      forall n | n in w.defs && w.defs[n].Call?
        ensures exists op, k: nat :: op in ops && k < nodeId + 1 && n == NodeName(op, k)
      {
        if n != NodeName(op, nodeId) {
          assert n in session.defs && session.defs[n] == w.defs[n];
          var op', k: nat :| op' in ops && k < nodeId && n == NodeName(op', k);
        }
      }
    }
  }
}
