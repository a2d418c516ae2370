/** The tree of recordings as the manager stores it: `roots` and every node's `children` are
    dictionaries from function id to the list of recordings, in insertion order. */
module TreeBook {
  import opened Basics
  import opened GraphTree

  type Dict = seq<(nat, seq<nat>)>

  predicate HasKey(d: Dict, f: nat) {
    exists k :: 0 <= k < |d| && d[k].0 == f
  }

  /** d[f] of a defaultdict(list) */
  function Lookup(d: Dict, f: nat): seq<nat> {
    if d == [] then [] else if d[0].0 == f then d[0].1 else Lookup(d[1..], f)
  }

  /** Reading d[f] creates an empty list under f when there is none. */
  function Touch(d: Dict, f: nat): Dict {
    if HasKey(d, f) then d else d + [(f, [])]
  }

  /** d[f].append(id) */
  function Append(d: Dict, f: nat, id: nat): Dict {
    if d == [] then [(f, [id])]
    else if d[0].0 == f then [(f, d[0].1 + [id])] + d[1..]
    else [d[0]] + Append(d[1..], f, id)
  }

  /** All recordings in the dictionary, as its values() are iterated. */
  function Flat(d: Dict): seq<nat> {
    if d == [] then [] else d[0].1 + Flat(d[1..])
  }

  ghost predicate Distinct(s: seq<nat>) {
    forall i, j :: 0 <= i < j < |s| ==> s[i] != s[j]
  }

  /** Every entry of d is stored under its own function id, oldest first. */
  predicate Filed(nodes: seq<Node>, d: Dict) {
    forall k :: 0 <= k < |d| ==> FiledEntry(nodes, d[k])
  }

  predicate FiledEntry(nodes: seq<Node>, e: (nat, seq<nat>)) {
    Ascending(e.1) && forall j :: 0 <= j < |e.1| ==> e.1[j] < |nodes| && nodes[e.1[j]].func == e.0
  }

  predicate Ascending(s: seq<nat>) {
    forall i, j :: 0 <= i < j < |s| ==> s[i] < s[j]
  }

  ghost predicate KeysDistinct(d: Dict) {
    forall i, j :: 0 <= i < j < |d| ==> d[i].0 != d[j].0
  }

  /** d lists exactly the recordings whose parent is `parent`, each once. */
  ghost predicate ListsChildren(nodes: seq<Node>, d: Dict, parent: Option<nat>) {
    && Filed(nodes, d) && KeysDistinct(d)
    && Distinct(Flat(d))
    && forall c: nat :: c in Flat(d) <==> c < |nodes| && nodes[c].parent == parent
  }

  ghost predicate BookOK(nodes: seq<Node>, roots: Dict, children: seq<Dict>) {
    && Parents(nodes)
    && |children| == |nodes|
    && ListsChildren(nodes, roots, None)
    && forall id :: 0 <= id < |nodes| ==> ListsChildren(nodes, children[id], Some(id))
  }

  // ----- dictionary facts -----

  lemma {:induction false} LookupIsFlat(d: Dict, f: nat, c: nat)
    requires c in Lookup(d, f)
    ensures c in Flat(d)
    ensures exists k :: 0 <= k < |d| && d[k].0 == f && c in d[k].1
  {
    if d[0].0 != f {
      LookupIsFlat(d[1..], f, c);
      var k :| 0 <= k < |d[1..]| && d[1..][k].0 == f && c in d[1..][k].1;
      assert d[k + 1] == d[1..][k];
    }
  }

  /** A recording filed in d is found under its own function id. */
  lemma {:induction false} FlatIsLookedUp(nodes: seq<Node>, d: Dict, c: nat)
    requires Filed(nodes, d) && KeysDistinct(d) && c in Flat(d)
    ensures c < |nodes| && c in Lookup(d, nodes[c].func)
  {
    assert FiledEntry(nodes, d[0]);
    if c !in d[0].1 {
      var rest := d[1..];
      assert forall k :: 0 <= k < |rest| ==> rest[k] == d[k + 1];
      FlatIsLookedUp(nodes, rest, c);
      LookupIsFlat(rest, nodes[c].func, c);
      var k :| 0 <= k < |rest| && rest[k].0 == nodes[c].func && c in rest[k].1;
      assert d[k + 1] == rest[k];
    }
  }

  /** Appending keeps the keys in place and adds f at the end if it was not there. */
  lemma {:induction false} AppendKeys(d: Dict, f: nat, id: nat)
    ensures var r := Append(d, f, id);
      && |d| <= |r| <= |d| + 1
      && (forall k :: 0 <= k < |d| ==> r[k].0 == d[k].0)
      && (|r| > |d| ==> r[|d|].0 == f && forall k :: 0 <= k < |d| ==> d[k].0 != f)
  {
    if d != [] && d[0].0 != f {
      var rest := d[1..];
      AppendKeys(rest, f, id);
      assert forall k :: 0 < k < |d| ==> d[k] == rest[k - 1];
    }
  }

  lemma AppendKeysDistinct(d: Dict, f: nat, id: nat)
    requires KeysDistinct(d)
    ensures KeysDistinct(Append(d, f, id))
  {
    AppendKeys(d, f, id);
  }

  lemma {:induction false} FlatAppend(d: Dict, f: nat, id: nat)
    ensures multiset(Flat(Append(d, f, id))) == multiset(Flat(d)) + multiset{id}
  {
    if d == [] {
      assert Flat(Append(d, f, id)) == [id];
    } else if d[0].0 == f {
      assert Append(d, f, id)[1..] == d[1..];
    } else {
      FlatAppend(d[1..], f, id);
      assert Append(d, f, id)[1..] == Append(d[1..], f, id);
    }
  }

  lemma {:induction false} FlatConcat(d: Dict, e: Dict)
    ensures Flat(d + e) == Flat(d) + Flat(e)
  {
    if d == [] {
      assert d + e == e;
    } else {
      assert (d + e)[1..] == d[1..] + e;
      FlatConcat(d[1..], e);
    }
  }

  lemma TouchKeeps(nodes: seq<Node>, d: Dict, f: nat, parent: Option<nat>)
    requires ListsChildren(nodes, d, parent)
    ensures ListsChildren(nodes, Touch(d, f), parent)
  {
    if !HasKey(d, f) {
      FlatConcat(d, [(f, [])]);
      assert Flat([(f, [])]) == [];
      assert Flat(d + [(f, [])]) == Flat(d);
      assert FiledEntry(nodes, (f, []));
    }
  }

  lemma {:induction false} AppendFiled(nodes: seq<Node>, d: Dict, n: Node)
    requires Filed(nodes, d)
    ensures Filed(nodes + [n], Append(d, n.func, |nodes|))
  {
    var id, more := |nodes|, nodes + [n];
    if d == [] {
      assert FiledEntry(more, (n.func, [id]));
    } else {
      FiledStays(nodes, d, n);
      assert FiledEntry(nodes, d[0]) && FiledEntry(more, d[0]);
      var rest := d[1..];
      assert Filed(nodes, rest) && Filed(more, rest);
      if d[0].0 == n.func {
        assert FiledEntry(more, (n.func, d[0].1 + [id]));
      } else {
        AppendFiled(nodes, rest, n);
      }
    }
  }

  lemma FiledStays(nodes: seq<Node>, d: Dict, n: Node)
    requires Filed(nodes, d)
    ensures Filed(nodes + [n], d)
  {
    forall k | 0 <= k < |d| ensures FiledEntry(nodes + [n], d[k]) {
      assert FiledEntry(nodes, d[k]);
    }
  }

  /** The recordings of a function are found oldest first. */
  lemma {:induction false} LookupAscends(nodes: seq<Node>, d: Dict, f: nat)
    requires Filed(nodes, d)
    ensures Ascending(Lookup(d, f))
  {
    if d != [] {
      assert FiledEntry(nodes, d[0]);
      assert forall k :: 0 <= k < |d[1..]| ==> d[1..][k] == d[k + 1];
      LookupAscends(nodes, d[1..], f);
    }
  }

  lemma {:induction false} LookupHasKey(d: Dict, f: nat)
    requires Lookup(d, f) != []
    ensures HasKey(d, f)
  {
    if d[0].0 != f {
      LookupHasKey(d[1..], f);
      var k :| 0 <= k < |d[1..]| && d[1..][k].0 == f;
      assert d[k + 1].0 == f;
    }
  }

  lemma DistinctSnoc(s: seq<nat>, t: seq<nat>, id: nat)
    requires Distinct(s) && id !in s && multiset(t) == multiset(s) + multiset{id}
    ensures Distinct(t) && forall c :: c in t <==> c in s || c == id
  {
    forall c ensures c in t <==> c in s || c == id {
      assert c in t <==> c in multiset(t);
      assert c in s <==> c in multiset(s);
    }
    forall i, j | 0 <= i < j < |t| ensures t[i] != t[j] {
      if t[i] == t[j] {
        TwiceInMultiset(t, i, j);
        AtMostOnce(s, t[i]);
      }
    }
  }

  lemma TwiceInMultiset(t: seq<nat>, i: nat, j: nat)
    requires i < j < |t| && t[i] == t[j]
    ensures multiset(t)[t[i]] >= 2
  {
    assert t == t[..j] + [t[j]] + t[j + 1..];
    assert t[i] in t[..j];
  }

  lemma {:induction false} AtMostOnce(s: seq<nat>, c: nat)
    requires Distinct(s)
    ensures multiset(s)[c] <= 1
  {
    if s != [] {
      var r := s[..|s| - 1];
      assert s == r + [s[|s| - 1]];
      AtMostOnce(r, c);
      if s[|s| - 1] == c {
        assert c !in r;
      }
    }
  }

  /** add_child / roots[function_id].append: the book stays exact when a recording is added. */
  lemma AddRecording(nodes: seq<Node>, roots: Dict, children: seq<Dict>, n: Node)
    requires BookOK(nodes, roots, children) && Parents(nodes + [n])
    requires n.parent.Some? ==> n.parent.value < |nodes|
    ensures var id := |nodes|;
      var roots' := if n.parent.None? then Append(roots, n.func, id) else roots;
      var children' := if n.parent.None? then children
                       else children[n.parent.value := Append(children[n.parent.value], n.func, id)];
      BookOK(nodes + [n], roots', children' + [[]])
  {
    var id, more := |nodes|, nodes + [n];
    var roots' := if n.parent.None? then Append(roots, n.func, id) else roots;
    var children' := if n.parent.None? then children
                     else children[n.parent.value := Append(children[n.parent.value], n.func, id)];
    AddToList(nodes, roots, None, n);
    assert ListsChildren(more, [], Some(id)) by { assert Flat([]) == []; }
    forall k | 0 <= k <= id ensures ListsChildren(more, (children' + [[]])[k], Some(k)) {
      if k < id {
        AddToList(nodes, children[k], Some(k), n);
      }
    }
  }

  lemma AddToList(nodes: seq<Node>, d: Dict, parent: Option<nat>, n: Node)
    requires Parents(nodes) && ListsChildren(nodes, d, parent)
    ensures ListsChildren(nodes + [n], if n.parent == parent then Append(d, n.func, |nodes|) else d, parent)
  {
    var id, more := |nodes|, nodes + [n];
    FiledStays(nodes, d, n);
    if n.parent == parent {
      AppendFiled(nodes, d, n);
      AppendKeysDistinct(d, n.func, id);
      FlatAppend(d, n.func, id);
      DistinctSnoc(Flat(d), Flat(Append(d, n.func, id)), id);
    }
  }

  // ----- shutdown -----

  /** What has been reached so far: the visited recordings and those waiting on the worklist. */
  ghost predicate Frontier(nodes: seq<Node>, visited: seq<nat>, work: seq<nat>) {
    && Distinct(visited + work)
    && (forall c :: c in visited || c in work ==> c < |nodes|)
    && (forall c: nat :: c < |nodes| ==>
         ((c in visited || c in work) <==> nodes[c].parent.None? || nodes[c].parent.value in visited))
  }

  /** The worklist loop of shutdown visits every recording exactly once. */
  method Shutdown(nodes: seq<Node>, roots: Dict, children: seq<Dict>) returns (visited: seq<nat>)
    requires BookOK(nodes, roots, children)
    ensures Distinct(visited) && forall c: nat :: c in visited <==> c < |nodes|
  {
    visited := [];
    var work := Flat(roots);
    assert visited + work == work;
    while work != []
      invariant Frontier(nodes, visited, work)
      decreases set c | 0 <= c < |nodes| && c !in visited
    {
      var node := work[|work| - 1];
      var rest := work[..|work| - 1];
      LastIsNew(visited, work);
      assert node in work && ListsChildren(nodes, children[node], Some(node));
      PopAndExtend(nodes, visited, work, Flat(children[node]));
      ghost var todo := set c | 0 <= c < |nodes| && c !in visited;
      assert node in todo;
      work := rest + Flat(children[node]);
      visited := visited + [node];
      assert node in visited;
    }
    assert visited + [] == visited;
    forall c: nat | c < |nodes| ensures c in visited {
      AllReached(nodes, visited, c);
    }
  }

  lemma LastIsNew(visited: seq<nat>, work: seq<nat>)
    requires Distinct(visited + work) && work != []
    ensures work[|work| - 1] !in visited
  {
    var all := visited + work;
    forall i | 0 <= i < |visited| ensures visited[i] != work[|work| - 1] {
      assert all[i] == visited[i] && all[|all| - 1] == work[|work| - 1];
    }
  }

  lemma PopAndExtend(nodes: seq<Node>, visited: seq<nat>, work: seq<nat>, kids: seq<nat>)
    requires Parents(nodes) && Frontier(nodes, visited, work) && work != []
    requires Distinct(kids)
    requires forall c: nat :: c in kids <==> c < |nodes| && nodes[c].parent == Some(work[|work| - 1])
    ensures Frontier(nodes, visited + [work[|work| - 1]], work[..|work| - 1] + kids)
  {
    var node, rest := work[|work| - 1], work[..|work| - 1];
    LastIsNew(visited, work);
    forall c | c in kids ensures c !in visited + work {
      assert nodes[c].parent == Some(node);
      assert (c in visited || c in work) <==> node in visited;
    }
    assert work == rest + [node];
    var v, t := visited + [node], rest + kids;
    forall i, j | 0 <= i < j < |v + t| ensures (v + t)[i] != (v + t)[j] {
      MovedDistinct(visited, rest, node, kids, i, j);
    }
    forall c | c in v || c in t ensures c < |nodes| {
      assert c in visited || c == node || c in rest || c in kids;
      assert c in rest ==> c in work;
    }
    forall c: nat | c < |nodes|
      ensures (c in v || c in t) <==> nodes[c].parent.None? || nodes[c].parent.value in v
    {
      assert c in v <==> c in visited || c == node;
      assert c in t <==> c in rest || c in kids;
      assert c in work <==> c in rest || c == node;
    }
  }

  lemma MovedDistinct(visited: seq<nat>, rest: seq<nat>, node: nat, kids: seq<nat>, i: nat, j: nat)
    requires Distinct(visited + (rest + [node])) && Distinct(kids)
    requires forall c :: c in kids ==> c !in visited + (rest + [node])
    requires i < j < |visited| + 1 + |rest| + |kids|
    ensures (visited + [node] + (rest + kids))[i] != (visited + [node] + (rest + kids))[j]
  {
    var a := visited + (rest + [node]);
    var s := visited + [node] + (rest + kids);
    var n := |visited|;
    var back := (k: nat) => if k < n then k else if k == n then |a| - 1 else k - 1;
    assert forall k: nat :: k < |a| ==> s[k] == a[back(k)];
    assert forall k: nat :: |a| <= k < |s| ==> s[k] == kids[k - |a|];
    if j < |a| {
      assert back(i) != back(j);
    } else if i < |a| {
      assert s[j] in kids && s[i] in a;
    }
  }

  lemma {:induction false} AllReached(nodes: seq<Node>, visited: seq<nat>, c: nat)
    requires Parents(nodes) && Frontier(nodes, visited, []) && c < |nodes|
    ensures c in visited
    decreases c
  {
    if nodes[c].parent.Some? {
      AllReached(nodes, visited, nodes[c].parent.value);
    }
  }

  // ----- num_descendants -----

  /** The recordings whose path from the root goes through id. */
  ghost function Subtree(nodes: seq<Node>, id: nat): set<nat>
    requires Parents(nodes)
  {
    set d: nat | d < |nodes| && id in Path(nodes, Some(d))
  }

  ghost function Under(nodes: seq<Node>, tops: seq<nat>): set<nat>
    requires Parents(nodes)
  {
    set d: nat | d < |nodes| && exists c :: c in tops && c in Path(nodes, Some(d))
  }

  /** Two recordings with the same parent never lie on one path. */
  lemma {:induction false} SiblingsApart(nodes: seq<Node>, d: nat, a: nat, b: nat)
    requires Parents(nodes) && d < |nodes| && a < |nodes| && b < |nodes|
    requires nodes[a].parent == nodes[b].parent
    requires a in Path(nodes, Some(d)) && b in Path(nodes, Some(d))
    ensures a == b
    decreases d
  {
    var up := nodes[d].parent;
    assert Path(nodes, Some(d)) == Path(nodes, up) + [d];
    if up.Some? {
      PathBelow(nodes, up, up.value + 1);
      if a != d && b != d {
        SiblingsApart(nodes, up.value, a, b);
      }
    }
  }

  /** A path through id, not ending there, continues with a child of id. */
  lemma {:induction false} NextOnPath(nodes: seq<Node>, d: nat, id: nat) returns (c: nat)
    requires Parents(nodes) && d < |nodes| && id in Path(nodes, Some(d)) && d != id
    ensures c < |nodes| && nodes[c].parent == Some(id) && c in Path(nodes, Some(d))
    decreases d
  {
    var up := nodes[d].parent;
    assert Path(nodes, Some(d)) == Path(nodes, up) + [d];
    if up == Some(id) {
      c := d;
    } else {
      c := NextOnPath(nodes, up.value, id);
    }
  }

  lemma {:induction false} ParentOnPath(nodes: seq<Node>, d: nat, c: nat)
    requires Parents(nodes) && d < |nodes| && c in Path(nodes, Some(d)) && nodes[c].parent.Some?
    ensures nodes[c].parent.value in Path(nodes, Some(d))
    decreases d
  {
    var up := nodes[d].parent;
    assert Path(nodes, Some(d)) == Path(nodes, up) + [d];
    if c != d {
      ParentOnPath(nodes, up.value, c);
    } else {
      assert Path(nodes, up)[|Path(nodes, up)| - 1] == up.value;
    }
  }

  lemma SubtreeSplits(nodes: seq<Node>, id: nat, kids: seq<nat>)
    requires Parents(nodes) && id < |nodes|
    requires forall c: nat :: c in kids <==> c < |nodes| && nodes[c].parent == Some(id)
    ensures Subtree(nodes, id) == {id} + Under(nodes, kids) && id !in Under(nodes, kids)
  {
    forall d | d in Subtree(nodes, id) && d != id ensures d in Under(nodes, kids) {
      var c := NextOnPath(nodes, d, id);
    }
    forall d | d in Under(nodes, kids) ensures d in Subtree(nodes, id) && d != id {
      var c :| c in kids && c in Path(nodes, Some(d));
      ParentOnPath(nodes, d, c);
      PathBelow(nodes, Some(d), d + 1);
    }
    assert id in Path(nodes, Some(id));
  }

  lemma UnderSnoc(nodes: seq<Node>, tops: seq<nat>, c: nat, parent: Option<nat>)
    requires Parents(nodes) && c !in tops && c < |nodes| && nodes[c].parent == parent
    requires forall b :: b in tops ==> b < |nodes| && nodes[b].parent == parent
    ensures Under(nodes, tops + [c]) == Under(nodes, tops) + Subtree(nodes, c)
    ensures Under(nodes, tops) !! Subtree(nodes, c)
    ensures |Under(nodes, tops + [c])| == |Under(nodes, tops)| + |Subtree(nodes, c)|
  {
    forall d: nat | d < |nodes|
      ensures d in Under(nodes, tops + [c]) <==> d in Under(nodes, tops) || d in Subtree(nodes, c)
    {
      forall b: nat ensures b in tops + [c] <==> b in tops || b == c {}
    }
    forall d | d in Under(nodes, tops) && d in Subtree(nodes, c) ensures false {
      var b :| b in tops && b in Path(nodes, Some(d));
      SiblingsApart(nodes, d, b, c);
    }
  }

  lemma UnderNext(nodes: seq<Node>, tops: seq<nat>, k: nat, parent: Option<nat>)
    requires Parents(nodes) && Distinct(tops) && k < |tops|
    requires forall c :: c in tops ==> c < |nodes| && nodes[c].parent == parent
    ensures |Under(nodes, tops[..k + 1])| == |Under(nodes, tops[..k])| + |Subtree(nodes, tops[k])|
  {
    assert tops[..k + 1] == tops[..k] + [tops[k]];
    assert tops[k] in tops && forall b :: b in tops[..k] ==> b in tops;
    UnderSnoc(nodes, tops[..k], tops[k], parent);
  }

  /** num_descendants counts exactly the recordings below a node. */
  method NumDescendants(nodes: seq<Node>, roots: Dict, children: seq<Dict>, id: nat) returns (count: nat)
    requires BookOK(nodes, roots, children) && id < |nodes|
    ensures count + 1 == |Subtree(nodes, id)|
    decreases |nodes| - id
  {
    assert ListsChildren(nodes, children[id], Some(id));
    count := CountUnder(nodes, roots, children, Flat(children[id]), Some(id));
    SubtreeSplits(nodes, id, Flat(children[id]));
  }

  method CountUnder(nodes: seq<Node>, roots: Dict, children: seq<Dict>, tops: seq<nat>, parent: Option<nat>)
    returns (count: nat)
    requires BookOK(nodes, roots, children) && Distinct(tops)
    requires forall c :: c in tops ==> c < |nodes| && nodes[c].parent == parent
    ensures count == |Under(nodes, tops)|
    decreases |nodes| - (if parent.Some? then parent.value else -1), 0
  {
    count := 0;
    assert Under(nodes, tops[..0]) == {};
    for k := 0 to |tops|
      invariant count == |Under(nodes, tops[..k])|
    {
      assert tops[k] in tops;
      var below := NumDescendants(nodes, roots, children, tops[k]);
      UnderNext(nodes, tops, k, parent);
      count := count + 1 + below;
    }
    assert tops[..|tops|] == tops;
  }

  /** Adding up the roots and their descendants gives exactly the number of graph ids issued. */
  method CountRecordings(nodes: seq<Node>, roots: Dict, children: seq<Dict>) returns (count: nat)
    requires BookOK(nodes, roots, children)
    ensures count == |nodes|
  {
    count := CountUnder(nodes, roots, children, Flat(roots), None);
    forall d: nat | d < |nodes| ensures d in Under(nodes, Flat(roots)) {
      var r := RootOf(nodes, d);
    }
    assert Under(nodes, Flat(roots)) == UpTo(|nodes|);
  }

  lemma {:induction false} RootOf(nodes: seq<Node>, d: nat) returns (r: nat)
    requires Parents(nodes) && d < |nodes|
    ensures r < |nodes| && nodes[r].parent.None? && r in Path(nodes, Some(d))
    decreases d
  {
    if nodes[d].parent.None? {
      r := d;
    } else {
      r := RootOf(nodes, nodes[d].parent.value);
    }
  }

  ghost function UpTo(n: nat): (s: set<nat>)
    ensures |s| == n && forall d: nat :: d in s <==> d < n
  {
    if n == 0 then {} else UpTo(n - 1) + {n - 1}
  }
}
