/** The ring of asynchronously copied statistics (_detect_grad and _async_detect in torch_npu/asd/asd.py):
    one producer, copies that land late and in any order, one draining thread. */
module Ring {
  import opened SilentCheck

  const QUEUE_LEN := 1024

  /** The value -1 marks an empty slot; squared norms are never negative. */
  const EMPTY := Finite(-1.0)

  type Item = (string, Sample)

  // ----- the sequential meaning -----

  type Stats = map<string, Stat>

  function Get(st: Stats, n: string): Stat {
    if n in st then st[n] else INITIAL
  }

  /** Feeding the first n items, in order, to the statistics of their names. */
  function Fold(xs: seq<Item>, n: nat, st: Stats, t: Thresholds): Stats
    requires n <= |xs|
  {
    if n == 0 then st
    else
      var before := Fold(xs, n - 1, st, t);
      before[xs[n - 1].0 := Step(Get(before, xs[n - 1].0), xs[n - 1].1, t)]
  }

  /** The items among the first n that are flagged on the way. */
  function Flagged(xs: seq<Item>, n: nat, st: Stats, t: Thresholds): seq<Item>
    requires n <= |xs|
  {
    if n == 0 then []
    else
      var before := Flagged(xs, n - 1, st, t);
      if Flags(Get(Fold(xs, n - 1, st, t), xs[n - 1].0), xs[n - 1].1, t) then before + [xs[n - 1]] else before
  }

  /** The samples of one name among the first n items. */
  function Samples(xs: seq<Item>, n: nat, name: string): seq<Sample>
    requires n <= |xs|
  {
    if n == 0 then []
    else if xs[n - 1].0 == name then Samples(xs, n - 1, name) + [xs[n - 1].1]
    else Samples(xs, n - 1, name)
  }

  lemma {:induction false} AfterSnoc(xs: seq<Sample>, x: Sample, n: nat, t: Thresholds)
    requires n <= |xs|
    ensures After(xs + [x], n, t) == After(xs, n, t)
  {
    if n > 0 {
      AfterSnoc(xs, x, n - 1, t);
    }
  }

  /** Each name's statistics are the sequential fold over that name's own samples. */
  lemma {:induction false} FoldPerName(xs: seq<Item>, n: nat, t: Thresholds, name: string)
    requires n <= |xs|
    ensures Get(Fold(xs, n, map[], t), name) == After(Samples(xs, n, name), |Samples(xs, n, name)|, t)
  {
    if n > 0 {
      FoldPerName(xs, n - 1, t, name);
      if xs[n - 1].0 == name {
        var before := Samples(xs, n - 1, name);
        AfterSnoc(before, xs[n - 1].1, |before|, t);
        assert (before + [xs[n - 1].1])[|before|] == xs[n - 1].1;
      }
    }
  }

  /** Item k is flagged in view of the samples of its own name before it. */
  predicate FlaggedAt(xs: seq<Item>, k: nat, t: Thresholds)
    requires k < |xs|
  {
    var own := Samples(xs, k, xs[k].0);
    Flags(After(own, |own|, t), xs[k].1, t)
  }

  /** Exactly these items are flagged. */
  lemma {:induction false} FlaggedExactly(xs: seq<Item>, n: nat, t: Thresholds, x: Item)
    requires n <= |xs|
    ensures x in Flagged(xs, n, map[], t) <==> exists k :: 0 <= k < n && xs[k] == x && FlaggedAt(xs, k, t)
  {
    if n > 0 {
      FlaggedExactly(xs, n - 1, t, x);
      FoldPerName(xs, n - 1, t, xs[n - 1].0);
    }
  }

  lemma {:induction false} FoldPrefix(xs: seq<Item>, x: Item, n: nat, st: Stats, t: Thresholds)
    requires n <= |xs|
    ensures Fold(xs + [x], n, st, t) == Fold(xs, n, st, t)
    ensures Flagged(xs + [x], n, st, t) == Flagged(xs, n, st, t)
  {
    if n > 0 {
      FoldPrefix(xs, x, n - 1, st, t);
    }
  }

  lemma FoldSnoc(xs: seq<Item>, x: Item, st: Stats, t: Thresholds)
    ensures var before := Fold(xs, |xs|, st, t); var after := xs + [x];
      && Fold(after, |after|, st, t) == before[x.0 := Step(Get(before, x.0), x.1, t)]
      && Flagged(after, |after|, st, t) ==
         Flagged(xs, |xs|, st, t) + (if Flags(Get(before, x.0), x.1, t) then [x] else [])
  {
    FoldPrefix(xs, x, |xs|, st, t);
    assert (xs + [x])[|xs|] == x;
  }

  // ----- the contents of the ring, on values -----

  /** A slot holds item x, whose value is there or on its way. */
  ghost predicate Occupied(value: seq<Sample>, name: seq<string>, inFlight: map<nat, Sample>, i: nat, x: Item)
    requires i < |value| == |name|
  {
    && name[i] == x.0
    && value[i] == (if i in inFlight then EMPTY else x.1)
    && (i in inFlight ==> inFlight[i] == x.1)
  }

  ghost predicate Free(value: seq<Sample>, name: seq<string>, inFlight: map<nat, Sample>, i: nat)
    requires i < |value| == |name|
  {
    name[i] == "" && value[i] == EMPTY && i !in inFlight
  }

  function Slot(k: nat): (i: nat)
    ensures i < QUEUE_LEN
  {
    k % QUEUE_LEN
  }

  lemma SlotsDiffer(a: nat, b: nat)
    requires a < b < a + QUEUE_LEN
    ensures Slot(a) != Slot(b)
  {
  }

  lemma NextSlot(a: nat)
    ensures Slot(a + 1) == (Slot(a) + 1) % QUEUE_LEN
    ensures Slot(a + QUEUE_LEN) == Slot(a)
  {
  }

  /** The ring holds exactly the items from number c on, in order. */
  ghost predicate Holds(value: seq<Sample>, name: seq<string>, inFlight: map<nat, Sample>, items: seq<Item>, c: nat) {
    && |value| == |name| == QUEUE_LEN
    && c <= |items| <= c + QUEUE_LEN
    && (forall k :: 0 <= k < |items| ==> items[k].0 != "" && items[k].1 != EMPTY)
    && (forall i :: i in inFlight ==> i < QUEUE_LEN)
    && (forall k: nat :: c <= k < |items| ==> Occupied(value, name, inFlight, Slot(k), items[k]))
    && (forall k: nat :: |items| <= k < c + QUEUE_LEN ==> Free(value, name, inFlight, Slot(k)))
  }

  lemma LandKeeps(value: seq<Sample>, name: seq<string>, inFlight: map<nat, Sample>, items: seq<Item>, c: nat, i: nat)
    requires Holds(value, name, inFlight, items, c) && i in inFlight
    ensures Holds(value[i := inFlight[i]], name, inFlight - {i}, items, c)
  {
  }

  lemma EnqueueKeeps(value: seq<Sample>, name: seq<string>, inFlight: map<nat, Sample>, items: seq<Item>, c: nat,
                     x: Item)
    requires Holds(value, name, inFlight, items, c) && |items| < c + QUEUE_LEN
    requires x.0 != "" && x.1 != EMPTY
    ensures var i := Slot(|items|); Holds(value, name[i := x.0], inFlight[i := x.1], items + [x], c)
  {
    var k, i := |items|, Slot(|items|);
    var name', inFlight' := name[i := x.0], inFlight[i := x.1];
    assert Free(value, name, inFlight, i);
    forall j: nat | c <= j <= k ensures Occupied(value, name', inFlight', Slot(j), (items + [x])[j]) {
      if j < k {
        SlotsDiffer(j, k);
        assert Occupied(value, name, inFlight, Slot(j), items[j]);
      }
    }
    forall j: nat | k < j < c + QUEUE_LEN ensures Free(value, name', inFlight', Slot(j)) {
      SlotsDiffer(k, j);
      assert Free(value, name, inFlight, Slot(j));
    }
  }

  /** An empty slot at the head means an item on its way or an empty ring: full and empty are told apart
      although head equals tail in both. */
  lemma EmptyHead(value: seq<Sample>, name: seq<string>, inFlight: map<nat, Sample>, items: seq<Item>, c: nat)
    requires Holds(value, name, inFlight, items, c)
    ensures value[Slot(c)] == EMPTY || name[Slot(c)] == "" <==> Slot(c) in inFlight || c == |items|
  {
    if c < |items| {
      assert Occupied(value, name, inFlight, Slot(c), items[c]);
    } else {
      assert Free(value, name, inFlight, Slot(c));
    }
  }

  lemma FullRing(value: seq<Sample>, name: seq<string>, inFlight: map<nat, Sample>, items: seq<Item>, c: nat)
    requires Holds(value, name, inFlight, items, c)
    ensures name[Slot(|items|)] == "" <==> |items| < c + QUEUE_LEN
  {
    if |items| < c + QUEUE_LEN {
      assert Free(value, name, inFlight, Slot(|items|));
    } else {
      NextSlot(c);
      assert Occupied(value, name, inFlight, Slot(c), items[c]);
    }
  }

  lemma ConsumeKeeps(value: seq<Sample>, name: seq<string>, inFlight: map<nat, Sample>, items: seq<Item>, c: nat)
    requires Holds(value, name, inFlight, items, c) && value[Slot(c)] != EMPTY && name[Slot(c)] != ""
    ensures c < |items| && items[c] == (name[Slot(c)], value[Slot(c)])
    ensures Holds(value[Slot(c) := EMPTY], name[Slot(c) := ""], inFlight, items, c + 1)
  {
    var i := Slot(c);
    var value', name' := value[i := EMPTY], name[i := ""];
    EmptyHead(value, name, inFlight, items, c);
    assert Occupied(value, name, inFlight, i, items[c]);
    forall j: nat | c < j < |items| ensures Occupied(value', name', inFlight, Slot(j), items[j]) {
      SlotsDiffer(c, j);
      assert Occupied(value, name, inFlight, Slot(j), items[j]);
    }
    forall j: nat | |items| <= j < c + 1 + QUEUE_LEN ensures Free(value', name', inFlight, Slot(j)) {
      if j < c + QUEUE_LEN {
        SlotsDiffer(c, j);
        assert Free(value, name, inFlight, Slot(j));
      } else {
        NextSlot(c);
      }
    }
  }

  class Queue {
    var value: array<Sample>              // statistic_cpu_value
    var name: array<string>               // name_list
    var head: nat                         // head_index
    var tail: nat                         // tail_index
    var inFlight: map<nat, Sample>        // asynchronous copies that have not landed, by destination slot
    var stats: Stats                      // check_stat
    var flagged: seq<Item>                // what was handed to _abnormal_process
    const t: Thresholds
    ghost var pushed: seq<Item>           // everything the producer pushed
    ghost var drained: seq<Item>          // everything the thread read out, in the order it did

    /** What was drained is a prefix of what was pushed, the ring holds exactly the rest, in order, and
        the statistics and flags are those of the drained items taken sequentially. */
    ghost predicate Valid()
      reads this, value, name
    {
      Linked() && Tallied(drained)
    }

    ghost predicate Linked()
      reads this, value, name
    {
      && drained <= pushed
      && Holds(value[..], name[..], inFlight, pushed, |drained|)
      && head == Slot(|drained|) && tail == Slot(|pushed|)
    }

    /** The statistics and flags are those of the items taken sequentially. */
    ghost predicate Tallied(items: seq<Item>)
      reads this`stats, this`flagged
    {
      stats == Fold(items, |items|, map[], t) && flagged == Flagged(items, |items|, map[], t)
    }

    constructor (t: Thresholds)
      ensures Valid() && fresh(value) && fresh(name) && pushed == [] && drained == []
      ensures value.Length == name.Length == 1024 && inFlight == map[] && stats == map[] && flagged == []
    {
      this.t := t;
      value := new Sample[QUEUE_LEN](_ => EMPTY);
      name := new string[QUEUE_LEN](_ => "");
      head, tail, inFlight := 0, 0, map[];
      stats, flagged := map[], [];
      pushed, drained := [], [];
    }

    /** The copy into slot i reaches the host. */
    method Land(i: nat)
      requires Valid() && i in inFlight
      modifies this`inFlight, value
      ensures Valid() && inFlight == old(inFlight) - {i}
    {
      LandKeeps(value[..], name[..], inFlight, pushed, |drained|, i);
      value[i] := inFlight[i];
      inFlight := inFlight - {i};
      assert value[..] == old(value[..])[i := old(inFlight)[i]];
    }

    /** Any number of outstanding copies land, in any order; torch_npu.npu.synchronize lands them all. */
    method LandSome(all: bool)
      requires Valid()
      modifies this`inFlight, value
      ensures Valid() && inFlight.Keys <= old(inFlight.Keys) && (all ==> inFlight == map[])
    {
      var some: set<nat> :| some <= inFlight.Keys && (all ==> some == inFlight.Keys);
      while some != {}
        invariant Valid() && some <= inFlight.Keys <= old(inFlight.Keys)
        invariant all ==> some == inFlight.Keys
        decreases some
      {
        var i :| i in some;
        Land(i);
        some := some - {i};
      }
    }

    /** _detect_grad: start the copy, record the name and advance the tail; a push that fills the ring
        waits for all copies.  The slot at the tail must be free. */
    method Push(n: string, v: Sample)
      requires Valid() && name[tail] == "" && value[tail] == EMPTY
      requires n != "" && v != EMPTY
      modifies this`inFlight, this`tail, this`pushed, value, name
      ensures Valid() && pushed == old(pushed) + [(n, v)]
      ensures |pushed| == |drained| + QUEUE_LEN ==> inFlight == map[]
    {
      Enqueue(n, v);
      NextSlot(|drained|);
      if tail == head {
        LandSome(true);
      }
    }

    method Enqueue(n: string, v: Sample)
      requires Valid() && name[tail] == "" && n != "" && v != EMPTY
      modifies this`inFlight, this`tail, this`pushed, name
      ensures Valid() && pushed == old(pushed) + [(n, v)]
    {
      hide Tallied, Slot;
      FullRing(value[..], name[..], inFlight, pushed, |drained|);
      EnqueueKeeps(value[..], name[..], inFlight, pushed, |drained|, (n, v));
      NextSlot(|pushed|);
      inFlight := inFlight[tail := v];
      name[tail] := n;
      assert name[..] == old(name[..])[tail := n];
      tail := (tail + 1) % QUEUE_LEN;
      pushed := pushed + [(n, v)];
    }

    /** _silent_check on one item, and its consequences. */
    method Tally(n: string, v: Sample, ghost items: seq<Item>)
      requires Tallied(items)
      modifies this`stats, this`flagged
      ensures Tallied(items + [(n, v)])
    {
      FoldSnoc(items, (n, v), map[], t);
      var s := Get(stats, n);
      if Flags(s, v, t) {
        flagged := flagged + [(n, v)];
      }
      stats := stats[n := Step(s, v, t)];
    }

    /** One turn of the draining loop, on the name and value just read at the head. */
    method Consume(n: string, v: Sample)
      requires Valid() && n == name[head] && v == value[head] && v != EMPTY && n != ""
      modifies this`head, this`stats, this`flagged, this`drained, value, name
      ensures Valid() && drained == old(drained) + [(n, v)]
    {
      Tally(n, v, drained);
      ClearHead(n, v);
    }

    method ClearHead(ghost n: string, ghost v: Sample)
      requires Linked() && n == name[head] && v == value[head] && v != EMPTY && n != ""
      modifies this`head, this`drained, value, name
      ensures Linked() && drained == old(drained) + [(n, v)]
    {
      ConsumeKeeps(value[..], name[..], inFlight, pushed, |drained|);
      NextSlot(|drained|);
      value[head] := EMPTY;
      name[head] := "";
      assert value[..] == old(value[..])[head := EMPTY];
      assert name[..] == old(name[..])[head := ""];
      head := (head + 1) % QUEUE_LEN;
      drained := drained + [(n, v)];
    }

    /** At any time, the statistics of a name are those of that name's drained samples alone. */
    lemma StatsPerName(n: string)
      requires Valid()
      ensures Get(stats, n) == After(Samples(drained, |drained|, n), |Samples(drained, |drained|, n)|, t)
    {
      FoldPerName(drained, |drained|, t, n);
    }

    /** What was handed to _abnormal_process are the drained items that their own names' samples flag. */
    lemma FlaggedPerName(x: Item)
      requires Valid()
      ensures x in flagged <==> exists k :: 0 <= k < |drained| && drained[k] == x && FlaggedAt(drained, k, t)
    {
      FlaggedExactly(drained, |drained|, t, x);
    }

    /** _async_detect under the lock, copies landing meanwhile: it terminates, and stops only at an item
        whose copy has not landed or when everything pushed has been drained. */
    method Drain()
      requires Valid()
      modifies this`head, this`stats, this`flagged, this`drained, this`inFlight, value, name
      ensures Valid() && old(drained) <= drained && inFlight.Keys <= old(inFlight.Keys)
      ensures drained == pushed || head in inFlight
      ensures old(inFlight) == map[] ==> drained == pushed
    {
      hide Fold, Tallied, Flagged;
      var v, n := value[head], name[head];
      while v != EMPTY && n != ""
        invariant Valid() && old(drained) <= drained && inFlight.Keys <= old(inFlight.Keys)
        invariant n == name[head] && v == value[head]
        decreases |pushed| - |drained|
      {
        Consume(n, v);
        LandSome(false);
        v, n := value[head], name[head];
      }
      EmptyHead(value[..], name[..], inFlight, pushed, |drained|);
    }
  }
}
