/** Why the rounds of the barrier have to be separated: a run of two ranks that only the waits hold back. */
module BarrierHaste {
  import opened Barrier

  /** Each of the first k actions could happen if only the waits mattered. */
  ghost predicate Loose(n: nat, acts: seq<Action>, k: nat)
    requires k <= |acts| && (forall i :: 0 <= i < |acts| ==> acts[i].r < n)
  {
    k > 0 ==> Loose(n, acts, k - 1) && (acts[k - 1].Move? ==> Unblocked(StateAfter(n, acts, k - 1), acts[k - 1].r))
  }

  /** Both ranks complete round 0 up to the end of the second wait; then rank 1 alone goes on to round 1 and
      reads the sum before rank 0, whose flag is up by then, has restored the store and posted. */
  function HasteAt(k: nat): Action {
    if k == 19 then Raise(0) else if 4 <= k < 6 || 10 <= k < 19 then Move(1) else Move(0)
  }

  predicate Hasty(acts: seq<Action>) {
    |acts| == 28 && forall k :: 0 <= k < |acts| ==> acts[k] == HasteAt(k)
  }

  /** The first k of the hasty actions lead to s. */
  ghost predicate Leads(acts: seq<Action>, k: nat, s: State) {
    Hasty(acts) && k <= |acts| && Loose(2, acts, k) && StateAfter(2, acts, k) == s
  }

  ghost predicate SameRank(a: Rank, b: Rank) {
    a.phase == b.phase && a.flag == b.flag && a.posts == b.posts && a.seen == b.seen && a.done == b.done
  }

  ghost predicate Same(s: State, t: State) {
    && |s.ranks| == 2 == |t.ranks| && SameRank(s.ranks[0], t.ranks[0]) && SameRank(s.ranks[1], t.ranks[1])
    && s.checksum == t.checksum && s.counter == t.counter && s.counter2 == t.counter2
  }

  lemma {:induction false} Follow(acts: seq<Action>, k: nat, s: State, t: State)
    requires k < 28 && Leads(acts, k, s) && |s.ranks| == 2
    requires HasteAt(k).Move? ==> Unblocked(s, HasteAt(k).r)
    requires Same(Next(s, HasteAt(k)), t)
    ensures Leads(acts, k + 1, t)
  {
    assert Next(s, HasteAt(k)).ranks == t.ranks;
  }

  lemma {:induction false} From0(acts: seq<Action>)
    requires Leads(acts, 0, State([Rank(Boot, 0, [], [], 0), Rank(Idle, 0, [], [], 0)], 0, 0, 0))
    ensures Leads(acts, 3, State([Rank(Armed, 0, [0], [], 0), Rank(Idle, 0, [], [], 0)], 0, 0, 0))
  {
    hide Leads;
    Follow(acts, 0, State([Rank(Boot, 0, [], [], 0), Rank(Idle, 0, [], [], 0)], 0, 0, 0),
           State([Rank(Idle, 0, [], [], 0), Rank(Idle, 0, [], [], 0)], 0, 0, 2));
    Follow(acts, 1, State([Rank(Idle, 0, [], [], 0), Rank(Idle, 0, [], [], 0)], 0, 0, 2),
           State([Rank(Posted, 0, [0], [], 0), Rank(Idle, 0, [], [], 0)], 0, 0, 2));
    Follow(acts, 2, State([Rank(Posted, 0, [0], [], 0), Rank(Idle, 0, [], [], 0)], 0, 0, 2),
           State([Rank(Armed, 0, [0], [], 0), Rank(Idle, 0, [], [], 0)], 0, 0, 0));
  }

  lemma {:induction false} From3(acts: seq<Action>)
    requires Leads(acts, 3, State([Rank(Armed, 0, [0], [], 0), Rank(Idle, 0, [], [], 0)], 0, 0, 0))
    ensures Leads(acts, 6, State([Rank(Gathering, 0, [0], [], 0), Rank(Gathering, 0, [0], [], 0)], 0, 2, 0))
  {
    hide Leads;
    Follow(acts, 3, State([Rank(Armed, 0, [0], [], 0), Rank(Idle, 0, [], [], 0)], 0, 0, 0),
           State([Rank(Gathering, 0, [0], [], 0), Rank(Idle, 0, [], [], 0)], 0, 1, 0));
    Follow(acts, 4, State([Rank(Gathering, 0, [0], [], 0), Rank(Idle, 0, [], [], 0)], 0, 1, 0),
           State([Rank(Gathering, 0, [0], [], 0), Rank(Posted, 0, [0], [], 0)], 0, 1, 0));
    Follow(acts, 5, State([Rank(Gathering, 0, [0], [], 0), Rank(Posted, 0, [0], [], 0)], 0, 1, 0),
           State([Rank(Gathering, 0, [0], [], 0), Rank(Gathering, 0, [0], [], 0)], 0, 2, 0));
  }

  lemma {:induction false} From6(acts: seq<Action>)
    requires Leads(acts, 6, State([Rank(Gathering, 0, [0], [], 0), Rank(Gathering, 0, [0], [], 0)], 0, 2, 0))
    ensures Leads(acts, 9, State([Rank(Acked(0), 0, [0], [0], 0), Rank(Gathering, 0, [0], [], 0)], 0, 2, 0))
  {
    hide Leads;
    Follow(acts, 6, State([Rank(Gathering, 0, [0], [], 0), Rank(Gathering, 0, [0], [], 0)], 0, 2, 0),
           State([Rank(Gathered, 0, [0], [], 0), Rank(Gathering, 0, [0], [], 0)], 0, 2, 0));
    Follow(acts, 7, State([Rank(Gathered, 0, [0], [], 0), Rank(Gathering, 0, [0], [], 0)], 0, 2, 0),
           State([Rank(Got(0), 0, [0], [0], 0), Rank(Gathering, 0, [0], [], 0)], 0, 2, 0));
    Follow(acts, 8, State([Rank(Got(0), 0, [0], [0], 0), Rank(Gathering, 0, [0], [], 0)], 0, 2, 0),
           State([Rank(Acked(0), 0, [0], [0], 0), Rank(Gathering, 0, [0], [], 0)], 0, 2, 0));
  }

  lemma {:induction false} From9(acts: seq<Action>)
    requires Leads(acts, 9, State([Rank(Acked(0), 0, [0], [0], 0), Rank(Gathering, 0, [0], [], 0)], 0, 2, 0))
    ensures Leads(acts, 12, State([Rank(Leaving(0), 0, [0], [0], 0), Rank(Got(0), 0, [0], [0], 0)], 0, 2, 1))
  {
    hide Leads;
    Follow(acts, 9, State([Rank(Acked(0), 0, [0], [0], 0), Rank(Gathering, 0, [0], [], 0)], 0, 2, 0),
           State([Rank(Leaving(0), 0, [0], [0], 0), Rank(Gathering, 0, [0], [], 0)], 0, 2, 1));
    Follow(acts, 10, State([Rank(Leaving(0), 0, [0], [0], 0), Rank(Gathering, 0, [0], [], 0)], 0, 2, 1),
           State([Rank(Leaving(0), 0, [0], [0], 0), Rank(Gathered, 0, [0], [], 0)], 0, 2, 1));
    Follow(acts, 11, State([Rank(Leaving(0), 0, [0], [0], 0), Rank(Gathered, 0, [0], [], 0)], 0, 2, 1),
           State([Rank(Leaving(0), 0, [0], [0], 0), Rank(Got(0), 0, [0], [0], 0)], 0, 2, 1));
  }

  lemma {:induction false} From12(acts: seq<Action>)
    requires Leads(acts, 12, State([Rank(Leaving(0), 0, [0], [0], 0), Rank(Got(0), 0, [0], [0], 0)], 0, 2, 1))
    ensures Leads(acts, 14, State([Rank(Leaving(0), 0, [0], [0], 0), Rank(Leaving(0), 0, [0], [0], 0)], 0, 2, 2))
  {
    hide Leads;
    Follow(acts, 12, State([Rank(Leaving(0), 0, [0], [0], 0), Rank(Got(0), 0, [0], [0], 0)], 0, 2, 1),
           State([Rank(Leaving(0), 0, [0], [0], 0), Rank(Acked(0), 0, [0], [0], 0)], 0, 2, 1));
    Follow(acts, 13, State([Rank(Leaving(0), 0, [0], [0], 0), Rank(Acked(0), 0, [0], [0], 0)], 0, 2, 1),
           State([Rank(Leaving(0), 0, [0], [0], 0), Rank(Leaving(0), 0, [0], [0], 0)], 0, 2, 2));
  }

  lemma {:induction false} From14(acts: seq<Action>)
    requires Leads(acts, 14, State([Rank(Leaving(0), 0, [0], [0], 0), Rank(Leaving(0), 0, [0], [0], 0)], 0, 2, 2))
    ensures Leads(acts, 16, State([Rank(Leaving(0), 0, [0], [0], 0), Rank(Posted, 0, [0, 0], [0], 1)], 0, 2, 2))
  {
    hide Leads;
    Follow(acts, 14, State([Rank(Leaving(0), 0, [0], [0], 0), Rank(Leaving(0), 0, [0], [0], 0)], 0, 2, 2),
           State([Rank(Leaving(0), 0, [0], [0], 0), Rank(Idle, 0, [0], [0], 1)], 0, 2, 2));
    Follow(acts, 15, State([Rank(Leaving(0), 0, [0], [0], 0), Rank(Idle, 0, [0], [0], 1)], 0, 2, 2),
           State([Rank(Leaving(0), 0, [0], [0], 0), Rank(Posted, 0, [0, 0], [0], 1)], 0, 2, 2));
  }

  lemma {:induction false} From16(acts: seq<Action>)
    requires Leads(acts, 16, State([Rank(Leaving(0), 0, [0], [0], 0), Rank(Posted, 0, [0, 0], [0], 1)], 0, 2, 2))
    ensures Leads(acts, 18, State([Rank(Leaving(0), 0, [0], [0], 0), Rank(Gathered, 0, [0, 0], [0], 1)], 0, 3, 2))
  {
    hide Leads;
    Follow(acts, 16, State([Rank(Leaving(0), 0, [0], [0], 0), Rank(Posted, 0, [0, 0], [0], 1)], 0, 2, 2),
           State([Rank(Leaving(0), 0, [0], [0], 0), Rank(Gathering, 0, [0, 0], [0], 1)], 0, 3, 2));
    Follow(acts, 17, State([Rank(Leaving(0), 0, [0], [0], 0), Rank(Gathering, 0, [0, 0], [0], 1)], 0, 3, 2),
           State([Rank(Leaving(0), 0, [0], [0], 0), Rank(Gathered, 0, [0, 0], [0], 1)], 0, 3, 2));
  }

  lemma {:induction false} From18(acts: seq<Action>)
    requires Leads(acts, 18, State([Rank(Leaving(0), 0, [0], [0], 0), Rank(Gathered, 0, [0, 0], [0], 1)], 0, 3, 2))
    ensures Leads(acts, 20, State([Rank(Leaving(0), 1, [0], [0], 0), Rank(Got(0), 0, [0, 0], [0, 0], 1)], 0, 3, 2))
  {
    hide Leads;
    Follow(acts, 18, State([Rank(Leaving(0), 0, [0], [0], 0), Rank(Gathered, 0, [0, 0], [0], 1)], 0, 3, 2),
           State([Rank(Leaving(0), 0, [0], [0], 0), Rank(Got(0), 0, [0, 0], [0, 0], 1)], 0, 3, 2));
    Follow(acts, 19, State([Rank(Leaving(0), 0, [0], [0], 0), Rank(Got(0), 0, [0, 0], [0, 0], 1)], 0, 3, 2),
           State([Rank(Leaving(0), 1, [0], [0], 0), Rank(Got(0), 0, [0, 0], [0, 0], 1)], 0, 3, 2));
  }

  lemma {:induction false} From20(acts: seq<Action>)
    requires Leads(acts, 20, State([Rank(Leaving(0), 1, [0], [0], 0), Rank(Got(0), 0, [0, 0], [0, 0], 1)], 0, 3, 2))
    ensures Leads(acts, 22, State([Rank(Settled, 1, [0], [0], 0), Rank(Got(0), 0, [0, 0], [0, 0], 1)], 0, 3, 2))
  {
    hide Leads;
    Follow(acts, 20, State([Rank(Leaving(0), 1, [0], [0], 0), Rank(Got(0), 0, [0, 0], [0, 0], 1)], 0, 3, 2),
           State([Rank(Left(0), 1, [0], [0], 0), Rank(Got(0), 0, [0, 0], [0, 0], 1)], 0, 3, 2));
    Follow(acts, 21, State([Rank(Left(0), 1, [0], [0], 0), Rank(Got(0), 0, [0, 0], [0, 0], 1)], 0, 3, 2),
           State([Rank(Settled, 1, [0], [0], 0), Rank(Got(0), 0, [0, 0], [0, 0], 1)], 0, 3, 2));
  }

  lemma {:induction false} From22(acts: seq<Action>)
    requires Leads(acts, 22, State([Rank(Settled, 1, [0], [0], 0), Rank(Got(0), 0, [0, 0], [0, 0], 1)], 0, 3, 2))
    ensures Leads(acts, 24, State([Rank(Posted, 1, [0, 1], [0], 1), Rank(Got(0), 0, [0, 0], [0, 0], 1)], 1, 1, 2))
  {
    hide Leads;
    Follow(acts, 22, State([Rank(Settled, 1, [0], [0], 0), Rank(Got(0), 0, [0, 0], [0, 0], 1)], 0, 3, 2),
           State([Rank(Idle, 1, [0], [0], 1), Rank(Got(0), 0, [0, 0], [0, 0], 1)], 0, 1, 2));
    Follow(acts, 23, State([Rank(Idle, 1, [0], [0], 1), Rank(Got(0), 0, [0, 0], [0, 0], 1)], 0, 1, 2),
           State([Rank(Posted, 1, [0, 1], [0], 1), Rank(Got(0), 0, [0, 0], [0, 0], 1)], 1, 1, 2));
  }

  lemma {:induction false} From24(acts: seq<Action>)
    requires Leads(acts, 24, State([Rank(Posted, 1, [0, 1], [0], 1), Rank(Got(0), 0, [0, 0], [0, 0], 1)], 1, 1, 2))
    ensures Leads(acts, 26, State([Rank(Gathering, 1, [0, 1], [0], 1), Rank(Got(0), 0, [0, 0], [0, 0], 1)], 1, 2, 0))
  {
    hide Leads;
    Follow(acts, 24, State([Rank(Posted, 1, [0, 1], [0], 1), Rank(Got(0), 0, [0, 0], [0, 0], 1)], 1, 1, 2),
           State([Rank(Armed, 1, [0, 1], [0], 1), Rank(Got(0), 0, [0, 0], [0, 0], 1)], 1, 1, 0));
    Follow(acts, 25, State([Rank(Armed, 1, [0, 1], [0], 1), Rank(Got(0), 0, [0, 0], [0, 0], 1)], 1, 1, 0),
           State([Rank(Gathering, 1, [0, 1], [0], 1), Rank(Got(0), 0, [0, 0], [0, 0], 1)], 1, 2, 0));
  }

  lemma {:induction false} From26(acts: seq<Action>)
    requires Leads(acts, 26, State([Rank(Gathering, 1, [0, 1], [0], 1), Rank(Got(0), 0, [0, 0], [0, 0], 1)], 1, 2, 0))
    ensures Leads(acts, 28, State([Rank(Got(1), 1, [0, 1], [0, 1], 1), Rank(Got(0), 0, [0, 0], [0, 0], 1)], 1, 2, 0))
  {
    hide Leads;
    Follow(acts, 26, State([Rank(Gathering, 1, [0, 1], [0], 1), Rank(Got(0), 0, [0, 0], [0, 0], 1)], 1, 2, 0),
           State([Rank(Gathered, 1, [0, 1], [0], 1), Rank(Got(0), 0, [0, 0], [0, 0], 1)], 1, 2, 0));
    Follow(acts, 27, State([Rank(Gathered, 1, [0, 1], [0], 1), Rank(Got(0), 0, [0, 0], [0, 0], 1)], 1, 2, 0),
           State([Rank(Got(1), 1, [0, 1], [0, 1], 1), Rank(Got(0), 0, [0, 0], [0, 0], 1)], 1, 2, 0));
  }

  lemma {:induction false} Start(acts: seq<Action>)
    requires Hasty(acts)
    ensures Leads(acts, 0, State([Rank(Boot, 0, [], [], 0), Rank(Idle, 0, [], [], 0)], 0, 0, 0))
  {
    assert Initial(2).ranks == [Rank(Boot, 0, [], [], 0), Rank(Idle, 0, [], [], 0)];
  }

  /** Without round separation two ranks can read different sums in one round: rank 0 posted a raised flag and
      reads 1, rank 1 has already read 0. */
  lemma {:induction false} WithoutSeparationRanksDisagree(acts: seq<Action>)
    requires Hasty(acts)
    ensures Loose(2, acts, |acts|)
    ensures var ranks := StateAfter(2, acts, |acts|).ranks;
      && ranks[0].posts == [0, 1] && ranks[1].posts == [0, 0]
      && ranks[0].seen == [0, 1] && ranks[1].seen == [0, 0]
  {
    Start(acts);
    From0(acts);
    From3(acts);
    From6(acts);
    From9(acts);
    From12(acts);
    From14(acts);
    From16(acts);
    From18(acts);
    From20(acts);
    From22(acts);
    From24(acts);
    From26(acts);
  }
}
