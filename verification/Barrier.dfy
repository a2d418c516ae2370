/** The two-counter barrier over the shared store (_tcp_comm_checksum_state in torch_npu/asd/asd.py), as a
    state machine in which any rank may take the next store operation. */
module Barrier {

  /** Where a rank is in its loop; g is the global_state it read. */
  datatype Phase =
    | Boot                 // rank 0 has not yet set counter2
    | Idle                 // about to add its flag to checksum_state
    | Posted               // flag added
    | Armed                // rank 0: world_size taken from counter2
    | Gathering            // 1 added to counter, waiting for world_size
    | Gathered             // saw counter >= world_size
    | Got(g: int)          // read checksum_state
    | Acked(g: int)        // flag cleared if g is not 0
    | Leaving(g: int)      // 1 added to counter2, waiting for world_size
    | Left(g: int)         // rank 0: saw counter2 >= world_size
    | Settled              // rank 0: g taken from checksum_state

  /** One process: its checksum_state flag, and what it has posted and read, round by round. */
  datatype Rank = Rank(phase: Phase, flag: int, posts: seq<int>, seen: seq<int>, done: nat)

  datatype State = State(ranks: seq<Rank>, checksum: int, counter: int, counter2: int)

  /** A rank takes its next step, or the detector thread of a rank raises its flag. */
  datatype Action = Move(r: nat) | Raise(r: nat)

  function Initial(n: nat): State {
    State(seq(n, i => Rank(if i == 0 then Boot else Idle, 0, [], [], 0)), 0, 0, 0)
  }

  // ----- the steps -----

  /** The round separation that the sleep at the end of the loop stands for: nobody starts a round before
      all ranks have finished the rounds this rank has finished. */
  ghost predicate Separated(s: State, r: nat)
    requires r < |s.ranks|
  {
    forall q :: 0 <= q < |s.ranks| ==> s.ranks[q].done >= s.ranks[r].done
  }

  /** The waits of the loop. */
  predicate Unblocked(s: State, r: nat)
    requires r < |s.ranks|
  {
    var p := s.ranks[r].phase;
    && (p == Gathering ==> s.counter >= |s.ranks|)
    && (p.Leaving? ==> s.counter2 >= |s.ranks|)
  }

  ghost predicate Enabled(s: State, r: nat)
    requires r < |s.ranks|
  {
    Unblocked(s, r) && (s.ranks[r].phase == Idle ==> Separated(s, r))
  }

  /** The rank after its next step, when checksum_state is c. */
  function MoveRank(k: Rank, zero: bool, c: int): Rank {
    match k.phase
    case Boot => k.(phase := Idle)
    case Idle => k.(phase := Posted, posts := k.posts + [k.flag])
    case Posted => k.(phase := if zero then Armed else Gathering)
    case Armed => k.(phase := Gathering)
    case Gathering => k.(phase := Gathered)
    case Gathered => k.(phase := Got(c), seen := k.seen + [c])
    case Got(g) => k.(phase := Acked(g), flag := if g != 0 then 0 else k.flag)
    case Acked(g) => k.(phase := Leaving(g))
    case Leaving(g) => if zero then k.(phase := Left(g)) else k.(phase := Idle, done := k.done + 1)
    case Left(g) => k.(phase := Settled)
    case Settled => k.(phase := Idle, done := k.done + 1)
  }

  /** The store operation of a rank's next step. */
  function MoveStore(s: State, k: Rank, zero: bool): State {
    var n := |s.ranks|;
    match k.phase
    case Boot => s.(counter2 := s.counter2 + n)
    case Idle => s.(checksum := s.checksum + k.flag)
    case Posted => if zero then s.(counter2 := s.counter2 - n) else s.(counter := s.counter + 1)
    case Armed => s.(counter := s.counter + 1)
    case Acked(_) => s.(counter2 := s.counter2 + 1)
    case Left(g) => s.(checksum := s.checksum - g)
    case Settled => s.(counter := s.counter - n)
    case _ => s
  }

  function Next(s: State, a: Action): State
    requires a.r < |s.ranks|
  {
    var k := s.ranks[a.r];
    if a.Raise? then s.(ranks := s.ranks[a.r := k.(flag := 1)])
    else MoveStore(s, k, a.r == 0).(ranks := s.ranks[a.r := MoveRank(k, a.r == 0, s.checksum)])
  }

  /** Action a can happen in s: raising always, moving when not waiting. */
  ghost predicate Can(s: State, a: Action) {
    a.r < |s.ranks| && (a.Move? ==> Enabled(s, a.r))
  }

  // ----- runs -----

  /** The state after the first k actions. */
  ghost function StateAfter(n: nat, acts: seq<Action>, k: nat): (s: State)
    requires k <= |acts| && (forall i :: 0 <= i < |acts| ==> acts[i].r < n)
    ensures |s.ranks| == n
  {
    if k == 0 then Initial(n) else Next(StateAfter(n, acts, k - 1), acts[k - 1])
  }

  /** Each of the first k actions could happen when it did. */
  ghost predicate Legal(n: nat, acts: seq<Action>, k: nat)
    requires k <= |acts| && (forall i :: 0 <= i < |acts| ==> acts[i].r < n)
  {
    k > 0 ==> Legal(n, acts, k - 1) && Can(StateAfter(n, acts, k - 1), acts[k - 1])
  }

  ghost predicate Run(n: nat, acts: seq<Action>) {
    (forall i :: 0 <= i < |acts| ==> acts[i].r < n) && Legal(n, acts, |acts|)
  }

  // ----- sums -----

  function PrefixSum(xs: seq<int>, n: nat): int
    requires n <= |xs|
  {
    if n == 0 then 0 else PrefixSum(xs, n - 1) + xs[n - 1]
  }

  function Total(xs: seq<int>): int {
    PrefixSum(xs, |xs|)
  }

  lemma {:induction false} SumUpdate(xs: seq<int>, i: nat, v: int, n: nat)
    requires i < |xs| && n <= |xs|
    ensures PrefixSum(xs[i := v], n) == PrefixSum(xs, n) + (if i < n then v - xs[i] else 0)
  {
    if n > 0 {
      SumUpdate(xs, i, v, n - 1);
    }
  }

  /** Sums of terms between 0 and 1. */
  lemma {:induction false} SumOfMarks(xs: seq<int>, n: nat)
    requires n <= |xs| && (forall i :: 0 <= i < |xs| ==> 0 <= xs[i] <= 1)
    ensures 0 <= PrefixSum(xs, n) <= n
    ensures PrefixSum(xs, n) == n <==> forall i :: 0 <= i < n ==> xs[i] == 1
    ensures PrefixSum(xs, n) > 0 <==> exists i :: 0 <= i < n && xs[i] == 1
  {
    if n > 0 {
      SumOfMarks(xs, n - 1);
    }
  }

  // ----- the invariant -----

  /** How far a rank is in round m; 10 when it has finished it. */
  function Stage(k: Rank, m: nat): (g: nat)
    ensures g <= 10
  {
    if k.done > m then 10
    else match k.phase
      case Boot => 0
      case Idle => 0
      case Posted => 1
      case Armed => 2
      case Gathering => 3
      case Gathered => 4
      case Got(_) => 5
      case Acked(_) => 6
      case Leaving(_) => 7
      case Left(_) => 8
      case Settled => 9
  }

  function Mark(k: Rank, m: nat, g: nat): int {
    if Stage(k, m) >= g then 1 else 0
  }

  /** What a rank has posted in round m, 0 before it does. */
  function PostOf(k: Rank, m: nat): int {
    if m < |k.posts| then k.posts[m] else 0
  }

  /** One for each rank that has reached stage g in round m. */
  function Reached(ranks: seq<Rank>, m: nat, g: nat): (xs: seq<int>)
    ensures |xs| == |ranks| && (forall i :: 0 <= i < |xs| ==> 0 <= xs[i] <= 1)
  {
    seq(|ranks|, i requires 0 <= i < |ranks| => Mark(ranks[i], m, g))
  }

  function Posts(ranks: seq<Rank>, m: nat): (xs: seq<int>)
    ensures |xs| == |ranks|
  {
    seq(|ranks|, i requires 0 <= i < |ranks| => PostOf(ranks[i], m))
  }

  /** How many ranks have reached stage g of round m. */
  function HowMany(ranks: seq<Rank>, m: nat, g: nat): int {
    Total(Reached(ranks, m, g))
  }

  /** The sum of what the ranks posted in round m. */
  function RoundSum(ranks: seq<Rank>, m: nat): int {
    Total(Posts(ranks, m))
  }

  lemma HowManyUpdate(ranks: seq<Rank>, r: nat, k: Rank, m: nat, g: nat)
    requires r < |ranks|
    ensures HowMany(ranks[r := k], m, g) == HowMany(ranks, m, g) + Mark(k, m, g) - Mark(ranks[r], m, g)
  {
    assert Reached(ranks[r := k], m, g) == Reached(ranks, m, g)[r := Mark(k, m, g)];
    SumUpdate(Reached(ranks, m, g), r, Mark(k, m, g), |ranks|);
  }

  lemma RoundSumUpdate(ranks: seq<Rank>, r: nat, k: Rank, m: nat)
    requires r < |ranks|
    ensures RoundSum(ranks[r := k], m) == RoundSum(ranks, m) + PostOf(k, m) - PostOf(ranks[r], m)
  {
    assert Posts(ranks[r := k], m) == Posts(ranks, m)[r := PostOf(k, m)];
    SumUpdate(Posts(ranks, m), r, PostOf(k, m), |ranks|);
  }

  /** Nobody or everybody. */
  lemma HowManyIs(ranks: seq<Rank>, m: nat, g: nat)
    ensures 0 <= HowMany(ranks, m, g) <= |ranks|
    ensures HowMany(ranks, m, g) == |ranks| <==> forall q :: 0 <= q < |ranks| ==> Stage(ranks[q], m) >= g
    ensures HowMany(ranks, m, g) == 0 <==> forall q :: 0 <= q < |ranks| ==> Stage(ranks[q], m) < g
  {
    var xs := Reached(ranks, m, g);
    SumOfMarks(xs, |ranks|);
    assert forall q :: 0 <= q < |ranks| ==> (xs[q] == 1 <==> Stage(ranks[q], m) >= g);
  }

  ghost predicate RankOK(k: Rank, m: nat, zero: bool) {
    var g := Stage(k, m);
    && (k.done == m || (k.done == m + 1 && k.phase == Idle))
    && (k.phase in {Boot, Armed, Settled} || k.phase.Left? ==> zero)
    && (k.phase == Boot ==> m == 0)
    && |k.posts| == m + (if g >= 1 then 1 else 0)
    && |k.seen| == m + (if g >= 5 then 1 else 0)
    && k.flag in {0, 1} && (forall i :: 0 <= i < |k.posts| ==> k.posts[i] in {0, 1})
    && (k.phase.Got? || k.phase.Acked? || k.phase.Leaving? || k.phase.Left? ==> k.phase.g == k.seen[m])
  }

  ghost predicate RanksOK(ranks: seq<Rank>, m: nat) {
    forall q :: 0 <= q < |ranks| ==> RankOK(ranks[q], m, q == 0)
  }

  /** What each rank has read is the sum of what all ranks posted in that round. */
  ghost predicate Agreement(ranks: seq<Rank>) {
    forall q, i :: 0 <= q < |ranks| && 0 <= i < |ranks[q].seen| ==> ranks[q].seen[i] == RoundSum(ranks, i)
  }

  /** The store in round m. */
  ghost predicate StoreOK(s: State, m: nat)
    requires |s.ranks| > 0
  {
    var zero := Stage(s.ranks[0], m);
    && s.checksum == (if zero >= 9 then 0 else RoundSum(s.ranks, m))
    && s.counter == (if zero == 10 then 0 else HowMany(s.ranks, m, 3))
    && s.counter2 == (if s.ranks[0].phase == Boot then 0
                      else if zero <= 1 then |s.ranks|
                      else HowMany(s.ranks, m, 7))
  }

  /** Nobody passes a wait before everybody has come to it. */
  ghost predicate Ordered(ranks: seq<Rank>, m: nat) {
    forall q, r :: 0 <= q < |ranks| && 0 <= r < |ranks| ==>
      && (Stage(ranks[q], m) >= 4 ==> Stage(ranks[r], m) >= 3)
      && (Stage(ranks[q], m) >= 8 ==> Stage(ranks[r], m) >= 7)
  }

  ghost predicate InRound(s: State, m: nat) {
    |s.ranks| > 0 && RanksOK(s.ranks, m) && Ordered(s.ranks, m) && StoreOK(s, m) && Agreement(s.ranks)
  }

  /** Every rank has finished round m. */
  ghost predicate Finished(s: State, m: nat) {
    forall q :: 0 <= q < |s.ranks| ==> s.ranks[q].done == m + 1
  }

  lemma NoPosts(ranks: seq<Rank>, m: nat)
    requires forall q :: 0 <= q < |ranks| ==> |ranks[q].posts| <= m
    ensures RoundSum(ranks, m) == 0
  {
    var xs := Posts(ranks, m);
    SumOfMarks(xs, |xs|);
    assert forall q :: 0 <= q < |ranks| ==> xs[q] == 0;
  }

  lemma InitialInRound(n: nat)
    requires n > 0
    ensures InRound(Initial(n), 0)
  {
    NoPosts(Initial(n).ranks, 0);
    HowManyIs(Initial(n).ranks, 0, 3);
  }

  /** Between rounds the store is back to (0, 0, world_size), and the next round starts as the first did. */
  lemma RoundTurnsOver(s: State, m: nat)
    requires InRound(s, m) && Finished(s, m)
    ensures s.checksum == 0 && s.counter == 0 && s.counter2 == |s.ranks|
    ensures InRound(s, m + 1)
  {
    assert RankOK(s.ranks[0], m, true);
    HowManyIs(s.ranks, m, 7);
    forall q | 0 <= q < |s.ranks| ensures RankOK(s.ranks[q], m + 1, q == 0) && Stage(s.ranks[q], m + 1) == 0 {
      assert RankOK(s.ranks[q], m, q == 0);
    }
    NoPosts(s.ranks, m + 1);
    HowManyIs(s.ranks, m + 1, 3);
  }

  // ----- one step within a round -----

  lemma MoveRankOK(k: Rank, m: nat, zero: bool, c: int)
    requires RankOK(k, m, zero) && k.done == m
    ensures RankOK(MoveRank(k, zero, c), m, zero)
    ensures Stage(MoveRank(k, zero, c), m) >= Stage(k, m)
    ensures k.phase != Boot ==> Stage(MoveRank(k, zero, c), m) > Stage(k, m)
  {
  }

  /** A rank gets past a wait only when everybody has come to it. */
  lemma WaitEndsWhenAllCame(s: State, m: nat, r: nat)
    requires |s.ranks| > 0 && StoreOK(s, m) && r < |s.ranks| && Unblocked(s, r) && s.ranks[r].done == m
    requires RankOK(s.ranks[0], m, true)
    requires Stage(s.ranks[r], m) >= 4 ==> Stage(s.ranks[0], m) >= 3
    ensures s.ranks[r].phase == Gathering ==> forall q :: 0 <= q < |s.ranks| ==> Stage(s.ranks[q], m) >= 3
    ensures s.ranks[r].phase.Leaving? ==> forall q :: 0 <= q < |s.ranks| ==> Stage(s.ranks[q], m) >= 7
  {
    HowManyIs(s.ranks, m, 3);
    HowManyIs(s.ranks, m, 7);
  }

  lemma MoveOrdered(s: State, m: nat, r: nat)
    requires InRound(s, m) && r < |s.ranks| && s.ranks[r].done == m && Unblocked(s, r)
    ensures Ordered(s.ranks[r := MoveRank(s.ranks[r], r == 0, s.checksum)], m)
  {
    hide StoreOK, RankOK, Mark, RoundSum;
    var k := s.ranks[r];
    var k' := MoveRank(k, r == 0, s.checksum);
    assert RankOK(k, m, r == 0);
    WaitEndsWhenAllCame(s, m, r);
    assert Stage(k', m) >= Stage(k, m);
    assert Stage(k', m) >= 4 ==> Stage(k, m) >= 4 || k.phase == Gathering;
    assert Stage(k', m) >= 8 ==> Stage(k, m) >= 8 || k.phase.Leaving?;
  }

  lemma MoveChecksumOK(s: State, m: nat, r: nat)
    requires r < |s.ranks| && s.ranks[r].done == m
    requires RankOK(s.ranks[r], m, r == 0) && RankOK(s.ranks[0], m, true) && StoreOK(s, m)
    requires Stage(s.ranks[0], m) >= 8 ==> Stage(s.ranks[r], m) >= 7
    requires s.ranks[r].phase.Left? ==> s.ranks[r].phase.g == RoundSum(s.ranks, m)
    ensures var s' := Next(s, Move(r));
      s'.checksum == if Stage(s'.ranks[0], m) >= 9 then 0 else RoundSum(s'.ranks, m)
  {
    RoundSumUpdate(s.ranks, r, MoveRank(s.ranks[r], r == 0, s.checksum), m);
  }

  lemma MoveCounterOK(s: State, m: nat, r: nat)
    requires r < |s.ranks| && s.ranks[r].done == m
    requires RankOK(s.ranks[r], m, r == 0) && RankOK(s.ranks[0], m, true) && StoreOK(s, m)
    requires Stage(s.ranks[0], m) >= 8 ==> forall q :: 0 <= q < |s.ranks| ==> Stage(s.ranks[q], m) >= 7
    ensures var s' := Next(s, Move(r));
      s'.counter == if Stage(s'.ranks[0], m) == 10 then 0 else HowMany(s'.ranks, m, 3)
  {
    HowManyUpdate(s.ranks, r, MoveRank(s.ranks[r], r == 0, s.checksum), m, 3);
    HowManyIs(s.ranks, m, 3);
  }

  lemma MoveCounter2OK(s: State, m: nat, r: nat)
    requires r < |s.ranks| && s.ranks[r].done == m
    requires RankOK(s.ranks[r], m, r == 0) && RankOK(s.ranks[0], m, true) && StoreOK(s, m)
    requires Stage(s.ranks[0], m) < 3 ==> forall q :: 0 <= q < |s.ranks| ==> Stage(s.ranks[q], m) < 4
    ensures var s' := Next(s, Move(r));
      s'.counter2 == if s'.ranks[0].phase == Boot then 0
                     else if Stage(s'.ranks[0], m) <= 1 then |s'.ranks|
                     else HowMany(s'.ranks, m, 7)
  {
    hide PrefixSum, HowMany, Posts;
    HowManyUpdate(s.ranks, r, MoveRank(s.ranks[r], r == 0, s.checksum), m, 7);
    HowManyIs(s.ranks, m, 7);
  }

  lemma MoveStoreOK(s: State, m: nat, r: nat)
    requires InRound(s, m) && r < |s.ranks| && s.ranks[r].done == m
    ensures StoreOK(Next(s, Move(r)), m)
  {
    assert RankOK(s.ranks[r], m, r == 0) && RankOK(s.ranks[0], m, true);
    MoveChecksumOK(s, m, r);
    MoveCounterOK(s, m, r);
    MoveCounter2OK(s, m, r);
  }

  lemma MoveAgreement(s: State, m: nat, r: nat)
    requires InRound(s, m) && r < |s.ranks| && s.ranks[r].done == m && Enabled(s, r)
    ensures Agreement(Next(s, Move(r)).ranks)
  {
    hide PrefixSum, HowMany, Posts;
    var k := s.ranks[r];
    var k' := MoveRank(k, r == 0, s.checksum);
    var ranks' := s.ranks[r := k'];
    assert RankOK(k, m, r == 0);
    forall q, i | 0 <= q < |ranks'| && 0 <= i < |ranks'[q].seen|
      ensures ranks'[q].seen[i] == RoundSum(ranks', i)
    {
      assert RankOK(s.ranks[q], m, q == 0);
      RoundSumUpdate(s.ranks, r, k', i);
    }
  }

  lemma MoveKeepsRound(s: State, m: nat, r: nat)
    requires InRound(s, m) && r < |s.ranks| && s.ranks[r].done == m && Enabled(s, r)
    ensures InRound(Next(s, Move(r)), m)
  {
    assert RankOK(s.ranks[r], m, r == 0);
    MoveRankOK(s.ranks[r], m, r == 0, s.checksum);
    MoveOrdered(s, m, r);
    MoveStoreOK(s, m, r);
    MoveAgreement(s, m, r);
  }

  lemma RaiseKeepsRound(s: State, m: nat, r: nat)
    requires InRound(s, m) && r < |s.ranks|
    ensures InRound(Next(s, Raise(r)), m)
  {
    hide PrefixSum, RoundSum;
    var k := s.ranks[r].(flag := 1);
    var ranks' := s.ranks[r := k];
    assert RankOK(s.ranks[r], m, r == 0);
    forall i: nat ensures RoundSum(ranks', i) == RoundSum(s.ranks, i) {
      RoundSumUpdate(s.ranks, r, k, i);
    }
    HowManyUpdate(s.ranks, r, k, m, 3);
    HowManyUpdate(s.ranks, r, k, m, 7);
  }

  /** The round a rank that can move is in; the next one when everybody has finished. */
  lemma RoundOf(s: State, m: nat, r: nat) returns (now: nat)
    requires InRound(s, m) && r < |s.ranks| && Enabled(s, r)
    ensures m <= now <= m + 1 && InRound(s, now) && s.ranks[r].done == now
  {
    now := m;
    assert RankOK(s.ranks[r], m, r == 0);
    if s.ranks[r].done == m + 1 {
      forall q | 0 <= q < |s.ranks| ensures s.ranks[q].done == m + 1 {
        assert RankOK(s.ranks[q], m, q == 0);
      }
      RoundTurnsOver(s, m);
      now := m + 1;
    }
  }

  /** A step stays in the round, or begins the next one. */
  lemma StepKeepsRound(s: State, m: nat, a: Action) returns (now: nat)
    requires InRound(s, m) && Can(s, a)
    ensures m <= now <= m + 1 && InRound(Next(s, a), now)
  {
    if a.Raise? {
      now := m;
      RaiseKeepsRound(s, m, a.r);
    } else {
      now := RoundOf(s, m, a.r);
      MoveKeepsRound(s, now, a.r);
    }
  }

  lemma {:induction false} RunKeepsRound(n: nat, acts: seq<Action>, k: nat) returns (m: nat)
    requires n > 0 && k <= |acts| && (forall i :: 0 <= i < |acts| ==> acts[i].r < n) && Legal(n, acts, k)
    ensures InRound(StateAfter(n, acts, k), m)
  {
    if k == 0 {
      InitialInRound(n);
      m := 0;
    } else {
      var before := RunKeepsRound(n, acts, k - 1);
      m := StepKeepsRound(StateAfter(n, acts, k - 1), before, acts[k - 1]);
    }
  }

  // ----- safety over all runs -----

  ghost function End(n: nat, acts: seq<Action>): (s: State)
    requires forall i :: 0 <= i < |acts| ==> acts[i].r < n
    ensures |s.ranks| == n
  {
    StateAfter(n, acts, |acts|)
  }

  /** In every run, whatever a rank has read in round i was read after every rank had posted for it, is the
      sum of those posts, and hence the same for all ranks; it is positive exactly when somebody's flag was up. */
  lemma {:induction false} RanksAgree(n: nat, acts: seq<Action>, q: nat, i: nat)
    requires n > 0 && Run(n, acts) && q < n && i < |End(n, acts).ranks[q].seen|
    ensures var ranks := End(n, acts).ranks;
      && (forall r :: 0 <= r < n ==> i < |ranks[r].posts| && ranks[r].posts[i] in {0, 1})
      && ranks[q].seen[i] == RoundSum(ranks, i) >= 0
      && (ranks[q].seen[i] > 0 <==> exists r :: 0 <= r < n && ranks[r].posts[i] == 1)
  {
    var s := End(n, acts);
    var m := RunKeepsRound(n, acts, |acts|);
    AgreementInRound(s, m, q, i);
  }

  lemma AgreementInRound(s: State, m: nat, q: nat, i: nat)
    requires InRound(s, m) && q < |s.ranks| && i < |s.ranks[q].seen|
    ensures forall r :: 0 <= r < |s.ranks| ==> i < |s.ranks[r].posts| && s.ranks[r].posts[i] in {0, 1}
    ensures s.ranks[q].seen[i] == RoundSum(s.ranks, i) >= 0
    ensures s.ranks[q].seen[i] > 0 <==> exists r :: 0 <= r < |s.ranks| && s.ranks[r].posts[i] == 1
  {
    assert RankOK(s.ranks[q], m, q == 0);
    forall r | 0 <= r < |s.ranks| ensures i < |s.ranks[r].posts| && s.ranks[r].posts[i] in {0, 1} {
      assert RankOK(s.ranks[r], m, r == 0);
      assert Stage(s.ranks[q], m) >= 4 ==> Stage(s.ranks[r], m) >= 3;
    }
    var xs := Posts(s.ranks, i);
    assert forall r :: 0 <= r < |s.ranks| ==> xs[r] == s.ranks[r].posts[i];
    SumOfMarks(xs, |xs|);
  }

  // ----- flags, in terms of the actions -----

  /** Action p is rank q's step that posts its flag for round i. */
  ghost predicate Posting(n: nat, acts: seq<Action>, q: nat, i: nat, p: nat)
    requires forall k :: 0 <= k < |acts| ==> acts[k].r < n
  {
    && p < |acts| && q < n && acts[p] == Move(q)
    && StateAfter(n, acts, p).ranks[q].phase == Idle && StateAfter(n, acts, p).ranks[q].done == i
  }

  /** Action k is the step of rank q that takes note of a positive sum. */
  ghost predicate Clearing(n: nat, acts: seq<Action>, q: nat, k: nat)
    requires forall j :: 0 <= j < |acts| ==> acts[j].r < n
  {
    && k < |acts| && q < n && acts[k] == Move(q)
    && StateAfter(n, acts, k).ranks[q].phase.Got? && StateAfter(n, acts, k).ranks[q].phase.g != 0
  }

  /** The detector of rank q reported something at action a, and nothing has cleared it before action p. */
  ghost predicate Reported(n: nat, acts: seq<Action>, q: nat, a: nat, p: nat)
    requires forall k :: 0 <= k < |acts| ==> acts[k].r < n
  {
    a < p <= |acts| && acts[a] == Raise(q) && forall k :: a < k < p ==> !Clearing(n, acts, q, k)
  }

  ghost predicate Up(n: nat, acts: seq<Action>, q: nat, p: nat)
    requires forall k :: 0 <= k < |acts| ==> acts[k].r < n
  {
    exists a :: Reported(n, acts, q, a, p)
  }

  lemma UpStep(n: nat, acts: seq<Action>, q: nat, p: nat)
    requires (forall k :: 0 <= k < |acts| ==> acts[k].r < n) && p < |acts|
    ensures Up(n, acts, q, p + 1) <==> acts[p] == Raise(q) || (Up(n, acts, q, p) && !Clearing(n, acts, q, p))
  {
    hide Clearing;
    if acts[p] == Raise(q) {
      assert Reported(n, acts, q, p, p + 1);
    }
    if Up(n, acts, q, p) && !Clearing(n, acts, q, p) {
      var a: nat :| Reported(n, acts, q, a, p);
      assert Reported(n, acts, q, a, p + 1);
    }
    if acts[p] != Raise(q) && Up(n, acts, q, p + 1) {
      var a: nat :| Reported(n, acts, q, a, p + 1);
      assert Reported(n, acts, q, a, p);
    }
  }

  /** What one action does to a rank's flag and posts. */
  lemma FlagStep(s: State, a: Action, q: nat)
    requires q < |s.ranks| && a.r < |s.ranks|
    ensures var k, k' := s.ranks[q], Next(s, a).ranks[q];
      && k'.flag == (if a == Raise(q) then 1 else if a == Move(q) && k.phase.Got? && k.phase.g != 0 then 0 else k.flag)
      && k'.posts == k.posts + (if a == Move(q) && k.phase == Idle then [k.flag] else [])
  {
  }

  /** A flag is up exactly when something was reported and not cleared since. */
  lemma {:induction false} FlagIsReport(n: nat, acts: seq<Action>, q: nat, p: nat)
    requires (forall k :: 0 <= k < |acts| ==> acts[k].r < n) && q < n && p <= |acts|
    ensures StateAfter(n, acts, p).ranks[q].flag == if Up(n, acts, q, p) then 1 else 0
  {
    if p > 0 {
      hide Next, Up, Reported;
      FlagIsReport(n, acts, q, p - 1);
      UpStep(n, acts, q, p - 1);
      FlagStep(StateAfter(n, acts, p - 1), acts[p - 1], q);
    }
  }

  /** A rank that is about to post has posted once in each of the rounds before. */
  lemma AboutToPost(n: nat, acts: seq<Action>, q: nat, k: nat)
    requires n > 0 && q < n && k <= |acts| && (forall j :: 0 <= j < |acts| ==> acts[j].r < n) && Legal(n, acts, k)
    ensures var r := StateAfter(n, acts, k).ranks[q]; r.phase == Idle ==> |r.posts| == r.done
  {
    var m := RunKeepsRound(n, acts, k);
    assert RankOK(StateAfter(n, acts, k).ranks[q], m, q == 0);
  }

  /** What a rank has posted for round i is what its flag said at that step. */
  lemma {:induction false} PostIsReport(n: nat, acts: seq<Action>, q: nat, i: nat, k: nat) returns (p: nat)
    requires n > 0 && q < n && k <= |acts| && (forall j :: 0 <= j < |acts| ==> acts[j].r < n) && Legal(n, acts, k)
    requires i < |StateAfter(n, acts, k).ranks[q].posts|
    ensures p < k && Posting(n, acts, q, i, p)
    ensures StateAfter(n, acts, k).ranks[q].posts[i] == if Up(n, acts, q, p) then 1 else 0
    decreases k
  {
    hide Next, Up, Can;
    assert k > 0;
    var was := StateAfter(n, acts, k - 1);
    FlagStep(was, acts[k - 1], q);
    if i < |was.ranks[q].posts| {
      p := PostIsReport(n, acts, q, i, k - 1);
    } else {
      p := k - 1;
      AboutToPost(n, acts, q, p);
      FlagIsReport(n, acts, q, p);
    }
  }

  /** And it keeps what it posted. */
  lemma {:induction false} PostStays(n: nat, acts: seq<Action>, q: nat, i: nat, p: nat, k: nat)
    requires n > 0 && (forall j :: 0 <= j < |acts| ==> acts[j].r < n) && p < k <= |acts| && Legal(n, acts, k)
    requires Posting(n, acts, q, i, p)
    ensures i < |StateAfter(n, acts, k).ranks[q].posts|
    ensures StateAfter(n, acts, k).ranks[q].posts[i] == if Up(n, acts, q, p) then 1 else 0
    decreases k
  {
    hide Next, Up, Can;
    FlagStep(StateAfter(n, acts, k - 1), acts[k - 1], q);
    if k == p + 1 {
      AboutToPost(n, acts, q, p);
      FlagIsReport(n, acts, q, p);
    } else {
      PostStays(n, acts, q, i, p, k - 1);
    }
  }

  /** What a rank reads in round i is positive exactly when, for some rank, something had been reported and not
      cleared when it posted for that round: no report is lost, none is made up. */
  lemma {:induction false} ReportsAreSeen(n: nat, acts: seq<Action>, q: nat, i: nat)
    requires n > 0 && Run(n, acts) && q < n && i < |End(n, acts).ranks[q].seen|
    ensures End(n, acts).ranks[q].seen[i] > 0 <==>
      exists r: nat, p: nat, a: nat :: Posting(n, acts, r, i, p) && Reported(n, acts, r, a, p)
    ensures End(n, acts).ranks[q].seen[i] >= 0
  {
    hide Legal, PrefixSum, Posting, Reported, Posts, StateAfter;
    RanksAgree(n, acts, q, i);
    var ranks := End(n, acts).ranks;
    if r :| 0 <= r < n && ranks[r].posts[i] == 1 {
      var p := PostIsReport(n, acts, r, i, |acts|);
      var a :| Reported(n, acts, r, a, p);
      assert Posting(n, acts, r, i, p) && Reported(n, acts, r, a, p);
    }
    if r: nat, p: nat, a: nat :| Posting(n, acts, r, i, p) && Reported(n, acts, r, a, p) {
      PostingNow(n, acts, r, i, p);
      PostStays(n, acts, r, i, p, |acts|);
      assert ranks[r].posts[i] == 1;
    }
  }

  lemma PostingNow(n: nat, acts: seq<Action>, q: nat, i: nat, p: nat)
    requires (forall k :: 0 <= k < |acts| ==> acts[k].r < n) && Posting(n, acts, q, i, p)
    ensures q < n && p < |acts|
  {
  }

  /** In particular, a report that comes before a rank's post for round i is read by every rank in that round,
      unless the rank has taken note of an earlier sum in between. */
  lemma ReportReachesAll(n: nat, acts: seq<Action>, r: nat, a: nat, p: nat, i: nat, q: nat)
    requires n > 0 && Run(n, acts) && q < n && i < |End(n, acts).ranks[q].seen|
    requires Posting(n, acts, r, i, p) && a < p && acts[a] == Raise(r)
    requires forall k :: a < k < p && acts[k] == Move(r) ==> !StateAfter(n, acts, k).ranks[r].phase.Got?
    ensures End(n, acts).ranks[q].seen[i] > 0
  {
    assert Reported(n, acts, r, a, p);
    ReportsAreSeen(n, acts, q, i);
  }

  /** Whenever all ranks stand between the same two rounds, the store is (0, 0, world_size). */
  lemma {:induction false} StoreIsRestored(n: nat, acts: seq<Action>, d: nat)
    requires n > 0 && Run(n, acts)
    requires forall q :: 0 <= q < n ==> End(n, acts).ranks[q].phase == Idle && End(n, acts).ranks[q].done == d
    ensures var s := End(n, acts); s.checksum == 0 && s.counter == 0 && s.counter2 == n
  {
    var s := End(n, acts);
    var m := RunKeepsRound(n, acts, |acts|);
    assert RankOK(s.ranks[0], m, true);
    if d == m + 1 {
      RoundTurnsOver(s, m);
    } else {
      forall q | 0 <= q < n ensures Stage(s.ranks[q], m) == 0 && |s.ranks[q].posts| <= m {
        assert RankOK(s.ranks[q], m, q == 0);
      }
      NoPosts(s.ranks, m);
      HowManyIs(s.ranks, m, 3);
    }
  }

  lemma SumReadIsPosted(s: State, m: nat, q: nat)
    requires InRound(s, m) && q < |s.ranks| && s.ranks[q].phase.Got?
    ensures var k := s.ranks[q];
      k.done == m < |k.seen| && k.phase.g == k.seen[m] == RoundSum(s.ranks, m) && k.phase.g >= 0
  {
    assert RankOK(s.ranks[q], m, q == 0);
    AgreementInRound(s, m, q, m);
    var xs := Posts(s.ranks, m);
    assert forall r :: 0 <= r < |s.ranks| ==> xs[r] == s.ranks[r].posts[m];
    SumOfMarks(xs, |xs|);
  }

  /** A raised flag goes down only by a rank's own step, in a round in which somebody had posted a raised
      flag; and in such a round that step does put it down. */
  lemma {:induction false} FlagsClearOnlyWhenPosted(n: nat, acts: seq<Action>, a: Action, q: nat)
    requires n > 0 && Run(n, acts) && q < n && Can(End(n, acts), a)
    ensures var s := End(n, acts); var k := s.ranks[q]; var s' := Next(s, a);
      && (k.flag != 0 && s'.ranks[q].flag == 0 ==>
            a == Move(q) && k.phase.Got? && RoundSum(s.ranks, k.done) > 0)
      && (a == Move(q) && k.phase.Got? ==>
            && k.done < |k.seen| && k.phase.g == RoundSum(s.ranks, k.done)
            && (RoundSum(s.ranks, k.done) > 0 ==> s'.ranks[q].flag == 0)
            && (RoundSum(s.ranks, k.done) == 0 ==> s'.ranks[q].flag == k.flag))
  {
    var s := End(n, acts);
    var m := RunKeepsRound(n, acts, |acts|);
    if s.ranks[q].phase.Got? {
      SumReadIsPosted(s, m, q);
    }
  }

  // ----- progress -----

  /** How far a rank has come in all. */
  function Position(k: Rank): nat {
    11 * k.done + Stage(k, k.done) + if k.phase == Boot then 0 else 1
  }

  /** A rank that is not ahead of any other can always take its next step: the protocol never deadlocks. */
  lemma {:induction false} HindmostCanStep(n: nat, acts: seq<Action>, r: nat)
    requires n > 0 && Run(n, acts) && r < n
    requires forall q :: 0 <= q < n ==> Position(End(n, acts).ranks[q]) >= Position(End(n, acts).ranks[r])
    ensures Can(End(n, acts), Move(r))
  {
    var s := End(n, acts);
    var m := RunKeepsRound(n, acts, |acts|);
    HindmostEnabled(s, m, r);
  }

  lemma HindmostEnabled(s: State, m: nat, r: nat)
    requires InRound(s, m) && r < |s.ranks|
    requires forall q :: 0 <= q < |s.ranks| ==> Position(s.ranks[q]) >= Position(s.ranks[r])
    ensures Enabled(s, r)
  {
    hide PrefixSum, Reached, HowMany;
    forall q | 0 <= q < |s.ranks|
      ensures s.ranks[q].done >= s.ranks[r].done && Stage(s.ranks[q], m) >= Stage(s.ranks[r], m)
    {
      assert RankOK(s.ranks[q], m, q == 0) && RankOK(s.ranks[r], m, r == 0);
      assert Position(s.ranks[q]) >= Position(s.ranks[r]);
    }
    assert RankOK(s.ranks[0], m, true);
    assert Stage(s.ranks[0], m) == 10 ==> Stage(s.ranks[r], m) >= 7;
    HowManyIs(s.ranks, m, 3);
    HowManyIs(s.ranks, m, 7);
  }

  function Positions(ranks: seq<Rank>): (xs: seq<int>)
    ensures |xs| == |ranks|
  {
    seq(|ranks|, i requires 0 <= i < |ranks| => Position(ranks[i]))
  }

  function Moves(acts: seq<Action>, k: nat): nat
    requires k <= |acts|
  {
    if k == 0 then 0 else Moves(acts, k - 1) + if acts[k - 1].Move? then 1 else 0
  }

  lemma {:induction false} SumBelow(xs: seq<int>, n: nat, b: nat)
    requires n <= |xs| && (forall i :: 0 <= i < |xs| ==> xs[i] <= b)
    ensures PrefixSum(xs, n) <= n * b
  {
    if n > 0 {
      SumBelow(xs, n - 1, b);
      assert n * b == (n - 1) * b + b;
    }
  }

  /** Every move takes its rank at least one position further. */
  lemma MoveAdvances(s: State, before: nat, a: Action)
    requires InRound(s, before) && Can(s, a)
    ensures Position(Next(s, a).ranks[a.r]) >= Position(s.ranks[a.r]) + if a.Move? then 1 else 0
  {
    if a.Move? {
      var m := RoundOf(s, before, a.r);
      assert RankOK(s.ranks[a.r], m, a.r == 0);
      MoveRankOK(s.ranks[a.r], m, a.r == 0, s.checksum);
    }
  }

  lemma TotalAdvances(s: State, a: Action)
    requires a.r < |s.ranks|
    ensures Total(Positions(Next(s, a).ranks))
         == Total(Positions(s.ranks)) + Position(Next(s, a).ranks[a.r]) - Position(s.ranks[a.r])
  {
    var xs, p := Positions(s.ranks), Position(Next(s, a).ranks[a.r]);
    assert Positions(Next(s, a).ranks) == xs[a.r := p];
    SumUpdate(xs, a.r, p, |xs|);
  }

  lemma {:induction false} MovesAdvance(n: nat, acts: seq<Action>, k: nat)
    requires n > 0 && k <= |acts| && (forall i :: 0 <= i < |acts| ==> acts[i].r < n) && Legal(n, acts, k)
    ensures Moves(acts, k) <= Total(Positions(StateAfter(n, acts, k).ranks))
  {
    if k == 0 {
      SumOfMarks(Positions(Initial(n).ranks), n);
    } else {
      MovesAdvance(n, acts, k - 1);
      var m := RunKeepsRound(n, acts, k - 1);
      MoveAdvances(StateAfter(n, acts, k - 1), m, acts[k - 1]);
      TotalAdvances(StateAfter(n, acts, k - 1), acts[k - 1]);
    }
  }

  lemma PositionsBelow(s: State, m: nat, rounds: nat)
    requires InRound(s, m) && m < rounds
    ensures forall i :: 0 <= i < |s.ranks| ==> Position(s.ranks[i]) <= 11 * rounds + 1
  {
    forall i | 0 <= i < |s.ranks| ensures Position(s.ranks[i]) <= 11 * rounds + 1 {
      assert RankOK(s.ranks[i], m, i == 0);
    }
  }

  /** However the steps are interleaved, enough of them complete any number of rounds on every rank. */
  lemma {:induction false} RoundsComplete(n: nat, acts: seq<Action>, rounds: nat, q: nat)
    requires n > 0 && Run(n, acts) && q < n && Moves(acts, |acts|) > n * (11 * rounds + 1)
    ensures End(n, acts).ranks[q].done >= rounds
  {
    hide PrefixSum, HowMany, StoreOK;
    var s := End(n, acts);
    var m := RunKeepsRound(n, acts, |acts|);
    if m < rounds {
      MovesAdvance(n, acts, |acts|);
      PositionsBelow(s, m, rounds);
      SumBelow(Positions(s.ranks), n, 11 * rounds + 1);
      assert false;
    }
    assert RankOK(s.ranks[q], m, q == 0);
  }
}
