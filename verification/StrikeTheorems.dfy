/** What the strike counter promises over every stream of abnormals. */
module StrikeTheorems {
  import opened Basics
  import opened Strikes

  /** Abnormals arrive in order, and each is fully processed before the next one happens. */
  predicate Ordered(evs: seq<Event>) {
    && (forall i :: 0 <= i < |evs| ==> evs[i].time <= evs[i].clock)
    && (forall i, j :: 0 <= i < j < |evs| ==> evs[i].clock <= evs[j].time)
  }

  function Verdicts(cfg: Config, evs: seq<Event>): (vs: seq<Verdict>)
    ensures |vs| == |evs|
  {
    Run(cfg, evs, true).0
  }

  // ----- what a scan finds -----

  /** Number of open entries (counted, not yet struck). */
  function Opens(h: seq<Entry>): nat {
    if h == [] then 0 else Opens(h[..|h| - 1]) + if Open(h[|h| - 1]) then 1 else 0
  }

  /** Positions found by the scan: descending, open, below the start, and all of those from `low` on. */
  ghost predicate Found(h: seq<Entry>, low: int, i: int, q: seq<nat>) {
    && (forall k :: 0 <= k < |q| ==> low <= q[k] <= i && q[k] < |h| && Open(h[q[k]]))
    && (forall k, l :: 0 <= k < l < |q| ==> q[k] > q[l])
    && (forall j: nat :: low <= j <= i && j < |h| && Open(h[j]) ==> j in q)
  }

  lemma FoundCons(h: seq<Entry>, low: int, i: nat, q: seq<nat>)
    requires i < |h| && (q != [] || low <= i) && Open(h[i]) && Found(h, low, i - 1, q)
    ensures Found(h, low, i, [i] + q)
  {
    assert q != [] ==> low <= q[0] < i;
    forall j: nat | low <= j <= i && Open(h[j]) ensures j in [i] + q {
      assert j == i || j in q;
    }
  }

  lemma FoundSkip(h: seq<Entry>, low: int, i: nat, q: seq<nat>)
    requires i < |h| && !Open(h[i]) && Found(h, low, i - 1, q)
    ensures Found(h, low, i, q)
  {
    forall j: nat | low <= j <= i && Open(h[j]) ensures j in q {
      assert j != i;
    }
  }

  lemma FoundOne(h: seq<Entry>, i: nat)
    requires i < |h| && Open(h[i])
    ensures Found(h, i, i, [i])
  {
  }

  lemma FoundNone(h: seq<Entry>)
    ensures Found(h, 0, -1, [])
  {
  }

  /** The scan returns what it was given plus open positions; it stops exactly when n are held, at the
      last of them, and otherwise has found every open entry. */
  lemma {:induction false} ScanFinds(h: seq<Entry>, i: int, pos: seq<nat>, last: Entry, n: int)
    returns (q: seq<nat>)
    requires -1 <= i < |h| && |pos| != n
    ensures Scan(h, i, pos, last, n).0 == pos + q
    ensures |pos| + |q| == n ==>
      q != [] && Found(h, q[|q| - 1], i, q) && Scan(h, i, pos, last, n).1 == h[q[|q| - 1]]
    ensures |pos| + |q| != n ==> Found(h, 0, i, q) && |q| == Opens(h[..i + 1])
    ensures |pos| < n ==> |pos| + |q| <= n
    decreases i + 1
  {
    hide Found;
    if i < 0 {
      q := [];
      assert h[..0] == [];
      FoundNone(h);
    } else {
      assert h[..i + 1][..i] == h[..i];
      if Open(h[i]) {
        var pos' := pos + [i];
        if |pos'| == n {
          q := [i];
          FoundOne(h, i);
        } else {
          var q' := ScanFinds(h, i - 1, pos', h[i], n);
          q := [i] + q';
          assert pos' + q' == pos + q;
          FoundCons(h, if |pos| + |q| == n then q'[|q'| - 1] else 0, i, q');
        }
      } else {
        q := ScanFinds(h, i - 1, pos, h[i], n);
        FoundSkip(h, if |pos| + |q| == n then q[|q| - 1] else 0, i, q);
      }
    }
  }

  lemma {:induction false} OpensZero(h: seq<Entry>)
    ensures Opens(h) == 0 <==> forall i :: 0 <= i < |h| ==> !Open(h[i])
  {
    if h != [] {
      OpensZero(h[..|h| - 1]);
    }
  }

  lemma {:induction false} OpensConcat(a: seq<Entry>, b: seq<Entry>)
    ensures Opens(a + b) == Opens(a) + Opens(b)
  {
    if b == [] {
      assert a + b == a;
    } else {
      assert (a + b)[..|a + b| - 1] == a + b[..|b| - 1];
      OpensConcat(a, b[..|b| - 1]);
    }
  }

  // ----- soundness of warnings -----

  /** History entries are the abnormals themselves. */
  ghost predicate Faithful(h: seq<Entry>, evs: seq<Event>, vs: seq<Verdict>)
    requires |vs| == |evs|
  {
    && (forall i :: 0 <= i < |h| ==>
          && h[i].id < |evs| && h[i].time == evs[h[i].id].time
          && h[i].counted == vs[h[i].id].counted)
    && (forall i, j :: 0 <= i < j < |h| ==> h[i].id < h[j].id && h[i].time <= h[j].time)
  }

  /** An abnormal named by one of the first n verdicts. */
  ghost predicate Used(vs: seq<Verdict>, n: nat, id: nat) {
    exists k :: 0 <= k < n <= |vs| && vs[k].warning.Some? && id in vs[k].warning.value
  }

  /** Counted entries are a cooldown apart, struck ones come first and are exactly the used ones, and
      fewer than strikesNum are open. */
  ghost predicate Disciplined(cfg: Config, h: seq<Entry>, vs: seq<Verdict>) {
    && (forall i, j :: 0 <= i < j < |h| && h[i].counted && h[j].counted ==> h[j].time - h[i].time >= cfg.cooldown)
    && (forall i, j :: 0 <= i < j < |h| && h[i].counted && h[j].counted && h[j].struck ==> h[i].struck)
    && (forall i :: 0 <= i < |h| && h[i].counted ==> (h[i].struck <==> Used(vs, |vs|, h[i].id)))
    && Opens(h) <= cfg.strikesNum - 1
  }

  /** A warning at abnormal k names strikesNum counted abnormals, the last of them k itself, in order,
      pairwise a cooldown apart, spanning at most the window, and none named by an earlier warning. */
  ghost predicate SoundAt(cfg: Config, evs: seq<Event>, vs: seq<Verdict>, k: nat)
    requires |vs| == |evs| && k < |vs|
  {
    vs[k].warning.Some? ==>
      var ids := vs[k].warning.value;
      && |ids| == cfg.strikesNum && ids != [] && ids[|ids| - 1] == k
      && (forall i :: 0 <= i < |ids| ==> ids[i] <= k && vs[ids[i]].counted)
      && (forall i, j :: 0 <= i < j < |ids| ==> ids[i] < ids[j] && evs[ids[j]].time - evs[ids[i]].time >= cfg.cooldown)
      && evs[k].time - evs[ids[0]].time <= cfg.window
      && (forall i :: 0 <= i < |ids| ==> !Used(vs, k, ids[i]))
  }

  /** Everything known between two abnormals. */
  ghost predicate Good(cfg: Config, evs: seq<Event>, vs: seq<Verdict>, h: seq<Entry>) {
    && |vs| == |evs|
    && Faithful(h, evs, vs)
    && Disciplined(cfg, h, vs)
    && forall k :: 0 <= k < |vs| ==> SoundAt(cfg, evs, vs, k)
  }

  lemma NeverUsed(cfg: Config, evs: seq<Event>, vs: seq<Verdict>, h: seq<Entry>)
    requires Good(cfg, evs, vs, h)
    ensures !Used(vs, |vs|, |vs|)
  {
    forall k | 0 <= k < |vs| && vs[k].warning.Some? ensures |vs| !in vs[k].warning.value {
      assert SoundAt(cfg, evs, vs, k);
    }
  }

  lemma UsedSnoc(vs: seq<Verdict>, v: Verdict, id: nat)
    ensures Used(vs + [v], |vs| + 1, id) <==> Used(vs, |vs|, id) || (v.warning.Some? && id in v.warning.value)
    ensures forall k: nat :: k <= |vs| ==> (Used(vs + [v], k, id) <==> Used(vs, k, id))
  {
    var vs' := vs + [v];
    forall k: nat | k <= |vs| ensures Used(vs', k, id) <==> Used(vs, k, id) {
      if Used(vs, k, id) {
        var m :| 0 <= m < k && vs[m].warning.Some? && id in vs[m].warning.value;
        assert vs'[m] == vs[m];
      }
      if Used(vs', k, id) {
        var m :| 0 <= m < k && vs'[m].warning.Some? && id in vs'[m].warning.value;
        assert vs'[m] == vs[m];
      }
    }
    if v.warning.Some? && id in v.warning.value {
      assert vs'[|vs|] == v;
    }
    if Used(vs, |vs|, id) {
      var m :| 0 <= m < |vs| && vs[m].warning.Some? && id in vs[m].warning.value;
      assert vs'[m] == vs[m];
    }
    if Used(vs', |vs| + 1, id) {
      var m :| 0 <= m < |vs| + 1 && vs'[m].warning.Some? && id in vs'[m].warning.value;
      if m < |vs| {
        assert vs'[m] == vs[m];
      }
    }
  }

  lemma {:induction false} OpensAfterLastCounted(h: seq<Entry>, c: nat)
    requires c < |h| && forall j :: c < j < |h| ==> !h[j].counted
    ensures Opens(h) == Opens(h[..c]) + if Open(h[c]) then 1 else 0
  {
    assert h == h[..c] + ([h[c]] + h[c + 1..]);
    OpensConcat(h[..c], [h[c]] + h[c + 1..]);
    OpensConcat([h[c]], h[c + 1..]);
    OpensZero(h[c + 1..]);
    assert [h[c]][..0] == [];
    assert Opens([h[c]]) == if Open(h[c]) then 1 else 0;
  }

  /** The facts a scan with a full hand establishes. */
  lemma FullHand(cfg: Config, vs: seq<Verdict>, h: seq<Entry>, c: nat) returns (q: seq<nat>)
    requires cfg.strikesNum >= 3 && Disciplined(cfg, h, vs)
    requires c < |h| && h[c].counted && (forall j :: c < j < |h| ==> !h[j].counted)
    requires |Held(cfg, h, c).0| == cfg.strikesNum - 1
    ensures Held(cfg, h, c).0 == [c] + q && q != [] && Found(h, q[|q| - 1], c - 1, q)
    ensures Open(h[c]) && Held(cfg, h, c).1 == h[q[|q| - 1]]
    ensures Opens(h[..q[|q| - 1]]) == 0
  {
    q := ScanFinds(h, c - 1, [c], h[c], cfg.strikesNum - 1);
    assert 1 + |q| == cfg.strikesNum - 1;
    assert Open(h[q[0]]) && q[0] < c;
    OpensAfterLastCounted(h, c);
    FoundCount(h, q[|q| - 1], c - 1, q);
  }

  /** Positions found make up all open entries from `low` on. */
  lemma {:induction false} FoundCount(h: seq<Entry>, low: nat, i: int, q: seq<nat>)
    requires -1 <= i < |h| && low <= i + 1 && Found(h, low, i, q)
    ensures Opens(h[..i + 1]) == Opens(h[..low]) + |q|
    decreases i + 1
  {
    if i + 1 == low {
      assert q == [];
    } else {
      assert h[..i + 1][..i] == h[..i];
      if Open(h[i]) {
        assert q[0] == i by {
          assert i in q;
        }
        assert Found(h, low, i - 1, q[1..]) by {
          forall j: nat | low <= j <= i - 1 && Open(h[j]) ensures j in q[1..] {
            var k :| 0 <= k < |q| && q[k] == j;
            assert q[1..][k - 1] == j;
          }
        }
        FoundCount(h, low, i - 1, q[1..]);
      } else {
        forall k | 0 <= k < |q| ensures q[k] <= i - 1 {
          assert Open(h[q[k]]);
        }
        FoundCount(h, low, i - 1, q);
      }
    }
  }

  /** The part of Good that a single decision needs. */
  ghost predicate Steady(cfg: Config, evs: seq<Event>, vs: seq<Verdict>, h: seq<Entry>) {
    |vs| == |evs| && Faithful(h, evs, vs) && Disciplined(cfg, h, vs) && !Used(vs, |vs|, |vs|)
  }

  /** Open positions, latest first. */
  ghost predicate IsHand(h: seq<Entry>, pos: seq<nat>) {
    && pos != []
    && (forall k :: 0 <= k < |pos| ==> pos[k] < |h| && Open(h[pos[k]]))
    && (forall k, l :: 0 <= k < l < |pos| ==> pos[k] > pos[l])
  }

  lemma HandDescends(h: seq<Entry>, c: nat, q: seq<nat>)
    requires c < |h| && Open(h[c]) && q != [] && Found(h, q[|q| - 1], c - 1, q)
    ensures IsHand(h, [c] + q)
  {
  }

  /** What a warning rests on. */
  lemma WarningShape(cfg: Config, vs: seq<Verdict>, h: seq<Entry>, id: nat, time: real) returns (pos: seq<nat>)
    requires cfg.strikesNum >= 3 && Disciplined(cfg, h, vs) && Decide(cfg, h, id, time).0.warning.Some?
    ensures IsHand(h, pos) && |pos| == cfg.strikesNum - 1
    ensures pos[0] == LastCounted(h) && pos == Held(cfg, h, pos[0]).0
    ensures Abs(time - h[pos[0]].time) >= cfg.cooldown
    ensures Abs(time - h[pos[|pos| - 1]].time) <= cfg.window
    ensures Decide(cfg, h, id, time) == (Verdict(true, true, Some(Ids(h, pos) + [id])), Strike(h, pos))
  {
    hide Disciplined, Strike, Scan, CountedFrom, IsHand, Ids;
    var c := LastCounted(h);
    var q := FullHand(cfg, vs, h, c);
    HandDescends(h, c, q);
    pos := [c] + q;
  }

  /** A warning is sound when it is given. */
  lemma WarningIsSound(cfg: Config, evs: seq<Event>, vs: seq<Verdict>, h: seq<Entry>, e: Event, v: Verdict)
    requires cfg.strikesNum >= 3 && Steady(cfg, evs, vs, h) && Ordered(evs + [e])
    requires v == Decide(cfg, h, |evs|, e.time).0 && v.warning.Some?
    ensures SoundAt(cfg, evs + [e], vs + [v], |evs|)
  {
    var pos := WarningShape(cfg, vs, h, |evs|, e.time);
    HandIsSound(cfg, evs, vs, h, e, pos, v);
  }

  lemma HandIsSound(cfg: Config, evs: seq<Event>, vs: seq<Verdict>, h: seq<Entry>, e: Event, pos: seq<nat>, v: Verdict)
    requires Steady(cfg, evs, vs, h) && Ordered(evs + [e]) && |pos| == cfg.strikesNum - 1
    requires IsHand(h, pos) && Abs(e.time - h[pos[0]].time) >= cfg.cooldown
    requires Abs(e.time - h[pos[|pos| - 1]].time) <= cfg.window
    requires v == Verdict(true, true, Some(Ids(h, pos) + [|evs|]))
    ensures SoundAt(cfg, evs + [e], vs + [v], |evs|)
  {
    var ids := Ids(h, pos) + [|evs|];
    OlderThan(evs, vs, h, e);
    HandInOrder(cfg, evs, vs, h, e, pos, ids);
    forall i | 0 <= i < |ids| ensures !Used(vs + [v], |evs|, ids[i]) {
      UsedSnoc(vs, v, ids[i]);
      assert i < |pos| ==> Open(h[pos[|pos| - 1 - i]]);
    }
  }

  lemma OlderThan(evs: seq<Event>, vs: seq<Verdict>, h: seq<Entry>, e: Event)
    requires |vs| == |evs| && Faithful(h, evs, vs) && Ordered(evs + [e])
    ensures forall i :: 0 <= i < |h| ==> h[i].time <= e.time && h[i].id < |evs|
  {
    var evs' := evs + [e];
    forall i | 0 <= i < |h| ensures h[i].time <= e.time {
      assert evs'[h[i].id] == evs[h[i].id] && evs'[|evs|] == e;
      assert evs'[h[i].id].clock <= evs'[|evs|].time;
    }
  }

  lemma HandInOrder(cfg: Config, evs: seq<Event>, vs: seq<Verdict>, h: seq<Entry>, e: Event, pos: seq<nat>,
                    ids: seq<nat>)
    requires |vs| == |evs| && Faithful(h, evs, vs) && Disciplined(cfg, h, vs) && Ordered(evs + [e])
    requires IsHand(h, pos) && e.time - h[pos[0]].time >= cfg.cooldown
    requires |ids| == |pos| + 1 && ids[|pos|] == |evs|
    requires forall i :: 0 <= i < |pos| ==> ids[i] == h[pos[|pos| - 1 - i]].id
    ensures forall i :: 0 <= i < |ids| ==> ids[i] <= |evs|
    ensures forall i :: 0 <= i < |pos| ==> vs[ids[i]].counted
    ensures forall i, j :: 0 <= i < j < |ids| ==>
      ids[i] < ids[j] && (evs + [e])[ids[j]].time - (evs + [e])[ids[i]].time >= cfg.cooldown
  {
    var evs' := evs + [e];
    var m := |pos|;
    forall i | 0 <= i < m ensures ids[i] < |evs| && evs'[ids[i]].time == h[pos[m - 1 - i]].time && vs[ids[i]].counted {}
    forall i, j | 0 <= i < j < |ids| ensures ids[i] < ids[j] && evs'[ids[j]].time - evs'[ids[i]].time >= cfg.cooldown {
      var a := pos[m - 1 - i];
      if j < m {
        var b := pos[m - 1 - j];
        assert a < b;
      } else if i < m - 1 {
        assert a < pos[0] && h[a].time <= h[pos[0]].time;
      }
    }
  }

  /** Striking a full hand leaves nothing open. */
  lemma AllStruck(cfg: Config, vs: seq<Verdict>, h: seq<Entry>, c: nat)
    requires cfg.strikesNum >= 3 && Disciplined(cfg, h, vs)
    requires c < |h| && h[c].counted && (forall j :: c < j < |h| ==> !h[j].counted)
    requires |Held(cfg, h, c).0| == cfg.strikesNum - 1
    ensures forall i :: 0 <= i < |h| && h[i].counted ==> Strike(h, Held(cfg, h, c).0)[i].struck
    ensures forall i :: 0 <= i < |h| && h[i].counted && !h[i].struck ==> i in Held(cfg, h, c).0
  {
    var q := FullHand(cfg, vs, h, c);
    var low := q[|q| - 1];
    OpensZero(h[..low]);
    forall i | 0 <= i < low ensures !Open(h[i]) {
      assert h[..low][i] == h[i];
    }
    forall i | 0 <= i < |h| && h[i].counted && !h[i].struck ensures i in [c] + q {
      assert low <= i <= c;
    }
  }

  lemma OpensSuffix(h: seq<Entry>, k: nat)
    requires k <= |h|
    ensures Opens(h) == Opens(h[..k]) + Opens(h[k..])
  {
    OpensConcat(h[..k], h[k..]);
    assert h[..k] + h[k..] == h;
  }

  lemma OpensSnoc(h: seq<Entry>, e: Entry)
    ensures Opens(h + [e]) == Opens(h) + if Open(e) then 1 else 0
  {
    assert (h + [e])[..|h|] == h;
  }

  lemma OpensPrune(h: seq<Entry>, clock: real, window: real)
    ensures Opens(Prune(h, clock, window)) <= Opens(h)
  {
    OpensSuffix(h, |h| - |Prune(h, clock, window)|);
  }

  lemma OpensAfterWarning(cfg: Config, vs: seq<Verdict>, h: seq<Entry>, id: nat, time: real)
    requires cfg.strikesNum >= 3 && Disciplined(cfg, h, vs) && Decide(cfg, h, id, time).0.warning.Some?
    ensures Opens(Decide(cfg, h, id, time).1) == 0
  {
    var pos := WarningShape(cfg, vs, h, id, time);
    AllStruck(cfg, vs, h, pos[0]);
    OpensZero(Strike(h, pos));
  }

  /** A hand that is full but does not warn reaches back beyond the window. */
  ghost predicate Stale(cfg: Config, h: seq<Entry>, time: real) {
    var c := LastCounted(h);
    c >= 0 && |Held(cfg, h, c).0| == cfg.strikesNum - 1 ==> Abs(time - Held(cfg, h, c).1.time) > cfg.window
  }

  lemma NoWarningMeans(cfg: Config, h: seq<Entry>, id: nat, time: real)
    requires cfg.strikesNum >= 3 && Decide(cfg, h, id, time).0.warning.None?
    ensures Decide(cfg, h, id, time).1 == h
    ensures Decide(cfg, h, id, time).0.counted ==> Stale(cfg, h, time)
  {
  }

  lemma OpensUnwarned(cfg: Config, evs: seq<Event>, vs: seq<Verdict>, h: seq<Entry>, e: Event)
    requires cfg.strikesNum >= 3 && Steady(cfg, evs, vs, h) && Ordered(evs + [e]) && Stale(cfg, h, e.time)
    ensures Opens(Prune(h + [Entry(|evs|, e.time, true, false)], e.clock, cfg.window)) <= cfg.strikesNum - 1
  {
    var new_ := Entry(|evs|, e.time, true, false);
    var c := LastCounted(h);
    if c >= 0 && |Held(cfg, h, c).0| == cfg.strikesNum - 1 {
      ExpiredHandIsGone(cfg, evs, vs, h, e, c);
    } else {
      FewOpen(cfg, h);
      OpensSnoc(h, new_);
      OpensPrune(h + [new_], e.clock, cfg.window);
    }
  }

  lemma FewOpen(cfg: Config, h: seq<Entry>)
    requires cfg.strikesNum >= 3
    requires LastCounted(h) >= 0 ==> |Held(cfg, h, LastCounted(h)).0| != cfg.strikesNum - 1
    ensures Opens(h) <= cfg.strikesNum - 2
  {
    if LastCounted(h) < 0 {
      OpensZero(h);
    } else {
      ShortHand(cfg, h, LastCounted(h));
    }
  }

  /** Without a warning the new counted entry stays open; once expired entries are gone, fewer than
      strikesNum entries are open. */
  lemma OpensBounded(cfg: Config, evs: seq<Event>, vs: seq<Verdict>, h: seq<Entry>, e: Event, v: Verdict,
                     h': seq<Entry>)
    requires cfg.strikesNum >= 3 && Steady(cfg, evs, vs, h) && Ordered(evs + [e])
    requires v == Decide(cfg, h, |evs|, e.time).0 && h' == Decide(cfg, h, |evs|, e.time).1
    ensures var all := h' + [Entry(|evs|, e.time, v.counted, v.warning.Some?)];
      Opens(Prune(all, e.clock, cfg.window)) <= cfg.strikesNum - 1
  {
    if v.warning.Some? {
      OpensAfterWarning(cfg, vs, h, |evs|, e.time);
      OpensOfKept(h', Entry(|evs|, e.time, v.counted, true), e.clock, cfg.window);
    } else {
      NoWarningMeans(cfg, h, |evs|, e.time);
      if v.counted {
        OpensUnwarned(cfg, evs, vs, h, e);
      } else {
        OpensOfKept(h, Entry(|evs|, e.time, false, false), e.clock, cfg.window);
      }
    }
  }

  lemma OpensOfKept(h: seq<Entry>, x: Entry, clock: real, window: real)
    requires !Open(x)
    ensures Opens(Prune(h + [x], clock, window)) <= Opens(h)
  {
    OpensSnoc(h, x);
    OpensPrune(h + [x], clock, window);
  }

  /** A scan that ends early has seen every open entry. */
  lemma ShortHand(cfg: Config, h: seq<Entry>, c: nat)
    requires cfg.strikesNum >= 3 && c < |h| && (forall j :: c < j < |h| ==> !h[j].counted)
    requires |Held(cfg, h, c).0| != cfg.strikesNum - 1
    ensures Opens(h) <= cfg.strikesNum - 2
  {
    var q := ScanFinds(h, c - 1, [c], h[c], cfg.strikesNum - 1);
    OpensAfterLastCounted(h, c);
  }

  /** If a full hand spans more than the window, its oldest member expires at once. */
  lemma ExpiredHandIsGone(cfg: Config, evs: seq<Event>, vs: seq<Verdict>, h: seq<Entry>, e: Event, c: nat)
    requires cfg.strikesNum >= 3 && Steady(cfg, evs, vs, h) && Ordered(evs + [e])
    requires c < |h| && h[c].counted && (forall j :: c < j < |h| ==> !h[j].counted)
    requires |Held(cfg, h, c).0| == cfg.strikesNum - 1
    requires Abs(e.time - Held(cfg, h, c).1.time) > cfg.window
    ensures var all := h + [Entry(|evs|, e.time, true, false)];
      Opens(Prune(all, e.clock, cfg.window)) <= cfg.strikesNum - 1
  {
    var q := FullHand(cfg, vs, h, c);
    OlderThan(evs, vs, h, e);
    assert (evs + [e])[|evs|] == e;
    PruneDropsOpen(h, Entry(|evs|, e.time, true, false), q[|q| - 1], e.clock, cfg.window);
  }

  lemma PruneDropsOpen(h: seq<Entry>, x: Entry, low: nat, clock: real, window: real)
    requires low < |h| && Open(h[low]) && clock - h[low].time > window
    requires forall i :: 0 <= i <= low ==> h[i].time <= h[low].time <= clock
    ensures Opens(Prune(h + [x], clock, window)) <= Opens(h)
  {
    var cut := FirstLive(h + [x], 0, clock, window);
    assert forall i :: 0 <= i <= low ==> (h + [x])[i] == h[i];
    OpensSnoc(h, x);
    DroppedOpen(h + [x], low, cut);
  }

  lemma DroppedOpen(h: seq<Entry>, low: nat, cut: nat)
    requires low < cut <= |h| && Open(h[low])
    ensures Opens(h[cut..]) < Opens(h)
  {
    OpensSuffix(h, cut);
    OpensSuffix(h[..cut], low + 1);
    assert h[..cut][..low + 1] == h[..low] + [h[low]];
    OpensSnoc(h[..low], h[low]);
  }

  // ----- one abnormal more -----

  /** The part of Disciplined that does not count. */
  ghost predicate Arranged(cfg: Config, h: seq<Entry>, vs: seq<Verdict>) {
    && (forall i, j :: 0 <= i < j < |h| && h[i].counted && h[j].counted ==> h[j].time - h[i].time >= cfg.cooldown)
    && (forall i, j :: 0 <= i < j < |h| && h[i].counted && h[j].counted && h[j].struck ==> h[i].struck)
    && (forall i :: 0 <= i < |h| && h[i].counted ==> (h[i].struck <==> Used(vs, |vs|, h[i].id)))
  }

  lemma FaithfulStep(cfg: Config, evs: seq<Event>, vs: seq<Verdict>, h: seq<Entry>, e: Event, v: Verdict,
                     h': seq<Entry>)
    requires |vs| == |evs| && Faithful(h, evs, vs) && Ordered(evs + [e]) && |h'| == |h|
    requires forall i :: 0 <= i < |h| ==> h'[i] == h[i] || h'[i] == h[i].(struck := true)
    ensures Faithful(h' + [Entry(|evs|, e.time, v.counted, v.warning.Some?)], evs + [e], vs + [v])
  {
    OlderThan(evs, vs, h, e);
  }

  lemma CooldownStep(cfg: Config, evs: seq<Event>, vs: seq<Verdict>, h: seq<Entry>, e: Event, i: nat)
    requires Steady(cfg, evs, vs, h) && Ordered(evs + [e]) && i < |h| && h[i].counted
    requires Decide(cfg, h, |evs|, e.time).0.counted
    ensures e.time - h[i].time >= cfg.cooldown
  {
    OlderThan(evs, vs, h, e);
    var c := LastCounted(h);
    assert i <= c && h[i].time <= h[c].time;
  }

  lemma WarnedStep(cfg: Config, evs: seq<Event>, vs: seq<Verdict>, h: seq<Entry>, e: Event, v: Verdict, h': seq<Entry>)
    requires cfg.strikesNum >= 3 && Steady(cfg, evs, vs, h)
    requires v == Decide(cfg, h, |evs|, e.time).0 && h' == Decide(cfg, h, |evs|, e.time).1 && v.warning.Some?
    ensures forall i :: 0 <= i < |h| && h[i].counted ==> h'[i].struck && Used(vs + [v], |vs| + 1, h[i].id)
    ensures Used(vs + [v], |vs| + 1, |evs|)
  {
    hide Faithful;
    var pos := WarningShape(cfg, vs, h, |evs|, e.time);
    AllStruck(cfg, vs, h, pos[0]);
    UsedSnoc(vs, v, |evs|);
    var ids := v.warning.value;
    assert ids[|pos|] == |evs|;
    forall i | 0 <= i < |h| && h[i].counted ensures h'[i].struck && Used(vs + [v], |vs| + 1, h[i].id) {
      UsedSnoc(vs, v, h[i].id);
      if !h[i].struck {
        var k :| 0 <= k < |pos| && pos[k] == i;
        assert ids[|pos| - 1 - k] == h[i].id;
      }
    }
  }

  lemma ArrangedStruck(cfg: Config, h: seq<Entry>, h': seq<Entry>, vs': seq<Verdict>, x: Entry)
    requires |h'| == |h| && (forall i :: 0 <= i < |h| ==> h'[i] == h[i] || h'[i] == h[i].(struck := true))
    requires forall i, j :: 0 <= i < j < |h| && h[i].counted && h[j].counted ==> h[j].time - h[i].time >= cfg.cooldown
    requires forall i :: 0 <= i < |h| && h[i].counted ==> x.time - h[i].time >= cfg.cooldown
    requires forall i :: 0 <= i < |h| && h[i].counted ==> h'[i].struck && Used(vs', |vs'|, h[i].id)
    requires x.struck && Used(vs', |vs'|, x.id)
    ensures Arranged(cfg, h' + [x], vs')
  {
  }

  lemma ArrangedOpen(cfg: Config, h: seq<Entry>, vs: seq<Verdict>, vs': seq<Verdict>, x: Entry)
    requires Arranged(cfg, h, vs) && !x.struck && !Used(vs', |vs'|, x.id)
    requires x.counted ==> forall i :: 0 <= i < |h| && h[i].counted ==> x.time - h[i].time >= cfg.cooldown
    requires forall i :: 0 <= i < |h| ==> (Used(vs', |vs'|, h[i].id) <==> Used(vs, |vs|, h[i].id))
    ensures Arranged(cfg, h + [x], vs')
  {
  }

  lemma ArrangedStep(cfg: Config, evs: seq<Event>, vs: seq<Verdict>, h: seq<Entry>, e: Event, v: Verdict,
                     h': seq<Entry>)
    requires cfg.strikesNum >= 3 && Steady(cfg, evs, vs, h) && Ordered(evs + [e])
    requires v == Decide(cfg, h, |evs|, e.time).0 && h' == Decide(cfg, h, |evs|, e.time).1
    ensures Arranged(cfg, h' + [Entry(|evs|, e.time, v.counted, v.warning.Some?)], vs + [v])
  {
    var x := Entry(|evs|, e.time, v.counted, v.warning.Some?);
    forall i | 0 <= i < |h| && h[i].counted && v.counted ensures e.time - h[i].time >= cfg.cooldown {
      CooldownStep(cfg, evs, vs, h, e, i);
    }
    if v.warning.Some? {
      WarnedStep(cfg, evs, vs, h, e, v, h');
      ArrangedStruck(cfg, h, h', vs + [v], x);
    } else {
      NoWarningMeans(cfg, h, |evs|, e.time);
      UsedSnoc(vs, v, |evs|);
      forall i | 0 <= i < |h| ensures Used(vs + [v], |vs + [v]|, h[i].id) <==> Used(vs, |vs|, h[i].id) {
        UsedSnoc(vs, v, h[i].id);
      }
      ArrangedOpen(cfg, h, vs, vs + [v], x);
    }
  }

  lemma SuffixKeeps(cfg: Config, h: seq<Entry>, evs: seq<Event>, vs: seq<Verdict>, k: nat)
    requires |vs| == |evs| && Faithful(h, evs, vs) && Arranged(cfg, h, vs) && k <= |h|
    ensures Faithful(h[k..], evs, vs) && Arranged(cfg, h[k..], vs)
  {
  }

  lemma SoundStays(cfg: Config, evs: seq<Event>, vs: seq<Verdict>, e: Event, v: Verdict, k: nat)
    requires |vs| == |evs| && k < |vs| && SoundAt(cfg, evs, vs, k)
    ensures SoundAt(cfg, evs + [e], vs + [v], k)
  {
    var evs', vs' := evs + [e], vs + [v];
    if vs[k].warning.Some? {
      var ids := vs[k].warning.value;
      forall i | 0 <= i < |ids| ensures !Used(vs', k, ids[i]) {
        UsedSnoc(vs, v, ids[i]);
      }
    }
  }

  lemma PruneKeeps(cfg: Config, h: seq<Entry>, evs: seq<Event>, vs: seq<Verdict>, clock: real)
    requires |vs| == |evs| && Faithful(h, evs, vs) && Arranged(cfg, h, vs)
    ensures Faithful(Prune(h, clock, cfg.window), evs, vs) && Arranged(cfg, Prune(h, clock, cfg.window), vs)
  {
    SuffixKeeps(cfg, h, evs, vs, |h| - |Prune(h, clock, cfg.window)|);
  }

  lemma ProcessKeeps(cfg: Config, h: seq<Entry>, id: nat, e: Event)
    ensures var r, d := Process(cfg, h, id, e, true), Decide(cfg, h, id, e.time);
      var all := d.1 + [Entry(id, e.time, d.0.counted, d.0.warning.Some?)];
      r.0 == d.0 && r.1 == if h == [] then all else Prune(all, e.clock, cfg.window)
  {
  }

  lemma KeptIsDisciplined(cfg: Config, evs: seq<Event>, vs: seq<Verdict>, h: seq<Entry>, e: Event, v: Verdict,
                          h': seq<Entry>, all: seq<Entry>)
    requires cfg.strikesNum >= 3 && Steady(cfg, evs, vs, h) && Ordered(evs + [e])
    requires v == Decide(cfg, h, |evs|, e.time).0 && h' == Decide(cfg, h, |evs|, e.time).1
    requires all == h' + [Entry(|evs|, e.time, v.counted, v.warning.Some?)]
    ensures Faithful(all, evs + [e], vs + [v]) && Arranged(cfg, all, vs + [v])
    ensures Faithful(Prune(all, e.clock, cfg.window), evs + [e], vs + [v])
    ensures Disciplined(cfg, Prune(all, e.clock, cfg.window), vs + [v])
  {
    FaithfulStep(cfg, evs, vs, h, e, v, h');
    ArrangedStep(cfg, evs, vs, h, e, v, h');
    OpensBounded(cfg, evs, vs, h, e, v, h');
    PruneKeeps(cfg, all, evs + [e], vs + [v], e.clock);
  }

  lemma StepIsDisciplined(cfg: Config, evs: seq<Event>, vs: seq<Verdict>, h: seq<Entry>, e: Event, v: Verdict,
                          kept: seq<Entry>)
    requires cfg.strikesNum >= 3 && Steady(cfg, evs, vs, h) && Ordered(evs + [e])
    requires v == Process(cfg, h, |evs|, e, true).0 && kept == Process(cfg, h, |evs|, e, true).1
    ensures Faithful(kept, evs + [e], vs + [v]) && Disciplined(cfg, kept, vs + [v])
  {
    var h' := Decide(cfg, h, |evs|, e.time).1;
    var all := h' + [Entry(|evs|, e.time, v.counted, v.warning.Some?)];
    ProcessKeeps(cfg, h, |evs|, e);
    KeptIsDisciplined(cfg, evs, vs, h, e, v, h', all);
    if h == [] {
      OpensSnoc(h', Entry(|evs|, e.time, v.counted, v.warning.Some?));
    }
  }

  lemma NewestIsSound(cfg: Config, evs: seq<Event>, vs: seq<Verdict>, h: seq<Entry>, e: Event, v: Verdict)
    requires cfg.strikesNum >= 3 && Steady(cfg, evs, vs, h) && Ordered(evs + [e])
    requires v == Decide(cfg, h, |evs|, e.time).0
    ensures SoundAt(cfg, evs + [e], vs + [v], |evs|)
  {
    if v.warning.Some? {
      WarningIsSound(cfg, evs, vs, h, e, v);
    }
  }

  lemma AllSound(cfg: Config, evs: seq<Event>, vs: seq<Verdict>, e: Event, v: Verdict)
    requires |vs| == |evs| && (forall k :: 0 <= k < |vs| ==> SoundAt(cfg, evs, vs, k))
    requires SoundAt(cfg, evs + [e], vs + [v], |evs|)
    ensures forall k :: 0 <= k < |vs + [v]| ==> SoundAt(cfg, evs + [e], vs + [v], k)
  {
    forall k | 0 <= k < |vs + [v]| ensures SoundAt(cfg, evs + [e], vs + [v], k) {
      if k < |vs| {
        SoundStays(cfg, evs, vs, e, v, k);
      }
    }
  }

  lemma GoodStep(cfg: Config, evs: seq<Event>, vs: seq<Verdict>, h: seq<Entry>, e: Event, v: Verdict, kept: seq<Entry>)
    requires cfg.strikesNum >= 3 && Good(cfg, evs, vs, h) && Ordered(evs + [e])
    requires v == Process(cfg, h, |evs|, e, true).0 && kept == Process(cfg, h, |evs|, e, true).1
    ensures Good(cfg, evs + [e], vs + [v], kept)
  {
    NeverUsed(cfg, evs, vs, h);
    StepIsDisciplined(cfg, evs, vs, h, e, v, kept);
    NewestIsSound(cfg, evs, vs, h, e, v);
    AllSound(cfg, evs, vs, e, v);
  }

  lemma RunSnoc(cfg: Config, evs: seq<Event>, e: Event, forget: bool)
    ensures var r := Run(cfg, evs, forget);
      var p := Process(cfg, r.1, |evs|, e, forget);
      Run(cfg, evs + [e], forget).0 == r.0 + [p.0] && Run(cfg, evs + [e], forget).1 == p.1
  {
    assert (evs + [e])[..|evs|] == evs;
  }

  ghost predicate GoodAfter(cfg: Config, evs: seq<Event>) {
    Good(cfg, evs, Run(cfg, evs, true).0, Run(cfg, evs, true).1)
  }

  lemma GoodAfterStep(cfg: Config, evs: seq<Event>, e: Event)
    requires cfg.strikesNum >= 3 && GoodAfter(cfg, evs) && Ordered(evs + [e])
    ensures GoodAfter(cfg, evs + [e])
  {
    var r := Run(cfg, evs, true);
    var p := Process(cfg, r.1, |evs|, e, true);
    GoodStep(cfg, evs, r.0, r.1, e, p.0, p.1);
    RunSnoc(cfg, evs, e, true);
  }

  lemma {:induction false} GoodRun(cfg: Config, evs: seq<Event>)
    requires cfg.strikesNum >= 3 && Ordered(evs)
    ensures GoodAfter(cfg, evs)
  {
    if evs != [] {
      var n := |evs| - 1;
      assert evs[..n] + [evs[n]] == evs;
      GoodRun(cfg, evs[..n]);
      GoodAfterStep(cfg, evs[..n], evs[n]);
    }
  }

  /** Strike soundness over every stream: each warning names exactly strikesNum counted abnormals, none
      of them named before, pairwise a cooldown apart and spanning at most the window. */
  lemma WarningsAreSound(cfg: Config, evs: seq<Event>)
    requires cfg.strikesNum >= 3 && Ordered(evs)
    ensures forall k :: 0 <= k < |evs| ==> SoundAt(cfg, evs, Verdicts(cfg, evs), k)
  {
    GoodRun(cfg, evs);
  }
}
