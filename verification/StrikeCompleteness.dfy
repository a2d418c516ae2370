/** The decisions of the strike counter in terms of the abnormals alone, without its history. */
module StrikeCompleteness {
  import opened Basics
  import opened Strikes
  import opened StrikeTheorems
  import opened StrikeForgetting

  // ----- what the history still holds -----

  /** The history is the latest stretch of the stream; what it lacks had left the window when the last abnormal
      was done with. */
  ghost predicate Recent(cfg: Config, evs: seq<Event>, vs: seq<Verdict>, h: seq<Entry>) {
    && |h| <= |evs| == |vs|
    && var off := |evs| - |h|;
      && (forall i :: 0 <= i < |h| ==> Shows(h[i], off + i, evs, vs))
      && (forall j :: 0 <= j < off ==> evs[|evs| - 1].clock - evs[j].time > cfg.window)
  }

  predicate Shows(x: Entry, id: nat, evs: seq<Event>, vs: seq<Verdict>)
    requires id < |evs| == |vs|
  {
    x.id == id && x.time == evs[id].time && x.counted == vs[id].counted
  }

  lemma RecentAppend(cfg: Config, evs: seq<Event>, vs: seq<Verdict>, h: seq<Entry>, h': seq<Entry>, e: Event,
                     v: Verdict)
    requires Recent(cfg, evs, vs, h) && Ordered(evs + [e]) && |h'| == |h|
    requires forall i :: 0 <= i < |h| ==> h'[i] == h[i] || h'[i] == h[i].(struck := true)
    ensures Recent(cfg, evs + [e], vs + [v], h' + [Entry(|evs|, e.time, v.counted, v.warning.Some?)])
  {
    var all, evs', vs' := h' + [Entry(|evs|, e.time, v.counted, v.warning.Some?)], evs + [e], vs + [v];
    var off := |evs| - |h|;
    forall i | 0 <= i < |all| ensures Shows(all[i], off + i, evs', vs') {
      assert i < |h| ==> Shows(h[i], off + i, evs, vs);
    }
    forall j | 0 <= j < off ensures evs'[|evs|].clock - evs'[j].time > cfg.window {
      assert evs'[j] == evs[j] && evs'[|evs| - 1] == evs[|evs| - 1];
      assert evs'[|evs| - 1].clock <= evs'[|evs|].time <= evs'[|evs|].clock;
    }
  }

  lemma ClocksRise(evs: seq<Event>, j: nat, l: nat)
    requires Ordered(evs) && j <= l < |evs|
    ensures evs[j].time <= evs[j].clock <= evs[l].clock
  {
    if j < l {
      assert evs[j].clock <= evs[l].time <= evs[l].clock;
    }
  }

  lemma RecentPrune(cfg: Config, evs: seq<Event>, vs: seq<Verdict>, h: seq<Entry>)
    requires Recent(cfg, evs, vs, h) && Ordered(evs) && evs != []
    ensures Recent(cfg, evs, vs, Prune(h, evs[|evs| - 1].clock, cfg.window))
  {
    hide Ordered;
    var last := |evs| - 1;
    var off, cut := |evs| - |h|, FirstLive(h, 0, evs[last].clock, cfg.window);
    forall j | off <= j < off + cut ensures evs[last].clock - evs[j].time > cfg.window {
      assert Shows(h[j - off], off + (j - off), evs, vs);
      ClocksRise(evs, j, last);
    }
    var kept := h[cut..];
    forall i | 0 <= i < |kept| ensures Shows(kept[i], off + cut + i, evs, vs) {
      assert kept[i] == h[cut + i] && Shows(h[cut + i], off + (cut + i), evs, vs);
    }
  }

  lemma RecentStep(cfg: Config, evs: seq<Event>, vs: seq<Verdict>, h: seq<Entry>, e: Event)
    requires Recent(cfg, evs, vs, h) && Ordered(evs + [e])
    ensures var p := Process(cfg, h, |evs|, e, true); Recent(cfg, evs + [e], vs + [p.0], p.1)
  {
    var d := Decide(cfg, h, |evs|, e.time);
    var all := d.1 + [Entry(|evs|, e.time, d.0.counted, d.0.warning.Some?)];
    DecideMarksOnly(cfg, h, |evs|, e.time);
    ProcessKeeps(cfg, h, |evs|, e);
    hide Recent, Decide, Process;
    RecentAppend(cfg, evs, vs, h, d.1, e, d.0);
    RecentPrune(cfg, evs + [e], vs + [d.0], all);
  }

  lemma {:induction false} RecentRun(cfg: Config, evs: seq<Event>)
    requires Ordered(evs)
    ensures Recent(cfg, evs, Verdicts(cfg, evs), Run(cfg, evs, true).1)
  {
    if evs != [] {
      var n := |evs| - 1;
      assert evs[..n] + [evs[n]] == evs;
      RecentRun(cfg, evs[..n]);
      var r := Run(cfg, evs[..n], true);
      RecentStep(cfg, evs[..n], r.0, r.1, evs[n]);
      RunSnoc(cfg, evs[..n], evs[n], true);
    }
  }

  // ----- what counts -----

  /** All counted abnormals before a time are at least a cooldown back. */
  ghost predicate Rested(cfg: Config, evs: seq<Event>, vs: seq<Verdict>, time: real)
    requires |vs| == |evs|
  {
    forall j :: 0 <= j < |evs| && vs[j].counted ==> time - evs[j].time >= cfg.cooldown
  }

  lemma CountedNow(cfg: Config, evs: seq<Event>, vs: seq<Verdict>, h: seq<Entry>, e: Event)
    requires Recent(cfg, evs, vs, h) && Ordered(evs + [e])
    ensures Rested(cfg, evs, vs, e.time) ==> Decide(cfg, h, |evs|, e.time).0.counted
    ensures Harmless(cfg) && Decide(cfg, h, |evs|, e.time).0.counted ==> Rested(cfg, evs, vs, e.time)
    ensures Decide(cfg, h, |evs|, e.time).0.logged ==> Decide(cfg, h, |evs|, e.time).0.counted
  {
    var off, c, evs' := |evs| - |h|, LastCounted(h), evs + [e];
    forall j | 0 <= j < |evs| ensures evs[j].time <= e.time {
      assert evs'[j] == evs[j] && evs'[|evs|] == e && evs'[j].clock <= evs'[|evs|].time;
    }
    if c >= 0 {
      assert Shows(h[c], off + c, evs, vs);
    }
    if Harmless(cfg) && Decide(cfg, h, |evs|, e.time).0.counted {
      forall j | 0 <= j < |evs| && vs[j].counted ensures e.time - evs[j].time >= cfg.cooldown {
        if j < off {
          assert evs'[|evs| - 1] == evs[|evs| - 1] && evs'[|evs| - 1].clock <= evs'[|evs|].time;
        } else {
          assert Shows(h[j - off], j, evs, vs) && j - off <= c;
          assert evs'[j].time <= evs'[j].clock;
          assert j < off + c ==> evs'[j].clock <= evs'[off + c].time;
        }
      }
    }
  }

  lemma PrefixVerdicts(cfg: Config, evs: seq<Event>, k: nat)
    requires k < |evs| && Ordered(evs)
    ensures Ordered(evs[..k]) && evs[..k] + [evs[k]] == evs[..k + 1] && Ordered(evs[..k + 1])
    ensures Verdicts(cfg, evs[..k]) == Verdicts(cfg, evs)[..k]
    ensures Verdicts(cfg, evs)[k] == Decide(cfg, Run(cfg, evs[..k], true).1, k, evs[k].time).0
  {
    VerdictAt(cfg, evs, true, k);
    forall j | 0 <= j < k ensures Verdicts(cfg, evs[..k])[j] == Verdicts(cfg, evs)[j] {
      VerdictAt(cfg, evs, true, j);
      VerdictAt(cfg, evs[..k], true, j);
      assert evs[..k][..j] == evs[..j];
    }
  }

  /** An abnormal counts if all counted ones before it are at least a cooldown back; and only then, where the
      cooldown fits into the window. */
  lemma CountsExactly(cfg: Config, evs: seq<Event>, k: nat)
    requires Ordered(evs) && k < |evs|
    ensures var vs := Verdicts(cfg, evs);
      && (Rested(cfg, evs[..k], vs[..k], evs[k].time) ==> vs[k].counted)
      && (Harmless(cfg) && vs[k].counted ==> Rested(cfg, evs[..k], vs[..k], evs[k].time))
      && (vs[k].logged ==> vs[k].counted)
  {
    PrefixVerdicts(cfg, evs, k);
    RecentRun(cfg, evs[..k]);
    CountedNow(cfg, evs[..k], Verdicts(cfg, evs)[..k], Run(cfg, evs[..k], true).1, evs[k]);
  }

  /** With a single strike every counted abnormal warns, naming itself alone; with none or fewer nothing does. */
  lemma OneStrikeWarns(cfg: Config, evs: seq<Event>, k: nat)
    requires cfg.strikesNum <= 1 && k < |evs|
    ensures var v := Verdicts(cfg, evs)[k];
      v.warning == if cfg.strikesNum == 1 && v.counted && v.logged then Some([k]) else None
  {
    VerdictAt(cfg, evs, true, k);
  }

  // ----- what warns -----

  /** The abnormals in ids, in order, have counted, have been named by no warning before the k-th abnormal, and
      lie within the window before it. */
  ghost predicate UnusedStrikes(cfg: Config, evs: seq<Event>, vs: seq<Verdict>, k: nat, ids: seq<nat>)
    requires k < |evs| == |vs|
  {
    && (forall i, j :: 0 <= i < j < |ids| ==> ids[i] < ids[j])
    && (forall i :: 0 <= i < |ids| ==>
          ids[i] < k && vs[ids[i]].counted && !Used(vs, k, ids[i]) && evs[k].time - evs[ids[i]].time <= cfg.window)
  }

  /** Positions of open entries in order. */
  ghost predicate OpenAt(h: seq<Entry>, ps: seq<nat>) {
    && (forall i, j :: 0 <= i < j < |ps| ==> ps[i] < ps[j])
    && (forall i :: 0 <= i < |ps| ==> ps[i] < |h| && Open(h[ps[i]]))
  }

  lemma {:induction false} OpenAtCount(h: seq<Entry>, ps: seq<nat>)
    requires OpenAt(h, ps)
    ensures |ps| <= Opens(h)
  {
    if ps != [] {
      var n := |ps| - 1;
      var before := h[..ps[n]];
      forall i | 0 <= i < n ensures ps[i] < |before| && before[ps[i]] == h[ps[i]] {}
      assert OpenAt(before, ps[..n]);
      OpenAtCount(before, ps[..n]);
      OpensSuffix(h, ps[n] + 1);
      assert h[..ps[n] + 1] == before + [h[ps[n]]];
      OpensSnoc(before, h[ps[n]]);
    }
  }

  ghost predicate Rising(s: seq<nat>) {
    forall i, j :: 0 <= i < j < |s| ==> s[i] < s[j]
  }

  /** What comes before the last of a lies before its place in b. */
  lemma EarlierIn(a: seq<nat>, b: seq<nat>, m: nat)
    requires Rising(a) && Rising(b) && (forall x :: x in a ==> x in b)
    requires a != [] && m < |b| && b[m] == a[|a| - 1]
    ensures Rising(a[..|a| - 1]) && Rising(b[..m])
    ensures forall x :: x in a[..|a| - 1] ==> x in b[..m]
  {
    forall x | x in a[..|a| - 1] ensures x in b[..m] {
      assert x in a;
      var l :| 0 <= l < |b| && b[l] == x;
      assert l < m && b[..m][l] == x;
    }
  }

  lemma {:induction false} NoLonger(a: seq<nat>, b: seq<nat>)
    requires Rising(a) && Rising(b) && forall x :: x in a ==> x in b
    ensures |a| <= |b|
  {
    if a != [] {
      var n := |a| - 1;
      assert a[n] in a;
      var m :| 0 <= m < |b| && b[m] == a[n];
      EarlierIn(a, b, m);
      NoLonger(a[..n], b[..m]);
    }
  }

  /** Two rising lists of the same length, one made of members of the other, are the same. */
  lemma {:induction false} RisingSame(a: seq<nat>, b: seq<nat>)
    requires Rising(a) && Rising(b) && |a| == |b| && forall x :: x in a ==> x in b
    ensures a == b
  {
    if a != [] {
      var n := |a| - 1;
      assert a[n] in a;
      var m :| 0 <= m < |b| && b[m] == a[n];
      EarlierIn(a, b, m);
      NoLonger(a[..n], b[..m]);
      assert m == n;
      RisingSame(a[..n], b[..n]);
      assert a == a[..n] + [a[n]] && b == b[..n] + [b[n]];
    }
  }

  function Reversed(s: seq<nat>): (r: seq<nat>)
    ensures |r| == |s|
  {
    seq(|s|, i requires 0 <= i < |s| => s[|s| - 1 - i])
  }

  /** If as many entries are open as a warning needs besides the new one, and the oldest is in the window, the
      decision warns and names them all. */
  lemma OpenOnesWarn(cfg: Config, vs: seq<Verdict>, h: seq<Entry>, id: nat, time: real, ps: seq<nat>)
    requires cfg.strikesNum >= 3 && Disciplined(cfg, h, vs) && OpenAt(h, ps) && |ps| == cfg.strikesNum - 1
    requires Abs(time - h[ps[0]].time) <= cfg.window && Decide(cfg, h, id, time).0.counted
    ensures Decide(cfg, h, id, time).0.warning ==
      Some(seq(|ps|, i requires 0 <= i < |ps| => h[ps[i]].id) + [id])
  {
    OpenAtCount(h, ps);
    var c := LastCounted(h);
    if c < 0 || |Held(cfg, h, c).0| != cfg.strikesNum - 1 {
      FewOpen(cfg, h);
      assert false;
    }
    var q := FullHand(cfg, vs, h, c);
    HandDescends(h, c, q);
    var pos := Held(cfg, h, c).0;
    HandIsAll(h, c, q, ps);
    assert pos[|pos| - 1] == ps[0];
    assert Ids(h, pos) == seq(|ps|, i requires 0 <= i < |ps| => h[ps[i]].id);
  }

  lemma HandIsAll(h: seq<Entry>, c: nat, q: seq<nat>, ps: seq<nat>)
    requires c < |h| && q != [] && Found(h, q[|q| - 1], c - 1, q) && IsHand(h, [c] + q)
    requires (forall j :: c < j < |h| ==> !h[j].counted) && Opens(h[..q[|q| - 1]]) == 0
    requires OpenAt(h, ps) && |ps| == |q| + 1
    ensures ps == Reversed([c] + q)
  {
    var low, pos := q[|q| - 1], [c] + q;
    OpensZero(h[..low]);
    forall i | 0 <= i < low ensures !Open(h[i]) {
      assert h[..low][i] == h[i];
    }
    forall i | 0 <= i < |ps| ensures ps[i] in Reversed(pos) {
      assert ps[i] in pos;
      var m :| 0 <= m < |pos| && pos[m] == ps[i];
      assert Reversed(pos)[|pos| - 1 - m] == ps[i];
    }
    RisingSame(ps, Reversed(pos));
  }

  /** A counted abnormal before which strikesNum - 1 unused strikes lie within the window warns, and names exactly
      these and itself. */
  lemma WarningsAreComplete(cfg: Config, evs: seq<Event>, k: nat, ids: seq<nat>)
    requires cfg.strikesNum >= 3 && Ordered(evs) && k < |evs| && Verdicts(cfg, evs)[k].counted
    requires UnusedStrikes(cfg, evs, Verdicts(cfg, evs), k, ids) && |ids| == cfg.strikesNum - 1
    ensures Verdicts(cfg, evs)[k].warning == Some(ids + [k])
  {
    var vs, h, past := Verdicts(cfg, evs), Run(cfg, evs[..k], true).1, evs[..k];
    PrefixVerdicts(cfg, evs, k);
    RecentRun(cfg, past);
    GoodRun(cfg, past);
    var off := k - |h|;
    var ps := StrikesAreOpen(cfg, evs, vs, k, h, ids);
    OpenOnesWarn(cfg, vs[..k], h, k, evs[k].time, ps);
    assert ids == seq(|ps|, i requires 0 <= i < |ps| => h[ps[i]].id);
  }

  lemma StrikesAreOpen(cfg: Config, evs: seq<Event>, vs: seq<Verdict>, k: nat, h: seq<Entry>, ids: seq<nat>)
    returns (ps: seq<nat>)
    requires Ordered(evs) && k < |evs| == |vs| && UnusedStrikes(cfg, evs, vs, k, ids) && ids != []
    requires Recent(cfg, evs[..k], vs[..k], h) && Disciplined(cfg, h, vs[..k])
    ensures OpenAt(h, ps) && |ps| == |ids| && forall i :: 0 <= i < |ids| ==> h[ps[i]].id == ids[i]
    ensures Abs(evs[k].time - h[ps[0]].time) <= cfg.window
  {
    var off := k - |h|;
    assert forall i :: 0 <= i < |ids| ==> evs[ids[i]].time <= evs[k].time && evs[k - 1].clock <= evs[k].time;
    assert forall i :: 0 <= i < |ids| ==> ids[i] >= off;
    ps := seq(|ids|, i requires 0 <= i < |ids| => ids[i] - off);
    forall i | 0 <= i < |ids| ensures h[ps[i]].id == ids[i] && Open(h[ps[i]]) {
      assert Shows(h[ps[i]], off + ps[i], evs[..k], vs[..k]);
      UsedBefore(vs, k, ids[i]);
    }
    assert Shows(h[ps[0]], off + ps[0], evs[..k], vs[..k]);
  }

  lemma UsedBefore(vs: seq<Verdict>, k: nat, id: nat)
    requires k <= |vs|
    ensures Used(vs[..k], k, id) <==> Used(vs, k, id)
  {
    if Used(vs, k, id) {
      var m :| 0 <= m < k && vs[m].warning.Some? && id in vs[m].warning.value;
      assert vs[..k][m] == vs[m];
    }
  }
}
