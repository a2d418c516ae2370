/** Removing expired history does not change what the strike counter decides, and exactly when each
    strike abnormal can be used twice. */
module StrikeForgetting {
  import opened Basics
  import opened Strikes
  import opened StrikeTheorems

  // ----- reusing strikes -----

  /** No warning names an abnormal that an earlier warning named. */
  ghost predicate NoReuse(cfg: Config, evs: seq<Event>) {
    var vs := Verdicts(cfg, evs);
    forall k, i :: 0 <= k < |vs| && vs[k].warning.Some? && 0 <= i < |vs[k].warning.value| ==>
      !Used(vs, k, vs[k].warning.value[i])
  }

  lemma ProcessDecides(cfg: Config, h: seq<Entry>, id: nat, e: Event, forget: bool)
    ensures Process(cfg, h, id, e, forget).0 == Decide(cfg, h, id, e.time).0
  {
  }

  lemma VerdictSnoc(cfg: Config, evs: seq<Event>, e: Event, forget: bool)
    ensures Run(cfg, evs + [e], forget).0 ==
      Run(cfg, evs, forget).0 + [Decide(cfg, Run(cfg, evs, forget).1, |evs|, e.time).0]
  {
    RunSnoc(cfg, evs, e, forget);
    ProcessDecides(cfg, Run(cfg, evs, forget).1, |evs|, e, forget);
  }

  lemma {:induction false} VerdictAt(cfg: Config, evs: seq<Event>, forget: bool, k: nat)
    requires k < |evs|
    ensures Run(cfg, evs, forget).0[k] == Decide(cfg, Run(cfg, evs[..k], forget).1, k, evs[k].time).0
  {
    var n := |evs| - 1;
    assert evs[..n] + [evs[n]] == evs;
    VerdictSnoc(cfg, evs[..n], evs[n], forget);
    if k < n {
      VerdictAt(cfg, evs[..n], forget, k);
      assert evs[..n][..k] == evs[..k];
    }
  }

  lemma FewStrikesNameThemselves(cfg: Config, h: seq<Entry>, id: nat, time: real)
    requires cfg.strikesNum <= 1
    ensures var w := Decide(cfg, h, id, time).0.warning; w == None || w == Some([id])
  {
  }

  lemma FewStrikesNoReuse(cfg: Config, evs: seq<Event>)
    requires cfg.strikesNum <= 1
    ensures NoReuse(cfg, evs)
  {
    var vs := Verdicts(cfg, evs);
    forall k | 0 <= k < |vs| ensures vs[k].warning == None || vs[k].warning == Some([k]) {
      VerdictAt(cfg, evs, true, k);
      FewStrikesNameThemselves(cfg, Run(cfg, evs[..k], true).1, k, evs[k].time);
    }
  }

  lemma ManyStrikesNoReuse(cfg: Config, evs: seq<Event>)
    requires cfg.strikesNum >= 3 && Ordered(evs)
    ensures NoReuse(cfg, evs)
  {
    WarningsAreSound(cfg, evs);
    var vs := Verdicts(cfg, evs);
    forall k, i | 0 <= k < |vs| && vs[k].warning.Some? && 0 <= i < |vs[k].warning.value|
      ensures !Used(vs, k, vs[k].warning.value[i])
    {
      assert SoundAt(cfg, evs, vs, k);
    }
  }

  // ----- two strikes -----

  /** An abnormal whose expiry clock shows the time of the abnormal. */
  function At(time: real): Event {
    Event(time, time)
  }

  /** Expired entries are removed at the very time of the abnormal. */
  predicate Prompt(evs: seq<Event>) {
    forall i :: 0 <= i < |evs| ==> evs[i].clock == evs[i].time
  }

  /** A time after the first abnormal has expired and before the cooldown of the second is over. */
  function Between(cfg: Config): real {
    (cfg.window + cfg.cooldown + cfg.cooldown) / 2.0
  }

  /** Abnormals at 0, one and two cooldowns; if the first one stays in the window that long, nothing else is
      needed, otherwise an uncounted abnormal in between makes it expire. */
  function Reusing(cfg: Config): seq<Event> {
    var g := cfg.cooldown;
    if g + g <= cfg.window then FirstTwo(cfg) + [At(g + g)]
    else FirstTwo(cfg) + [At(Between(cfg))] + [At(g + g)]
  }

  function FirstTwo(cfg: Config): seq<Event> {
    [At(0.0)] + [At(cfg.cooldown)]
  }

  predicate TwoStrikes(cfg: Config) {
    cfg.strikesNum == 2 && 0.0 <= cfg.cooldown <= cfg.window
  }

  lemma RunFirst(cfg: Config)
    requires TwoStrikes(cfg)
    ensures Run(cfg, [At(0.0)], true).1 == [Entry(0, 0.0, true, false)]
  {
    assert [] + [At(0.0)] == [At(0.0)];
    RunSnoc(cfg, [], At(0.0), true);
  }

  lemma DecideSecond(cfg: Config, h: seq<Entry>)
    requires TwoStrikes(cfg) && h == [Entry(0, 0.0, true, false)]
    ensures Decide(cfg, h, 1, cfg.cooldown) == (Verdict(true, true, Some([0, 1])), [Entry(0, 0.0, true, true)])
  {
    LastCountedIs(h, 0);
    assert Held(cfg, h, 0) == ([0], h[0]);
    assert Ids(h, [0]) + [1] == [0, 1];
    assert Strike(h, [0]) == [Entry(0, 0.0, true, true)];
  }

  /** The second abnormal is a strike, and both are in the history. */
  lemma RunFirstTwo(cfg: Config)
    requires TwoStrikes(cfg)
    ensures |Run(cfg, FirstTwo(cfg), true).0| == 2 && Run(cfg, FirstTwo(cfg), true).0[1].warning == Some([0, 1])
    ensures Run(cfg, FirstTwo(cfg), true).1 == [Entry(0, 0.0, true, true), Entry(1, cfg.cooldown, true, true)]
  {
    var a, b := Entry(0, 0.0, true, true), Entry(1, cfg.cooldown, true, true);
    RunFirst(cfg);
    DecideSecond(cfg, [Entry(0, 0.0, true, false)]);
    RunSnoc(cfg, [At(0.0)], At(cfg.cooldown), true);
    VerdictSnoc(cfg, [At(0.0)], At(cfg.cooldown), true);
    assert [a] + [b] == [a, b];
    PruneIs([a, b], 0, cfg.cooldown, cfg.window);
  }

  /** While the first abnormal is in the window, the third is a strike together with the second. */
  lemma DecideNear(cfg: Config, h: seq<Entry>)
    requires TwoStrikes(cfg) && cfg.cooldown + cfg.cooldown <= cfg.window
    requires h == [Entry(0, 0.0, true, true), Entry(1, cfg.cooldown, true, true)]
    ensures Decide(cfg, h, 2, cfg.cooldown + cfg.cooldown).0.warning == Some([1, 2])
  {
    LastCountedIs(h, 1);
    assert Scan(h, 0, [1], h[1], 1) == ([1], h[0]);
    assert Held(cfg, h, 1) == ([1], h[0]);
    assert Ids(h, [1]) + [2] == [1, 2];
  }

  /** The abnormal in between does not count and makes the first one expire. */
  lemma RunBetween(cfg: Config, h: seq<Entry>)
    requires TwoStrikes(cfg) && cfg.cooldown + cfg.cooldown > cfg.window
    requires h == [Entry(0, 0.0, true, true), Entry(1, cfg.cooldown, true, true)]
    ensures Process(cfg, h, 2, At(Between(cfg)), true).1
         == [Entry(1, cfg.cooldown, true, true), Entry(2, Between(cfg), false, false)]
  {
    var c := Entry(2, Between(cfg), false, false);
    LastCountedIs(h, 1);
    assert Decide(cfg, h, 2, Between(cfg)) == (Verdict(false, false, None), h);
    PruneIs(h + [c], 1, Between(cfg), cfg.window);
    assert (h + [c])[1..] == [h[1], c];
  }

  lemma DecideFar(cfg: Config, h: seq<Entry>)
    requires TwoStrikes(cfg) && h == [Entry(1, cfg.cooldown, true, true), Entry(2, Between(cfg), false, false)]
    ensures Decide(cfg, h, 3, cfg.cooldown + cfg.cooldown).0.warning == Some([1, 3])
  {
    LastCountedIs(h, 0);
    assert Held(cfg, h, 0) == ([0], h[0]);
    assert Ids(h, [0]) + [3] == [1, 3];
  }

  /** The last warning names the second abnormal again. */
  lemma LastWarning(cfg: Config)
    requires TwoStrikes(cfg)
    ensures var evs, vs := Reusing(cfg), Verdicts(cfg, Reusing(cfg));
      && |vs| == |evs| >= 3 && vs[1].warning == Some([0, 1])
      && vs[|vs| - 1].warning == Some([1, |vs| - 1])
  {
    hide Process, Decide;
    var g, first := cfg.cooldown, FirstTwo(cfg);
    RunFirstTwo(cfg);
    if g + g <= cfg.window {
      DecideNear(cfg, Run(cfg, first, true).1);
      VerdictSnoc(cfg, first, At(g + g), true);
    } else {
      var more := first + [At(Between(cfg))];
      RunBetween(cfg, Run(cfg, first, true).1);
      RunSnoc(cfg, first, At(Between(cfg)), true);
      VerdictSnoc(cfg, first, At(Between(cfg)), true);
      DecideFar(cfg, Run(cfg, more, true).1);
      VerdictSnoc(cfg, more, At(g + g), true);
    }
  }

  lemma ReusingIsPrompt(cfg: Config)
    requires TwoStrikes(cfg)
    ensures Ordered(Reusing(cfg)) && Prompt(Reusing(cfg))
  {
  }

  /** With two strikes some stream of promptly processed abnormals uses one of them in two warnings. */
  lemma TwoStrikesReuse(cfg: Config)
    requires TwoStrikes(cfg)
    ensures Ordered(Reusing(cfg)) && Prompt(Reusing(cfg)) && !NoReuse(cfg, Reusing(cfg))
  {
    ReusingIsPrompt(cfg);
    LastWarning(cfg);
    var vs := Verdicts(cfg, Reusing(cfg));
    assert vs[1].warning.value[1] == 1;
    assert Used(vs, |vs| - 1, vs[|vs| - 1].warning.value[0]);
  }

  /** Strikes are never reused exactly when strikesNum is not 2, over all streams and over those whose
      expired entries are removed promptly. */
  lemma ReuseExactlyAtTwo(cfg: Config)
    requires 0.0 <= cfg.cooldown <= cfg.window
    ensures (forall evs: seq<Event> :: Ordered(evs) ==> NoReuse(cfg, evs)) <==> cfg.strikesNum != 2
    ensures (forall evs: seq<Event> :: Ordered(evs) && Prompt(evs) ==> NoReuse(cfg, evs)) <==> cfg.strikesNum != 2
  {
    hide NoReuse;
    if cfg.strikesNum == 2 {
      TwoStrikesReuse(cfg);
    } else {
      forall evs: seq<Event> | Ordered(evs) ensures NoReuse(cfg, evs) {
        if cfg.strikesNum >= 3 {
          ManyStrikesNoReuse(cfg, evs);
        } else {
          FewStrikesNoReuse(cfg, evs);
        }
      }
    }
  }

  // ----- forgetting -----

  /** Sorted by time, and nothing later than `now`. */
  ghost predicate Timely(h: seq<Entry>, now: real) {
    && (forall i :: 0 <= i < |h| ==> h[i].time <= now)
    && (forall i, j :: 0 <= i < j < |h| ==> h[i].time <= h[j].time)
  }

  /** The forgetful history is the full one without its first k entries, all of which have expired. */
  ghost predicate Forgot(cfg: Config, full: seq<Entry>, kept: seq<Entry>, k: nat, now: real) {
    && k + |kept| == |full| && full[k..] == kept && Timely(full, now)
    && (forall i :: 0 <= i < k ==> now - full[i].time > cfg.window)
  }

  function Shift(pos: seq<nat>, k: nat): (r: seq<nat>)
    ensures |r| == |pos| && forall i :: 0 <= i < |pos| ==> r[i] == pos[i] + k
  {
    seq(|pos|, i requires 0 <= i < |pos| => pos[i] + k)
  }

  /** A scan that completes below position k stops at one of the first k entries. */
  lemma {:induction false} ScanLow(h: seq<Entry>, i: int, k: nat, pos: seq<nat>, last: Entry, n: int)
    requires -1 <= i < |h| && i < k && |pos| != n
    ensures |Scan(h, i, pos, last, n).0| == n ==>
      exists j :: 0 <= j < k && j < |h| && Scan(h, i, pos, last, n).1 == h[j]
    decreases i + 1
  {
    if i >= 0 {
      var pos' := if Open(h[i]) then pos + [i] else pos;
      if |pos'| != n {
        ScanLow(h, i - 1, k, pos', h[i], n);
      }
    }
  }

  /** Scanning the full history finds the same hand, or has to reach into what was forgotten. */
  lemma {:induction false} ScanShift(full: seq<Entry>, kept: seq<Entry>, k: nat, i: int, pos: seq<nat>, last: Entry,
                                     n: int)
    requires k + |kept| == |full| && full[k..] == kept && -1 <= i < |kept| && |pos| != n
    ensures var a, b := Scan(kept, i, pos, last, n), Scan(full, k + i, Shift(pos, k), last, n);
      if |a.0| == n then b == (Shift(a.0, k), a.1)
      else |b.0| == n ==> exists j :: 0 <= j < k && b.1 == full[j]
    decreases i + 1
  {
    if i < 0 {
      ScanLow(full, k + i, k, Shift(pos, k), last, n);
    } else {
      assert full[k + i] == kept[i];
      var pos' := if Open(kept[i]) then pos + [i] else pos;
      assert Shift(pos', k) == if Open(kept[i]) then Shift(pos, k) + [k + i] else Shift(pos, k);
      if |pos'| != n {
        ScanShift(full, kept, k, i - 1, pos', kept[i], n);
      }
    }
  }

  lemma LastCountedShift(full: seq<Entry>, kept: seq<Entry>, k: nat)
    requires k + |kept| == |full| && full[k..] == kept
    ensures LastCounted(kept) >= 0 ==> LastCounted(full) == k + LastCounted(kept)
    ensures LastCounted(kept) < 0 ==> LastCounted(full) < k
  {
    var c := LastCounted(kept);
    forall j | k <= j < |full| ensures full[j] == kept[j - k] {}
    if c >= 0 {
      LastCountedIs(full, k + c);
    }
  }

  /** The decision part of a verdict. */
  predicate Agree(a: Verdict, b: Verdict) {
    a.counted == b.counted && a.warning == b.warning
  }

  predicate Harmless(cfg: Config) {
    cfg.cooldown <= cfg.window || cfg.cooldown <= 0.0
  }

  /** When the last counted entry is forgotten, both detectors count and neither warns. */
  lemma ForgottenDecide(cfg: Config, full: seq<Entry>, kept: seq<Entry>, k: nat, now: real, id: nat, time: real)
    requires (cfg.strikesNum >= 3 || cfg.strikesNum <= 0) && Harmless(cfg)
    requires Forgot(cfg, full, kept, k, now) && now <= time && LastCounted(kept) < 0
    ensures Decide(cfg, kept, id, time).0.counted && Decide(cfg, kept, id, time).0.warning.None?
    ensures Decide(cfg, full, id, time).0.counted && Decide(cfg, full, id, time).0.warning.None?
    ensures Decide(cfg, kept, id, time).1 == kept && Decide(cfg, full, id, time).1 == full
  {
    LastCountedShift(full, kept, k);
    var c := LastCounted(full);
    if c >= 0 {
      ScanLow(full, c - 1, k, [c], full[c], cfg.strikesNum - 1);
    }
  }

  /** When it is remembered, both detectors find the same hand or neither warns. */
  lemma RememberedHand(cfg: Config, full: seq<Entry>, kept: seq<Entry>, k: nat, now: real, time: real)
    requires cfg.strikesNum >= 3 || cfg.strikesNum <= 0
    requires Forgot(cfg, full, kept, k, now) && now <= time && LastCounted(kept) >= 0
    ensures var c := LastCounted(kept);
      var a, b := Held(cfg, kept, c), Held(cfg, full, k + c);
      if |a.0| == cfg.strikesNum - 1 then b == (Shift(a.0, k), a.1)
      else |b.0| == cfg.strikesNum - 1 ==> Abs(time - b.1.time) > cfg.window
  {
    var c := LastCounted(kept);
    assert full[k + c] == kept[c];
    assert Shift([c], k) == [k + c];
    ScanShift(full, kept, k, c - 1, [c], kept[c], cfg.strikesNum - 1);
  }

  lemma ShiftMember(pos: seq<nat>, k: nat, i: nat)
    ensures k + i in Shift(pos, k) <==> i in pos
  {
    var sp := Shift(pos, k);
    if k + i in sp {
      var m :| 0 <= m < |sp| && sp[m] == k + i;
      assert pos[m] == i;
    }
    if i in pos {
      var m :| 0 <= m < |pos| && pos[m] == i;
      assert sp[m] == k + i;
    }
  }

  lemma StrikeShift(full: seq<Entry>, kept: seq<Entry>, k: nat, pos: seq<nat>)
    requires k + |kept| == |full| && full[k..] == kept
    ensures Strike(full, Shift(pos, k))[k..] == Strike(kept, pos)
  {
    forall i | 0 <= i < |kept| ensures Strike(full, Shift(pos, k))[k..][i] == Strike(kept, pos)[i] {
      assert full[k + i] == full[k..][i];
      ShiftMember(pos, k, i);
    }
  }

  lemma IdsShift(full: seq<Entry>, kept: seq<Entry>, k: nat, pos: seq<nat>)
    requires k + |kept| == |full| && full[k..] == kept && forall i :: 0 <= i < |pos| ==> pos[i] < |kept|
    ensures Ids(full, Shift(pos, k)) == Ids(kept, pos)
  {
    forall m | 0 <= m < |pos| ensures Ids(full, Shift(pos, k))[m] == Ids(kept, pos)[m] {
      var p := pos[|pos| - 1 - m];
      assert full[k + p] == full[k..][p];
    }
  }

  lemma RememberedJudgement(cfg: Config, full: seq<Entry>, kept: seq<Entry>, k: nat, c: nat, id: nat, time: real)
    requires (cfg.strikesNum >= 3 || cfg.strikesNum <= 0) && k + |kept| == |full| && full[k..] == kept && c < |kept|
    requires var a, b := Held(cfg, kept, c), Held(cfg, full, k + c);
      if |a.0| == cfg.strikesNum - 1 then b == (Shift(a.0, k), a.1)
      else |b.0| == cfg.strikesNum - 1 ==> Abs(time - b.1.time) > cfg.window
    ensures Judgement(cfg, full, k + c, id, time).0 == Judgement(cfg, kept, c, id, time).0
    ensures |Judgement(cfg, full, k + c, id, time).1| == |full|
    ensures Judgement(cfg, full, k + c, id, time).1[k..] == Judgement(cfg, kept, c, id, time).1
  {
    assert full[k + c] == kept[c];
    var a := Held(cfg, kept, c);
    if |a.0| == cfg.strikesNum - 1 {
      StrikeShift(full, kept, k, a.0);
      IdsShift(full, kept, k, a.0);
    }
  }

  lemma RememberedDecide(cfg: Config, full: seq<Entry>, kept: seq<Entry>, k: nat, now: real, id: nat, time: real)
    requires cfg.strikesNum >= 3 || cfg.strikesNum <= 0
    requires Forgot(cfg, full, kept, k, now) && now <= time && LastCounted(kept) >= 0
    ensures Decide(cfg, full, id, time).0 == Decide(cfg, kept, id, time).0
    ensures |Decide(cfg, full, id, time).1| == |full|
    ensures Decide(cfg, full, id, time).1[k..] == Decide(cfg, kept, id, time).1
  {
    LastCountedShift(full, kept, k);
    RememberedHand(cfg, full, kept, k, now, time);
    RememberedJudgement(cfg, full, kept, k, LastCounted(kept), id, time);
  }

  /** Both detectors decide alike, and stay related before anything is removed. */
  lemma BothDecide(cfg: Config, full: seq<Entry>, kept: seq<Entry>, k: nat, now: real, id: nat, time: real)
    requires (cfg.strikesNum >= 3 || cfg.strikesNum <= 0) && Harmless(cfg)
    requires Forgot(cfg, full, kept, k, now) && now <= time
    ensures Agree(Decide(cfg, full, id, time).0, Decide(cfg, kept, id, time).0)
    ensures Decide(cfg, full, id, time).1[k..] == Decide(cfg, kept, id, time).1
  {
    if LastCounted(kept) >= 0 {
      RememberedDecide(cfg, full, kept, k, now, id, time);
    } else {
      ForgottenDecide(cfg, full, kept, k, now, id, time);
    }
  }

  lemma AppendForgot(cfg: Config, full: seq<Entry>, kept: seq<Entry>, full': seq<Entry>, kept': seq<Entry>,
                     k: nat, now: real, x: Entry, clock: real)
    requires Forgot(cfg, full, kept, k, now) && now <= x.time <= clock
    requires |full'| == |full| && (forall i :: 0 <= i < |full| ==> full'[i].time == full[i].time) && full'[k..] == kept'
    ensures Forgot(cfg, full' + [x], kept' + [x], k, clock)
  {
    assert (full' + [x])[k..] == full'[k..] + [x];
  }

  lemma PruneForgot(cfg: Config, full: seq<Entry>, kept: seq<Entry>, k: nat, clock: real)
    requires Forgot(cfg, full, kept, k, clock)
    ensures var kept' := Prune(kept, clock, cfg.window);
      Forgot(cfg, full, kept', |full| - |kept'|, clock)
  {
    var kept' := Prune(kept, clock, cfg.window);
    var m := |kept| - |kept'|;
    assert full[k..][m..] == full[k + m..];
    forall i | 0 <= i < k + m ensures clock - full[i].time > cfg.window {
      if i >= k {
        assert full[i] == kept[i - k];
      }
    }
  }

  lemma ProcessIs(cfg: Config, h: seq<Entry>, id: nat, e: Event, forget: bool, v: Verdict, h': seq<Entry>,
                  all: seq<Entry>)
    requires v == Decide(cfg, h, id, e.time).0 && h' == Decide(cfg, h, id, e.time).1
    requires all == h' + [Entry(id, e.time, v.counted, v.warning.Some?)]
    ensures Process(cfg, h, id, e, forget).0 == v
    ensures Process(cfg, h, id, e, forget).1 == if forget && h != [] then Prune(all, e.clock, cfg.window) else all
  {
  }

  /** The two histories stay related through appending and removing. */
  lemma ForgotAll(cfg: Config, full: seq<Entry>, kept: seq<Entry>, full': seq<Entry>, kept': seq<Entry>,
                  k: nat, now: real, x: Entry, clock: real) returns (k': nat)
    requires Forgot(cfg, full, kept, k, now) && now <= x.time <= clock
    requires |full'| == |full| && (forall i :: 0 <= i < |full| ==> full'[i].time == full[i].time) && full'[k..] == kept'
    ensures Forgot(cfg, full' + [x], if kept ==
      [] then kept' + [x] else Prune(kept' + [x], clock, cfg.window), k', clock)
  {
    AppendForgot(cfg, full, kept, full', kept', k, now, x, clock);
    if kept == [] {
      k' := k;
    } else {
      PruneForgot(cfg, full' + [x], kept' + [x], k, clock);
      k' := |full' + [x]| - |Prune(kept' + [x], clock, cfg.window)|;
    }
  }

  lemma ForgotStep(cfg: Config, full: seq<Entry>, kept: seq<Entry>, k: nat, now: real, id: nat, e: Event)
    returns (k': nat)
    requires (cfg.strikesNum >= 3 || cfg.strikesNum <= 0) && Harmless(cfg)
    requires Forgot(cfg, full, kept, k, now) && now <= e.time <= e.clock
    ensures Agree(Process(cfg, full, id, e, false).0, Process(cfg, kept, id, e, true).0)
    ensures Forgot(cfg, Process(cfg, full, id, e, false).1, Process(cfg, kept, id, e, true).1, k', e.clock)
  {
    BothDecide(cfg, full, kept, k, now, id, e.time);
    DecideMarksOnly(cfg, full, id, e.time);
    var fv, fh := Decide(cfg, full, id, e.time).0, Decide(cfg, full, id, e.time).1;
    var dv, dh := Decide(cfg, kept, id, e.time).0, Decide(cfg, kept, id, e.time).1;
    var x := Entry(id, e.time, dv.counted, dv.warning.Some?);
    ProcessIs(cfg, full, id, e, false, fv, fh, fh + [x]);
    ProcessIs(cfg, kept, id, e, true, dv, dh, dh + [x]);
    k' := ForgotAll(cfg, full, kept, fh, dh, k, now, x, e.clock);
  }

  /** When the last abnormal of a stream was done with; before the first one, the time of the next. */
  function Since(evs: seq<Event>, e: Event): real {
    if evs == [] then e.time else evs[|evs| - 1].clock
  }

  lemma OrderedBefore(evs: seq<Event>)
    requires Ordered(evs) && evs != []
    ensures var n := |evs| - 1;
      var before := Since(evs[..n], evs[n]);
      && Ordered(evs[..n]) && before <= evs[n].time <= evs[n].clock
      && (evs[..n] != [] ==> before == evs[..n][|evs[..n]| - 1].clock)
  {
  }

  lemma ForgotNothing(cfg: Config, now: real)
    ensures Forgot(cfg, Run(cfg, [], false).1, Run(cfg, [], true).1, 0, now)
  {
  }

  lemma {:induction false} ForgotRun(cfg: Config, evs: seq<Event>, now: real) returns (k: nat)
    requires (cfg.strikesNum >= 3 || cfg.strikesNum <= 0) && Harmless(cfg) && Ordered(evs)
    requires evs != [] ==> now == evs[|evs| - 1].clock
    ensures Forgot(cfg, Run(cfg, evs, false).1, Run(cfg, evs, true).1, k, now)
    ensures forall i :: 0 <= i < |evs| ==> Agree(Run(cfg, evs, false).0[i], Run(cfg, evs, true).0[i])
  {
    hide Process, Run, Forgot, Agree, Ordered, Since;
    if evs == [] {
      k := 0;
      ForgotNothing(cfg, now);
    } else {
      var n := |evs| - 1;
      var e := evs[n];
      var before := Since(evs[..n], e);
      OrderedBefore(evs);
      var k0 := ForgotRun(cfg, evs[..n], before);
      assert evs[..n] + [e] == evs;
      RunSnoc(cfg, evs[..n], e, true);
      RunSnoc(cfg, evs[..n], e, false);
      k := ForgotStep(cfg, Run(cfg, evs[..n], false).1, Run(cfg, evs[..n], true).1, k0, before, n, e);
    }
  }

  ghost predicate SameDecisions(cfg: Config, evs: seq<Event>) {
    forall i :: 0 <= i < |evs| ==> Agree(Run(cfg, evs, false).0[i], Run(cfg, evs, true).0[i])
  }

  lemma ForgettingIsHarmless(cfg: Config, evs: seq<Event>)
    requires (cfg.strikesNum >= 3 || cfg.strikesNum <= 0) && Harmless(cfg) && Ordered(evs)
    ensures SameDecisions(cfg, evs)
  {
    if evs != [] {
      var k := ForgotRun(cfg, evs, evs[|evs| - 1].clock);
    }
  }

  // ----- when the window is shorter than the cooldown -----

  /** Two abnormals within the cooldown of the first but outside its window. */
  function Late(cfg: Config): seq<Event>
    requires !Harmless(cfg)
  {
    var w := if cfg.window < 0.0 then 0.0 else cfg.window;
    var s, t := (w + cfg.cooldown) / 2.0, cfg.cooldown;
    var u := (s + t) / 2.0;
    [Event(0.0, 0.0), Event(s, s), Event(u, u)]
  }

  lemma LateTimes(cfg: Config)
    requires !Harmless(cfg)
    ensures var evs := Late(cfg);
      && Ordered(evs) && |evs| == 3 && evs[0] == Event(0.0, 0.0) && evs[1].clock == evs[1].time
      && 0.0 < evs[1].time < evs[2].time < cfg.cooldown && cfg.window < evs[1].time
  {
  }

  lemma LateFirst(cfg: Config, evs: seq<Event>, forget: bool)
    requires cfg.strikesNum >= 3 && |evs| == 3 && evs[0] == Event(0.0, 0.0)
    ensures Run(cfg, evs[..1], forget).1 == [Entry(0, 0.0, true, false)]
  {
    assert evs[..1] == [] + [evs[0]];
    RunSnoc(cfg, [], evs[0], forget);
  }

  lemma LateSecond(cfg: Config, h: seq<Entry>, time: real)
    requires h == [Entry(0, 0.0, true, false)] && 0.0 < time < cfg.cooldown
    ensures Decide(cfg, h, 1, time) == (Verdict(false, false, None), h)
  {
    LastCountedIs(h, 0);
  }

  lemma LateHistories(cfg: Config, evs: seq<Event>, forget: bool)
    requires cfg.strikesNum >= 3 && !Harmless(cfg) && evs == Late(cfg)
    ensures var h := Run(cfg, evs[..2], forget).1;
      if forget then LastCounted(h) < 0
      else h == [Entry(0, 0.0, true, false), Entry(1, evs[1].time, false, false)]
  {
    var a, b := Entry(0, 0.0, true, false), Entry(1, evs[1].time, false, false);
    LateTimes(cfg);
    LateFirst(cfg, evs, forget);
    LateSecond(cfg, [a], evs[1].time);
    assert evs[..2] == evs[..1] + [evs[1]] && [a] + [b] == [a, b];
    RunSnoc(cfg, evs[..1], evs[1], forget);
    if forget {
      LateKept(cfg, a, b, evs[1].clock);
    }
  }

  lemma LateKept(cfg: Config, a: Entry, b: Entry, clock: real)
    requires a.time == 0.0 && b.time == clock > 0.0 && clock > cfg.window && !b.counted
    ensures LastCounted(Prune([a, b], clock, cfg.window)) < 0
  {
    if 0.0 <= cfg.window {
      PruneIs([a, b], 1, clock, cfg.window);
      assert [a, b][1..] == [b];
    } else {
      PruneIs([a, b], 2, clock, cfg.window);
    }
  }

  lemma LateDisagrees(cfg: Config)
    requires cfg.strikesNum >= 3 && !Harmless(cfg)
    ensures Ordered(Late(cfg)) && !SameDecisions(cfg, Late(cfg))
  {
    var evs := Late(cfg);
    LateTimes(cfg);
    LateHistories(cfg, evs, true);
    LateHistories(cfg, evs, false);
    VerdictAt(cfg, evs, true, 2);
    VerdictAt(cfg, evs, false, 2);
    var full, kept := Run(cfg, evs[..2], false).1, Run(cfg, evs[..2], true).1;
    LastCountedIs(full, 0);
    assert !Decide(cfg, full, 2, evs[2].time).0.counted;
    assert Decide(cfg, kept, 2, evs[2].time).0.counted;
    assert !Agree(Run(cfg, evs, false).0[2], Run(cfg, evs, true).0[2]);
  }

  /** Forgetting never changes a decision exactly when the cooldown fits into the window (or is void). */
  lemma ForgettingIsHarmlessExactlyWhen(cfg: Config)
    requires cfg.strikesNum >= 3
    ensures (forall evs: seq<Event> :: Ordered(evs) ==> SameDecisions(cfg, evs)) <==> Harmless(cfg)
  {
    if Harmless(cfg) {
      forall evs: seq<Event> | Ordered(evs) ensures SameDecisions(cfg, evs) {
        ForgettingIsHarmless(cfg, evs);
      }
    } else {
      LateDisagrees(cfg);
    }
  }

  // ----- the search never falls off the start -----

  /** A history in order whose search for a counted entry succeeds. */
  ghost predicate Searchable(h: seq<Entry>, now: real) {
    Timely(h, now) && (h != [] ==> LastCounted(h) >= 0)
  }

  lemma SomeCounted(h: seq<Entry>, i: nat)
    requires i < |h| && h[i].counted
    ensures LastCounted(h) >= 0
  {
  }

  lemma AppendSearchable(cfg: Config, h: seq<Entry>, now: real, id: nat, e: Event)
    requires Searchable(h, now) && now <= e.time
    ensures var d := Decide(cfg, h, id, e.time);
      Searchable(d.1 + [Entry(id, e.time, d.0.counted, d.0.warning.Some?)], e.time)
  {
    var d := Decide(cfg, h, id, e.time);
    var all := d.1 + [Entry(id, e.time, d.0.counted, d.0.warning.Some?)];
    if d.0.counted {
      SomeCounted(all, |h|);
    } else {
      SomeCounted(all, LastCounted(h));
    }
  }

  lemma TimelySuffix(h: seq<Entry>, now: real, cut: nat)
    requires Timely(h, now) && cut <= |h|
    ensures Timely(h[cut..], now)
  {
  }

  lemma PruneSearchable(cfg: Config, h: seq<Entry>, now: real, i: nat)
    requires Searchable(h, now) && i < |h| && h[i].counted
    requires Abs(now - h[i].time) <= cfg.window || i == |h| - 1
    ensures Searchable(Prune(h, now, cfg.window), now)
  {
    var kept := Prune(h, now, cfg.window);
    var cut := |h| - |kept|;
    TimelySuffix(h, now, cut);
    if kept != [] {
      assert cut <= i;
      assert h[cut..][i - cut] == h[i];
      SomeCounted(h[cut..], i - cut);
    }
  }

  lemma SearchableStep(cfg: Config, h: seq<Entry>, now: real, id: nat, e: Event, forget: bool)
    requires Searchable(h, now) && now <= e.time && (forget ==> Harmless(cfg) && e.clock == e.time)
    ensures Searchable(Process(cfg, h, id, e, forget).1, e.time)
    ensures Process(cfg, h, id, e, forget).0.logged == Process(cfg, h, id, e, forget).0.counted
  {
    AppendSearchable(cfg, h, now, id, e);
    var d := Decide(cfg, h, id, e.time);
    var all := d.1 + [Entry(id, e.time, d.0.counted, d.0.warning.Some?)];
    if forget && h != [] {
      if d.0.counted {
        PruneSearchable(cfg, all, e.time, |h|);
      } else {
        PruneSearchable(cfg, all, e.time, LastCounted(h));
      }
    }
  }

  /** When the last abnormal of a stream happened. */
  function LastTime(evs: seq<Event>, e: Event): real {
    if evs == [] then e.time else evs[|evs| - 1].time
  }

  ghost predicate SearchableAfter(cfg: Config, evs: seq<Event>, now: real, forget: bool) {
    && Searchable(Run(cfg, evs, forget).1, now)
    && forall i :: 0 <= i < |evs| ==> Run(cfg, evs, forget).0[i].logged == Run(cfg, evs, forget).0[i].counted
  }

  lemma SearchableSnoc(cfg: Config, evs: seq<Event>, e: Event, now: real, forget: bool)
    requires SearchableAfter(cfg, evs, now, forget) && now <= e.time
    requires forget ==> Harmless(cfg) && e.clock == e.time
    ensures SearchableAfter(cfg, evs + [e], e.time, forget)
  {
    SearchableStep(cfg, Run(cfg, evs, forget).1, now, |evs|, e, forget);
    RunSnoc(cfg, evs, e, forget);
  }

  /** With prompt removal the history is empty or holds a counted entry, so every counted abnormal is
      found to be one and logged. */
  lemma {:induction false} SearchNeverFallsOff(cfg: Config, evs: seq<Event>, now: real, forget: bool)
    requires Ordered(evs) && (forget ==> Harmless(cfg) && Prompt(evs))
    requires evs != [] ==> now == evs[|evs| - 1].time
    ensures SearchableAfter(cfg, evs, now, forget)
  {
    if evs != [] {
      var n := |evs| - 1;
      var before := LastTime(evs[..n], evs[n]);
      assert evs[..n] + [evs[n]] == evs;
      assert n > 0 ==> evs[n - 1].time <= evs[n - 1].clock <= evs[n].time;
      SearchNeverFallsOff(cfg, evs[..n], before, forget);
      SearchableSnoc(cfg, evs[..n], evs[n], before, forget);
    }
  }

  /** With prompt removal the forgetful detector gives the very same verdicts. */
  lemma PromptForgettingIsInvisible(cfg: Config, evs: seq<Event>)
    requires (cfg.strikesNum >= 3 || cfg.strikesNum <= 0) && Harmless(cfg) && Ordered(evs) && Prompt(evs)
    ensures Run(cfg, evs, true).0 == Run(cfg, evs, false).0
  {
    ForgettingIsHarmless(cfg, evs);
    var now := if evs == [] then 0.0 else evs[|evs| - 1].time;
    SearchNeverFallsOff(cfg, evs, now, true);
    SearchNeverFallsOff(cfg, evs, now, false);
    forall i | 0 <= i < |evs| ensures Run(cfg, evs, true).0[i] == Run(cfg, evs, false).0[i] {
      assert Agree(Run(cfg, evs, false).0[i], Run(cfg, evs, true).0[i]);
    }
  }
}
