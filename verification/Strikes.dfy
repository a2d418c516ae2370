/** The strike counter of the silent-fault detector (_abnormal_process in torch_npu/asd/asd.py).
    Times are in seconds; cooldown and window are the configured minutes times 60. */
module Strikes {
  import opened Basics

  datatype Config = Config(strikesNum: int, cooldown: real, window: real)

  /** One entry of history_abnormal_list; `id` is its position in the stream of abnormals. */
  datatype Entry = Entry(id: nat, time: real, counted: bool, struck: bool)

  /** An abnormal: when it happened, and what the clock shows when expired entries are removed. */
  datatype Event = Event(time: real, clock: real)

  /** What the detector says about an abnormal: whether it counts, whether it is logged as an event,
      and the abnormals named by a warning, oldest first. */
  datatype Verdict = Verdict(counted: bool, logged: bool, warning: Option<seq<nat>>)

  // ----- the detector as a function -----

  /** The last counted entry at or before i, or -1. */
  function CountedFrom(h: seq<Entry>, i: int): (c: int)
    requires -1 <= i < |h|
    ensures -1 <= c <= i
    ensures c >= 0 ==> h[c].counted
    ensures forall j :: c < j <= i ==> !h[j].counted
    decreases i + 1
  {
    if i < 0 || h[i].counted then i else CountedFrom(h, i - 1)
  }

  /** Index of the last counted entry, or -1. */
  function LastCounted(h: seq<Entry>): int {
    CountedFrom(h, |h| - 1)
  }

  predicate Open(e: Entry) {
    e.counted && !e.struck
  }

  /** The inner loop: collect open entries going back from i until n positions are held.  Also returns
      the entry the loop looked at last. */
  function Scan(h: seq<Entry>, i: int, pos: seq<nat>, last: Entry, n: int): (r: (seq<nat>, Entry))
    requires -1 <= i < |h|
    decreases i + 1
  {
    if i < 0 then (pos, last)
    else
      var pos' := if Open(h[i]) then pos + [i] else pos;
      if |pos'| == n then (pos', h[i]) else Scan(h, i - 1, pos', h[i], n)
  }

  function Strike(h: seq<Entry>, pos: seq<nat>): (r: seq<Entry>)
    ensures |r| == |h|
    ensures forall i :: 0 <= i < |h| ==> r[i] == if i in pos then h[i].(struck := true) else h[i]
  {
    seq(|h|, i requires 0 <= i < |h| => if i in pos then h[i].(struck := true) else h[i])
  }

  function Ids(h: seq<Entry>, pos: seq<nat>): (r: seq<nat>)
    requires forall k :: 0 <= k < |pos| ==> pos[k] < |h|
    ensures |r| == |pos|
    ensures forall k :: 0 <= k < |pos| ==> r[k] == h[pos[|pos| - 1 - k]].id
  {
    seq(|pos|, k requires 0 <= k < |pos| => h[pos[|pos| - 1 - k]].id)
  }

  /** The first entry from k on that has not expired. */
  function FirstLive(h: seq<Entry>, k: nat, clock: real, window: real): (r: nat)
    requires k <= |h|
    ensures k <= r <= |h|
    ensures forall i :: k <= i < r ==> Abs(clock - h[i].time) > window
    ensures r < |h| ==> Abs(clock - h[r].time) <= window
    decreases |h| - k
  {
    if k < |h| && Abs(clock - h[k].time) > window then FirstLive(h, k + 1, clock, window) else k
  }

  /** Dropping expired entries from the front. */
  function Prune(h: seq<Entry>, clock: real, window: real): seq<Entry> {
    h[FirstLive(h, 0, clock, window)..]
  }

  /** The positions the scan holds for an abnormal whose last counted predecessor is at c. */
  function Held(cfg: Config, h: seq<Entry>, c: nat): (r: (seq<nat>, Entry))
    requires c < |h|
    ensures forall k :: 0 <= k < |r.0| ==> r.0[k] <= c
  {
    ScanBounds(h, c - 1, [c], h[c], cfg.strikesNum - 1, c);
    Scan(h, c - 1, [c], h[c], cfg.strikesNum - 1)
  }

  /** The decision about an abnormal whose last counted predecessor is at c: its verdict, and the
      history with strikes marked. */
  function Judgement(cfg: Config, h: seq<Entry>, c: nat, id: nat, time: real): (Verdict, seq<Entry>)
    requires c < |h|
  {
    if Abs(time - h[c].time) < cfg.cooldown then
      (Verdict(false, false, None), h)
    else if cfg.strikesNum == 1 then
      (Verdict(true, true, Some([id])), h)
    else
      var r := Held(cfg, h, c);
      if |r.0| == cfg.strikesNum - 1 && Abs(time - r.1.time) <= cfg.window then
        (Verdict(true, true, Some(Ids(h, r.0) + [id])), Strike(h, r.0))
      else
        (Verdict(true, true, None), h)
  }

  /** The decision about a new abnormal, before it is appended. */
  function Decide(cfg: Config, h: seq<Entry>, id: nat, time: real): (Verdict, seq<Entry>) {
    if h == [] then
      (Verdict(true, true, if cfg.strikesNum == 1 then Some([id]) else None), h)
    else if LastCounted(h) < 0 then
      (Verdict(true, false, None), h)
    else
      Judgement(cfg, h, LastCounted(h), id, time)
  }

  /** A decision changes nothing in the history but strike marks. */
  lemma DecideMarksOnly(cfg: Config, h: seq<Entry>, id: nat, time: real)
    ensures |Decide(cfg, h, id, time).1| == |h|
    ensures forall i :: 0 <= i < |h| ==>
      Decide(cfg, h, id, time).1[i] == h[i] || Decide(cfg, h, id, time).1[i] == h[i].(struck := true)
  {
  }

  /** The whole of _abnormal_process; `forget` switches the removal of expired entries off. */
  function Process(cfg: Config, h: seq<Entry>, id: nat, e: Event, forget: bool): (r: (Verdict, seq<Entry>)) {
    var d := Decide(cfg, h, id, e.time);
    var all := d.1 + [Entry(id, e.time, d.0.counted, d.0.warning.Some?)];
    (d.0, if forget && h != [] then Prune(all, e.clock, cfg.window) else all)
  }

  /** The history after a stream of abnormals, and all verdicts. */
  function Run(cfg: Config, evs: seq<Event>, forget: bool): (r: (seq<Verdict>, seq<Entry>))
    ensures |r.0| == |evs|
  {
    if evs == [] then ([], [])
    else
      var n := |evs| - 1;
      var r := Run(cfg, evs[..n], forget);
      var p := Process(cfg, r.1, n, evs[n], forget);
      (r.0 + [p.0], p.1)
  }

  lemma {:induction false} ScanBounds(h: seq<Entry>, i: int, pos: seq<nat>, last: Entry, n: int, c: nat)
    requires -1 <= i < |h| && i <= c
    requires forall k :: 0 <= k < |pos| ==> pos[k] <= c
    ensures forall k :: 0 <= k < |Scan(h, i, pos, last, n).0| ==> Scan(h, i, pos, last, n).0[k] <= c
    decreases i + 1
  {
    if i >= 0 {
      var pos' := if Open(h[i]) then pos + [i] else pos;
      if |pos'| != n {
        ScanBounds(h, i - 1, pos', h[i], n, c);
      }
    }
  }

  // ----- the detector as the source runs it -----

  class Detector {
    const cfg: Config
    const withChecksum: bool
    var history: seq<Entry>
    var checksumState: nat

    constructor (cfg: Config, withChecksum: bool)
      ensures this.cfg == cfg && this.withChecksum == withChecksum && history == [] && checksumState == 0
    {
      this.cfg, this.withChecksum := cfg, withChecksum;
      history, checksumState := [], 0;
    }

    /** _abnormal_process */
    method AbnormalProcess(id: nat, e: Event) returns (v: Verdict)
      modifies this
      ensures (v, history) == Process(cfg, old(history), id, e, true)
      ensures checksumState == if v.warning.Some? && withChecksum then 1 else old(checksumState)
    {
      var first := history == [];
      v := Judge(id, e.time);
      if v.warning.Some? && withChecksum {
        checksumState := 1;
      }
      history := history + [Entry(id, e.time, v.counted, v.warning.Some?)];
      if !first {
        RemoveExpired(e.clock);
      }
    }

    /** A new detector fed a stream of abnormals gives the verdicts, and is left with the history, that the
        theorems about Run speak of. */
    method ProcessAll(evs: seq<Event>) returns (vs: seq<Verdict>)
      requires history == []
      modifies this
      ensures (vs, history) == Run(cfg, evs, true)
    {
      vs := [];
      for i := 0 to |evs|
        invariant (vs, history) == Run(cfg, evs[..i], true)
      {
        assert evs[..i + 1][..i] == evs[..i];
        var v := AbnormalProcess(i, evs[i]);
        vs := vs + [v];
      }
      assert evs[..|evs|] == evs;
    }

    /** The search for the last counted entry and what follows from it. */
    method Judge(id: nat, time: real) returns (v: Verdict)
      modifies this`history
      ensures (v, history) == Decide(cfg, old(history), id, time)
    {
      if history == [] {
        return Verdict(true, true, if cfg.strikesNum == 1 then Some([id]) else None);
      }
      var i := |history| - 1;
      while i >= 0 && !history[i].counted
        invariant -1 <= i < |history|
        invariant forall j :: i < j < |history| ==> !history[j].counted
      {
        i := i - 1;
      }
      LastCountedIs(history, i);
      if i < 0 {
        v := Verdict(true, false, None);
      } else if Abs(time - history[i].time) < cfg.cooldown {
        v := Verdict(false, false, None);
      } else if cfg.strikesNum == 1 {
        v := Verdict(true, true, Some([id]));
      } else {
        v := Verdict(true, true, None);
        var pos, last := CollectStrikes(history, i);
        if |pos| == cfg.strikesNum - 1 && Abs(time - last.time) <= cfg.window {
          v := Verdict(true, true, Some(Ids(history, pos) + [id]));
          history := Strike(history, pos);
        }
      }
    }

    /** The inner loop over older entries. */
    method CollectStrikes(h: seq<Entry>, c: nat) returns (pos: seq<nat>, last: Entry)
      requires c < |h|
      ensures (pos, last) == Held(cfg, h, c)
    {
      pos, last := [c], h[c];
      var i := c - 1;
      var done := false;
      while i >= 0 && !done
        invariant -1 <= i < |h|
        invariant !done ==> Scan(h, i, pos, last, cfg.strikesNum - 1) == Held(cfg, h, c)
        invariant done ==> (pos, last) == Held(cfg, h, c)
        decreases i + 1, if done then 0 else 1
      {
        last := h[i];
        if Open(h[i]) {
          pos := pos + [i];
        }
        if |pos| == cfg.strikesNum - 1 {
          done := true;
        } else {
          i := i - 1;
        }
      }
    }

    method RemoveExpired(clock: real)
      modifies this`history
      ensures history == Prune(old(history), clock, cfg.window)
    {
      var firstExpired := 0;
      while firstExpired < |history| && Abs(clock - history[firstExpired].time) > cfg.window
        invariant 0 <= firstExpired <= |history|
        invariant forall i :: 0 <= i < firstExpired ==> Abs(clock - history[i].time) > cfg.window
      {
        firstExpired := firstExpired + 1;
      }
      PruneIs(history, firstExpired, clock, cfg.window);
      history := history[firstExpired..];
    }
  }

  lemma {:induction false} CountedFromIs(h: seq<Entry>, i: int, c: int)
    requires -1 <= c <= i < |h| && (c >= 0 ==> h[c].counted)
    requires forall j :: c < j <= i ==> !h[j].counted
    ensures CountedFrom(h, i) == c
    decreases i
  {
    if i > c {
      CountedFromIs(h, i - 1, c);
    }
  }

  lemma LastCountedIs(h: seq<Entry>, c: int)
    requires -1 <= c < |h| && (c >= 0 ==> h[c].counted)
    requires forall j :: c < j < |h| ==> !h[j].counted
    ensures LastCounted(h) == c
  {
    CountedFromIs(h, |h| - 1, c);
  }

  lemma {:induction false} FirstLiveIs(h: seq<Entry>, i: nat, k: nat, clock: real, window: real)
    requires i <= k <= |h| && (forall j :: i <= j < k ==> Abs(clock - h[j].time) > window)
    requires k < |h| ==> Abs(clock - h[k].time) <= window
    ensures FirstLive(h, i, clock, window) == k
    decreases |h| - i
  {
    if i < k {
      FirstLiveIs(h, i + 1, k, clock, window);
    }
  }

  lemma PruneIs(h: seq<Entry>, k: nat, clock: real, window: real)
    requires k <= |h| && (forall i :: 0 <= i < k ==> Abs(clock - h[i].time) > window)
    requires k < |h| ==> Abs(clock - h[k].time) <= window
    ensures Prune(h, clock, window) == h[k..]
  {
    FirstLiveIs(h, 0, k, clock, window);
  }
}
