/** NPUGraphTreeManager: when to warm up, replay, record or fall back, over one shared pool. */
module Manager {
  import opened Basics
  import opened GraphTree
  import opened Recording
  import opened TreeBook
  import opened ManagerState

  class NPUGraphTreeManager {
    var w: World                      // the recordings, their weak references and the pool
    var current: Current              // current_node
    var state: ExecutionState         // path_state
    var warm: seq<WarmNode>           // warmup nodes created so far
    var roots: Dict
    var children: seq<Dict>           // per graph node
    var unaliased: seq<seq<bool>>     // unaliased_in_all_paths, per graph node
    var cached: seq<seq<bool>>        // cached_tensor_outputs, per graph node ([] when cleared)
    var warmedUp: set<nat>
    var hint: map<(Current, nat), bool>
    var numRerecord: map<(Current, nat), nat>
    var currentGen: int
    var pendingBackwards: bool
    const config: Config
    /** The recordings that pointer mismatches of a function at a node have led to. */
    ghost var rerecorded: map<(Current, nat), set<nat>>

    /** Rerecordings are recordings of their function; with the limit active, there are never more of them
        for a function at a node than it allows. */
    ghost predicate RerecordOK(nodes: seq<Node>)
      reads this`numRerecord, this`rerecorded
    {
      forall k :: k in rerecorded ==>
        && (forall id :: id in rerecorded[k] ==> id < |nodes| && nodes[id].func == k.1)
        && (!config.inlineModules ==>
              && k in numRerecord && |rerecorded[k]| <= numRerecord[k]
              && |rerecorded[k]| <= config.rerecordLimit)
    }

    ghost predicate ValidWith(accounted: bool)
      reads this`w, this`current, this`state, this`warm, this`roots, this`children, this`unaliased, this`cached
      reads this`numRerecord, this`rerecorded
    {
      MgrOK(w, current, state, warm, roots, children, unaliased, cached, accounted) && RerecordOK(w.nodes)
    }

    /** The allocator is up to date while recording or warming up and untouched during replays. */
    ghost predicate Valid()
      reads this`w, this`current, this`state, this`warm, this`roots, this`children, this`unaliased, this`cached
      reads this`numRerecord, this`rerecorded
    {
      ValidWith(state.RECORDING? || state.WARMUP?)
    }

    /** What follows from the invariant without looking into it. */
    lemma Facts(accounted: bool)
      requires ValidWith(accounted)
      ensures state.NONE? <==> current.NoNode?
      ensures state.WARMUP? <==> current.Warm?
      ensures state.RECORDING? || state.EXECUTION? <==> current.Graph?
      ensures current.Graph? ==> current.id < |w.nodes|
      ensures Parents(w.nodes) && LiveOK(w) && Kept(w, w, {}, {})
      ensures ChainOK(warm, |w.nodes|) && CurrentOK(warm, |w.nodes|, current)
      ensures !current.Warm? ==> Place(current) == Base(warm, |w.nodes|, current)
    {
      hide BooksOK;
    }

    /** With no node current nothing is alive, so the allocator is up to date. */
    lemma NoneIsUpToDate()
      requires Valid() && state.NONE?
      ensures ValidWith(true) && w.live == {}
    {
      NoneStepOK(w, current, warm, roots, children, unaliased, cached);
    }

    function Now(): Moment
      reads this`w, this`state, this`current, this`warm, this`warmedUp, this`hint, this`numRerecord
      reads this`currentGen, this`pendingBackwards
    {
      Moment(w, state, current, warm, warmedUp, hint, numRerecord, currentGen, pendingBackwards)
    }

    constructor (config: Config)
      ensures Valid() && Now() == Moment(START, NONE, NoNode, [], {}, map[], map[], -1, false)
      ensures this.config == config && rerecorded == map[]
    {
      w := START;
      current, state, warm := NoNode, NONE, [];
      roots, children, unaliased, cached := [], [], [], [];
      warmedUp, hint, numRerecord, rerecorded := {}, map[], map[], map[];
      currentGen, pendingBackwards := -1, false;
      this.config := config;
      new;
      hide MgrOK;
      FirstStepOK();
    }

    /** Set the whole tree state at once. */
    method Install(w': World, current': Current, state': ExecutionState, warm': seq<WarmNode>, roots': Dict,
                   children': seq<Dict>, unaliased': seq<seq<bool>>, cached': seq<seq<bool>>)
      requires MgrOK(w', current', state', warm', roots', children', unaliased', cached',
                     state'.RECORDING? || state'.WARMUP?)
      requires RerecordOK(w'.nodes)
      modifies this`w, this`current, this`state, this`warm, this`roots, this`children, this`unaliased, this`cached
      ensures Valid() && w == w' && current == current' && state == state' && warm == warm'
      ensures roots == roots' && children == children' && unaliased == unaliased' && cached == cached'
    {
      hide MgrOK, RerecordOK, Behaves;
      w, current, state, warm := w', current', state', warm';
      roots, children, unaliased, cached := roots', children', unaliased', cached';
    }

    /** The environment drops the last reference to some storages; a storage with a real deleter also
        gives its block back to the allocator. */
    method Drop(dead: set<nat>)
      requires Valid()
      modifies this`w
      ensures Valid() && w.live == old(w.live) - dead
      ensures w.nodes == old(w.nodes) && w.refs == old(w.refs) && w.addr == old(w.addr)
      ensures Kept(old(w), w, dead, {})
    {
      hide MgrOK;
      DropOK(w, current, state, warm, roots, children, unaliased, cached, state.RECORDING? || state.WARMUP?, dead);
      var freed := DeadAddrs(w, dead);
      w := Kill(w, dead).(pool := w.pool - freed);
    }

    /** all_outputs_are_dead of the current node: a graph node scans live_indices_after_graph, a warmup
        node its whole chain.  Either way the answer is about every live storage of the pool. */
    method AllOutputsAreDead() returns (dead: bool)
      requires Valid() && !current.NoNode?
      ensures dead <==> w.live == {}
    {
      hide BooksOK;
      match current {
        case Graph(c) =>
          dead := forall x | x in w.nodes[c].after :: !IsLive(w, Path(w.nodes, Some(c)), x);
          FastDeathCheckIsExact(w, c);
        case Warm(j) =>
          var b := Base(warm, |w.nodes|, current);
          dead := w.live !! Chain(warm, |w.nodes|, current) && LiveIdx(w, Path(w.nodes, b)) == {};
      }
    }

    // ----- ending a path -----

    /** clear_current_path_state_and_set_to_none; storages still alive belong to a finished generation
        and are no longer protected. */
    method EndPath()
      requires Valid()
      modifies this`w, this`current, this`state
      ensures Valid() && state.NONE? && current.NoNode? && w == Left(old(w))
    {
      hide MgrOK;
      EndStepOK(w, current, state, warm, roots, children, unaliased, cached, state.RECORDING? || state.WARMUP?);
      w := w.(live := {}, pool := {});
      current, state := NoNode, NONE;
    }

    /** try_end_curr_recording, try_end_curr_warmup and try_end_curr_execution: the path ends exactly
        when a new generation may start or nothing in the pool is alive. */
    method TryEnd(call: Call)
      requires Valid() && !current.NoNode?
      modifies this`w, this`current, this`state
      ensures Valid() && Narrowed(old(Now()), Now(), call)
      ensures old((currentGen != call.generation && (call.markedStep || !pendingBackwards)) || w.live == {}) ==>
        state.NONE? && current.NoNode? && w == Left(old(w))
      ensures old((currentGen == call.generation || (!call.markedStep && pendingBackwards)) && w.live != {}) ==>
        state == old(state) && current == old(current) && w == old(w)
    {
      hide MgrOK;
      if MayStart(Now(), call) {
        EndPath();
      } else {
        var dead := AllOutputsAreDead();
        if dead {
          EndPath();
        }
      }
    }

    // ----- checkpointing -----

    /** apply_checkpoint_execution_state_in_allocator: every freed pointer was allocated, afterwards the
        allocator's blocks are exactly the addresses of the live outputs, and no recording on the path holds
        cached tensors. */
    method ApplyCheckpoint()
      requires Valid() && state.EXECUTION?
      modifies this`w, this`cached
      ensures ValidWith(true) && w == old(w).(pool := OnDevice(Addrs(w)))
      ensures Parents(w.nodes) && current.id < |w.nodes| && |cached| == |old(cached)|
      ensures forall d :: 0 <= d < |cached| ==>
        cached[d] == if d in Path(w.nodes, Some(current.id)) then [] else old(cached)[d]
    {
      hide MgrOK;
      Facts(false);
      w, cached := CheckpointStep(w, current.id, state, warm, roots, children, unaliased, cached);
    }

    // ----- check_invariants -----

    /** The child is compared, then the managed inputs that need not be preserved are dropped, which may
        release their storages. */
    method CheckInvariants(c: nat, call: Call) returns (status: Status)
      requires Valid() && (state.NONE? || state.EXECUTION?)
      requires IsChild(w, Place(current), call.func, c) && InputsHeld(call) && Behaves(call)
      modifies this`w
      ensures Valid()
      ensures w ==
        if Fits(old(w), c, call, config.rerecordOnStatic) then Kill(old(w), call.drops(old(w), c)) else old(w)
      ensures w.live <= old(w.live) && old(w.live) - call.dies <= w.live
      ensures status.Success? || status.CheckFailed? <==> Fits(old(w), c, call, config.rerecordOnStatic)
      ensures status.ManagedMismatch? || status.StaticMismatch? <==>
        PointersMoved(old(w), c, call, config.rerecordOnStatic)
      ensures status.ManagedMismatch? <==> !ManagedMatch(old(w).nodes[c], call.inputs)
      ensures status.Success? ==> Parents(w.nodes) && |w.refs| == |w.nodes| && Replayable(w, c)
      ensures Fits(old(w), c, call, config.rerecordOnStatic) ==>
        (status.Success? <==> AllDead(w, Path(w.nodes, w.nodes[c].parent), w.nodes[c].deadAfter))
    {
      hide BooksOK, NodeOK, AllDead, Covered, Follows, Held;
      Facts(false);
      var n := w.nodes[c];
      var p := Path(w.nodes, n.parent);
      status := Compare(w, c, call, config.rerecordOnStatic);
      if !status.Success? {
        return;
      }
      assert DropsWell(w, c, call);
      var dead := call.drops(w, c);
      DeathOK(w, current, state, warm, roots, children, unaliased, cached, dead);
      if !AllDead(Kill(w, dead), p, n.deadAfter) {
        w := Kill(w, dead);
        return CheckFailed;
      }
      CheckEnsuresReplayable(w, c, call.inputs, dead);
      w := Kill(w, dead);
      return Success;
    }

    // ----- running a node -----

    /** execute_node.  No address the recording writes belongs to a storage that is alive. */
    method ExecuteNode(c: nat, call: Call) returns (written: set<Addr>)
      requires Valid() && (state.NONE? || state.EXECUTION?)
      requires IsChild(w, Place(current), call.func, c)
      requires Parents(w.nodes) && |w.refs| == |w.nodes| && Replayable(w, c)
      modifies this`w, this`current, this`state, this`warm, this`roots, this`children, this`unaliased, this`cached
      modifies this`currentGen
      ensures Valid() && state.EXECUTION? && current == Graph(c) && currentGen == call.generation
      ensures |old(w).refs| == |old(w).nodes| && w == Incarnate(old(w), c)
      ensures written == w.nodes[c].writes && Spared(old(w), w, written) && Kept(old(w), w, {}, written)
      ensures warm == old(warm) && roots == old(roots) && children == old(children) && unaliased == old(unaliased)
      ensures |old(cached)| == |unaliased| == |w.nodes|
      ensures cached == old(cached)[c := if old(cached)[c] == [] then unaliased[c] else old(cached)[c]]
    {
      hide MgrOK, Replayable;
      Facts(false);
      var w', cached';
      w', cached', written := ExecuteStep(w, current, state, warm, roots, children, unaliased, cached, c);
      currentGen := call.generation;
      Install(w', Graph(c), EXECUTION, warm, roots, children, unaliased, cached');
    }

    /** record_function: a new child of the current node (or a new root). */
    method RecordFunction(call: Call) returns (written: set<Addr>)
      requires ValidWith(true) && !current.Warm? && Behaves(call)
      modifies this`w, this`current, this`state, this`warm, this`roots, this`children, this`unaliased, this`cached
      modifies this`currentGen
      ensures Valid() && state.RECORDING? && current == Graph(|old(w.nodes)|) && currentGen == call.generation
      ensures RecordedOne(old(w), w, Place(old(current)), call.func)
      ensures RecordedAs(old(w), w, Place(old(current)), call)
      ensures written == w.nodes[|old(w.nodes)|].writes == call.capture(old(w)).writes
      ensures Spared(old(w), w, written) && Kept(old(w), w, call.dies, written)
    {
      hide MgrOK, Behaves, RecordedAs;
      Facts(true);
      var w', roots', children', unaliased', cached';
      w', roots', children', unaliased', cached', written :=
        RecordStep(w, current, state, warm, roots, children, unaliased, cached, call);
      assert w.nodes == w'.nodes[..|w.nodes|];
      currentGen := call.generation;
      Install(w', Graph(|w.nodes|), RECORDING, warm, roots', children', unaliased', cached');
    }

    /** run_eager: a warmup inside the pool, below whatever is current. */
    method RunEager(call: Call) returns (written: set<Addr>)
      requires ValidWith(true) && Behaves(call)
      modifies this`w, this`current, this`state, this`warm, this`roots, this`children, this`unaliased, this`cached
      modifies this`warmedUp, this`currentGen
      ensures Valid() && state.WARMUP? && w.nodes == old(w.nodes)
      ensures Spared(old(w), w, written) && Kept(old(w), w, call.dies, written)
      ensures warmedUp == old(warmedUp) + {call.func} && currentGen == call.generation
      ensures current == Warm(|old(warm)|) && |warm| == |old(warm)| + 1 && warm[..|old(warm)|] == old(warm)
      ensures warm[current.wid].parent == old(current)
      ensures warm[current.wid].writes == written == call.eager(old(w)).writes
      ensures Placed(w, warm[current.wid].outputs, call.eager(old(w)).outputs)
      ensures forall s :: 0 <= s < |old(w).addr| ==>
        (s in w.live <==> s in old(w).live && s !in call.eager(old(w)).dies)
    {
      hide MgrOK, Behaves, Placed;
      warmedUp := warmedUp + {call.func};
      var w', warm';
      w', warm', written := EagerStep(w, current, state, warm, roots, children, unaliased, cached, call);
      currentGen := call.generation;
      Install(w', Warm(|warm|), WARMUP, warm', roots, children, unaliased, cached);
    }

    // ----- run -----

    predicate ExceedsLimit(k: (Current, nat))
      reads this`numRerecord
    {
      !config.inlineModules && k in numRerecord && numRerecord[k] > config.rerecordLimit
    }

    /** At the current node the function mutates inputs of others or has been re-recorded too often. */
    predicate Unsuitable(f: nat)
      reads this`current, this`hint, this`numRerecord
    {
      ((current, f) in hint && hint[(current, f)]) || ExceedsLimit((current, f))
    }

    /** Tensors passed to `run` that lie on outputs of the current path are alive. */
    ghost predicate InputsHeld(call: Call)
      reads this`w, this`current
    {
      HeldAt(w, Place(current), call.inputs)
    }

    ghost predicate Explains(was: Moment, call: Call, outcome: Outcome, written: set<Addr>)
      reads this`w, this`state, this`current, this`warm, this`warmedUp, this`hint, this`numRerecord
      reads this`currentGen, this`pendingBackwards
    {
      Explained(was, Now(), call, outcome, written)
    }

    /** A recording made while replaying starts a new path if the old one may be left. */
    ghost predicate RecordsAfresh(was: Moment, call: Call, outcome: Outcome)
      reads this`w, this`state, this`current, this`warm, this`warmedUp, this`hint, this`numRerecord
      reads this`currentGen, this`pendingBackwards
    {
      was.state.EXECUTION? && Ends(was, call) && outcome.Recorded? ==> Origin(Now()).NoNode?
    }

    /** run.  Every call keeps the invariant and adds at most one recording.  Unless it may start a new
        generation, every storage that the program does not give up stays alive, and neither a replay nor a
        capture nor a warmup writes over it.  The self-call of _run nests at most once. */
    method Run(call: Call) returns (outcome: Outcome, written: set<Addr>)
      requires Valid() && InputsHeld(call) && Behaves(call)
      modifies this
      ensures Valid() && Explains(old(Now()), call, outcome, written)
      ensures outcome.Eager? ==> Unsuitable(call.func)
      ensures Chosen(config, Settled(old(Now()), call), call, outcome) && StartsOver(old(Now()), Now(), call, outcome)
      ensures pendingBackwards == PendingAfter(old(pendingBackwards), call.mode, outcome)
      decreases if current.NoNode? then 0 else 1, 6
    {
      hide MgrOK, RerecordOK, Behaves, Explained, StartsOver, Chosen;
      outcome, written := RunInner(call);
      PendingLater(old(Now()), Now(), call, outcome, written);
      // an exception propagates past the bookkeeping of the mode
      if !outcome.Raised? {
        if call.mode.FORWARD? {
          pendingBackwards := true;
        } else if call.mode.BACKWARD? {
          pendingBackwards := false;
        }
      }
    }

    /** _run */
    method RunInner(call: Call) returns (outcome: Outcome, written: set<Addr>)
      requires Valid() && InputsHeld(call) && Behaves(call)
      modifies this
      ensures Valid() && Explains(old(Now()), call, outcome, written)
      ensures outcome.Eager? ==> Unsuitable(call.func)
      ensures Chosen(config, Settled(old(Now()), call), call, outcome) && StartsOver(old(Now()), Now(), call, outcome)
      decreases if current.NoNode? then 0 else 1, 5
    {
      hide MgrOK, RerecordOK, Behaves, Chosen;
      Facts(state.RECORDING? || state.WARMUP?);
      EndStalePath(call);
      ghost var mid := Now();
      outcome, written := RunSettled(call);
      ExplainedSince(old(Now()), mid, Now(), call, outcome, written);
    }

    /** The rest of _run, once a finished recording or warmup has been left behind.  A function known to be
        unsuitable at this node runs on its own. */
    method RunSettled(call: Call) returns (outcome: Outcome, written: set<Addr>)
      requires Valid() && InputsHeld(call) && Behaves(call)
      modifies this
      ensures Valid() && Explains(old(Now()), call, outcome, written)
      ensures outcome.Eager? ==> Unsuitable(call.func)
      ensures Chosen(config, old(Now()), call, outcome) && RecordsAfresh(old(Now()), call, outcome)
      decreases if current.NoNode? then 0 else 1, 4
    {
      hide MgrOK, RerecordOK, Behaves, Explained, Proceeds, KnownUnsuitable, Asks;
      Facts(state.RECORDING? || state.WARMUP?);
      var leave := LeaveEager(call);
      ghost var mid := Now();
      assert mid == old(Now()).(hint := mid.hint);
      if leave {
        outcome, written := Eager, {};
        EagerExplained(mid, call);
      } else {
        outcome, written := Proceed(call);
        AskedOnce(config, old(Now()), mid.hint, call, outcome);
      }
      ExplainedAsked(old(Now()), mid.hint, Now(), call, outcome, written);
    }

    /** A function that is not warm, or that follows a warmup, warms up; any other is replayed or recorded. */
    method Proceed(call: Call) returns (outcome: Outcome, written: set<Addr>)
      requires Valid() && InputsHeld(call) && Behaves(call)
      modifies this
      ensures Valid() && Explains(old(Now()), call, outcome, written)
      ensures outcome.Eager? ==> Unsuitable(call.func)
      ensures Proceeds(config, old(Now()), call, outcome) && RecordsAfresh(old(Now()), call, outcome)
      ensures outcome.WarmedUp? <==> !old(ReadyFor(config, warmedUp, call.func)) || old(state).WARMUP?
      decreases if current.NoNode? then 0 else 1, 3
    {
      hide MgrOK, RerecordOK, Behaves;
      Facts(state.RECORDING? || state.WARMUP?);
      if !ReadyFor(config, warmedUp, call.func) || state.WARMUP? {
        written := WarmUp(call);
        outcome := WarmedUp;
      } else {
        // the guard "current_node is NPUWarmupNode" cannot fire here
        assert !current.Warm?;
        outcome, written := RunGraph(call);
      }
    }

    /** The early exit for functions known to mutate inputs or re-recorded too often.  Whether a function
        mutates inputs is asked once per node. */
    method LeaveEager(call: Call) returns (leave: bool)
      modifies this`hint
      ensures leave <==> Unsuitable(call.func)
      ensures leave <==> KnownUnsuitable(config, old(hint), numRerecord, current, call)
      ensures Asks(old(hint), hint, current, call)
    {
      var key := (current, call.func);
      if key !in hint {
        hint := hint[key := call.mutates(current)];
      }
      leave := hint[key] || ExceedsLimit(key);
    }

    /** try_end_curr_recording, then try_end_curr_warmup.  Unless a new generation may start, nothing the
        program holds is given up. */
    method EndStalePath(call: Call)
      requires Valid() && InputsHeld(call)
      modifies this`w, this`current, this`state
      ensures Valid() && InputsHeld(call) && Narrowed(old(Now()), Now(), call)
      ensures Now() == Settled(old(Now()), call)
    {
      hide MgrOK, RerecordOK, Behaves;
      Facts(state.RECORDING? || state.WARMUP?);
      if state.RECORDING? || state.WARMUP? {
        TryEnd(call);
        NothingHeldAtNone(w, call.inputs);
      }
    }

    /** Replay a recorded child if one fits, otherwise record. */
    method RunGraph(call: Call) returns (outcome: Outcome, written: set<Addr>)
      requires Valid() && InputsHeld(call) && Behaves(call) && !current.Warm? && ReadyFor(config, warmedUp, call.func)
      modifies this
      ensures Valid() && Explains(old(Now()), call, outcome, written)
      ensures Answered(config, old(Now()), call, outcome)
      ensures !outcome.WarmedUp? && (outcome.Eager? ==> Unsuitable(call.func))
      ensures RecordsAfresh(old(Now()), call, outcome)
      decreases if current.NoNode? then 0 else 1, 2
    {
      hide MgrOK, RerecordOK, Behaves, RecordedAs, HeldAt;
      Facts(state.RECORDING? || state.WARMUP?);
      if state.RECORDING? {
        outcome := Recorded(|w.nodes|);
        written := RecordFunction(call);
      } else {
        var hit, mismatch;
        hit, written, mismatch := TryChildren(call);
        if hit.Some? {
          outcome := hit.value;
        } else {
          outcome, written := RunUnmatched(call, mismatch);
        }
      }
    }

    /** No child fits: retry as a root if the path can end, else fall back or record a new child. */
    method RunUnmatched(call: Call, mismatch: bool) returns (outcome: Outcome, written: set<Addr>)
      requires Valid() && Behaves(call) && (state.NONE? || state.EXECUTION?) && ReadyFor(config, warmedUp, call.func)
      requires !SomeChildFits(w, Place(current), call, config.rerecordOnStatic)
      requires mismatch == SomeChildMoved(w, Place(current), call, config.rerecordOnStatic)
      modifies this
      ensures Valid() && Explains(old(Now()), call, outcome, written)
      ensures Answered(config, old(Now()), call, outcome)
      ensures !outcome.WarmedUp? && (outcome.Eager? ==> Unsuitable(call.func))
      ensures RecordsAfresh(old(Now()), call, outcome)
      decreases if current.NoNode? then 0 else 1, 1
    {
      hide MgrOK, RerecordOK, Behaves, Explained, SomeChildFits, HeldAt;
      NoRootFits(call);
      var retry := EndForRoot(call);
      ghost var mid := Now();
      if retry {
        NothingHeldAtNone(w, call.inputs);
        outcome, written := Run(call);
      } else {
        outcome, written := RecordUnlessSkipped(call, mismatch);
      }
      ExplainedSince(old(Now()), mid, Now(), call, outcome, written);
    }

    /** Where no retry can help: with no key among the roots there is no root of the function, and with no node
        current the roots have been tried. */
    lemma NoRootFits(call: Call)
      requires Valid()
      ensures SomeChildFits(Left(w), None, call, config.rerecordOnStatic) ==> HasKey(roots, call.func)
      ensures current.NoNode? && SomeChildFits(Left(w), None, call, config.rerecordOnStatic) ==>
        SomeChildFits(w, None, call, config.rerecordOnStatic)
    {
      RootsOfFunction(w, current, state, warm, roots, children, unaliased, cached, state.RECORDING? || state.WARMUP?,
                      call, config.rerecordOnStatic);
    }

    /** The function may still match a root if the current path can end. */
    method EndForRoot(call: Call) returns (retry: bool)
      requires Valid() && (state.NONE? || state.EXECUTION?)
      modifies this`w, this`current, this`state
      ensures Valid() && Narrowed(old(Now()), Now(), call)
      ensures retry <==> !old(current).NoNode? && HasKey(roots, call.func) && Ends(old(Now()), call)
      ensures Now() == if retry then old(Now()).(w := Left(old(w)), state := NONE, current := NoNode) else old(Now())
    {
      hide MgrOK, RerecordOK, Behaves;
      retry := false;
      if !current.NoNode? && HasKey(roots, call.func) {
        TryEnd(call);
        retry := current.NoNode?;
      }
    }

    /** Each recording that a pointer mismatch leads to is entered in `rerecorded`, and nothing else is. */
    method RecordUnlessSkipped(call: Call, mismatch: bool) returns (outcome: Outcome, written: set<Addr>)
      requires Valid() && Behaves(call) && (state.NONE? || state.EXECUTION?)
      requires mismatch == SomeChildMoved(w, Place(current), call, config.rerecordOnStatic)
      modifies this
      ensures Valid() && Explains(old(Now()), call, outcome, written)
      ensures outcome.Recorded? || (outcome.Eager? && Unsuitable(call.func))
      ensures outcome.Eager? <==> Skips(config, old(numRerecord), old(w), old(current), call)
      ensures RecordsAfresh(old(Now()), call, outcome)
      ensures outcome.Recorded? && mismatch ==>
        rerecorded == old(rerecorded)[(old(current), call.func) :=
                        Listed(old(rerecorded), (old(current), call.func)) + {outcome.node}]
      ensures outcome.Eager? || !mismatch ==> rerecorded == old(rerecorded)
    {
      hide MgrOK, RerecordOK, Behaves, Explained, Noted, SomeChildMoved, Skips, Unsuitable;
      Facts(false);
      var skip := SkipGraph(call, mismatch);
      ghost var mid := Now();
      NotedBySkipping(old(Now()), mid, call, mismatch);
      if skip {
        outcome, written := Eager, {};
        EagerExplained(mid, call);
      } else {
        outcome, written := RecordEntered(call, mismatch);
      }
      ExplainedNoted(old(Now()), mid, Now(), call, outcome, written);
    }

    /** Record, and enter the recording if pointers had moved. */
    method RecordEntered(call: Call, mismatch: bool) returns (outcome: Outcome, written: set<Addr>)
      requires Valid() && Behaves(call) && (state.NONE? || state.EXECUTION?)
      requires mismatch && !config.inlineModules ==>
        && (current, call.func) in numRerecord
        && |Listed(rerecorded, (current, call.func))| < numRerecord[(current, call.func)]
        && |Listed(rerecorded, (current, call.func))| < config.rerecordLimit
      modifies this`w, this`current, this`state, this`warm, this`roots, this`children, this`unaliased, this`cached
      modifies this`currentGen, this`rerecorded
      ensures Valid() && Explains(old(Now()), call, outcome, written) && outcome.Recorded?
      ensures RecordsAfresh(old(Now()), call, outcome)
      ensures rerecorded ==
        if mismatch then old(rerecorded)[(old(current), call.func) :=
                           Listed(old(rerecorded), (old(current), call.func)) + {outcome.node}]
        else old(rerecorded)
    {
      hide MgrOK, RerecordOK, Behaves, Explained;
      ghost var key := (current, call.func);
      outcome, written := RecordAfterReplay(call);
      if mismatch {
        Enter(key, outcome.node);
      }
    }

    /** Enter a rerecording; SkipGraph has made room for it. */
    ghost method Enter(key: (Current, nat), id: nat)
      requires Valid() && id < |w.nodes| && w.nodes[id].func == key.1
      requires !config.inlineModules ==>
        && key in numRerecord && |Listed(rerecorded, key)| < numRerecord[key]
        && |Listed(rerecorded, key)| < config.rerecordLimit
      modifies this`rerecorded
      ensures Valid() && rerecorded == old(rerecorded)[key := Listed(old(rerecorded), key) + {id}]
    {
      hide MgrOK;
      ghost var more := Listed(rerecorded, key) + {id};
      assert |more| <= |Listed(rerecorded, key)| + 1;
      rerecorded := rerecorded[key := more];
      forall k | k in rerecorded && k != key ensures k in old(rerecorded) && rerecorded[k] == old(rerecorded)[k] {}
    }

    method RecordAfterReplay(call: Call) returns (outcome: Outcome, written: set<Addr>)
      requires Valid() && Behaves(call) && (state.NONE? || state.EXECUTION?)
      modifies this`w, this`current, this`state, this`warm, this`roots, this`children, this`unaliased, this`cached
      modifies this`currentGen
      ensures Valid() && Explains(old(Now()), call, outcome, written) && outcome.Recorded?
      ensures outcome.node < |w.nodes| && w.nodes[outcome.node].func == call.func
      ensures RecordsAfresh(old(Now()), call, outcome)
    {
      hide MgrOK, RerecordOK, Behaves, RecordedAs;
      PrepareRecording(call);
      ghost var mid := Now();
      outcome := Recorded(|w.nodes|);
      written := RecordFunction(call);
      ExplainedSince(old(Now()), mid, Now(), call, outcome, written);
    }

    /** A function that is not warm yet, or follows a warmup, runs eagerly inside the pool. */
    method WarmUp(call: Call) returns (written: set<Addr>)
      requires Valid() && Behaves(call)
      modifies this`w, this`current, this`state, this`warm, this`roots, this`children, this`unaliased, this`cached
      modifies this`warmedUp, this`currentGen
      ensures Valid() && Explains(old(Now()), call, WarmedUp, written)
      ensures warmedUp == old(warmedUp) + {call.func} && currentGen == call.generation
      ensures current == Warm(|old(warm)|) && |warm| == |old(warm)| + 1 && warm[..|old(warm)|] == old(warm)
      ensures warm[current.wid].parent == old(current) && warm[current.wid].writes == written
    {
      hide MgrOK, RerecordOK, Behaves;
      if state.NONE? {
        NoneIsUpToDate();
      } else if state.EXECUTION? {
        ApplyCheckpoint();
      }
      written := RunEager(call);
    }

    /** child_nodes[function_id] */
    method ChildNodes(f: nat) returns (kids: seq<nat>)
      requires Valid() && !current.Warm?
      modifies this`roots, this`children
      ensures Valid()
      ensures forall c: nat :: c in kids <==> IsChild(w, Place(current), f, c)
      ensures Ascending(kids)
    {
      hide Inv;
      TouchBook(w.nodes, roots, children, f);
      match current {
        case NoNode =>
          roots := Touch(roots, f);
          kids := Lookup(roots, f);
          ChildrenAreFiled(w.nodes, roots, None, f);
        case Graph(id) =>
          children := children[id := Touch(children[id], f)];
          kids := Lookup(children[id], f);
          ChildrenAreFiled(w.nodes, children[id], Some(id), f);
      }
    }

    /** Replay a child that fits, unless an output that died while recording survives the dropping of the
        inputs now. */
    method ReplayChild(c: nat, call: Call) returns (outcome: Outcome, written: set<Addr>)
      requires Valid() && Behaves(call) && InputsHeld(call) && (state.NONE? || state.EXECUTION?)
      requires IsChild(w, Place(current), call.func, c) && Fits(w, c, call, config.rerecordOnStatic)
      modifies this`w, this`current, this`state, this`warm, this`roots, this`children, this`unaliased, this`cached
      modifies this`currentGen
      ensures Valid() && Explains(old(Now()), call, outcome, written)
      ensures outcome == if DropsAsRecorded(old(w), c, call) then Replayed(c) else Raised
    {
      hide MgrOK, RerecordOK, Behaves, Replayable, Explained, Spared, Kept;
      Facts(false);
      var status := CheckInvariants(c, call);
      ghost var mid := Now();
      if status.Success? {
        written := ExecuteNode(c, call);
        outcome := Replayed(c);
        ReplayExplained(mid, w, c, call, written);
      } else {
        outcome, written := Raised, {};
        Facts(false);
        RaisedExplained(Now(), call);
      }
      ExplainedSince(old(Now()), mid, Now(), call, outcome, written);
    }

    /** The loop over recorded children.  It answers the call exactly when some child fits; otherwise nothing has
        changed and the caller knows whether pointers moved. */
    method TryChildren(call: Call) returns (hit: Option<Outcome>, written: set<Addr>, mismatch: bool)
      requires Valid() && Behaves(call) && InputsHeld(call) && (state.NONE? || state.EXECUTION?)
      modifies this`w, this`current, this`state, this`warm, this`roots, this`children, this`unaliased, this`cached
      modifies this`currentGen
      ensures Valid()
      ensures hit.Some? ==>
        && Explains(old(Now()), call, hit.value, written)
        && Answers(old(w), Place(old(current)), call, config.rerecordOnStatic, hit.value)
      ensures hit.Some? <==> SomeChildFits(old(w), Place(old(current)), call, config.rerecordOnStatic)
      ensures hit.None? ==> mismatch == SomeChildMoved(old(w), Place(old(current)), call, config.rerecordOnStatic)
      ensures hit.None? ==> Now() == old(Now())
    {
      hide MgrOK, RerecordOK, Behaves, Explained;
      Facts(false);
      var kids := ChildNodes(call.func);
      var fit;
      fit, mismatch := FirstFit(w, kids, call, config.rerecordOnStatic);
      if fit.None? {
        TriedAll(w, kids, Place(current), call, config.rerecordOnStatic, mismatch);
        return None, {}, mismatch;
      }
      ghost var k :| 0 <= k < |kids| && kids[k] == fit.value
        && Tried(w, kids, k, call, config.rerecordOnStatic, mismatch);
      TriedUpTo(w, kids, k, Place(current), call, config.rerecordOnStatic, mismatch);
      var outcome;
      outcome, written := ReplayChild(fit.value, call);
      return Some(outcome), written, mismatch;
    }

    /** Fall back to the plain function when it mutates inputs or has been re-recorded too often.  When it
        does not, and the limit is active, there is room for one more rerecording. */
    method SkipGraph(call: Call, mismatch: bool) returns (skip: bool)
      requires RerecordOK(w.nodes)
      requires mismatch == SomeChildMoved(w, Place(current), call, config.rerecordOnStatic)
      modifies this`hint, this`numRerecord
      ensures RerecordOK(w.nodes)
      ensures skip ==> Unsuitable(call.func)
      ensures skip <==>
        || (call.mutatesInputs && call.mutates(current))
        || (&& mismatch && !config.inlineModules
            && Count(old(numRerecord), (current, call.func)) + 1 > config.rerecordLimit)
      ensures skip <==> Skips(config, old(numRerecord), w, current, call)
      ensures hint == if call.mutatesInputs then old(hint)[(current, call.func) := call.mutates(current)] else old(hint)
      ensures numRerecord ==
        if mismatch && !(call.mutatesInputs && call.mutates(current))
        then old(numRerecord)[(current, call.func) := Count(old(numRerecord), (current, call.func)) + 1]
        else old(numRerecord)
      ensures !skip && mismatch && !config.inlineModules ==>
        && (current, call.func) in numRerecord
        && |Listed(rerecorded, (current, call.func))| < numRerecord[(current, call.func)]
        && |Listed(rerecorded, (current, call.func))| < config.rerecordLimit
    {
      hide SomeChildMoved;
      var k := (current, call.func);
      if call.mutatesInputs {
        hint := hint[k := call.mutates(current)];
        if hint[k] {
          return true;
        }
      }
      if mismatch {
        numRerecord := numRerecord[k := Count(numRerecord, k) + 1];
        if ExceedsLimit(k) {
          return true;
        }
      }
      return false;
    }

    /** Between replays and a recording: end the path if possible, otherwise checkpoint the allocator. */
    method PrepareRecording(call: Call)
      requires Valid() && (state.NONE? || state.EXECUTION?)
      modifies this`w, this`current, this`state, this`cached
      ensures ValidWith(true) && !current.Warm? && Narrowed(old(Now()), Now(), call)
      ensures Ends(old(Now()), call) ==> current.NoNode?
      ensures w.live == old(w.live) || current.NoNode?
    {
      hide MgrOK, RerecordOK, Behaves;
      Facts(false);
      if !current.NoNode? {
        TryEnd(call);
      }
      if current.NoNode? {
        NoneIsUpToDate();
      } else {
        ApplyCheckpoint();
      }
    }

    /** Any session of calls and releases, in any order, stays within the invariant, and its log accounts for
        every step: lemma WithinOneGeneration says what that means for the storages the program holds. */
    method Session(ops: seq<Op>) returns (log: seq<Entry>)
      requires Valid() && forall i :: 0 <= i < |ops| && ops[i].Invoke? ==> Behaves(ops[i].call)
      modifies this
      ensures Valid() && |log| == |ops| && LogOK(config, log, ops, old(Now()), Now())
    {
      hide MgrOK, RerecordOK, Behaves, EntryOK;
      log := [];
      for i := 0 to |ops|
        invariant Valid() && |log| == i && LogOK(config, log, ops, old(Now()), Now())
      {
        var e := Step(ops[i]);
        LogSnoc(config, log, ops, old(Now()), e);
        log := log + [e];
      }
    }

    method Step(op: Op) returns (e: Entry)
      requires Valid() && (op.Invoke? ==> Behaves(op.call))
      modifies this
      ensures Valid() && EntryOK(config, e) && e.op == op && e.before == old(Now()) && e.after == Now()
    {
      match op {
        case Release(dead) =>
          e := StepRelease(dead);
        case Invoke(call) =>
          e := StepInvoke(call);
      }
    }

    method StepRelease(dead: set<nat>) returns (e: Entry)
      requires Valid()
      modifies this`w
      ensures Valid() && EntryOK(config, e) && e.op == Release(dead) && e.before == old(Now()) && e.after == Now()
    {
      hide MgrOK, RerecordOK, Behaves;
      var was := Now();
      Drop(dead);
      e := Entry(Release(dead), was, Now(), None, {});
    }

    /** A call can be made as long as the tensors passed to it are alive. */
    method StepInvoke(call: Call) returns (e: Entry)
      requires Valid() && Behaves(call)
      modifies this
      ensures Valid() && EntryOK(config, e) && e.op == Invoke(call) && e.before == old(Now()) && e.after == Now()
      ensures old(InputsHeld(call)) ==> e.outcome.Some?
    {
      hide MgrOK, RerecordOK, Behaves, Explained;
      Facts(state.RECORDING? || state.WARMUP?);
      var was := Now();
      if HeldNow(w, Place(current), call.inputs) {
        var outcome, written := Run(call);
        e := Entry(Invoke(call), was, Now(), Some(outcome), written);
      } else {
        e := Entry(Invoke(call), was, was, None, {});
      }
    }
  }
}
