/** Captures of runs: a replay is an execute. */
module Captures {
  import opened Options
  import opened Blocks
  import opened Dtype
  import opened Rules
  import opened Cpu
  import opened Scopes
  import opened Runs
  import opened Binding
  import opened EmptyTensors

  /** `recording` is what a capture of `run` keeps. */
  ghost predicate IsCaptureOf(recording: Recording, run: Run)
    reads run
  {
    && run.Made() && !run.ContainsHollow()
    && recording.dev == run.device && recording.raw.owner == run.device.owner
    && recording.calls == run.Recorded(|run.order|) && recording.raw.calls == run.RawCalls(|run.order|)
  }

  /** `Scope::capture` of one execute. */
  method CaptureBound(b: Bound, ghost run: Run) returns (r: Result<Recording>)
    requires Binds(b, run) && b.scope.Lockstep() && b.scope.recording.None?
    modifies b.scope`recording
    modifies b.scope.dev`recording, b.scope.dev`captures, b.scope.dev`nextCapture, b.scope.dev`mem
    ensures run.Valid() && !run.ContainsHollow() && run.device.recording.None? && run.device.mem == old(run.device.mem)
    ensures r.Ok? <==> run.Outcome().Passed?
    ensures r.Err? ==> r.error == run.Outcome().error && run.device.captures == old(run.device.captures)
    ensures r.Ok? ==> IsCaptureOf(r.value, run) && Fresh(r.value, old(run.device.captures), run.device)
  {
    hide TensorsSound, CallsMade, BoundAt, CallsBound, Node.Valid, Sound, Apart, AllMatch, Scope.Lockstep;
    hide Run.Recorded, Run.RawCalls, Run.Outcome, Run.Reach, Run.CheckAt, Run.ContainsHollow, Run.Made;
    var result := RecordOnce(b, run);
    b.BoundRun(run);
    OutcomePasses(run);
    run.NodesAllocated();
    r := b.scope.EndCapture(result);
  }

  method RecordOnce(b: Bound, ghost run: Run) returns (result: Check)
    requires Binds(b, run) && b.scope.Lockstep() && b.scope.recording.None?
    modifies b.scope`recording, b.scope.dev`recording, b.scope.dev`mem
    ensures Binds(b, run) && b.scope.Lockstep() && run.Made() && run.NodesValid() && !run.ContainsHollow()
    ensures result == run.Outcome() && b.scope.dev.mem == old(b.scope.dev.mem)
    ensures b.scope.dev.recording == Some(run.RawCalls(run.Reach(0)))
    ensures b.scope.recording == Some(run.Recorded(run.Reach(0)))
  {
    hide TensorsSound, CallsMade, BoundAt, CallsBound, Node.Valid, Sound, Apart, AllMatch;
    hide Run.Recorded, Run.RawCalls, Run.Outcome, Run.Reach, Run.CheckAt, Run.ContainsHollow, InvokeAll, Run.Jobs;
    b.BoundRun(run);
    run.NodesAllocated();
    var begun := b.scope.BeginCapture();
    result := b.Execute(run);
    b.BoundRun(run);
    assert [] + run.RawCalls(run.Reach(0)) == run.RawCalls(run.Reach(0));
    assert [] + run.Recorded(run.Reach(0)) == run.Recorded(run.Reach(0));
  }

  lemma OutcomePasses(run: Run)
    requires run.Made() && run.NodesValid()
    ensures run.Outcome().Passed? <==> run.Reach(0) == |run.order|
  {
  }

  /** Captures a run's calls, in its order; no buffer changes. */
  method Capture(run: Run) returns (r: Result<Recording>)
    requires run.Valid() && run.device.recording.None?
    modifies run.device`recording, run.device`captures, run.device`nextCapture, run.device`mem
    ensures run.Valid() && run.device.recording.None? && run.device.mem == old(run.device.mem)
    ensures r.Ok? <==> !run.ContainsHollow() && run.Outcome().Passed?
    ensures r.Err? ==>
      && r.error == (if run.ContainsHollow() then Error.Hollow else run.Outcome().error)
      && run.device.captures == old(run.device.captures)
    ensures r.Ok? ==> IsCaptureOf(r.value, run) && Fresh(r.value, old(run.device.captures), run.device)
  {
    hide Run.ContainsHollow, Run.Outcome, Run.Made, TensorsSound, BoundAt, CallsBound, IsCaptureOf, Fresh, AllMatch;
    run.NodesAllocated();
    var s := new Scope(run.device);
    var bound, ids := Bind(run, s);
    if bound.Err? {
      return Err(bound.error);
    }
    r := CaptureBound(bound.value, run);
  }

  // ----------------------------------------------------------------------------
  // Replay
  // ----------------------------------------------------------------------------

  /** No tensor a call uses is empty: two empty ones may share an address. */
  ghost predicate NonEmpty(run: Run)
    reads run
  {
    forall id | id in run.tensors && run.tensors[id].Live? :: run.tensors[id].tensor.buf.bytes > 0
  }

  lemma IsAtItsSlot(bufs: seq<Tensor>, address: nat, slot: nat)
    requires slot < |bufs| && bufs[slot].buf.address == address && bufs[slot].buf.bytes > 0
    requires forall i, j | 0 <= i < |bufs| && 0 <= j < |bufs| && i != j :: Apart(bufs[i], bufs[j])
    ensures BufferPosition(bufs, address) == Some(slot)
  {
    forall i | 0 <= i < |bufs| && i != slot ensures bufs[i].buf.address != address {
      assert Apart(bufs[i], bufs[slot]);
    }
  }

  /** A tensor with a block of its own is found where it is bound. */
  lemma {:induction false} FindsItsSlot(bufs: seq<Tensor>, args: seq<RecordedArg>, found: seq<Arg>)
    requires |args| == |found| && InScope(bufs, found)
    requires forall i, j | 0 <= i < |bufs| && 0 <= j < |bufs| && i != j :: Apart(bufs[i], bufs[j])
    requires forall k | 0 <= k < |args| ::
               && bufs[found[k].slot].buf.bytes > 0
               && bufs[found[k].slot].buf.address == args[k].address && found[k].write == args[k].write
    ensures FindArgs(bufs, args) == Ok(found)
  {
    if args != [] {
      var n := |args| - 1;
      FindsItsSlot(bufs, args[..n], found[..n]);
      IsAtItsSlot(bufs, args[n].address, found[n].slot);
      assert found == found[..n] + [found[n]];
    }
  }

  /** What a replay checks of a recorded call is what an execute checks of it. */
  lemma ReplayChecksTheSame(b: Bound, run: Run, id: nat)
    requires Binds(b, run) && NonEmpty(run) && id in run.calls
    ensures AllLive(run.tensors, run.calls[id].tensors) && CallFits(run.calls[id], run.tensors)
    ensures ReplayCheck(b.scope.nodes, b.scope.bufs, RecordedOf(run.calls[id], run.tensors))
         == LengthCheck(run.calls[id], run.tensors)
  {
    b.BoundCall(run, id);
    BoundCallFits(b, run, id);
    var call, args, bufs := run.calls[id], b.calls[id].1, b.scope.bufs;
    ArgsFit(call, run.tensors, bufs, b.tensors);
    var recorded := RecordedOf(call, run.tensors);
    assert forall k | 0 <= k < |args| :: bufs[args[k].slot].buf.bytes > 0;
    assert recorded.node in b.scope.nodes;
    hide Binds, NonEmpty, TensorsSound, CheckCall, LengthCheck, CallFits, BoundAt, RecordedOf, FitsLayout, Node.Valid, Apart;
    FindsItsSlot(bufs, recorded.args, args);
  }

  /** What a replay returns: what an execute does, without the place. */
  ghost function ReplayOutcome(run: Run): Check
    requires run.Made() && run.NodesValid()
    reads run, run.Nodes()
  {
    if run.Reach(0) == |run.order| then Passed else Failed(run.CheckAt(run.Reach(0)).error)
  }

  lemma CheckAtPlace(b: Bound, run: Run, k: nat)
    requires Binds(b, run) && NonEmpty(run) && k < |run.order|
    ensures run.Made() && run.NodesValid() && !run.ContainsHollow()
    ensures ReplayCheck(b.scope.nodes, b.scope.bufs, run.Recorded(|run.order|)[k]) == run.CheckAt(k)
  {
    b.BoundRun(run);
    run.PlaceIsMade(k);
    ReplayChecksTheSame(b, run, run.order[k]);
    hide Binds, Run.Made, Run.NodesValid, Run.ContainsHollow, NonEmpty, LengthCheck, ReplayCheck, RecordedOf, CallFits;
  }

  lemma {:induction false} ChecksFromPlace(b: Bound, run: Run, k: nat)
    requires Binds(b, run) && NonEmpty(run) && run.Made() && run.NodesValid() && !run.ContainsHollow() && k <= |run.order|
    requires forall i | 0 <= i < |b.scope.nodes| :: |b.scope.nodes[i].lens| == |b.scope.nodes[i].shader.sig.layout|
    ensures ReplayChecks(b.scope.nodes, b.scope.bufs, run.Recorded(|run.order|), k)
         == if run.Reach(k) == |run.order| then Passed else Failed(run.CheckAt(run.Reach(k)).error)
    decreases |run.order| - k
  {
    hide Binds, Run.Made, Run.NodesValid, Run.ContainsHollow, NonEmpty, ReplayCheck, Run.CheckAt, Run.Recorded;
    if k < |run.order| {
      ChecksFromPlace(b, run, k + 1);
      CheckAtPlace(b, run, k);
    }
  }

  /** The call's tensors are told apart by address: see `EmptyTensors`. */
  ghost predicate CallToldApart(b: Bound, run: Run, id: nat)
    reads b.scope, run
  {
    && id in run.calls && id in b.calls && InScope(b.scope.bufs, b.calls[id].1)
    && |b.calls[id].1| == |run.calls[id].node.shader.sig.layout|
    && ToldApart(run.calls[id].node.shader.sig.layout, b.scope.bufs, b.calls[id].1)
  }

  ghost predicate AllToldApart(b: Bound, run: Run)
    reads b.scope, run
  {
    forall k | 0 <= k < |run.order| :: CallToldApart(b, run, run.order[k])
  }

  /** A call's arguments fit its layout, and its recording is theirs. */
  lemma ArgsFit(call: Call, tensors: Tensors, bufs: seq<Tensor>, slots: map<nat, nat>)
    requires CallFits(call, tensors) && BoundAt(tensors, bufs, slots)
    ensures AllLive(tensors, call.tensors)
    ensures var args := ArgsOf(call.node.shader.sig.layout, call.tensors, slots);
      && InScope(bufs, args) && FitsLayout(call.node.shader.sig.layout, bufs, args)
      && IsRecorded(bufs, args, RecordedOf(call, tensors).args)
      && forall j | 0 <= j < |args| :: bufs[args[j].slot] == tensors[call.tensors[j]].tensor
  {
    var args := ArgsOf(call.node.shader.sig.layout, call.tensors, slots);
    forall j | 0 <= j < |args|
      ensures args[j].slot < |bufs| && bufs[args[j].slot] == tensors[call.tensors[j]].tensor
    {
    }
    forall j, k | 0 <= j < |args| && 0 <= k < |args| && j != k && SlotsOf(args)[j] == SlotsOf(args)[k]
      ensures !Written(call.node.shader.sig.layout[j])
    {
      assert call.tensors[j] == call.tensors[k];
    }
  }

  lemma BoundCallFits(b: Bound, run: Run, id: nat)
    requires Binds(b, run) && id in run.calls
    ensures id in b.calls && CallBound(run.calls[id], b.tensors, b.scope.nodes, b.calls[id])
    ensures CallFits(run.calls[id], run.tensors) && BoundAt(run.tensors, b.scope.bufs, b.tensors)
    ensures run.calls[id].node.Valid() && run.calls[id].node in b.scope.nodes && OwnBlocks(b.scope.bufs)
    ensures forall i | 0 <= i < |b.scope.nodes| :: b.scope.nodes[i].Valid()
  {
    BoundIs(b, run);
    ScopeIsOwn(b.scope);
    hide CallFits, BoundAt, OwnBlocks, Node.Valid, Binds, TensorsSound, Run.Valid, Scope.Valid;
    assert CallBound(run.calls[id], b.tensors, b.scope.nodes, b.calls[id]);
  }

  lemma BoundIs(b: Bound, run: Run)
    requires Binds(b, run)
    ensures BoundAt(run.tensors, b.scope.bufs, b.tensors) && CallsBound(run.calls, b.tensors, b.scope.nodes, b.calls)
    ensures b.scope.Valid() && CallsMade(run.calls, run.order, run.tensors, run.device)
  {
  }

  lemma ScopeIsOwn(scope: Scope)
    requires scope.Valid()
    ensures OwnBlocks(scope.bufs) && forall i | 0 <= i < |scope.nodes| :: scope.nodes[i].Valid()
  {
    hide Node.Valid, BufferBytes;
  }

  /** What a length check passes. */
  lemma LengthsPass(call: Call, tensors: Tensors)
    requires call.node.Valid() && CallFits(call, tensors) && AllLive(tensors, call.tensors)
    ensures LengthCheck(call, tensors).Passed? <==>
              forall j | 0 <= j < |call.tensors| :: tensors[call.tensors[j]].tensor.len >= call.node.lens[j]
  {
  }

  /** A replay's check of a call passes exactly when an execute's does and its tensors are told
      apart. */
  lemma ReplayCheckPasses(b: Bound, run: Run, id: nat)
    requires Binds(b, run) && id in run.calls
    ensures AllLive(run.tensors, run.calls[id].tensors) && CallFits(run.calls[id], run.tensors)
    ensures run.calls[id].node.Valid() && forall i | 0 <= i < |b.scope.nodes| :: b.scope.nodes[i].Valid()
    ensures ReplayCheck(b.scope.nodes, b.scope.bufs, RecordedOf(run.calls[id], run.tensors)).Passed?
       <==> LengthCheck(run.calls[id], run.tensors).Passed? && CallToldApart(b, run, id)
  {
    hide Binds, OwnBlocks, IsRecorded, FitsLayout, ToldApart, CallFits, BoundAt, CheckCall, FindArgs, LengthCheck, Node.Valid;
    BoundCallFits(b, run, id);
    var call, args := run.calls[id], b.calls[id].1;
    ArgsFit(call, run.tensors, b.scope.bufs, b.tensors);
    LengthsPass(call, run.tensors);
    FoundFits(call.node, b.scope.bufs, args, RecordedOf(call, run.tensors).args);
  }

  lemma FoundFits(node: Node, bufs: seq<Tensor>, args: seq<Arg>, recorded: seq<RecordedArg>)
    requires node.Valid() && InScope(bufs, args) && FitsLayout(node.shader.sig.layout, bufs, args)
    requires OwnBlocks(bufs) && IsRecorded(bufs, args, recorded)
    ensures |args| == |node.lens| == |node.shader.sig.layout| && FindArgs(bufs, recorded).Ok?
    ensures CheckCall(node.shader.sig, node.lens, bufs, FindArgs(bufs, recorded).value).Passed? <==>
              && (forall j | 0 <= j < |args| :: bufs[args[j].slot].len >= node.lens[j])
              && ToldApart(node.shader.sig.layout, bufs, args)
  {
    FoundPassesExactly(node.shader.sig, node.lens, bufs, args, recorded);
  }

  /** A run's recording is replayable while its tensors are where they were. */
  lemma RunIsReplayable(b: Bound, run: Run, recording: Recording)
    requires Binds(b, run) && IsCaptureOf(recording, run)
    ensures b.scope.Replayable(recording)
  {
    forall k | 0 <= k < |run.order|
      ensures Matches(recording.calls[k], recording.raw.calls[k])
      ensures StillThere(run.device.mem, recording.raw.calls[k].slots)
    {
      run.PlaceIsMade(k);
      RecordedStillThere(run.calls[run.order[k]], run.tensors, run.device);
    }
  }

  lemma RecordedStillThere(call: Call, tensors: Tensors, device: Device)
    requires CallFits(call, tensors) && AllLive(tensors, call.tensors) && TensorsSound(tensors, device, device.mem)
    ensures Matches(RecordedOf(call, tensors), RawOf(call, tensors))
    ensures StillThere(device.mem, RawOf(call, tensors).slots)
  {
  }

  lemma CheckPassesAt(b: Bound, run: Run, k: nat)
    requires Binds(b, run) && k < |run.order|
    ensures run.Made() && run.NodesValid() && !run.ContainsHollow()
    ensures forall i | 0 <= i < |b.scope.nodes| :: |b.scope.nodes[i].lens| == |b.scope.nodes[i].shader.sig.layout|
    ensures ReplayCheck(b.scope.nodes, b.scope.bufs, run.Recorded(|run.order|)[k]).Passed?
       <==> run.CheckAt(k).Passed? && CallToldApart(b, run, run.order[k])
  {
    b.BoundRun(run);
    run.PlaceIsMade(k);
    ReplayCheckPasses(b, run, run.order[k]);
    hide Binds, Run.Made, Run.NodesValid, Run.ContainsHollow, LengthCheck, ReplayCheck, RecordedOf, CallFits, CallToldApart;
  }

  lemma OutcomeIsAll(b: Bound, run: Run)
    requires run.Made() && run.NodesValid()
    ensures AllToldApart(b, run) <==> forall k | 0 <= k < |run.order| :: CallToldApart(b, run, run.order[k])
    ensures ReplayOutcome(run).Passed? <==> forall k | 0 <= k < |run.order| :: run.CheckAt(k).Passed?
  {
    hide CallToldApart;
  }

  lemma ReplayPasses(b: Bound, run: Run)
    requires Binds(b, run) && run.Made() && run.NodesValid() && !run.ContainsHollow()
    requires forall i | 0 <= i < |b.scope.nodes| :: |b.scope.nodes[i].lens| == |b.scope.nodes[i].shader.sig.layout|
    ensures ReplayChecks(b.scope.nodes, b.scope.bufs, run.Recorded(|run.order|), 0).Passed?
       <==> ReplayOutcome(run).Passed? && AllToldApart(b, run)
  {
    hide *;
    OutcomeIsAll(b, run);
    forall k | 0 <= k < |run.order|
      ensures ReplayCheck(b.scope.nodes, b.scope.bufs, run.Recorded(|run.order|)[k]).Passed?
         <==> run.CheckAt(k).Passed? && CallToldApart(b, run, run.order[k])
    {
      CheckPassesAt(b, run, k);
    }
  }

  /** Main result: a replay that passes its checks leaves what an execute with the same metas
      leaves; one that fails changes no buffer. It passes exactly when an execute would and
      the tensors of each call are told apart by address; with no empty tensor they are, and
      it then fails exactly where an execute fails, and never as unbound. */
  method Replay(b: Bound, ghost run: Run, recording: Recording) returns (r: Check)
    requires Binds(b, run) && IsCaptureOf(recording, run) && b.scope.recording.None?
    modifies b.scope.dev`mem
    ensures Binds(b, run) && run.Made() && run.NodesValid() && !run.ContainsHollow()
    ensures r.Passed? <==> ReplayOutcome(run).Passed? && AllToldApart(b, run)
    ensures NonEmpty(run) ==> r == ReplayOutcome(run)
    ensures r.Failed? ==> b.scope.dev.mem == old(b.scope.dev.mem)
    ensures r.Passed? ==>
      && AllHave(old(run.Store()), run.Jobs(|run.order|))
      && run.Store() == InvokeAll(run.Jobs(|run.order|), old(run.Store()))
      && run.OthersKept(old(b.scope.dev.mem), b.scope.dev.mem)
  {
    hide *;
    b.BoundRun(run);
    ghost var start := b.scope.dev.mem;
    ReadyToReplay(b, run, recording);
    run.StoreIs();
    r := ReplayRaw(b, run, recording);
    b.BoundRun(run);
    if r.Passed? {
      run.StoreFollows(|run.order|, start);
    }
  }

  lemma ReadyToReplay(b: Bound, run: Run, recording: Recording)
    requires Binds(b, run) && IsCaptureOf(recording, run) && b.scope.recording.None?
    ensures run.Valid() && run.Made() && run.NodesValid() && !run.ContainsHollow() && b.scope.Valid()
    ensures b.scope.Replayable(recording)
    ensures b.scope.ReplayResult(recording).Passed? <==> ReplayOutcome(run).Passed? && AllToldApart(b, run)
    ensures NonEmpty(run) ==> b.scope.ReplayResult(recording) == ReplayOutcome(run)
    ensures recording.raw.calls == run.RawCalls(|run.order|) && run.device == b.scope.dev
  {
    hide *;
    b.BoundRun(run);
    ResultIs(b, run, recording);
    RunIsReplayable(b, run, recording);
    ReplayPasses(b, run);
    if NonEmpty(run) {
      ChecksFromPlace(b, run, 0);
      OutcomeOfReach(run);
    }
  }

  /** What a replay of the run's recording checks. */
  lemma ResultIs(b: Bound, run: Run, recording: Recording)
    requires Binds(b, run) && IsCaptureOf(recording, run) && b.scope.recording.None?
    ensures b.scope.Valid() && run.Made() && !run.ContainsHollow()
    ensures forall i | 0 <= i < |b.scope.nodes| :: |b.scope.nodes[i].lens| == |b.scope.nodes[i].shader.sig.layout|
    ensures b.scope.ReplayResult(recording)
         == ReplayChecks(b.scope.nodes, b.scope.bufs, run.Recorded(|run.order|), 0)
    ensures recording.raw.calls == run.RawCalls(|run.order|)
  {
    ScopeIsOwn(b.scope);
    hide CallsMade, TensorsSound, BoundAt, CallsBound, Apart, Sound, ReplayChecks, OwnBlocks;
  }

  lemma OutcomeOfReach(run: Run)
    requires run.Made() && run.NodesValid()
    ensures ReplayOutcome(run) == if run.Reach(0) == |run.order| then Passed else Failed(run.CheckAt(run.Reach(0)).error)
  {
  }

  /** The replay, on what the backend recorded. */
  method ReplayRaw(b: Bound, ghost run: Run, recording: Recording) returns (r: Check)
    requires Binds(b, run) && IsCaptureOf(recording, run) && b.scope.recording.None?
    modifies b.scope.dev`mem
    ensures Binds(b, run) && run.Made() && run.NodesValid() && !run.ContainsHollow()
    ensures r.Passed? <==> ReplayOutcome(run).Passed? && AllToldApart(b, run)
    ensures NonEmpty(run) ==> r == ReplayOutcome(run)
    ensures r.Failed? ==> b.scope.dev.mem == old(b.scope.dev.mem)
    ensures r.Passed? ==>
      && AllHave(old(b.scope.dev.mem), RunsNow(run.RawCalls(|run.order|)))
      && b.scope.dev.mem == InvokeAll(RunsNow(run.RawCalls(|run.order|)), old(b.scope.dev.mem))
  {
    hide TensorsSound, CallsMade, CallsBound, BoundAt, Sound, Apart, InvokeAll, AllHave, RunsNow, Run.RawCalls, IsCaptureOf;
    hide ReplayOutcome, NonEmpty, AllToldApart, Run.ContainsHollow, Scope.ReplayResult, Scope.Replayable;
    ReadyToReplay(b, run, recording);
    run.NodesAllocated();
    ghost var start := b.scope.dev.mem;
    r := b.scope.Replay(recording);
    assert SameShape(start, b.scope.dev.mem);
    TensorsStaySound(run.tensors, run.device, start, b.scope.dev.mem);
  }
}
