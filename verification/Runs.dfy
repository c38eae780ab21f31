/** Built plans: tensors and calls by id, bound into a scope in any order, executed in the
    plan's order. */
module Runs {
  import opened Options
  import opened Blocks
  import opened Dtype
  import opened Rules
  import opened Cpu
  import opened Scopes
  import opened Plans

  /** A run's place for a tensor: the tensor itself, or the kind and length to be filled in. */
  datatype AnyTensor = Live(tensor: Tensor) | Hollow(kind: Kind, len: nat) {
    function Kind(): Kind {
      if Live? then tensor.kind else kind
    }

    function Len(): nat {
      if Live? then tensor.len else len
    }
  }

  datatype Call = Call(node: Node, tensors: seq<nat>, sources: seq<MetaSource>)

  type Tensors = map<nat, AnyTensor>

  function Kinds(tensors: Tensors): map<nat, Kind> {
    map id | id in tensors :: tensors[id].Kind()
  }

  /** What the checks of the plan promise of a built call. */
  ghost predicate CallFits(call: Call, tensors: Tensors) {
    && FitsTensors(call.node.shader.sig, call.tensors, Kinds(tensors))
    && SourceTypes(call.sources) == call.node.shader.sig.meta
  }

  // ----------------------------------------------------------------------------
  // One call, by ids
  // ----------------------------------------------------------------------------

  /** The first slot, from `slot` on, whose tensor is too short. */
  function LengthsFrom(lens: seq<nat>, has: seq<nat>, slot: nat): (r: Check)
    requires slot <= |lens| == |has|
    ensures r.Passed? <==> forall j | slot <= j < |lens| :: lens[j] <= has[j]
    ensures r.Failed? ==> r.error.TooShort?
    decreases |lens| - slot
  {
    if slot == |lens| then Passed
    else LongEnough(slot, lens[slot], has[slot]).Then(LengthsFrom(lens, has, slot + 1))
  }

  function LensOf(tensors: Tensors, ids: seq<nat>): (r: seq<nat>)
    requires forall j | 0 <= j < |ids| :: ids[j] in tensors
    ensures |r| == |ids|
  {
    seq(|ids|, j requires 0 <= j < |ids| => tensors[ids[j]].Len())
  }

  /** All that a run's execute can find wrong with a call. */
  ghost function LengthCheck(call: Call, tensors: Tensors): (r: Check)
    requires call.node.Valid() && CallFits(call, tensors)
    reads call.node
    ensures r.Failed? ==> r.error.TooShort?
  {
    LengthsFrom(call.node.lens, LensOf(tensors, call.tensors), 0)
  }

  /** The call on its tensors' ids: what it does to a store of tensors by id. */
  ghost function Job(call: Call): Invocation
    reads call.node
    requires |call.tensors| == |call.node.shader.sig.layout|
  {
    Invocation(call.node.shader.code, call.node.words,
      seq(|call.tensors|, j requires 0 <= j < |call.tensors| =>
        SlotRef(call.tensors[j], Written(call.node.shader.sig.layout[j]))))
  }

  // ----------------------------------------------------------------------------
  // The same call, bound
  // ----------------------------------------------------------------------------

  function ArgsOf(layout: seq<Role>, ids: seq<nat>, slots: map<nat, nat>): (r: seq<Arg>)
    requires |ids| == |layout| && forall j | 0 <= j < |ids| :: ids[j] in slots
    ensures |r| == |ids|
  {
    seq(|ids|, j requires 0 <= j < |ids| => Arg(slots[ids[j]], Written(layout[j])))
  }

  lemma {:induction false} SlotChecksAreLengths(
    sig: Signature, lens: seq<nat>, bound: seq<Tensor>, args: seq<Arg>, has: seq<nat>, slot: nat)
    requires slot <= |sig.layout| == |lens| == |bound| == |args| == |has|
    requires forall j | 0 <= j < |args| :: args[j].write == Written(sig.layout[j]) && bound[j].len == has[j]
    ensures SlotChecks(sig, lens, bound, args, slot) == LengthsFrom(lens, has, slot)
    decreases |args| - slot
  {
    hide *;
    SlotChecksNext(sig, lens, bound, args, slot);
    LengthsNext(lens, has, slot);
    if slot < |args| {
      SlotChecksAreLengths(sig, lens, bound, args, has, slot + 1);
    }
  }

  lemma SlotChecksNext(sig: Signature, lens: seq<nat>, bound: seq<Tensor>, args: seq<Arg>, slot: nat)
    requires slot <= |sig.layout| == |lens| == |bound| == |args|
    ensures slot < |args| && args[slot].write == Written(sig.layout[slot]) ==>
      SlotChecks(sig, lens, bound, args, slot)
        == LongEnough(slot, lens[slot], bound[slot].len).Then(SlotChecks(sig, lens, bound, args, slot + 1))
    ensures slot == |args| ==> SlotChecks(sig, lens, bound, args, slot) == Passed
  {
  }

  lemma LengthsNext(lens: seq<nat>, has: seq<nat>, slot: nat)
    requires slot <= |lens| == |has|
    ensures slot < |lens| ==>
      LengthsFrom(lens, has, slot) == LongEnough(slot, lens[slot], has[slot]).Then(LengthsFrom(lens, has, slot + 1))
    ensures slot == |lens| ==> LengthsFrom(lens, has, slot) == Passed
  {
  }

  /** Ids that differ are bound to slots that differ. */
  ghost predicate Injective(slots: map<nat, nat>) {
    forall a, b | a in slots && b in slots && a != b :: slots[a] != slots[b]
  }

  /** Each tensor is bound where `slots` says. */
  ghost predicate BoundAt(tensors: Tensors, bufs: seq<Tensor>, slots: map<nat, nat>) {
    && slots.Keys == tensors.Keys && Injective(slots)
    && forall id | id in tensors :: tensors[id].Live? && slots[id] < |bufs| && bufs[slots[id]] == tensors[id].tensor
  }

  /** The checks of a bound call come down to its lengths: the plan's checks covered the
      rest, and distinct ids are distinct slots. */
  lemma BoundCheckIsLengths(
    sig: Signature, lens: seq<nat>, tensors: Tensors, bufs: seq<Tensor>, slots: map<nat, nat>, ids: seq<nat>)
    requires FitsTensors(sig, ids, Kinds(tensors)) && BoundAt(tensors, bufs, slots) && |lens| == |sig.layout|
    ensures InScope(bufs, ArgsOf(sig.layout, ids, slots))
    ensures CheckCall(sig, lens, bufs, ArgsOf(sig.layout, ids, slots)) == LengthsFrom(lens, LensOf(tensors, ids), 0)
  {
    ArgsAre(sig.layout, tensors, bufs, slots, ids);
    ArgsUnaliased(sig, tensors, slots, ids);
    var args, lens_ := ArgsOf(sig.layout, ids, slots), LensOf(tensors, ids);
    var bound := TensorsOf(bufs, args);
    assert forall j | 0 <= j < |ids| :: bound[j].len == lens_[j] && KindsOf(bound)[j] == sig.layout[j].kind;
    hide ArgsOf, LensOf, SlotChecks, NotAliased, SlotsOf, BoundAt, KindsOf, Unaliased;
    SlotChecksAreLengths(sig, lens, bound, args, lens_, 0);
  }

  /** A call's arguments are its tensors, where they are bound, written as its roles say. */
  lemma ArgsAre(layout: seq<Role>, tensors: Tensors, bufs: seq<Tensor>, slots: map<nat, nat>, ids: seq<nat>)
    requires |ids| == |layout| && BoundAt(tensors, bufs, slots) && forall j | 0 <= j < |ids| :: ids[j] in tensors
    ensures InScope(bufs, ArgsOf(layout, ids, slots))
    ensures forall j | 0 <= j < |ids| ::
              && bufs[ArgsOf(layout, ids, slots)[j].slot] == tensors[ids[j]].tensor && tensors[ids[j]].Live?
              && ArgsOf(layout, ids, slots)[j].write == Written(layout[j])
  {
  }

  lemma ArgsUnaliased(sig: Signature, tensors: Tensors, slots: map<nat, nat>, ids: seq<nat>)
    requires FitsTensors(sig, ids, Kinds(tensors)) && slots.Keys == tensors.Keys && Injective(slots)
    ensures NotAliased(sig, SlotsOf(ArgsOf(sig.layout, ids, slots))).Passed?
  {
    var at := SlotsOf(ArgsOf(sig.layout, ids, slots));
    NotAliasedExactly(sig, ids);
    hide NotAliased;
    AliasingIsRenaming(sig, ids, at);
  }

  ghost predicate AllLive(tensors: Tensors, ids: seq<nat>) {
    forall j | 0 <= j < |ids| :: ids[j] in tensors && tensors[ids[j]].Live?
  }

  /** The call as the backend records it, whatever slots it is bound to. */
  function RawOf(call: Call, tensors: Tensors): RawCall
    requires AllLive(tensors, call.tensors) && |call.tensors| == |call.node.shader.sig.layout|
  {
    RawCall(call.node, seq(|call.tensors|, j requires 0 <= j < |call.tensors| =>
      var buf := tensors[call.tensors[j]].tensor.buf;
      RawSlot(buf.address, buf.bytes, Written(call.node.shader.sig.layout[j]))))
  }

  /** The call as the scope records it. */
  function RecordedOf(call: Call, tensors: Tensors): RecordedCall
    requires AllLive(tensors, call.tensors) && |call.tensors| == |call.node.shader.sig.layout|
  {
    RecordedCall(call.node, seq(|call.tensors|, j requires 0 <= j < |call.tensors| =>
      RecordedArg(tensors[call.tensors[j]].tensor.buf.address, Written(call.node.shader.sig.layout[j]))))
  }

  lemma BoundIsRecorded(call: Call, tensors: Tensors, bufs: seq<Tensor>, slots: map<nat, nat>)
    requires CallFits(call, tensors) && BoundAt(tensors, bufs, slots)
    ensures AllLive(tensors, call.tensors)
    ensures var args := ArgsOf(call.node.shader.sig.layout, call.tensors, slots);
      && InScope(bufs, args)
      && RawCallOf(call.node, bufs, args) == RawOf(call, tensors)
      && RecordedCallOf(call.node, bufs, args) == RecordedOf(call, tensors)
  {
    var args := ArgsOf(call.node.shader.sig.layout, call.tensors, slots);
    forall j | 0 <= j < |args|
      ensures args[j].slot < |bufs| && bufs[args[j].slot] == tensors[call.tensors[j]].tensor
    {
    }
    assert RawCallOf(call.node, bufs, args).slots == RawOf(call, tensors).slots;
    assert RecordedCallOf(call.node, bufs, args).args == RecordedOf(call, tensors).args;
  }

  /** What a recorded call runs on blocks is its job, at its tensors' places. */
  lemma RecordedIsJob(call: Call, tensors: Tensors, places: Places)
    requires AllLive(tensors, call.tensors) && |call.tensors| == |call.node.shader.sig.layout|
    requires forall id | id in tensors && tensors[id].Live? ::
               id in places && places[id] == tensors[id].tensor.buf.address
    ensures AllNamed(places, Job(call).slots) && RunNow(RawOf(call, tensors)) == Placed(Job(call), places)
  {
    assert RunNow(RawOf(call, tensors)).slots == Placed(Job(call), places).slots;
  }

  // ----------------------------------------------------------------------------
  // A run
  // ----------------------------------------------------------------------------

  /** A run's live tensors are its device's, each with its own block. */
  ghost predicate TensorsSound(tensors: Tensors, device: Device, mem: Memory) {
    && (forall id | id in tensors && tensors[id].Live? ::
          tensors[id].tensor.dev == device && SoundIn(tensors[id].tensor, mem))
    && (forall a, b | a in tensors && b in tensors && a != b && tensors[a].Live? && tensors[b].Live? ::
          Apart(tensors[a].tensor, tensors[b].tensor))
  }

  /** The order names each call once, and each call has its own node and fits its tensors. */
  ghost predicate CallsMade(calls: map<nat, Call>, order: seq<nat>, tensors: Tensors, device: Device) {
    && Distinct(order) && (forall id :: id in order <==> id in calls)
    && (forall id | id in calls :: calls[id].node.dev == device && CallFits(calls[id], tensors))
    && (forall a, b | a in calls && b in calls && a != b :: calls[a].node != calls[b].node)
  }

  lemma TensorsStaySound(tensors: Tensors, device: Device, mem: Memory, mem': Memory)
    requires TensorsSound(tensors, device, mem) && SameShape(mem, mem')
    ensures TensorsSound(tensors, device, mem')
  {
  }

  class Run {
    const device: Device
    const calls: map<nat, Call>
    /** The calls' ids, in the order they run. */
    const order: seq<nat>
    var tensors: Tensors

    constructor (device: Device, tensors: Tensors, calls: map<nat, Call>, order: seq<nat>)
      ensures this.device == device && this.tensors == tensors && this.calls == calls && this.order == order
    {
      this.device, this.tensors, this.calls, this.order := device, tensors, calls, order;
    }

    ghost function Nodes(): set<Node> {
      set id | id in calls :: calls[id].node
    }

    lemma NodesAllocated()
      ensures forall n | n in Nodes() :: allocated(n)
    {
    }

    ghost predicate NodesValid()
      reads Nodes()
    {
      forall id | id in calls :: calls[id].node.Valid()
    }

    ghost predicate Made()
      reads this
    {
      CallsMade(calls, order, tensors, device)
    }

    ghost predicate Valid()
      reads this, device, Nodes()
    {
      device.Valid() && NodesValid() && TensorsSound(tensors, device, device.mem) && Made()
    }

    predicate ContainsHollow()
      reads this
    {
      exists id :: id in tensors && tensors[id].Hollow?
    }

    ghost function Places(): Places
      requires !ContainsHollow()
      reads this
    {
      map id | id in tensors :: tensors[id].tensor.buf.address
    }

    /** What each tensor holds, by id. */
    ghost function Store(): Memory
      requires Valid() && !ContainsHollow()
      reads this, device, Nodes()
    {
      Named(Places(), device.mem)
    }

    /** The calls of the order's first `k` places, on a store of tensors by id. */
    ghost function Jobs(k: nat): (r: seq<Invocation>)
      requires Made() && k <= |order|
      reads this, Nodes()
      ensures |r| == k
    {
      if k == 0 then [] else Jobs(k - 1) + [Job(calls[order[k - 1]])]
    }

    /** The same calls as the backend records them. */
    ghost function RawCalls(k: nat): (r: seq<RawCall>)
      requires Made() && !ContainsHollow() && k <= |order|
      reads this
      ensures |r| == k && forall j | 0 <= j < k :: r[j] == RawOf(calls[order[j]], tensors)
    {
      if k == 0 then [] else RawCalls(k - 1) + [RawOf(calls[order[k - 1]], tensors)]
    }

    /** And as the scope records them. */
    ghost function Recorded(k: nat): (r: seq<RecordedCall>)
      requires Made() && !ContainsHollow() && k <= |order|
      reads this
      ensures |r| == k && forall j | 0 <= j < k :: r[j] == RecordedOf(calls[order[j]], tensors)
    {
      if k == 0 then [] else Recorded(k - 1) + [RecordedOf(calls[order[k - 1]], tensors)]
    }

    lemma {:induction false} RunsAreJobs(k: nat)
      requires Made() && !ContainsHollow() && k <= |order|
      ensures AllPlaced(Jobs(k), RunsNow(RawCalls(k)), Places())
    {
      if k > 0 {
        RunsAreJobs(k - 1);
        var call := calls[order[k - 1]];
        RecordedIsJob(call, tensors, Places());
        RunsNowOneMore(RawCalls(k - 1), RawOf(call, tensors));
        PlacedOneMore(Jobs(k - 1), RunsNow(RawCalls(k - 1)), Job(call), Places());
        hide TensorsSound, Job, RawOf, Placed, RunNow, AllNamed, AllPlaced, RunsNow, Places, CallFits;
      }
    }

    lemma Prefixes(k: nat)
      requires Made() && !ContainsHollow() && k <= |order|
      ensures RawCalls(k) == RawCalls(|order|)[..k] && Recorded(k) == Recorded(|order|)[..k]
      ensures RunsNow(RawCalls(k)) == RunsNow(RawCalls(|order|))[..k]
    {
      hide CallsMade, RawOf, RecordedOf, RunNow, RunsNow, AllLive;
      RunsNowPrefix(RawCalls(|order|), k);
      assert RawCalls(k) == RawCalls(|order|)[..k];
    }

    /** All that an execute may find: it reads the nodes, and no buffer. */
    ghost predicate Plan(n: nat, raws: seq<RawCall>, recs: seq<RecordedCall>, runs: seq<Invocation>, outcome: Check)
      reads this, Nodes()
    {
      && Made() && NodesValid() && !ContainsHollow()
      && n == Reach(0) && outcome == Outcome()
      && raws == RawCalls(|order|) && recs == Recorded(|order|)
      && (forall k | 0 <= k < |raws| :: raws[k].node in Nodes()) && runs == RunsNow(raws)
    }

    lemma Planned()
      returns (n: nat, raws: seq<RawCall>, recs: seq<RecordedCall>, runs: seq<Invocation>, outcome: Check)
      requires Made() && NodesValid() && !ContainsHollow()
      ensures Plan(n, raws, recs, runs, outcome)
    {
      RawNodes();
      n, raws, recs, outcome := Reach(0), RawCalls(|order|), Recorded(|order|), Outcome();
      runs := RunsNow(raws);
      hide RunsNow, Reach, CallsMade, RawOf, RecordedOf, CheckAt;
    }

    lemma RawNodes()
      requires Made() && !ContainsHollow()
      ensures forall k | 0 <= k < |order| :: RawCalls(|order|)[k].node in Nodes()
    {
      hide CallFits;
      forall k | 0 <= k < |order|
        ensures RawCalls(|order|)[k].node in Nodes()
      {
        assert order[k] in order;
      }
    }

    lemma PlanIs(n: nat, raws: seq<RawCall>, recs: seq<RecordedCall>, runs: seq<Invocation>, outcome: Check)
      requires Plan(n, raws, recs, runs, outcome)
      ensures Made() && NodesValid() && !ContainsHollow() && n == Reach(0) <= |order| && outcome == Outcome()
      ensures RawCalls(n) == raws[..n] && Recorded(n) == recs[..n] && RunsNow(RawCalls(n)) == runs[..n]
    {
      Prefixes(n);
    }

    lemma PlanAt(k: nat, n: nat, raws: seq<RawCall>, recs: seq<RecordedCall>, runs: seq<Invocation>, outcome: Check)
      requires Plan(n, raws, recs, runs, outcome) && k <= n
      ensures n <= |order| && |raws| == |recs| == |runs| == |order|
      ensures k == |order| ==> outcome == Passed
      ensures k < |order| ==>
        && order[k] in calls && calls[order[k]].node.Valid() && CallFits(calls[order[k]], tensors)
        && AllLive(tensors, calls[order[k]].tensors)
        && raws[k] == RawOf(calls[order[k]], tensors) && recs[k] == RecordedOf(calls[order[k]], tensors)
        && runs[k] == RunNow(RawOf(calls[order[k]], tensors))
        && var check := LengthCheck(calls[order[k]], tensors);
           if k < n then check.Passed? else check.Failed? && outcome == Failed(InCall(k, check.error))
    {
      hide CallsMade, RunNow, RawOf, RecordedOf, LengthCheck;
      if k < |order| {
        PlaceIsMade(k);
        assert k < n ==> CheckAt(k).Passed?;
      }
    }

    lemma PlaceIsMade(k: nat)
      requires Made() && NodesValid() && !ContainsHollow() && k < |order|
      ensures order[k] in calls && calls[order[k]].node.Valid() && CallFits(calls[order[k]], tensors)
      ensures AllLive(tensors, calls[order[k]].tensors)
    {
      assert order[k] in order;
    }

    /** Nothing but the run's own blocks changed. */
    ghost predicate OthersKept(mem: Memory, mem': Memory)
      requires !ContainsHollow()
      reads this
    {
      mem'.Keys == mem.Keys && forall b | b in mem && b !in Places().Values :: mem'[b] == mem[b]
    }

    lemma StoreIs()
      requires Valid() && !ContainsHollow()
      ensures InMemory(Places(), device.mem) && Store() == Named(Places(), device.mem)
    {
    }

    lemma PlacesSeparate(mem: Memory)
      requires !ContainsHollow() && TensorsSound(tensors, device, mem)
      ensures InMemory(Places(), mem) && Separate(Places(), mem)
    {
    }

    lemma OnlyOwnPlaces(k: nat, b: nat)
      requires Made() && !ContainsHollow() && k <= |order| && b !in Places().Values
      ensures forall j, s | 0 <= j < k && 0 <= s < |RunsNow(RawCalls(k))[j].slots| ::
                RunsNow(RawCalls(k))[j].slots[s].block != b
    {
      RunsAreJobs(k);
      var jobs, runs := Jobs(k), RunsNow(RawCalls(k));
      hide CallsMade;
      forall j, s | 0 <= j < k && 0 <= s < |runs[j].slots| ensures runs[j].slots[s].block != b {
        assert AllNamed(Places(), jobs[j].slots) && runs[j] == Placed(jobs[j], Places());
        assert Places()[jobs[j].slots[s].block] in Places().Values;
      }
    }

    /** Runs on blocks, read by ids. */
    lemma StoreFollows(k: nat, start: Memory)
      requires Valid() && !ContainsHollow() && k <= |order| && TensorsSound(tensors, device, start)
      requires AllHave(start, RunsNow(RawCalls(k))) && device.mem == InvokeAll(RunsNow(RawCalls(k)), start)
      ensures InMemory(Places(), start) && AllHave(Named(Places(), start), Jobs(k))
      ensures Store() == InvokeAll(Jobs(k), Named(Places(), start))
      ensures OthersKept(start, device.mem)
    {
      hide TensorsSound, CallsMade, InvokeAll, RunsNow, AllPlaced, Places, Separate, InMemory, Named, NodesValid;
      PlacesSeparate(start);
      RunsAreJobs(k);
      InvokeAllByName(Jobs(k), RunsNow(RawCalls(k)), start, Places());
      forall b | b in start && b !in Places().Values ensures device.mem[b] == start[b] {
        OnlyOwnPlaces(k, b);
        InvokeAllFrame(RunsNow(RawCalls(k)), start, b);
      }
    }

    ghost function CheckAt(k: nat): Check
      requires Made() && NodesValid() && k < |order|
      reads this, Nodes()
    {
      LengthCheck(calls[order[k]], tensors)
    }

    /** The first place, from `k` on, whose call fails its check; the order's end if none does. */
    ghost function Reach(k: nat): (n: nat)
      requires Made() && NodesValid() && k <= |order|
      reads this, Nodes()
      ensures k <= n <= |order| && (n < |order| ==> CheckAt(n).Failed?)
      ensures forall j | k <= j < n :: CheckAt(j).Passed?
      decreases |order| - k
    {
      if k == |order| || CheckAt(k).Failed? then k else Reach(k + 1)
    }

    /** What an execute returns: success, or the place and error of the first bad call. */
    ghost function Outcome(): Check
      requires Made() && NodesValid()
      reads this, Nodes()
    {
      if Reach(0) == |order| then Passed else Failed(InCall(Reach(0), CheckAt(Reach(0)).error))
    }
  }

  /** A call is bound by its node's slot and its tensors' slots. */
  ghost predicate CallBound(call: Call, slots: map<nat, nat>, nodes: seq<Node>, bound: (nat, seq<Arg>)) {
    && bound.0 < |nodes| && nodes[bound.0] == call.node
    && |call.tensors| == |call.node.shader.sig.layout| && (forall j | 0 <= j < |call.tensors| :: call.tensors[j] in slots)
    && bound.1 == ArgsOf(call.node.shader.sig.layout, call.tensors, slots)
  }

  ghost predicate CallsBound(
    calls: map<nat, Call>, slots: map<nat, nat>, nodes: seq<Node>, bound: map<nat, (nat, seq<Arg>)>) {
    bound.Keys == calls.Keys && forall id | id in calls :: CallBound(calls[id], slots, nodes, bound[id])
  }

  /** A call with a per-run meta field: its node, its meta when bound, and its sources. */
  datatype PerRun = PerRun(node: nat, meta: seq<MetaValue>, sources: seq<MetaSource>)

  /** A run bound into a scope. */
  datatype Bound = Bound(
    scope: Scope,
    tensors: map<nat, nat>,
    calls: map<nat, (nat, seq<Arg>)>,
    perRun: seq<PerRun>,
    order: seq<nat>)
  {
    /** A bound call is checked, run and recorded as its ids say. */
    lemma BoundCall(run: Run, id: nat)
      requires Binds(this, run) && id in run.calls
      ensures id in calls
      ensures var call, (node, args) := run.calls[id], calls[id];
        && node < |scope.nodes| && scope.nodes[node] == call.node && InScope(scope.bufs, args)
        && CallFits(call, run.tensors) && AllLive(run.tensors, call.tensors)
        && scope.CheckNow(node, args) == LengthCheck(call, run.tensors)
        && RawCallOf(call.node, scope.bufs, args) == RawOf(call, run.tensors)
        && RecordedCallOf(call.node, scope.bufs, args) == RecordedOf(call, run.tensors)
    {
      var call := run.calls[id];
      assert CallBound(call, tensors, scope.nodes, calls[id]);
      hide TensorsSound, CheckCall, LengthsFrom, RawOf, RecordedOf, RawCallOf, RecordedCallOf;
      BoundIsRecorded(call, run.tensors, scope.bufs, tensors);
      BoundCheckIsLengths(call.node.shader.sig, call.node.lens, run.tensors, scope.bufs, tensors, call.tensors);
    }

    /** Runs or records one call of the plan. */
    method ExecuteOne(ghost run: Run, id: nat) returns (r: Check)
      requires Binds(this, run) && id in run.calls
      modifies scope`recording, scope.dev`mem, scope.dev`recording
      ensures Binds(this, run) && SameShape(old(scope.dev.mem), scope.dev.mem)
      ensures old(scope.Lockstep()) ==> scope.Lockstep()
      ensures scope.recording.Some? <==> old(scope.recording).Some?
      ensures scope.dev.recording.Some? <==> old(scope.dev.recording).Some?
      ensures AllLive(run.tensors, run.calls[id].tensors) && r == old(LengthCheck(run.calls[id], run.tensors))
      ensures r.Failed? ==> scope.recording == old(scope.recording) && scope.dev.recording == old(scope.dev.recording)
      ensures r.Failed? || old(scope.dev.recording).Some? ==> scope.dev.mem == old(scope.dev.mem)
      ensures r.Passed? && old(scope.dev.recording).None? ==>
        && Has(old(scope.dev.mem), RunNow(RawOf(run.calls[id], run.tensors)).slots)
        && scope.dev.mem == Invoke(RunNow(RawOf(run.calls[id], run.tensors)), old(scope.dev.mem))
      ensures r.Passed? && old(scope.dev.recording).Some? ==>
        scope.dev.recording == Some(old(scope.dev.recording).value + [RawOf(run.calls[id], run.tensors)])
      ensures r.Passed? && old(scope.recording).Some? ==>
        scope.recording == Some(old(scope.recording).value + [RecordedOf(run.calls[id], run.tensors)])
    {
      hide LengthCheck, CheckCall, CallFits, RawOf, RecordedOf, RawCallOf, RecordedCallOf;
      hide TensorsSound, CallsMade, CallsBound, BoundAt, Invoke, SameShape, AllMatch;
      hide Node.Valid, Sound, Apart, InScope, AllLive;
      BoundCall(run, id);
      r := scope.Execute(calls[id].0, calls[id].1);
      TensorsStaySound(run.tensors, run.device, old(scope.dev.mem), scope.dev.mem);
    }

    /** Main result: whatever order the run was bound in, an execute leaves each id's tensor
        exactly as the plan's calls do, in order, on a store of tensors by id; if a call
        fails its check, the ones before it have run and no other. During a capture, the
        same calls are recorded instead, and no buffer changes. */
    method Execute(ghost run: Run) returns (r: Check)
      requires Binds(this, run)
      modifies scope`recording, scope.dev`mem, scope.dev`recording
      ensures Binds(this, run) && !run.ContainsHollow() && r == run.Outcome()
      ensures old(scope.Lockstep()) ==> scope.Lockstep()
      ensures scope.recording.Some? <==> old(scope.recording).Some?
      ensures scope.dev.recording.Some? <==> old(scope.dev.recording).Some?
      ensures old(scope.dev.recording).None? ==>
        && AllHave(old(run.Store()), run.Jobs(run.Reach(0)))
        && run.Store() == InvokeAll(run.Jobs(run.Reach(0)), old(run.Store()))
        && run.OthersKept(old(scope.dev.mem), scope.dev.mem)
      ensures old(scope.dev.recording).Some? ==>
        && scope.dev.mem == old(scope.dev.mem)
        && scope.dev.recording == Some(old(scope.dev.recording).value + run.RawCalls(run.Reach(0)))
      ensures old(scope.recording).Some? ==>
        scope.recording == Some(old(scope.recording).value + run.Recorded(run.Reach(0)))
    {
      hide *;
      ghost var start, recorded, listed := scope.dev.mem, scope.dev.recording, scope.recording;
      BoundRun(run);
      run.StoreIs();
      ghost var n, raws, recs, runs, outcome := run.Planned();
      r := ExecuteAll(run, n, raws, recs, runs, outcome);
      BoundRun(run);
      run.PlanIs(n, raws, recs, runs, outcome);
      SoFarEnd(raws, recs, runs, n, start, scope.dev.mem, recorded, scope.dev.recording, listed, scope.recording);
      if recorded.None? {
        run.StoreFollows(n, start);
      }
    }

    lemma BoundRun(run: Run)
      requires Binds(this, run)
      ensures !run.ContainsHollow() && run.Valid() && run.Made() && run.NodesValid()
      ensures order == run.order && scope.dev == run.device && TensorsSound(run.tensors, run.device, run.device.mem)
    {
    }

    /** The loop, on what the backend records. */
    method ExecuteAll(
      ghost run: Run, ghost n: nat, ghost raws: seq<RawCall>, ghost recs: seq<RecordedCall>,
      ghost runs: seq<Invocation>, ghost outcome: Check)
      returns (r: Check)
      requires Binds(this, run) && run.Plan(n, raws, recs, runs, outcome) && order == run.order
      modifies scope`recording, scope.dev`mem, scope.dev`recording
      ensures Binds(this, run) && run.Plan(n, raws, recs, runs, outcome) && r == outcome
      ensures old(scope.Lockstep()) ==> scope.Lockstep()
      ensures SoFar(raws, recs, runs, n, old(scope.dev.mem), scope.dev.mem,
                    old(scope.dev.recording), scope.dev.recording, old(scope.recording), scope.recording)
    {
      hide *;
      ghost var start, recorded0, listed0 := scope.dev.mem, scope.dev.recording, scope.recording;
      run.PlanAt(0, n, raws, recs, runs, outcome);
      SoFarStart(raws, recs, runs, start, recorded0, listed0);
      r := Passed;
      for k := 0 to |order|
        invariant Binds(this, run) && run.Plan(n, raws, recs, runs, outcome) && k <= n && r == Passed
        invariant old(scope.Lockstep()) ==> scope.Lockstep()
        invariant SoFar(raws, recs, runs, k, start, scope.dev.mem, recorded0, scope.dev.recording, listed0, scope.recording)
      {
        run.PlanAt(k, n, raws, recs, runs, outcome);
        run.NodesAllocated();
        ghost var mem, recorded, listed := scope.dev.mem, scope.dev.recording, scope.recording;
        r := ExecuteOne(run, order[k]);
        if r.Failed? {
          r := Failed(InCall(k, r.error));
          return;
        }
        SoFarStep(raws, recs, runs, k, start, mem, scope.dev.mem, recorded0, recorded,
                  scope.dev.recording, listed0, listed, scope.recording);
      }
      run.PlanAt(|order|, n, raws, recs, runs, outcome);
    }
  }

  /** The first `k` calls are recorded, or else run. */
  ghost predicate SoFar(
    raws: seq<RawCall>, recs: seq<RecordedCall>, runs: seq<Invocation>, k: nat, start: Memory, mem: Memory,
    recorded0: Option<seq<RawCall>>, recorded: Option<seq<RawCall>>,
    listed0: Option<seq<RecordedCall>>, listed: Option<seq<RecordedCall>>)
  {
    && k <= |raws| && |raws| == |recs| == |runs|
    && (recorded.Some? <==> recorded0.Some?) && (listed.Some? <==> listed0.Some?)
    && (recorded0.None? ==> AllHave(start, runs[..k]) && mem == InvokeAll(runs[..k], start))
    && (recorded0.Some? ==> mem == start && recorded.value == recorded0.value + raws[..k])
    && (listed0.Some? ==> listed.value == listed0.value + recs[..k])
  }

  lemma SoFarStart(
    raws: seq<RawCall>, recs: seq<RecordedCall>, runs: seq<Invocation>, start: Memory,
    recorded: Option<seq<RawCall>>, listed: Option<seq<RecordedCall>>)
    requires |raws| == |recs| == |runs|
    ensures SoFar(raws, recs, runs, 0, start, start, recorded, recorded, listed, listed)
  {
    NoRuns(start);
    assert runs[..0] == [];
  }

  lemma SoFarStep(
    raws: seq<RawCall>, recs: seq<RecordedCall>, runs: seq<Invocation>, k: nat, start: Memory, mem: Memory, mem': Memory,
    recorded0: Option<seq<RawCall>>, recorded: Option<seq<RawCall>>, recorded': Option<seq<RawCall>>,
    listed0: Option<seq<RecordedCall>>, listed: Option<seq<RecordedCall>>, listed': Option<seq<RecordedCall>>)
    requires SoFar(raws, recs, runs, k, start, mem, recorded0, recorded, listed0, listed) && k < |raws|
    requires (recorded'.Some? <==> recorded.Some?) && (listed'.Some? <==> listed.Some?)
    requires recorded.None? ==> Has(mem, runs[k].slots) && mem' == Invoke(runs[k], mem)
    requires recorded.Some? ==> mem' == mem && recorded' == Some(recorded.value + [raws[k]])
    requires listed.Some? ==> listed' == Some(listed.value + [recs[k]])
    ensures SoFar(raws, recs, runs, k + 1, start, mem', recorded0, recorded', listed0, listed')
  {
    hide AllHave, InvokeAll, Invoke, Has;
    assert raws[..k + 1] == raws[..k] + [raws[k]] && recs[..k + 1] == recs[..k] + [recs[k]];
    if recorded.None? {
      OneMoreRun(runs, k, start, mem');
    }
  }

  lemma SoFarEnd(
    raws: seq<RawCall>, recs: seq<RecordedCall>, runs: seq<Invocation>, k: nat, start: Memory, mem: Memory,
    recorded0: Option<seq<RawCall>>, recorded: Option<seq<RawCall>>,
    listed0: Option<seq<RecordedCall>>, listed: Option<seq<RecordedCall>>)
    requires SoFar(raws, recs, runs, k, start, mem, recorded0, recorded, listed0, listed)
    ensures k <= |raws| && |raws| == |recs| == |runs|
    ensures (recorded.Some? <==> recorded0.Some?) && (listed.Some? <==> listed0.Some?)
    ensures recorded0.None? ==> AllHave(start, runs[..k]) && mem == InvokeAll(runs[..k], start)
    ensures recorded0.Some? ==> mem == start && recorded == Some(recorded0.value + raws[..k])
    ensures listed0.Some? ==> listed == Some(listed0.value + recs[..k])
  {
  }

  /** `b` is `run`, bound. */
  ghost predicate Binds(b: Bound, run: Run)
    reads b.scope, b.scope.dev, b.scope.nodes, run, run.device, run.Nodes()
  {
    && b.scope.Valid() && run.Valid() && b.scope.dev == run.device && b.order == run.order
    && BoundAt(run.tensors, b.scope.bufs, b.tensors)
    && CallsBound(run.calls, b.tensors, b.scope.nodes, b.calls)
  }
}
