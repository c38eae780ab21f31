/** Binding a run into a scope, in whatever order its maps iterate. */
module Binding {
  import opened Rules
  import opened Cpu
  import opened Scopes
  import opened Plans
  import opened Runs

  /** Nothing of the run is in the scope yet: its owner lends each tensor and node once. */
  ghost predicate Unbound(run: Run, scope: Scope)
    reads run, scope
  {
    && (forall id, i | id in run.tensors && run.tensors[id].Live? && 0 <= i < |scope.bufs| ::
          Apart(scope.bufs[i], run.tensors[id].tensor))
    && forall id | id in run.calls :: run.calls[id].node !in scope.nodes
  }

  /** The tensors bound so far, `rest` to go. */
  ghost predicate BoundSoFar(tensors: Tensors, rest: set<nat>, bufs: seq<Tensor>, slots: map<nat, nat>) {
    && rest <= tensors.Keys && slots.Keys == tensors.Keys - rest && Injective(slots)
    && forall id | id in slots :: tensors[id].Live? && slots[id] < |bufs| && bufs[slots[id]] == tensors[id].tensor
  }

  ghost predicate ApartFrom(tensors: Tensors, rest: set<nat>, bufs: seq<Tensor>) {
    forall id, i | id in rest && id in tensors && tensors[id].Live? && 0 <= i < |bufs| ::
      Apart(bufs[i], tensors[id].tensor)
  }

  lemma BindOneTensor(tensors: Tensors, rest: set<nat>, bufs: seq<Tensor>, slots: map<nat, nat>, id: nat)
    requires BoundSoFar(tensors, rest, bufs, slots) && ApartFrom(tensors, rest, bufs) && id in rest && tensors[id].Live?
    requires forall other | other in tensors && other != id && tensors[other].Live? ::
               Apart(tensors[id].tensor, tensors[other].tensor)
    ensures BoundSoFar(tensors, rest - {id}, bufs + [tensors[id].tensor], slots[id := |bufs|])
    ensures ApartFrom(tensors, rest - {id}, bufs + [tensors[id].tensor])
  {
  }

  lemma ReadyToBind(run: Run, scope: Scope, rest: set<nat>, id: nat)
    requires run.Valid() && ApartFrom(run.tensors, rest, scope.bufs) && rest <= run.tensors.Keys
    requires id in rest && run.tensors[id].Live?
    ensures var t := run.tensors[id].tensor;
      && t.dev == run.device && Sound(t) && (forall i | 0 <= i < |scope.bufs| :: Apart(scope.bufs[i], t))
      && forall other | other in run.tensors && other != id && run.tensors[other].Live? ::
           Apart(t, run.tensors[other].tensor)
  {
  }

  method BindNext(run: Run, scope: Scope, ghost rest: set<nat>, ghost slots: map<nat, nat>, id: nat) returns (r: Result<nat>)
    requires run.Valid() && scope.Valid() && id in rest && id in run.tensors && run.tensors[id].Live?
    requires BoundSoFar(run.tensors, rest, scope.bufs, slots) && ApartFrom(run.tensors, rest, scope.bufs)
    modifies scope`bufs
    ensures scope.Valid() && (r.Ok? <==> run.device == scope.dev)
    ensures r.Err? ==> r.error == OtherDevice(TheTensor)
    ensures r.Ok? ==>
      && BoundSoFar(run.tensors, rest - {id}, scope.bufs, slots[id := r.value])
      && ApartFrom(run.tensors, rest - {id}, scope.bufs)
  {
    assert rest <= run.tensors.Keys;
    ReadyToBind(run, scope, rest, id);
    BindOneTensor(run.tensors, rest, scope.bufs, slots, id);
    hide BoundSoFar, ApartFrom, Run.Valid, Apart, Sound, Node.Valid;
    r := scope.Bind(run.tensors[id].tensor);
  }

  lemma Unstarted(run: Run, scope: Scope)
    requires Unbound(run, scope)
    ensures BoundSoFar(run.tensors, run.tensors.Keys, scope.bufs, map[])
    ensures ApartFrom(run.tensors, run.tensors.Keys, scope.bufs)
  {
  }

  lemma AllBound(run: Run, scope: Scope, slots: map<nat, nat>)
    requires BoundSoFar(run.tensors, {}, scope.bufs, slots)
    ensures BoundAt(run.tensors, scope.bufs, slots) && !run.ContainsHollow()
  {
  }

  method BindTensors(run: Run, scope: Scope) returns (r: Result<map<nat, nat>>)
    requires run.Valid() && scope.Valid() && Unbound(run, scope)
    modifies scope`bufs
    ensures scope.Valid()
    ensures run.device == scope.dev ==> (r.Ok? <==> !run.ContainsHollow()) && (r.Err? ==> r.error == Error.Hollow)
    ensures r.Ok? ==> BoundAt(run.tensors, scope.bufs, r.value)
    ensures run.device != scope.dev ==> (r.Err? <==> run.tensors != map[])
    ensures r.Err? ==> r.error == Error.Hollow || r.error == OtherDevice(TheTensor)
  {
    hide TensorsSound, CallsMade, Scope.Valid, Run.Valid, Run.Made, Run.NodesValid, Apart, BoundSoFar, ApartFrom, BoundAt;
    run.NodesAllocated();
    Unstarted(run, scope);
    var rest, slots: map<nat, nat> := run.tensors.Keys, map[];
    while rest != {}
      invariant rest <= run.tensors.Keys && scope.Valid() && (rest != run.tensors.Keys ==> run.device == scope.dev)
      invariant BoundSoFar(run.tensors, rest, scope.bufs, slots) && ApartFrom(run.tensors, rest, scope.bufs)
      decreases |rest|
    {
      var id :| id in rest;
      if run.tensors[id].Hollow? {
        return Err(Error.Hollow);
      }
      var slot := BindNext(run, scope, rest, slots, id);
      if slot.Err? {
        return Err(slot.error);
      }
      rest := rest - {id};
      slots := slots[id := slot.value];
    }
    AllBound(run, scope, slots);
    r := Ok(slots);
  }

  // ----------------------------------------------------------------------------
  // Calls
  // ----------------------------------------------------------------------------

  predicate HasPerRun(sources: seq<MetaSource>) {
    exists j :: 0 <= j < |sources| && sources[j].PerRun()
  }

  /** The entries of `perRun` are for the calls `ids`, which are those with a per-run source. */
  ghost predicate Tracks(
    perRun: seq<PerRun>, ids: seq<nat>, done: set<nat>, calls: map<nat, Call>, bound: map<nat, (nat, seq<Arg>)>)
  {
    && |perRun| == |ids| && Distinct(ids) && done <= calls.Keys && done <= bound.Keys
    && (forall id :: id in ids <==> id in done && HasPerRun(calls[id].sources))
    && forall k | 0 <= k < |ids| :: perRun[k].node == bound[ids[k]].0 && perRun[k].sources == calls[ids[k]].sources
  }

  /** A node's meta differs from the one kept only in its per-run fields. */
  ghost predicate MetaKept(p: PerRun, meta: seq<MetaValue>) {
    && |p.meta| == |meta| == |p.sources|
    && forall j | 0 <= j < |meta| && !p.sources[j].PerRun() :: p.meta[j] == meta[j]
  }

  /** What `apply_dynamics` relies on: only it changes a bound node's meta. */
  ghost predicate DynamicsOf(bound: map<nat, (nat, seq<Arg>)>, perRun: seq<PerRun>, run: Run, ids: seq<nat>)
    reads run.Nodes()
  {
    && Tracks(perRun, ids, run.calls.Keys, run.calls, bound)
    && forall k | 0 <= k < |ids| :: ids[k] in run.calls && MetaKept(perRun[k], run.calls[ids[k]].node.meta)
  }

  ghost predicate CallsSoFar(
    calls: map<nat, Call>, rest: set<nat>, slots: map<nat, nat>, nodes: seq<Node>, bound: map<nat, (nat, seq<Arg>)>)
  {
    && rest <= calls.Keys && bound.Keys == calls.Keys - rest
    && forall id | id in bound :: CallBound(calls[id], slots, nodes, bound[id])
  }

  lemma BindOneCall(
    calls: map<nat, Call>, rest: set<nat>, slots: map<nat, nat>, nodes: seq<Node>, bound: map<nat, (nat, seq<Arg>)>,
    id: nat, args: seq<Arg>)
    requires CallsSoFar(calls, rest, slots, nodes, bound) && id in rest
    requires CallBound(calls[id], slots, nodes + [calls[id].node], (|nodes|, args))
    ensures CallsSoFar(calls, rest - {id}, slots, nodes + [calls[id].node], bound[id := (|nodes|, args)])
  {
  }

  lemma TrackOneCall(
    perRun: seq<PerRun>, ids: seq<nat>, done: set<nat>, calls: map<nat, Call>, bound: map<nat, (nat, seq<Arg>)>,
    id: nat, entry: PerRun, at: (nat, seq<Arg>))
    requires Tracks(perRun, ids, done, calls, bound) && id !in done && id in calls && id !in bound
    requires entry.node == at.0 && entry.sources == calls[id].sources
    ensures if HasPerRun(calls[id].sources)
            then Tracks(perRun + [entry], ids + [id], done + {id}, calls, bound[id := at])
            else Tracks(perRun, ids, done + {id}, calls, bound[id := at])
  {
  }

  /** The calls bound so far, `rest` to go; `metas` are their nodes' metas. */
  ghost predicate CallsState(
    calls: map<nat, Call>, rest: set<nat>, slots: map<nat, nat>, nodes: seq<Node>, bound: map<nat, (nat, seq<Arg>)>,
    perRun: seq<PerRun>, ids: seq<nat>, metas: map<nat, seq<MetaValue>>)
  {
    && CallsSoFar(calls, rest, slots, nodes, bound)
    && Tracks(perRun, ids, calls.Keys - rest, calls, bound)
    && (forall k | 0 <= k < |ids| :: ids[k] in metas && MetaKept(perRun[k], metas[ids[k]]))
    && (forall id | id in rest :: calls[id].node !in nodes)
  }

  lemma StateStarts(
    calls: map<nat, Call>, slots: map<nat, nat>, nodes: seq<Node>, metas: map<nat, seq<MetaValue>>)
    requires forall id | id in calls :: calls[id].node !in nodes
    ensures CallsState(calls, calls.Keys, slots, nodes, map[], [], [], metas)
  {
  }

  lemma StateSteps(
    calls: map<nat, Call>, rest: set<nat>, slots: map<nat, nat>, nodes: seq<Node>, bound: map<nat, (nat, seq<Arg>)>,
    perRun: seq<PerRun>, ids: seq<nat>, metas: map<nat, seq<MetaValue>>, id: nat, args: seq<Arg>)
    requires CallsState(calls, rest, slots, nodes, bound, perRun, ids, metas) && id in rest
    requires CallBound(calls[id], slots, nodes + [calls[id].node], (|nodes|, args))
    requires id in metas && |metas[id]| == |calls[id].sources|
    requires forall a, b | a in calls && b in calls && a != b :: calls[a].node != calls[b].node
    ensures var entry := PerRun(|nodes|, metas[id], calls[id].sources);
      if HasPerRun(calls[id].sources)
      then CallsState(calls, rest - {id}, slots, nodes + [calls[id].node], bound[id := (|nodes|, args)],
                      perRun + [entry], ids + [id], metas)
      else CallsState(calls, rest - {id}, slots, nodes + [calls[id].node], bound[id := (|nodes|, args)],
                      perRun, ids, metas)
  {
    var entry := PerRun(|nodes|, metas[id], calls[id].sources);
    BindOneCall(calls, rest, slots, nodes, bound, id, args);
    TrackOneCall(perRun, ids, calls.Keys - rest, calls, bound, id, entry, (|nodes|, args));
    assert calls.Keys - (rest - {id}) == calls.Keys - rest + {id};
    hide CallsSoFar, Tracks, CallBound;
    assert MetaKept(entry, metas[id]);
  }

  ghost function Metas(run: Run): map<nat, seq<MetaValue>>
    reads run.Nodes()
  {
    map id | id in run.calls :: run.calls[id].node.meta
  }

  lemma StateEnds(
    run: Run, slots: map<nat, nat>, nodes: seq<Node>, bound: map<nat, (nat, seq<Arg>)>,
    perRun: seq<PerRun>, ids: seq<nat>)
    requires CallsState(run.calls, {}, slots, nodes, bound, perRun, ids, Metas(run))
    ensures CallsBound(run.calls, slots, nodes, bound) && DynamicsOf(bound, perRun, run, ids)
  {
    hide MetaKept, CallBound;
    assert run.calls.Keys - {} == run.calls.Keys;
  }

  /** What is known of a call before it is bound. */
  lemma CallReady(run: Run, scope: Scope, slots: map<nat, nat>, id: nat)
    requires run.Valid() && BoundAt(run.tensors, scope.bufs, slots) && id in run.calls
    ensures var call := run.calls[id];
      && call.node.dev == run.device && call.node.Valid()
      && |call.node.meta| == |call.sources| && |call.tensors| == |call.node.shader.sig.layout|
      && forall j | 0 <= j < |call.tensors| :: call.tensors[j] in slots
    ensures forall a, b | a in run.calls && b in run.calls && a != b :: run.calls[a].node != run.calls[b].node
    ensures id in Metas(run) && Metas(run)[id] == run.calls[id].node.meta
  {
    assert |TypesOf(run.calls[id].node.meta)| == |run.calls[id].node.meta|;
  }

  lemma CallBinds(call: Call, slots: map<nat, nat>, nodes: seq<Node>, args: seq<Arg>)
    requires |call.tensors| == |call.node.shader.sig.layout| && forall j | 0 <= j < |call.tensors| :: call.tensors[j] in slots
    requires args == ArgsOf(call.node.shader.sig.layout, call.tensors, slots)
    ensures CallBound(call, slots, nodes + [call.node], (|nodes|, args))
  {
  }

  method BindCall(run: Run, scope: Scope, slots: map<nat, nat>, id: nat) returns (r: Result<(nat, seq<Arg>)>)
    requires run.Valid() && scope.Valid() && BoundAt(run.tensors, scope.bufs, slots)
    requires id in run.calls && run.calls[id].node !in scope.nodes
    modifies scope`nodes
    ensures scope.Valid()
    ensures if run.device != scope.dev then r == Err(OtherDevice(TheNode)) && scope.nodes == old(scope.nodes)
            else r.Ok? && r.value.0 == |old(scope.nodes)| && scope.nodes == old(scope.nodes) + [run.calls[id].node]
                 && CallBound(run.calls[id], slots, scope.nodes, r.value)
  {
    hide TensorsSound, CallsMade, BoundAt, Node.Valid, CallBound, CallFits;
    CallReady(run, scope, slots, id);
    var call := run.calls[id];
    var args := ArgsOf(call.node.shader.sig.layout, call.tensors, slots);
    CallBinds(call, slots, scope.nodes, args);
    var slot := scope.BindNode(call.node);
    r := if slot.Err? then Err(slot.error) else Ok((slot.value, args));
  }

  method BindCalls(run: Run, scope: Scope, slots: map<nat, nat>)
    returns (r: Result<(map<nat, (nat, seq<Arg>)>, seq<PerRun>)>, ghost ids: seq<nat>)
    requires run.Valid() && scope.Valid() && BoundAt(run.tensors, scope.bufs, slots)
    requires forall id | id in run.calls :: run.calls[id].node !in scope.nodes
    modifies scope`nodes
    ensures scope.Valid()
    ensures r.Ok? <==> run.device == scope.dev || run.calls == map[]
    ensures r.Err? ==> r.error == OtherDevice(TheNode)
    ensures r.Ok? ==> CallsBound(run.calls, slots, scope.nodes, r.value.0)
    ensures r.Ok? ==> DynamicsOf(r.value.0, r.value.1, run, ids)
  {
    ghost var metas := Metas(run);
    hide *;
    StateStarts(run.calls, slots, scope.nodes, metas);
    var rest, bound, perRun: seq<PerRun> := run.calls.Keys, map[], [];
    ids := [];
    while rest != {}
      invariant scope.Valid() && run.Valid() && rest <= run.calls.Keys && (rest != run.calls.Keys ==> run.device == scope.dev)
      invariant CallsState(run.calls, rest, slots, scope.nodes, bound, perRun, ids, metas) && metas == Metas(run)
      decreases |rest|
    {
      var id :| id in rest;
      NodeIsNew(run.calls, rest, slots, scope.nodes, bound, perRun, ids, metas, id);
      CallReady(run, scope, slots, id);
      run.NodesAllocated();
      ghost var nodes := scope.nodes;
      var at := BindCall(run, scope, slots, id);
      if at.Err? {
        return Err(at.error), ids;
      }
      StateSteps(run.calls, rest, slots, nodes, bound, perRun, ids, metas, id, at.value.1);
      if HasPerRun(run.calls[id].sources) {
        var entry := PerRun(at.value.0, run.calls[id].node.meta, run.calls[id].sources);
        perRun, ids := perRun + [entry], ids + [id];
      }
      bound := bound[id := at.value];
      rest := rest - {id};
    }
    StateEnds(run, slots, scope.nodes, bound, perRun, ids);
    r := Ok((bound, perRun));
  }

  lemma NodeIsNew(
    calls: map<nat, Call>, rest: set<nat>, slots: map<nat, nat>, nodes: seq<Node>, bound: map<nat, (nat, seq<Arg>)>,
    perRun: seq<PerRun>, ids: seq<nat>, metas: map<nat, seq<MetaValue>>, id: nat)
    requires CallsState(calls, rest, slots, nodes, bound, perRun, ids, metas) && id in rest
    ensures calls[id].node !in nodes
  {
  }

  /** Main result: a run binds on its own device exactly when it holds no hollow tensor, and
      then the handle is the run bound, in whatever order the maps gave their entries. */
  method Bind(run: Run, scope: Scope) returns (r: Result<Bound>, ghost ids: seq<nat>)
    requires run.Valid() && scope.Valid() && Unbound(run, scope)
    modifies scope`bufs, scope`nodes
    ensures scope.Valid() && run.Valid()
    ensures run.device == scope.dev ==> (r.Ok? <==> !run.ContainsHollow()) && (r.Err? ==> r.error == Error.Hollow)
    ensures run.device != scope.dev && (run.tensors != map[] || run.calls != map[]) ==>
      r.Err? && (r.error == Error.Hollow || r.error == OtherDevice(TheTensor) || r.error == OtherDevice(TheNode))
    ensures r.Ok? && run.device == scope.dev ==>
      && r.value.scope == scope && Binds(r.value, run)
      && DynamicsOf(r.value.calls, r.value.perRun, run, ids)
  {
    hide TensorsSound, BoundAt, CallsBound, DynamicsOf, Run.Made, Scope.Valid, Run.ContainsHollow;
    run.NodesAllocated();
    var tensors := BindTensors(run, scope);
    if tensors.Err? {
      return Err(tensors.error), [];
    }
    var calls;
    calls, ids := BindCalls(run, scope, tensors.value);
    if calls.Err? {
      return Err(calls.error), ids;
    }
    r := Ok(Bound(scope, tensors.value, calls.value.0, calls.value.1, run.order));
  }
}
