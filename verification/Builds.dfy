/** Building a plan on a device: its tensors, its nodes, and the checks of its lengths. */
module Builds {
  import opened Blocks
  import opened Dtype
  import opened Rules
  import opened Cpu
  import opened Scopes
  import opened Plans
  import opened Runs
  import opened TypedTensors
  import opened HostAccess

  // ----------------------------------------------------------------------------
  // Tensors
  // ----------------------------------------------------------------------------

  /** The blocks there were keep their contents. */
  ghost predicate Grown(mem: Memory, mem': Memory) {
    mem.Keys <= mem'.Keys && forall b | b in mem :: mem'[b] == mem[b]
  }

  /** `alloc`: a zeroed block of its own, of whole host words. */
  method Alloc(device: Device, kind: Kind, len: nat) returns (t: Tensor)
    requires device.Valid()
    modifies device`mem, device`next
    ensures device.Valid() && Grown(old(device.mem), device.mem)
    ensures t.dev == device && t.kind == kind && t.len == WholeWords(kind, len) && Sound(t)
    ensures t.buf.bytes > 0 ==> t.buf.address !in old(device.mem)
    ensures device.mem[t.buf.address] == Zeros(t.buf.bytes)
  {
    var whole := WholeWords(kind, len);
    var buf := device.AllocRaw(BufferBytes(kind, whole));
    t := Tensor(kind, whole, buf, device);
  }

  /** A built tensor, as its spec asks for it. */
  ghost predicate BuiltFrom(t: Tensor, spec: TensorSpec, known: Known, mem: Memory) {
    && spec.len in known.numbers && t.kind == spec.kind && t.len == WholeWords(spec.kind, known.numbers[spec.len])
    && SoundIn(t, mem)
    && (spec.init.ZeroFill? ==> mem[t.buf.address] == Zeros(t.buf.bytes))
    && (spec.init.UploadData? ==>
          && BytesFor(spec.kind, t.len) <= |spec.init.data.bytes|
          && Held(t, mem) == Elements(spec.kind, t.len, spec.init.data.bytes))
  }

  method BuildTensor(spec: TensorSpec, known: Known, device: Device) returns (r: Result<Tensor>)
    requires device.Valid()
    requires spec.init.UploadData? ==> spec.init.data.Valid() && spec.init.data.kind == spec.kind
    modifies device`mem, device`next
    ensures device.Valid() && Grown(old(device.mem), device.mem)
    ensures r.Ok? <==> TensorReady(known, spec).Passed?
    ensures r.Err? ==> r.error == TensorReady(known, spec).error && device.mem == old(device.mem)
    ensures r.Ok? ==> r.value.dev == device && BuiltFrom(r.value, spec, known, device.mem)
    ensures r.Ok? && r.value.buf.bytes > 0 ==> r.value.buf.address !in old(device.mem)
  {
    var ready := TensorReady(known, spec);
    if ready.Failed? {
      return Err(ready.error);
    }
    var t := Alloc(device, spec.kind, known.numbers[spec.len]);
    match spec.init {
      case Blank =>
      case UploadData(data) =>
        var uploaded := UploadAll(t, data);
        assert uploaded.Passed?;
      case ZeroFill =>
        Zero(t);
    }
    r := Ok(t);
  }

  /** The first `k` specs are built, each under its id. */
  ghost predicate BuiltSoFar(
    specs: seq<TensorSpec>, k: nat, known: Known, device: Device, tensors: Tensors, mem: Memory)
    requires k <= |specs|
  {
    && (forall id | id in tensors :: exists j :: 0 <= j < k && specs[j].id == id)
    && (forall j | 0 <= j < k ::
          && specs[j].id in tensors && tensors[specs[j].id].Live?
          && BuiltFrom(tensors[specs[j].id].tensor, specs[j], known, mem))
    && TensorsSound(tensors, device, mem)
  }

  lemma BuildOneMore(
    specs: seq<TensorSpec>, k: nat, known: Known, device: Device, tensors: Tensors, mem: Memory, mem': Memory, t: Tensor)
    requires k < |specs| && Distinct(TensorIds(specs)) && BuiltSoFar(specs, k, known, device, tensors, mem)
    requires Grown(mem, mem') && t.dev == device && BuiltFrom(t, specs[k], known, mem')
    requires t.buf.bytes > 0 ==> t.buf.address !in mem
    ensures BuiltSoFar(specs, k + 1, known, device, tensors[specs[k].id := Live(t)], mem')
  {
    var ids, after := TensorIds(specs), tensors[specs[k].id := Live(t)];
    forall j | 0 <= j < k ensures specs[j].id != specs[k].id {
      assert ids[j] != ids[k];
    }
    forall j | 0 <= j < k
      ensures BuiltFrom(tensors[specs[j].id].tensor, specs[j], known, mem')
    {
      GrownKeeps(tensors[specs[j].id].tensor, specs[j], known, mem, mem');
    }
    hide BuiltFrom;
    SoundAsItGrows(tensors, device, mem, mem', specs[k].id, t);
    forall id | id in after ensures exists j :: 0 <= j < k + 1 && specs[j].id == id {
      if id == specs[k].id {
        assert specs[k].id == id;
      } else {
        var j :| 0 <= j < k && specs[j].id == id;
      }
    }
  }

  lemma GrownKeeps(t: Tensor, spec: TensorSpec, known: Known, mem: Memory, mem': Memory)
    requires BuiltFrom(t, spec, known, mem) && Grown(mem, mem')
    ensures BuiltFrom(t, spec, known, mem')
  {
  }

  lemma SoundAsItGrows(tensors: Tensors, device: Device, mem: Memory, mem': Memory, id: nat, t: Tensor)
    requires TensorsSound(tensors, device, mem) && Grown(mem, mem') && id !in tensors
    requires t.dev == device && SoundIn(t, mem') && (t.buf.bytes > 0 ==> t.buf.address !in mem)
    ensures TensorsSound(tensors[id := Live(t)], device, mem')
  {
    forall other | other in tensors && tensors[other].Live?
      ensures Apart(tensors[other].tensor, t) && Apart(t, tensors[other].tensor)
    {
      var u := tensors[other].tensor;
      assert SoundIn(u, mem) && |mem'[u.buf.address]| == u.buf.bytes;
    }
  }

  method BuildTensors(specs: seq<TensorSpec>, known: Known, device: Device) returns (r: Result<Tensors>)
    requires device.Valid() && Distinct(TensorIds(specs))
    requires forall t | t in specs && t.init.UploadData? :: t.init.data.Valid() && t.init.data.kind == t.kind
    modifies device`mem, device`next
    ensures device.Valid() && Grown(old(device.mem), device.mem)
    ensures r.Ok? <==> TensorsReady(known, specs).Passed?
    ensures r.Ok? ==> BuiltSoFar(specs, |specs|, known, device, r.value, device.mem)
    ensures r.Err? ==> exists t :: t in specs && TensorReady(known, t) == Failed(r.error)
  {
    hide TensorReady, BuiltFrom, SoundIn;
    var tensors: Tensors := map[];
    for k := 0 to |specs|
      invariant device.Valid() && Grown(old(device.mem), device.mem)
      invariant BuiltSoFar(specs, k, known, device, tensors, device.mem)
      invariant forall j | 0 <= j < k :: TensorReady(known, specs[j]).Passed?
    {
      ghost var mem := device.mem;
      assert specs[k] in specs;
      var t := BuildTensor(specs[k], known, device);
      if t.Err? {
        return Err(t.error);
      }
      BuildOneMore(specs, k, known, device, tensors, mem, device.mem, t.value);
      tensors := tensors[specs[k].id := Live(t.value)];
    }
    r := Ok(tensors);
  }

  /** The same, hollow: every length known, nothing allocated. */
  ghost predicate HollowSoFar(specs: seq<TensorSpec>, k: nat, known: Known, tensors: Tensors)
    requires k <= |specs|
  {
    && (forall id | id in tensors :: exists j :: 0 <= j < k && specs[j].id == id)
    && forall j | 0 <= j < k ::
         && specs[j].id in tensors && specs[j].len in known.numbers
         && tensors[specs[j].id] == AnyTensor.Hollow(specs[j].kind, known.numbers[specs[j].len])
  }

  method BuildHollowTensors(specs: seq<TensorSpec>, known: Known) returns (r: Result<Tensors>)
    requires Distinct(TensorIds(specs))
    ensures r.Ok? <==> forall t | t in specs :: t.len in known.numbers
    ensures r.Err? ==> r.error == NotGivenYet
    ensures r.Ok? ==> HollowSoFar(specs, |specs|, known, r.value)
  {
    var tensors: Tensors := map[];
    for k := 0 to |specs|
      invariant HollowSoFar(specs, k, known, tensors)
    {
      if specs[k].len !in known.numbers {
        assert specs[k] in specs;
        return Err(NotGivenYet);
      }
      forall j | 0 <= j < k ensures specs[j].id != specs[k].id {
        assert TensorIds(specs)[j] != TensorIds(specs)[k];
      }
      tensors := tensors[specs[k].id := AnyTensor.Hollow(specs[k].kind, known.numbers[specs[k].len])];
    }
    r := Ok(tensors);
  }

  // ----------------------------------------------------------------------------
  // Calls
  // ----------------------------------------------------------------------------

  /** A node as its spec asks for it, with what is known. */
  ghost predicate NodeFrom(node: Node, spec: NodeSpec, known: Known, device: Device)
    reads node
  {
    && node.dev == device && node.shader == spec.shader && node.Valid()
    && spec.workgroups in known.grids && node.workgroups == known.grids[spec.workgroups] && Dispatches(node.workgroups)
    && FieldsFrom(node.meta, spec.meta, known)
  }

  /** There is a workgroup to run. */
  predicate Dispatches(wg: Workgroups) {
    wg.x > 0 && wg.y > 0 && wg.z > 0
  }

  ghost predicate NothingToRun(spec: NodeSpec, known: Known) {
    spec.workgroups in known.grids && !Dispatches(known.grids[spec.workgroups])
  }

  predicate NoGroups(wg: Workgroups) {
    wg.x == 0 || wg.y == 0 || wg.z == 0
  }

  method BuildNode(spec: NodeSpec, known: Known, device: Device) returns (r: Result<Node>)
    requires spec.shader.sig.meta == SourceTypes(spec.meta)
    ensures r.Ok? <==> NodeReady(known, spec).Passed? && !NoGroups(known.grids[spec.workgroups])
    ensures r.Err? ==> r.error == if NodeReady(known, spec).Failed? then NotGivenYet else Error.NoWorkgroups
    ensures r.Err? && r.error == Error.NoWorkgroups ==> NothingToRun(spec, known)
    ensures r.Ok? ==> fresh(r.value) && NodeFrom(r.value, spec, known, device)
  {
    var meta :- BuildValues(known, spec.meta);
    if spec.workgroups !in known.grids {
      return Err(NotGivenYet);
    }
    var wg := known.grids[spec.workgroups];
    if NoGroups(wg) {
      return Err(Error.NoWorkgroups);
    }
    var node := new Node(device, spec.shader, meta, wg);
    r := Ok(node);
  }

  /** The first `k` calls are built, each with a node of its own. */
  ghost predicate CallsBuilt(specs: seq<CallSpec>, k: nat, known: Known, device: Device, calls: map<nat, Call>)
    requires k <= |specs|
    reads set id | id in calls :: calls[id].node
  {
    && (forall id | id in calls :: exists j :: 0 <= j < k && specs[j].id == id)
    && (forall j | 0 <= j < k ::
          && specs[j].id in calls && calls[specs[j].id].tensors == specs[j].tensors
          && calls[specs[j].id].sources == specs[j].node.meta
          && NodeFrom(calls[specs[j].id].node, specs[j].node, known, device))
    && (forall a, b | a in calls && b in calls && a != b :: calls[a].node != calls[b].node)
  }

  lemma CallsOneMore(specs: seq<CallSpec>, k: nat, known: Known, device: Device, calls: map<nat, Call>, node: Node)
    requires k < |specs| && Distinct(CallIds(specs)) && CallsBuilt(specs, k, known, device, calls)
    requires NodeFrom(node, specs[k].node, known, device) && forall id | id in calls :: calls[id].node != node
    ensures CallsBuilt(specs, k + 1, known, device, calls[specs[k].id := Call(node, specs[k].tensors, specs[k].node.meta)])
  {
    hide NodeFrom;
    forall j | 0 <= j < k ensures specs[j].id != specs[k].id {
      assert CallIds(specs)[j] != CallIds(specs)[k];
    }
  }

  /** A slot of the call needs more elements, for the values known, than its tensor has. */
  ghost predicate Short(c: CallSpec, known: Known, has: map<nat, nat>) {
    && c.node.workgroups in known.grids
    && exists meta: seq<MetaValue>, j: nat
         | FieldsFrom(meta, c.node.meta, known) && j < |c.node.shader.sig.layout| && j < |c.tensors| && c.tensors[j] in has ::
         has[c.tensors[j]] < c.node.shader.sig.needs(Words(meta), known.grids[c.node.workgroups], j)
  }

  /** Nothing is in the way of building the call. */
  ghost predicate Buildable(c: CallSpec, known: Known, has: map<nat, nat>) {
    c.node.workgroups in known.grids && !NothingToRun(c.node, known) && !Short(c, known, has)
  }

  /** The lengths of a run's tensors. */
  ghost function LensNow(tensors: Tensors): map<nat, nat> {
    map id | id in tensors :: tensors[id].Len()
  }

  /** The lengths a plan's tensors get: whole host words when they are built, */
  ghost function LiveLens(specs: seq<TensorSpec>, known: Known): (m: map<nat, nat>)
    requires Distinct(TensorIds(specs)) && forall t | t in specs :: t.len in known.numbers
    ensures forall t | t in specs :: t.id in m && m[t.id] == WholeWords(t.kind, known.numbers[t.len])
    ensures forall id | id in m :: exists t :: t in specs && t.id == id
  {
    map t | t in specs :: t.id := WholeWords(t.kind, known.numbers[t.len])
  }

  /** and just what is known when they are hollow. */
  ghost function HollowLens(specs: seq<TensorSpec>, known: Known): (m: map<nat, nat>)
    requires Distinct(TensorIds(specs)) && forall t | t in specs :: t.len in known.numbers
    ensures forall t | t in specs :: t.id in m && m[t.id] == known.numbers[t.len]
    ensures forall id | id in m :: exists t :: t in specs && t.id == id
  {
    map t | t in specs :: t.id := known.numbers[t.len]
  }

  lemma LensAreLive(specs: seq<TensorSpec>, known: Known, device: Device, tensors: Tensors, mem: Memory)
    requires Distinct(TensorIds(specs)) && BuiltSoFar(specs, |specs|, known, device, tensors, mem)
    ensures forall t | t in specs :: t.len in known.numbers
    ensures LensNow(tensors) == LiveLens(specs, known)
  {
    forall t | t in specs
      ensures t.len in known.numbers && t.id in tensors && tensors[t.id].Len() == WholeWords(t.kind, known.numbers[t.len])
    {
      var j :| 0 <= j < |specs| && specs[j] == t;
      assert BuiltFrom(tensors[specs[j].id].tensor, specs[j], known, mem);
    }
    forall id | id in tensors ensures exists t :: t in specs && t.id == id {
      var j :| 0 <= j < |specs| && specs[j].id == id;
      assert specs[j] in specs;
    }
    hide BuiltSoFar, BuiltFrom;
  }

  lemma LensAreHollow(specs: seq<TensorSpec>, known: Known, tensors: Tensors)
    requires Distinct(TensorIds(specs)) && HollowSoFar(specs, |specs|, known, tensors)
    ensures forall t | t in specs :: t.len in known.numbers
    ensures LensNow(tensors) == HollowLens(specs, known)
  {
    forall t | t in specs
      ensures t.len in known.numbers && t.id in tensors && tensors[t.id].Len() == known.numbers[t.len]
    {
      var j :| 0 <= j < |specs| && specs[j] == t;
    }
    forall id | id in tensors ensures exists t :: t in specs && t.id == id {
      var j :| 0 <= j < |specs| && specs[j].id == id;
      assert specs[j] in specs;
    }
    hide HollowSoFar;
  }

  /** The values known leave one choice for a meta. */
  lemma OneMeta(meta: seq<MetaValue>, other: seq<MetaValue>, sources: seq<MetaSource>, known: Known)
    requires FieldsFrom(meta, sources, known) && FieldsFrom(other, sources, known)
    ensures meta == other
  {
    assert forall k | 0 <= k < |meta| :: FieldFrom(meta[k], sources[k], known) && FieldFrom(other[k], sources[k], known);
  }

  /** A built call's lengths are enough exactly when no slot of its spec is short. */
  lemma ShortIsThat(c: CallSpec, known: Known, device: Device, call: Call, tensors: Tensors)
    requires NodeFrom(call.node, c.node, known, device) && call.tensors == c.tensors && CallFits(call, tensors)
    ensures LengthCheck(call, tensors).Passed? <==> !Short(c, known, LensNow(tensors))
  {
    var meta, has, sig := call.node.meta, LensNow(tensors), c.node.shader.sig;
    assert forall j | 0 <= j < |call.tensors| :: call.tensors[j] in has && LensOf(tensors, call.tensors)[j] == has[c.tensors[j]];
    assert forall j | 0 <= j < |sig.layout| :: call.node.lens[j] == sig.needs(Words(meta), known.grids[c.node.workgroups], j);
    hide Words, TypesOf, LensOf, MinLens, LensNow, FieldsFrom, Unaliased;
    forall other: seq<MetaValue>, j: nat
      | FieldsFrom(other, c.node.meta, known) && j < |sig.layout| && j < |c.tensors| && c.tensors[j] in has
        && has[c.tensors[j]] < sig.needs(Words(other), known.grids[c.node.workgroups], j)
      ensures LengthCheck(call, tensors).Failed?
    {
      OneMeta(meta, other, c.node.meta, known);
    }
  }

  /** So the lengths of all of them are checked. */
  lemma AllShortAreThat(plan: RunSpec, known: Known, device: Device, run: Run)
    requires run.Made() && run.NodesValid() && CallsBuilt(plan.calls, |plan.calls|, known, device, run.calls)
    ensures (forall id | id in run.calls :: CallFits(run.calls[id], run.tensors) && LengthCheck(run.calls[id], run.tensors).Passed?)
       <==> forall c | c in plan.calls :: !Short(c, known, LensNow(run.tensors))
    ensures forall c | c in plan.calls :: c.node.workgroups in known.grids && !NothingToRun(c.node, known)
  {
    var specs := plan.calls;
    forall j: nat | j < |specs|
      ensures specs[j].id in run.calls && CallFits(run.calls[specs[j].id], run.tensors)
      ensures LengthCheck(run.calls[specs[j].id], run.tensors).Passed? <==> !Short(specs[j], known, LensNow(run.tensors))
      ensures specs[j].node.workgroups in known.grids && !NothingToRun(specs[j].node, known)
    {
      var call := run.calls[specs[j].id];
      assert call.node.Valid() && NodeFrom(call.node, specs[j].node, known, device);
      ShortIsThat(specs[j], known, device, call, run.tensors);
    }
    hide Short, LengthCheck, NodeFrom, NothingToRun, CallFits, TensorsSound;
    forall id | id in run.calls ensures exists j | 0 <= j < |specs| :: specs[j].id == id {
    }
  }

  lemma NoCalls(specs: seq<CallSpec>, known: Known, device: Device)
    ensures CallsBuilt(specs, 0, known, device, map[])
  {
  }

  method BuildCalls(specs: seq<CallSpec>, known: Known, device: Device) returns (r: Result<map<nat, Call>>)
    requires Distinct(CallIds(specs)) && forall c | c in specs :: c.node.shader.sig.meta == SourceTypes(c.node.meta)
    ensures r.Ok? <==> forall c | c in specs :: NodeReady(known, c.node).Passed? && !NoGroups(known.grids[c.node.workgroups])
    ensures r.Err? ==> r.error == NotGivenYet || r.error == Error.NoWorkgroups
    ensures r.Err? && r.error == NotGivenYet ==> exists c :: c in specs && NodeReady(known, c.node).Failed?
    ensures r.Err? && r.error == Error.NoWorkgroups ==> exists c | c in specs :: NothingToRun(c.node, known)
    ensures r.Ok? ==> CallsBuilt(specs, |specs|, known, device, r.value)
    ensures r.Ok? ==> forall id | id in r.value :: fresh(r.value[id].node)
  {
    hide *;
    var calls: map<nat, Call> := map[];
    NoCalls(specs, known, device);
    for k := 0 to |specs|
      invariant CallsBuilt(specs, k, known, device, calls)
      invariant forall id | id in calls :: fresh(calls[id].node)
      invariant forall j | 0 <= j < k :: NodeReady(known, specs[j].node).Passed? && !NoGroups(known.grids[specs[j].node.workgroups])
    {
      assert specs[k] in specs;
      var node := BuildNode(specs[k].node, known, device);
      if node.Err? {
        return Err(node.error);
      }
      CallsOneMore(specs, k, known, device, calls, node.value);
      calls := calls[specs[k].id := Call(node.value, specs[k].tensors, specs[k].node.meta)];
    }
    r := Ok(calls);
  }

  // ----------------------------------------------------------------------------
  // Runs
  // ----------------------------------------------------------------------------

  /** The plan's checks, made on ids and kinds, are what a built run's calls need. */
  lemma PlanMakesRun(plan: RunSpec, known: Known, device: Device, tensors: Tensors, calls: map<nat, Call>)
    requires Made(plan) && CallsBuilt(plan.calls, |plan.calls|, known, device, calls)
    requires Kinds(tensors) == KindMap(plan.tensors)
    ensures CallsMade(calls, CallIds(plan.calls), tensors, device)
    ensures forall id | id in calls :: calls[id].node.Valid()
  {
    var specs, order := plan.calls, CallIds(plan.calls);
    forall id | id in calls
      ensures id in order && calls[id].node.dev == device && calls[id].node.Valid() && CallFits(calls[id], tensors)
    {
      var j :| 0 <= j < |specs| && specs[j].id == id;
      assert specs[j] in specs && order[j] == id;
      assert NodeFrom(calls[id].node, specs[j].node, known, device);
      PlanChecksExactly(plan.tensors, specs[j]);
    }
    forall id | id in order ensures id in calls {
      var j :| 0 <= j < |order| && order[j] == id;
      assert specs[j].id == id;
    }
  }

  /** Builds the plan's calls around `tensors`. Every call's lengths are checked, in whatever
      order the map gives them. */
  method WithTensors(plan: RunSpec, known: Known, device: Device, tensors: Tensors) returns (r: Result<Run>)
    requires Made(plan) && device.Valid() && TensorsSound(tensors, device, device.mem)
    requires Kinds(tensors) == KindMap(plan.tensors)
    ensures r.Ok? ==>
      && fresh(r.value) && r.value.device == device && r.value.tensors == tensors
      && r.value.order == CallIds(plan.calls) && CallsBuilt(plan.calls, |plan.calls|, known, device, r.value.calls)
      && r.value.Valid() && r.value.Outcome().Passed?
    ensures r.Err? ==> r.error == NotGivenYet || r.error == Error.NoWorkgroups || r.error.TooShort?
    ensures r.Err? && r.error == NotGivenYet ==> CallsReady(known, plan.calls).Failed?
    ensures r.Err? && r.error == Error.NoWorkgroups ==> exists c | c in plan.calls :: NothingToRun(c.node, known)
    ensures r.Err? && r.error.TooShort? ==> exists c | c in plan.calls :: Short(c, known, LensNow(tensors))
    ensures r.Ok? ==> forall c | c in plan.calls :: Buildable(c, known, LensNow(tensors))
  {
    hide NodeFrom, NodeReady, NoGroups, CallsBuilt, TensorsSound, Run.Outcome, Kinds, KindMap, CallFits, LengthCheck;
    hide NewRunSpec, Distinct, CallIds, SourceTypes;
    var calls := BuildCalls(plan.calls, known, device);
    if calls.Err? {
      return Err(calls.error);
    }
    PlanMakesRun(plan, known, device, tensors, calls.value);
    var run := new Run(device, tensors, calls.value, CallIds(plan.calls));
    run.NodesAllocated();
    var check := CheckLengths(run);
    AllShortAreThat(plan, known, device, run);
    hide Short, NothingToRun, LensNow;
    if check.Failed? {
      return Err(check.error);
    }
    AllPass(run);
    r := Ok(run);
  }

  method CheckLengths(run: Run) returns (r: Check)
    requires run.Made() && run.NodesValid()
    ensures r.Passed? <==> forall id | id in run.calls :: CallFits(run.calls[id], run.tensors) && LengthCheck(run.calls[id], run.tensors).Passed?
    ensures r.Failed? ==> r.error.TooShort?
  {
    var rest := run.calls.Keys;
    while rest != {}
      invariant rest <= run.calls.Keys
      invariant forall id | id in run.calls && id !in rest :: CallFits(run.calls[id], run.tensors) && LengthCheck(run.calls[id], run.tensors).Passed?
      decreases |rest|
    {
      var id :| id in rest;
      var call := run.calls[id];
      assert CallFits(call, run.tensors) && call.node.Valid();
      var check := LengthsFrom(call.node.lens, LensOf(run.tensors, call.tensors), 0);
      if check.Failed? {
        return check;
      }
      rest := rest - {id};
    }
    r := Passed;
  }

  lemma AllPass(run: Run)
    requires run.Made() && run.NodesValid()
    requires forall id | id in run.calls :: CallFits(run.calls[id], run.tensors) && LengthCheck(run.calls[id], run.tensors).Passed?
    ensures run.Outcome().Passed?
  {
    forall k: nat | k < |run.order| ensures run.CheckAt(k).Passed? {
      assert run.order[k] in run.order;
    }
  }

  lemma KindsBuilt(plan: RunSpec, known: Known, device: Device, tensors: Tensors, mem: Memory)
    requires Made(plan) && BuiltSoFar(plan.tensors, |plan.tensors|, known, device, tensors, mem)
    ensures Kinds(tensors) == KindMap(plan.tensors)
    ensures TensorsSound(tensors, device, mem) && forall id | id in tensors :: tensors[id].Live?
  {
    hide NewRunSpec, TensorsSound, BuiltFrom, SourceTypes;
    var specs, kinds := plan.tensors, KindMap(plan.tensors);
    forall id | id in tensors ensures tensors[id].Live? && id in kinds && tensors[id].Kind() == kinds[id] {
      var j :| 0 <= j < |specs| && specs[j].id == id;
      assert specs[j] in specs;
      BuiltKind(tensors[id].tensor, specs[j], known, mem);
    }
  }

  lemma BuiltKind(t: Tensor, spec: TensorSpec, known: Known, mem: Memory)
    requires BuiltFrom(t, spec, known, mem)
    ensures t.kind == spec.kind
  {
  }

  lemma KindsHollow(plan: RunSpec, known: Known, tensors: Tensors)
    requires Made(plan) && HollowSoFar(plan.tensors, |plan.tensors|, known, tensors)
    ensures Kinds(tensors) == KindMap(plan.tensors)
    ensures forall id | id in tensors :: tensors[id].Hollow?
  {
    hide NewRunSpec, SourceTypes;
    var specs, kinds := plan.tensors, KindMap(plan.tensors);
    forall id | id in tensors ensures tensors[id].Hollow? && id in kinds && tensors[id].Kind() == kinds[id] {
      var j :| 0 <= j < |specs| && specs[j].id == id;
      assert specs[j] in specs;
    }
  }

  /** `ready`, then every tensor, then every call. Values may become known between `ready` and
      the building, never unknown: a plan that was ready doesn't fail for a value not given. */
  method Build(plan: RunSpec, known: Known, later: Known, device: Device) returns (r: Result<Run>)
    requires Made(plan) && known.Before(later) && device.Valid()
    modifies device`mem, device`next
    ensures device.Valid() && Grown(old(device.mem), device.mem)
    ensures r.Ok? ==>
      && fresh(r.value) && r.value.device == device && r.value.Valid() && !r.value.ContainsHollow()
      && r.value.order == CallIds(plan.calls) && r.value.Outcome().Passed?
      && BuiltSoFar(plan.tensors, |plan.tensors|, later, device, r.value.tensors, device.mem)
      && CallsBuilt(plan.calls, |plan.calls|, later, device, r.value.calls)
    ensures TensorsReady(known, plan.tensors).Then(CallsReady(known, plan.calls)).Failed? ==>
      && r == Err(TensorsReady(known, plan.tensors).Then(CallsReady(known, plan.calls)).error)
      && device.mem == old(device.mem)
    ensures TensorsReady(known, plan.tensors).Then(CallsReady(known, plan.calls)).Passed? ==>
      && (forall t | t in plan.tensors :: t.len in later.numbers)
      && (r.Ok? <==> forall c | c in plan.calls :: Buildable(c, later, LiveLens(plan.tensors, later)))
      && (r.Err? ==> exists c | c in plan.calls ::
            || (r.error == Error.NoWorkgroups && NothingToRun(c.node, later))
            || (r.error.TooShort? && Short(c, later, LiveLens(plan.tensors, later))))
  {
    var ready := TensorsReady(known, plan.tensors).Then(CallsReady(known, plan.calls));
    if ready.Failed? {
      return Err(ready.error);
    }
    ReadyStays(known, later, plan);
    hide TensorsReady, CallsReady, BuiltSoFar, CallsBuilt, TensorsSound, Kinds, KindMap, Run.Outcome;
    var tensors := BuildTensors(plan.tensors, later, device);
    KindsBuilt(plan, later, device, tensors.value, device.mem);
    LensAreLive(plan.tensors, later, device, tensors.value, device.mem);
    hide Short, NothingToRun, LensNow, LiveLens;
    r := WithTensors(plan, later, device, tensors.value);
  }

  /** The calls' values are asked for first; a tensor's length is asked for as it is built. */
  method BuildHollow(plan: RunSpec, known: Known, later: Known, device: Device) returns (r: Result<Run>)
    requires Made(plan) && known.Before(later) && device.Valid()
    ensures r.Ok? ==>
      && fresh(r.value) && r.value.device == device && r.value.Valid() && r.value.Outcome().Passed?
      && r.value.order == CallIds(plan.calls)
      && HollowSoFar(plan.tensors, |plan.tensors|, later, r.value.tensors)
      && CallsBuilt(plan.calls, |plan.calls|, later, device, r.value.calls)
    ensures r.Err? ==> r.error == NotGivenYet || r.error == Error.NoWorkgroups || r.error.TooShort?
    ensures r == Err(NotGivenYet) <==>
              CallsReady(known, plan.calls).Failed? || exists t | t in plan.tensors :: t.len !in later.numbers
    ensures r != Err(NotGivenYet) ==>
      && (r.Ok? <==> forall c | c in plan.calls :: Buildable(c, later, HollowLens(plan.tensors, later)))
      && (r.Err? ==> exists c | c in plan.calls ::
            || (r.error == Error.NoWorkgroups && NothingToRun(c.node, later))
            || (r.error.TooShort? && Short(c, later, HollowLens(plan.tensors, later))))
  {
    var ready := CallsReady(known, plan.calls);
    if ready.Failed? {
      return Err(ready.error);
    }
    ReadyStays(known, later, plan);
    hide CallsReady, HollowSoFar, CallsBuilt, TensorsSound, Kinds, KindMap, Run.Outcome, Made;
    var tensors :- BuildHollowTensors(plan.tensors, later);
    KindsHollow(plan, later, tensors);
    LensAreHollow(plan.tensors, later, tensors);
    hide Short, NothingToRun, LensNow, HollowLens;
    AllHollowSound(tensors, device);
    r := WithTensors(plan, later, device, tensors);
  }

  lemma AllHollowSound(tensors: Tensors, device: Device)
    requires forall id | id in tensors :: tensors[id].Hollow?
    ensures TensorsSound(tensors, device, device.mem)
  {
  }
}
