/** What may happen to a captured run between replays: contents and per-run metas change, and
    it stays what was captured. */
module CapturedRuns {
  import opened Blocks
  import opened Dtype
  import opened Rules
  import opened Cpu
  import opened Scopes
  import opened Runs
  import opened Binding
  import opened Dynamics
  import opened Captures
  import opened TypedTensors
  import opened HostAccess

  /** The tensor of an id, if the run has it live. */
  function LiveTensor(tensors: Tensors, id: nat): (r: Result<Tensor>)
    ensures r.Ok? <==> id in tensors && tensors[id].Live?
    ensures r.Ok? ==> r.value == tensors[id].tensor
  {
    if id !in tensors then Err(NotInPlan(TheTensor))
    else if tensors[id].Hollow? then Err(Error.Hollow)
    else Ok(tensors[id].tensor)
  }

  /** Only one tensor's block changed, and no block's length. */
  ghost predicate OnlyChanged(mem: Memory, mem': Memory, address: nat) {
    SameShape(mem, mem') && forall b | b in mem && b != address :: mem'[b] == mem[b]
  }

  /** A run's other tensors don't see it. */
  lemma OthersUnseen(tensors: Tensors, device: Device, mem: Memory, mem': Memory, id: nat, other: nat)
    requires TensorsSound(tensors, device, mem) && id in tensors && tensors[id].Live?
    requires other in tensors && other != id && tensors[other].Live?
    requires OnlyChanged(mem, mem', tensors[id].tensor.buf.address)
    ensures SoundIn(tensors[other].tensor, mem) && SoundIn(tensors[other].tensor, mem')
    ensures mem'[tensors[other].tensor.buf.address] == mem[tensors[other].tensor.buf.address]
  {
    var t, u := tensors[id].tensor, tensors[other].tensor;
    assert Apart(t, u) && SoundIn(u, mem);
    if u.buf.address == t.buf.address {
      assert mem'[u.buf.address] == [] == mem[u.buf.address];
    }
  }

  /** `CapturedRun::upload`: the tensor holds the data, and no other tensor of the run changes. */
  method UploadTo(run: Run, recording: Recording, id: nat, data: HostData) returns (r: Check)
    requires run.Valid() && IsCaptureOf(recording, run) && data.Valid()
    modifies run.device`mem
    ensures run.Valid() && IsCaptureOf(recording, run)
    ensures r.Passed? <==>
      && id in run.tensors && run.tensors[id].Live?
      && data.Len() == run.tensors[id].Len() && data.kind == run.tensors[id].Kind()
    ensures r.Failed? ==> run.device.mem == old(run.device.mem)
    ensures r.Passed? ==>
      && OnlyChanged(old(run.device.mem), run.device.mem, run.tensors[id].tensor.buf.address)
      && SoundIn(run.tensors[id].tensor, run.device.mem) && BytesFor(data.kind, data.Len()) <= |data.bytes|
      && Held(run.tensors[id].tensor, run.device.mem) == Elements(data.kind, data.Len(), data.bytes)
    ensures LiveTensor(run.tensors, id).Err? ==> r == Failed(LiveTensor(run.tensors, id).error)
    ensures LiveTensor(run.tensors, id).Ok? ==>
      var t := run.tensors[id].tensor;
      && SoundIn(t, old(run.device.mem))
      && var u := Upload(t.kind, t.len, old(run.device.mem)[t.buf.address], data);
      && r == (if u.Ok? then Passed else Failed(u.error))
      && (u.Ok? ==> run.device.mem == old(run.device.mem)[t.buf.address := u.value])
  {
    var t := LiveTensor(run.tensors, id);
    if t.Err? {
      return Failed(t.error);
    }
    assert SoundIn(t.value, run.device.mem) && t.value.dev == run.device;
    hide CallsMade, Elements, Held, IsCaptureOf, Upload;
    run.NodesAllocated();
    ghost var mem := run.device.mem;
    r := UploadAll(t.value, data);
    TensorsStaySound(run.tensors, run.device, mem, run.device.mem);
    hide TensorsSound;
  }

  /** `CapturedRun::zero`. */
  method ZeroIn(run: Run, recording: Recording, id: nat) returns (r: Check)
    requires run.Valid() && IsCaptureOf(recording, run)
    modifies run.device`mem
    ensures run.Valid() && IsCaptureOf(recording, run)
    ensures r.Passed? <==> id in run.tensors && run.tensors[id].Live?
    ensures r.Failed? ==> run.device.mem == old(run.device.mem)
    ensures r.Passed? ==>
      && OnlyChanged(old(run.device.mem), run.device.mem, run.tensors[id].tensor.buf.address)
      && run.device.mem == old(run.device.mem)[run.tensors[id].tensor.buf.address := Zeros(run.tensors[id].tensor.buf.bytes)]
    ensures LiveTensor(run.tensors, id).Err? ==> r == Failed(LiveTensor(run.tensors, id).error)
  {
    var t := LiveTensor(run.tensors, id);
    if t.Err? {
      return Failed(t.error);
    }
    assert SoundIn(t.value, run.device.mem) && t.value.dev == run.device;
    hide CallsMade, IsCaptureOf;
    run.NodesAllocated();
    ghost var mem := run.device.mem;
    Zero(t.value);
    TensorsStaySound(run.tensors, run.device, mem, run.device.mem);
    hide TensorsSound;
    r := Passed;
  }

  /** `apply_dynamics` on a captured run: the next replay runs with the new metas. */
  method ApplyBetweenReplays(b: Bound, ghost run: Run, recording: Recording, ghost ids: seq<nat>) returns (r: Check)
    requires Binds(b, run) && IsCaptureOf(recording, run) && DynamicsOf(b.calls, b.perRun, run, ids)
    modifies run.Nodes()
    ensures Binds(b, run) && IsCaptureOf(recording, run) && DynamicsOf(b.calls, b.perRun, run, ids)
    ensures r.Failed? ==> r == Failed(DynamicUnset) && Metas(run) == old(Metas(run))
    ensures r.Passed? <==> old(forall id | id in run.calls :: AllSet(run.calls[id].sources))
    ensures forall id | id in run.calls :: |old(Metas(run))[id]| == |run.calls[id].sources|
    ensures r.Passed? ==> Metas(run) == old(RefreshedMetas(run))
  {
    hide Binds, DynamicsOf, IsCaptureOf, Metas, RefreshedMetas, AllSet;
    r := ApplyDynamics(b, run, ids);
  }
}
