/** The wgpu backend batches its commands, and still behaves as `Storage` promises: every
    call acts in the order it was made. `Apply` is a machine that acts at once; the class
    `Backend` is proved to answer as it does, whatever `submit_every` is and whenever it
    changes. */
module Wgpu {
  import opened Options
  import opened Blocks
  import opened WgpuQueue

  const MIN_BYTES: nat := 4

  datatype Device = Device(owner: nat, maxBuffer: nat, maxBinding: nat)

  datatype Error =
    | OverBufferLimit | OutOfMemory | BadShader
    | ForeignSource | ForeignDestination | ForeignBuffer | ForeignNode | OverBindingLimit(slot: nat)

  // ----------------------------------------------------------------------------
  // The machine that acts at once
  // ----------------------------------------------------------------------------

  datatype Machine = Machine(mem: Memory, next: nat)

  /** `outOfMemory` and `compiles` are what the driver answers. */
  datatype Call =
    | AllocRaw(size: nat, outOfMemory: bool)
    | UploadRaw(buf: Buffer, offset: nat, data: Bytes)
    | DownloadRaw(buf: Buffer, offset: nat, bytes: nat)
    | CopyRaw(src: Buffer, srcOffset: nat, dst: Buffer, dstOffset: nat, bytes: nat)
    | ClearRaw(buf: Buffer)
    | BuildNode(kernel: Kernel, meta: Bytes, compiles: bool)
    | UpdateMeta(node: Node, meta: Bytes)
    | ExecuteRaw(node: Node, bindings: seq<Access>)
    | Synchronize
    | SetSubmitEvery(every: nat)

  datatype Reply = Done | Failed(error: Error) | Allocated(buf: Buffer) | Built(node: Node) | Data(data: Bytes)

  /** A buffer of this device is one it made and still has. */
  predicate Known(d: Device, m: Machine, buf: Buffer) {
    buf.owner == d.owner ==> buf.id in m.mem && |m.mem[buf.id]| == buf.bytes
  }

  predicate Mine(d: Device, m: Machine, buf: Buffer) {
    buf.owner == d.owner && Known(d, m, buf)
  }

  predicate NodeKnown(d: Device, m: Machine, node: Node) {
    node.owner == d.owner ==> node.meta in m.mem
  }

  /** What the unsafe methods ask of their callers. */
  predicate Safe(d: Device, m: Machine, call: Call) {
    match call
    case UploadRaw(buf, offset, data) => Mine(d, m, buf) && offset + |data| <= buf.bytes
    case DownloadRaw(buf, offset, bytes) => Mine(d, m, buf) && offset + bytes <= buf.bytes
    case CopyRaw(src, srcOffset, dst, dstOffset, bytes) =>
      Known(d, m, src) && Known(d, m, dst) && srcOffset + bytes <= src.bytes && dstOffset + bytes <= dst.bytes
    case ClearRaw(buf) => Known(d, m, buf)
    case UpdateMeta(node, meta) =>
      node.owner == d.owner && node.meta in m.mem && |meta| <= |m.mem[node.meta]|
    case ExecuteRaw(node, bindings) =>
      NodeKnown(d, m, node) && forall k | 0 <= k < |bindings| :: Known(d, m, bindings[k].buf)
    case SetSubmitEvery(every) => every < 256
    case _ => true
  }

  /** A buffer's real size: at least 4 bytes, and whole words. */
  function Rounded(size: nat): (r: nat)
    ensures r % 4 == 0 && MIN_BYTES <= r && size <= r && (r < size + 4 || r == MIN_BYTES)
  {
    ((if size < MIN_BYTES then MIN_BYTES else size) + 3) / 4 * 4
  }

  /** What is wrong with bindings `k` and on: the first problem in slot order. */
  function BindingError(d: Device, bindings: seq<Access>, k: nat): (e: Option<Error>)
    requires k <= |bindings|
    ensures e.None? <==> forall j | k <= j < |bindings| ::
              bindings[j].buf.owner == d.owner && bindings[j].buf.bytes <= d.maxBinding
    ensures e.Some? ==> exists j | k <= j < |bindings| ::
              && e.value == (if bindings[j].buf.owner != d.owner then ForeignBuffer else OverBindingLimit(j + 1))
              && !(bindings[j].buf.owner == d.owner && bindings[j].buf.bytes <= d.maxBinding)
              && forall i | k <= i < j :: bindings[i].buf.owner == d.owner && bindings[i].buf.bytes <= d.maxBinding
    decreases |bindings| - k
  {
    if k == |bindings| then None
    else if bindings[k].buf.owner != d.owner then Some(ForeignBuffer)
    else if bindings[k].buf.bytes > d.maxBinding then Some(OverBindingLimit(k + 1))
    else BindingError(d, bindings, k + 1)
  }

  /** At least one word: every shader binds a meta. */
  function MetaSize(meta: Bytes): (n: nat)
    ensures n >= MIN_BYTES && n >= |meta| && (n == MIN_BYTES || n == |meta|)
  {
    if |meta| < MIN_BYTES then MIN_BYTES else |meta|
  }

  function Refs(bindings: seq<Access>): (r: seq<SlotRef>)
    ensures |r| == |bindings|
  {
    seq(|bindings|, k requires 0 <= k < |bindings| => SlotRef(bindings[k].buf.id, bindings[k].Write?))
  }

  /** One call, at once. */
  function Apply(d: Device, m: Machine, call: Call): (Machine, Reply)
    requires Safe(d, m, call)
  {
    match call
    case AllocRaw(size, outOfMemory) =>
      if Rounded(size) > d.maxBuffer then (m, Failed(OverBufferLimit))
      else if outOfMemory then (m, Failed(OutOfMemory))
      else (Machine(m.mem[m.next := Zeros(Rounded(size))], m.next + 1), Allocated(Buffer(m.next, Rounded(size), d.owner)))
    case UploadRaw(buf, offset, data) =>
      (m.(mem := m.mem[buf.id := Splice(m.mem[buf.id], offset, data)]), Done)
    case DownloadRaw(buf, offset, bytes) =>
      (m, Data(m.mem[buf.id][offset..offset + bytes]))
    case CopyRaw(src, srcOffset, dst, dstOffset, bytes) =>
      if src.owner != d.owner then (m, Failed(ForeignSource))
      else if dst.owner != d.owner then (m, Failed(ForeignDestination))
      else (m.(mem := Run(Copy(src.id, srcOffset, dst.id, dstOffset, bytes), m.mem)), Done)
    case ClearRaw(buf) =>
      if buf.owner != d.owner then (m, Failed(ForeignBuffer))
      else (m.(mem := m.mem[buf.id := Zeros(buf.bytes)]), Done)
    case BuildNode(kernel, meta, compiles) =>
      if !compiles then (m, Failed(BadShader))
      else (Machine(m.mem[m.next := meta + Zeros(MetaSize(meta) - |meta|)], m.next + 1), Built(Node(kernel, m.next, d.owner)))
    case UpdateMeta(node, meta) =>
      (m.(mem := m.mem[node.meta := Splice(m.mem[node.meta], 0, meta)]), Done)
    case ExecuteRaw(node, bindings) =>
      if node.owner != d.owner then (m, Failed(ForeignNode))
      else if BindingError(d, bindings, 0).Some? then (m, Failed(BindingError(d, bindings, 0).value))
      else (m.(mem := Run(Dispatch(node.kernel, node.meta, Refs(bindings)), m.mem)), Done)
    case Synchronize => (m, Done)
    case SetSubmitEvery(_) => (m, Done)
  }

  predicate AllSafe(d: Device, m: Machine, calls: seq<Call>)
    decreases |calls|
  {
    calls == [] || (Safe(d, m, calls[0]) && AllSafe(d, Apply(d, m, calls[0]).0, calls[1..]))
  }

  function Replies(d: Device, m: Machine, calls: seq<Call>): (r: seq<Reply>)
    requires AllSafe(d, m, calls)
    ensures |r| == |calls|
    decreases |calls|
  {
    if calls == [] then []
    else
      var (next, reply) := Apply(d, m, calls[0]);
      [reply] + Replies(d, next, calls[1..])
  }

  // ----------------------------------------------------------------------------
  // The backend
  // ----------------------------------------------------------------------------

  class Backend {
    const device: Device
    /** What the device's buffers hold once everything submitted is done. */
    var memory: Memory
    var next: nat
    /** The queue's `write_buffer`s since the last submit. */
    var staged: seq<Staged>
    /** `Pending`: commands recorded but not submitted yet. */
    var encoder: Option<seq<Command>>
    var commands: nat
    var submitEvery: nat

    constructor (device: Device)
      ensures Valid() && Bounded() && this.device == device && Now() == Machine(map[], 0)
    {
      this.device := device;
      memory, next, staged, encoder, commands, submitEvery := map[], 0, [], None, 0, 1;
    }

    function Queued(): seq<Command>
      reads this
    {
      if encoder.None? then [] else encoder.value
    }

    ghost predicate Consistent()
      reads this
    {
      Fitting(staged, Queued(), memory)
    }

    ghost predicate Valid()
      reads this
    {
      Consistent() && commands == |Queued()| && forall id | id in memory :: id < next
    }

    /** Fewer than `submit_every` commands are pending, unless it is 0. */
    predicate Bounded()
      reads this
    {
      submitEvery == 0 || commands < submitEvery
    }

    /** What the device holds once all that was called so far is done. */
    ghost function Now(): Machine
      requires Consistent()
      reads this
    {
      Machine(Outcome(staged, Queued(), memory), next)
    }

    /** The queue's own submit: staged writes land, then the encoder's commands run. */
    method SubmitSome()
      requires Consistent() && encoder.Some?
      modifies this`memory, this`staged, this`encoder
      ensures Consistent() && encoder.None? && staged == [] && Now() == old(Now()) && memory == Now().mem
      ensures SameShape(old(memory), memory)
    {
      hide Fitting, Outcome;
      memory := Outcome(staged, encoder.value, memory);
      staged, encoder := [], None;
      NothingQueued(memory);
    }

    method Submit()
      requires Valid()
      modifies this`memory, this`staged, this`encoder, this`commands
      ensures Valid() && Queued() == [] && Now() == old(Now()) && Bounded()
      ensures SameShape(old(memory), memory)
    {
      if encoder.Some? {
        SubmitSome();
      }
      commands := 0;
    }

    method Record(c: Command)
      requires Valid() && CommandFits(c, memory)
      modifies this`memory, this`staged, this`encoder, this`commands
      ensures Valid() && Bounded()
      ensures CommandFits(c, old(Now()).mem) && Now() == old(Now()).(mem := Run(c, old(Now()).mem))
    {
      OneMoreCommand(staged, Queued(), memory, c);
      hide Fitting, Outcome, Run, CommandFits;
      encoder := Some(Queued() + [c]);
      commands := commands + 1;
      assert Valid();
      if submitEvery != 0 && commands >= submitEvery {
        Submit();
      }
    }

    /** `create_buffer`, then `write_buffer` if there is data. The write needs no submit
        before it: nothing queued knows the new buffer. */
    method CreateBuffer(size: nat, data: Bytes) returns (id: nat)
      requires Valid() && |data| <= size
      modifies this`memory, this`staged, this`next
      ensures Valid() && id == old(next)
      ensures Now() == Machine(old(Now()).mem[id := data + Zeros(size - |data|)], id + 1)
    {
      hide Fitting, Outcome;
      id := next;
      if |data| != 0 {
        FreshWriteNeedsNoOrdering(staged, Queued(), memory, id, size, data);
        staged := staged + [Staged(id, 0, data)];
      } else {
        NewBuffer(staged, Queued(), memory, id, Zeros(size));
        assert data + Zeros(size - |data|) == Zeros(size);
      }
      memory := memory[id := Zeros(size)];
      next := next + 1;
    }

    method AllocRaw(size: nat, outOfMemory: bool) returns (reply: Reply)
      requires Valid()
      modifies this`memory, this`staged, this`next
      ensures Valid() && (Now(), reply) == Apply(device, old(Now()), Call.AllocRaw(size, outOfMemory))
    {
      hide Rounded, Fitting, Outcome, Run, BindingError;
      var size' := Rounded(size);
      if size' > device.maxBuffer {
        return Failed(OverBufferLimit);
      }
      if outOfMemory {
        return Failed(OutOfMemory);
      }
      assert [] + Zeros(size') == Zeros(size');
      var id := CreateBuffer(size', []);
      reply := Allocated(Buffer(id, size', device.owner));
    }

    /** Commands recorded before the write are submitted first. */
    method WriteBuffer(id: nat, offset: nat, data: Bytes)
      requires Valid() && InRange(memory, id, offset, |data|)
      modifies this`memory, this`staged, this`encoder, this`commands
      ensures Valid() && Bounded() && InRange(old(Now()).mem, id, offset, |data|)
      ensures Now() == old(Now()).(mem := Land(Staged(id, offset, data), old(Now()).mem))
    {
      Submit();
      hide Fitting, Outcome;
      OneMoreWrite(staged, memory, Staged(id, offset, data));
      staged := staged + [Staged(id, offset, data)];
    }

    method UploadRaw(buf: Buffer, offset: nat, data: Bytes)
      requires Valid() && Safe(device, Now(), Call.UploadRaw(buf, offset, data))
      modifies this`memory, this`staged, this`encoder, this`commands
      ensures Valid() && Bounded()
      ensures (Now(), Done) == Apply(device, old(Now()), Call.UploadRaw(buf, offset, data))
    {
      WriteBuffer(buf.id, offset, data);
    }

    /** Through a staging buffer, which the encoder copies to before it is submitted. */
    method DownloadRaw(buf: Buffer, offset: nat, bytes: nat) returns (data: Bytes)
      requires Valid() && Safe(device, Now(), Call.DownloadRaw(buf, offset, bytes))
      modifies this`memory, this`staged, this`encoder, this`commands
      ensures Valid() && Bounded()
      ensures (Now(), Data(data)) == Apply(device, old(Now()), Call.DownloadRaw(buf, offset, bytes))
    {
      if bytes == 0 {
        Submit();
        assert Now().mem[buf.id][offset..offset] == [];
        return [];
      }
      hide Fitting, Outcome, Run, BindingError;
      data := DownloadSome(buf.id, offset, bytes);
    }

    method DownloadSome(id: nat, offset: nat, bytes: nat) returns (data: Bytes)
      requires Valid() && InRange(memory, id, offset, bytes)
      modifies this`memory, this`staged, this`encoder, this`commands
      ensures Valid() && Bounded() && Now() == old(Now())
      ensures InRange(Now().mem, id, offset, bytes) && data == Now().mem[id][offset..offset + bytes]
    {
      hide Fitting, Outcome;
      ghost var now := Now().mem;
      var staging := next;
      StagingCopy(staged, Queued(), memory, staging, id, offset, bytes);
      encoder := Some(Queued() + [Copy(id, offset, staging, 0, bytes)]);
      memory := memory[staging := Zeros(bytes)];
      SubmitSome();
      data := memory[staging];
      memory := memory - {staging};
      commands := 0;
      NothingQueued(memory);
      assert memory == now;
    }

    method CopyRaw(src: Buffer, srcOffset: nat, dst: Buffer, dstOffset: nat, bytes: nat) returns (reply: Reply)
      requires Valid() && Safe(device, Now(), Call.CopyRaw(src, srcOffset, dst, dstOffset, bytes))
      modifies this`memory, this`staged, this`encoder, this`commands
      ensures Valid() && (old(Bounded()) || (reply.Done? && bytes > 0) ==> Bounded())
      ensures (Now(), reply) == Apply(device, old(Now()), Call.CopyRaw(src, srcOffset, dst, dstOffset, bytes))
    {
      if src.owner != device.owner {
        return Failed(ForeignSource);
      }
      if dst.owner != device.owner {
        return Failed(ForeignDestination);
      }
      if bytes > 0 {
        Record(Copy(src.id, srcOffset, dst.id, dstOffset, bytes));
      } else {
        NothingCopied(src.id, srcOffset, dst.id, dstOffset, Now().mem);
      }
      reply := Done;
    }

    method ClearRaw(buf: Buffer) returns (reply: Reply)
      requires Valid() && Safe(device, Now(), Call.ClearRaw(buf))
      modifies this`memory, this`staged, this`encoder, this`commands
      ensures Valid() && (old(Bounded()) || reply.Done? ==> Bounded())
      ensures (Now(), reply) == Apply(device, old(Now()), Call.ClearRaw(buf))
    {
      if buf.owner != device.owner {
        return Failed(ForeignBuffer);
      }
      Record(Clear(buf.id));
      reply := Done;
    }

    method BuildNode(kernel: Kernel, meta: Bytes, compiles: bool) returns (reply: Reply)
      requires Valid()
      modifies this`memory, this`staged, this`next
      ensures Valid() && (Now(), reply) == Apply(device, old(Now()), Call.BuildNode(kernel, meta, compiles))
    {
      hide Fitting, Outcome, Run, Backend.Valid, Backend.Consistent, Backend.Queued, Splice, Land;
      if !compiles {
        return Failed(BadShader);
      }
      var id := CreateBuffer(MetaSize(meta), meta);
      reply := Built(Node(kernel, id, device.owner));
    }

    method UpdateMeta(node: Node, meta: Bytes)
      requires Valid() && Safe(device, Now(), Call.UpdateMeta(node, meta))
      modifies this`memory, this`staged, this`encoder, this`commands
      ensures Valid() && Bounded()
      ensures (Now(), Done) == Apply(device, old(Now()), Call.UpdateMeta(node, meta))
    {
      WriteBuffer(node.meta, 0, meta);
    }

    method ExecuteRaw(node: Node, bindings: seq<Access>) returns (reply: Reply)
      requires Valid() && Safe(device, Now(), Call.ExecuteRaw(node, bindings))
      modifies this`memory, this`staged, this`encoder, this`commands
      ensures Valid() && (old(Bounded()) || reply.Done? ==> Bounded())
      ensures (Now(), reply) == Apply(device, old(Now()), Call.ExecuteRaw(node, bindings))
    {
      if node.owner != device.owner {
        return Failed(ForeignNode);
      }
      for k := 0 to |bindings|
        invariant BindingError(device, bindings, 0) == BindingError(device, bindings, k)
      {
        var buf := bindings[k].buf;
        if buf.owner != device.owner {
          return Failed(ForeignBuffer);
        }
        if buf.bytes > device.maxBinding {
          return Failed(OverBindingLimit(k + 1));
        }
      }
      Record(Dispatch(node.kernel, node.meta, Refs(bindings)));
      reply := Done;
    }

    method Synchronize()
      requires Valid()
      modifies this`memory, this`staged, this`encoder, this`commands
      ensures Valid() && Bounded() && Queued() == []
      ensures (Now(), Done) == Apply(device, old(Now()), Call.Synchronize)
    {
      Submit();
    }

    method SetSubmitEvery(every: nat)
      requires Valid() && every < 256
      modifies this`submitEvery
      ensures Valid() && submitEvery == every
      ensures (Now(), Done) == Apply(device, old(Now()), Call.SetSubmitEvery(every))
    {
      submitEvery := every;
    }

    /** One call, answered as the machine that acts at once answers it. */
    method Perform(call: Call) returns (reply: Reply)
      requires Valid() && Safe(device, Now(), call)
      modifies this
      ensures Valid() && (Now(), reply) == Apply(device, old(Now()), call)
      ensures !call.SetSubmitEvery? ==> submitEvery == old(submitEvery) && (old(Bounded()) ==> Bounded())
    {
      hide Fitting, Outcome, Apply;
      reply := Done;
      match call
      case AllocRaw(size, outOfMemory) => reply := AllocRaw(size, outOfMemory);
      case UploadRaw(buf, offset, data) => UploadRaw(buf, offset, data);
      case DownloadRaw(buf, offset, bytes) =>
        var data := DownloadRaw(buf, offset, bytes);
        reply := Data(data);
      case CopyRaw(src, srcOffset, dst, dstOffset, bytes) => reply := CopyRaw(src, srcOffset, dst, dstOffset, bytes);
      case ClearRaw(buf) => reply := ClearRaw(buf);
      case BuildNode(kernel, meta, compiles) => reply := BuildNode(kernel, meta, compiles);
      case UpdateMeta(node, meta) => UpdateMeta(node, meta);
      case ExecuteRaw(node, bindings) => reply := ExecuteRaw(node, bindings);
      case Synchronize => Synchronize();
      case SetSubmitEvery(every) => SetSubmitEvery(every);
    }

    /** Main result: for every sequence of calls, whatever `submit_every` is and whenever it
        changes, each call's reply, and so each download, is the one of the machine that acts
        at once. While `submit_every` is constant, fewer commands than that stay pending. */
    method Drive(calls: seq<Call>) returns (replies: seq<Reply>)
      requires Valid() && AllSafe(device, Now(), calls)
      modifies this
      ensures Valid() && replies == Replies(device, old(Now()), calls)
      ensures (forall k | 0 <= k < |calls| :: !calls[k].SetSubmitEvery?) && old(Bounded()) ==> Bounded()
    {
      hide Fitting, Outcome, Apply, Safe;
      ghost var start := Now();
      replies := [];
      for k := 0 to |calls|
        invariant Valid() && AllSafe(device, Now(), calls[k..])
        invariant Replies(device, start, calls) == replies + Replies(device, Now(), calls[k..])
        invariant (forall j | 0 <= j < k :: !calls[j].SetSubmitEvery?) && old(Bounded()) ==> Bounded()
      {
        assert calls[k..][1..] == calls[k + 1..];
        var reply := Perform(calls[k]);
        replies := replies + [reply];
      }
    }
  }

  lemma NothingCopied(src: nat, srcOffset: nat, dst: nat, dstOffset: nat, mem: Memory)
    requires InRange(mem, src, srcOffset, 0) && InRange(mem, dst, dstOffset, 0)
    ensures Run(Copy(src, srcOffset, dst, dstOffset, 0), mem) == mem
  {
    assert Splice(mem[dst], dstOffset, mem[src][srcOffset..srcOffset]) == mem[dst];
  }
}
