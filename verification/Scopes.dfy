/** Scopes: buffers and nodes bound once and named by their slots, checked executes, and
    captures that record executes by address to replay them. */
module Scopes {
  import opened Options
  import opened Blocks
  import opened Dtype
  import opened Rules
  import opened Cpu

  /** A tensor: its elements' kind and count, and its buffer. */
  datatype Tensor = Tensor(kind: Kind, len: nat, buf: Buffer, dev: Device)

  /** A tensor's buffer is its device's, and holds what its kind and length take. */
  ghost predicate SoundIn(t: Tensor, mem: Memory) {
    && t.buf.owner == t.dev.owner && t.buf.bytes == BufferBytes(t.kind, t.len)
    && t.buf.address in mem && |mem[t.buf.address]| == t.buf.bytes
  }

  ghost predicate Sound(t: Tensor)
    reads t.dev
  {
    SoundIn(t, t.dev.mem)
  }

  /** Two tensors share an address only if they are empty. */
  predicate Apart(t: Tensor, u: Tensor) {
    t.buf.address != u.buf.address || (t.buf.bytes == 0 && u.buf.bytes == 0)
  }

  datatype Arg = Arg(slot: nat, write: bool)

  predicate InScope<T>(bound: seq<T>, args: seq<Arg>) {
    forall k | 0 <= k < |args| :: args[k].slot < |bound|
  }

  function TensorsOf(bufs: seq<Tensor>, args: seq<Arg>): (r: seq<Tensor>)
    requires InScope(bufs, args)
    ensures |r| == |args|
  {
    seq(|args|, k requires 0 <= k < |args| => bufs[args[k].slot])
  }

  function KindsOf(tensors: seq<Tensor>): (r: seq<Kind>)
    ensures |r| == |tensors|
  {
    seq(|tensors|, k requires 0 <= k < |tensors| => tensors[k].kind)
  }

  function SlotsOf(args: seq<Arg>): (r: seq<nat>)
    ensures |r| == |args|
  {
    seq(|args|, k requires 0 <= k < |args| => args[k].slot)
  }

  // ----------------------------------------------------------------------------
  // The checks of an execute
  // ----------------------------------------------------------------------------

  function SlotChecks(
    shader: Signature, lens: seq<nat>, tensors: seq<Tensor>, args: seq<Arg>, slot: nat): (r: Check)
    requires slot <= |shader.layout| == |lens| == |tensors| == |args|
    ensures r.Passed? <==> forall j: nat | slot <= j < |args| ::
              args[j].write == Written(shader.layout[j]) && tensors[j].len >= lens[j]
    ensures r.Failed? ==> exists j: nat | slot <= j < |args| ::
              if args[j].write != Written(shader.layout[j]) then r.error == SlotAccess(j)
              else tensors[j].len < lens[j] && r.error == TooShort(j, lens[j], tensors[j].len)
    decreases |args| - slot
  {
    if slot == |args| then Passed
    else
      RightAccess(slot, shader.layout[slot], args[slot].write)
        .Then(LongEnough(slot, lens[slot], tensors[slot].len))
        .Then(SlotChecks(shader, lens, tensors, args, slot + 1))
  }

  /** Everything an execute checks before anything reaches the device. */
  function CheckCall(shader: Signature, lens: seq<nat>, bufs: seq<Tensor>, args: seq<Arg>): Check
    requires |lens| == |shader.layout| && InScope(bufs, args)
  {
    var tensors := TensorsOf(bufs, args);
    var kinds := SlotKinds(shader, KindsOf(tensors));
    if kinds.Failed? then kinds
    else SlotChecks(shader, lens, tensors, args, 0).Then(NotAliased(shader, SlotsOf(args)))
  }

  /** One tensor per slot, of its kind, long enough and accessed as its role says, and a
      written one in no other slot. */
  ghost predicate Acceptable(shader: Signature, lens: seq<nat>, bufs: seq<Tensor>, args: seq<Arg>)
    requires |lens| == |shader.layout| && InScope(bufs, args)
  {
    && |args| == |shader.layout|
    && (forall j: nat | j < |args| ::
          && bufs[args[j].slot].kind == shader.layout[j].kind
          && bufs[args[j].slot].len >= lens[j]
          && args[j].write == Written(shader.layout[j]))
    && Unaliased(shader.layout, SlotsOf(args))
  }

  lemma CheckPassesExactly(shader: Signature, lens: seq<nat>, bufs: seq<Tensor>, args: seq<Arg>)
    requires |lens| == |shader.layout| && InScope(bufs, args)
    ensures CheckCall(shader, lens, bufs, args).Passed? <==> Acceptable(shader, lens, bufs, args)
  {
    if |args| == |shader.layout| {
      NotAliasedExactly(shader, SlotsOf(args));
    }
  }

  // ----------------------------------------------------------------------------
  // What is recorded
  // ----------------------------------------------------------------------------

  datatype RecordedArg = RecordedArg(address: nat, write: bool)

  /** One execute queued during a capture: the node, and each slot's buffer by address. */
  datatype RecordedCall = RecordedCall(node: Node, args: seq<RecordedArg>)

  /** The scope's list and the backend's, of one capture. */
  datatype Recording = Recording(raw: Capture, calls: seq<RecordedCall>, dev: Device)

  function AccessesOf(bufs: seq<Tensor>, args: seq<Arg>): (r: seq<Access>)
    requires InScope(bufs, args)
    ensures |r| == |args|
  {
    seq(|args|, k requires 0 <= k < |args| => Access(bufs[args[k].slot].buf, args[k].write))
  }

  function RawCallOf(node: Node, bufs: seq<Tensor>, args: seq<Arg>): RawCall
    requires InScope(bufs, args)
  {
    RawCall(node, RawSlots(AccessesOf(bufs, args)))
  }

  function RecordedCallOf(node: Node, bufs: seq<Tensor>, args: seq<Arg>): RecordedCall
    requires InScope(bufs, args)
  {
    RecordedCall(node, seq(|args|, k requires 0 <= k < |args| =>
      RecordedArg(bufs[args[k].slot].buf.address, args[k].write)))
  }

  /** The same node, addresses and roles. */
  predicate Matches(call: RecordedCall, raw: RawCall) {
    && call.node == raw.node && |call.args| == |raw.slots|
    && forall k | 0 <= k < |call.args| ::
         call.args[k].address == raw.slots[k].address && call.args[k].write == raw.slots[k].write
  }

  predicate AllMatch(calls: seq<RecordedCall>, raws: seq<RawCall>) {
    |calls| == |raws| && forall k | 0 <= k < |calls| :: Matches(calls[k], raws[k])
  }

  // ----------------------------------------------------------------------------
  // Finding what was recorded
  // ----------------------------------------------------------------------------

  function NodePosition(nodes: seq<Node>, node: Node): (r: Option<nat>)
    ensures r.Some? <==> node in nodes
    ensures r.Some? ==> r.value < |nodes| && nodes[r.value] == node
  {
    if nodes == [] then None
    else if nodes[0] == node then Some(0)
    else
      var rest := NodePosition(nodes[1..], node);
      if rest.None? then None else Some(rest.value + 1)
  }

  /** The first bound buffer at an address. */
  function BufferPosition(bufs: seq<Tensor>, address: nat): (r: Option<nat>)
    ensures r.Some? <==> exists k :: 0 <= k < |bufs| && bufs[k].buf.address == address
    ensures r.Some? ==>
      && r.value < |bufs| && bufs[r.value].buf.address == address
      && forall k | 0 <= k < r.value :: bufs[k].buf.address != address
  {
    if bufs == [] then None
    else if bufs[0].buf.address == address then Some(0)
    else
      var rest := BufferPosition(bufs[1..], address);
      assert forall k | 0 < k < |bufs| :: bufs[k] == bufs[1..][k - 1];
      if rest.None? then None else Some(rest.value + 1)
  }

  function FindArgs(bufs: seq<Tensor>, args: seq<RecordedArg>): (r: Result<seq<Arg>>)
    ensures r.Ok? ==>
      && |r.value| == |args| && InScope(bufs, r.value)
      && forall k | 0 <= k < |args| ::
           BufferPosition(bufs, args[k].address) == Some(r.value[k].slot) && r.value[k].write == args[k].write
    ensures r.Err? ==> r.error == NotBound(TheTensor)
                       && exists k :: 0 <= k < |args| && BufferPosition(bufs, args[k].address).None?
  {
    if args == [] then Ok([])
    else
      var n := |args| - 1;
      var before := FindArgs(bufs, args[..n]);
      if before.Err? then
        before
      else
        var at := BufferPosition(bufs, args[n].address);
        if at.None? then Err(NotBound(TheTensor)) else Ok(before.value + [Arg(at.value, args[n].write)])
  }

  /** The checks a replay makes again for one recorded call. */
  ghost function ReplayCheck(nodes: seq<Node>, bufs: seq<Tensor>, call: RecordedCall): Check
    requires forall i | 0 <= i < |nodes| :: |nodes[i].lens| == |nodes[i].shader.sig.layout|
    reads nodes
  {
    if call.node !in nodes then Failed(NotBound(TheNode))
    else
      var args := FindArgs(bufs, call.args);
      if args.Err? then Failed(args.error)
      else CheckCall(call.node.shader.sig, call.node.lens, bufs, args.value)
  }

  /** The first error of the calls from `k` on. */
  ghost function ReplayChecks(nodes: seq<Node>, bufs: seq<Tensor>, calls: seq<RecordedCall>, k: nat): (r: Check)
    requires k <= |calls| && forall i | 0 <= i < |nodes| :: |nodes[i].lens| == |nodes[i].shader.sig.layout|
    reads nodes
    ensures r.Passed? <==> forall j | k <= j < |calls| :: ReplayCheck(nodes, bufs, calls[j]).Passed?
    decreases |calls| - k
  {
    if k == |calls| then Passed
    else ReplayCheck(nodes, bufs, calls[k]).Then(ReplayChecks(nodes, bufs, calls, k + 1))
  }

  // ----------------------------------------------------------------------------
  // The scope
  // ----------------------------------------------------------------------------

  class Scope {
    const dev: Device
    var bufs: seq<Tensor>
    var nodes: seq<Node>
    /** `Some` while a capture runs: what each execute queued. */
    var recording: Option<seq<RecordedCall>>

    constructor (dev: Device)
      requires dev.Valid()
      ensures Valid() && this.dev == dev && bufs == [] && nodes == [] && recording.None?
    {
      this.dev, bufs, nodes, recording := dev, [], [], None;
    }

    /** What is bound is this device's, and no two slots hold one thing. */
    ghost predicate Valid()
      reads this, dev, nodes
    {
      && dev.Valid()
      && (forall i | 0 <= i < |bufs| :: bufs[i].dev == dev && Sound(bufs[i]))
      && (forall i, j | 0 <= i < |bufs| && 0 <= j < |bufs| && i != j :: Apart(bufs[i], bufs[j]))
      && (forall i | 0 <= i < |nodes| :: nodes[i].dev == dev && nodes[i].Valid())
      && (forall i, j | 0 <= i < |nodes| && 0 <= j < |nodes| && i != j :: nodes[i] != nodes[j])
    }

    /** The scope and the device are recording together, the same calls. */
    ghost predicate Lockstep()
      reads this, dev
    {
      && (recording.Some? <==> dev.recording.Some?)
      && (recording.Some? ==> AllMatch(recording.value, dev.recording.value))
    }

    method Bind(t: Tensor) returns (r: Result<nat>)
      requires Valid()
      requires t.dev == dev ==> Sound(t) && forall i | 0 <= i < |bufs| :: Apart(bufs[i], t)
      modifies this`bufs
      ensures Valid()
      ensures r == if t.dev == dev then Ok(|old(bufs)|) else Err(OtherDevice(TheTensor))
      ensures bufs == if r.Ok? then old(bufs) + [t] else old(bufs)
    {
      if t.dev != dev {
        return Err(OtherDevice(TheTensor));
      }
      bufs := bufs + [t];
      r := Ok(|bufs| - 1);
    }

    method BindNode(n: Node) returns (r: Result<nat>)
      requires Valid()
      requires n.dev == dev ==> n.Valid() && n !in nodes
      modifies this`nodes
      ensures Valid()
      ensures r == if n.dev == dev then Ok(|old(nodes)|) else Err(OtherDevice(TheNode))
      ensures nodes == if r.Ok? then old(nodes) + [n] else old(nodes)
    {
      if n.dev != dev {
        return Err(OtherDevice(TheNode));
      }
      nodes := nodes + [n];
      r := Ok(|nodes| - 1);
    }

    method UpdateMeta(slot: nat, meta: seq<MetaValue>) returns (r: Check)
      requires Valid() && slot < |nodes|
      modifies nodes[slot]
      ensures Valid() && r == MetaTypes(nodes[slot].shader.sig, TypesOf(meta))
      ensures nodes[slot].meta == if r.Passed? then meta else old(nodes[slot].meta)
    {
      r := nodes[slot].UpdateMeta(meta);
    }

    /** What `execute` would check now. */
    ghost function CheckNow(node: nat, args: seq<Arg>): Check
      requires Valid() && node < |nodes| && InScope(bufs, args)
      reads this, dev, nodes
    {
      CheckCall(nodes[node].shader.sig, nodes[node].lens, bufs, args)
    }

    /** Runs or records one call, or fails and changes nothing. */
    method Execute(node: nat, args: seq<Arg>) returns (r: Check)
      requires Valid() && node < |nodes| && InScope(bufs, args)
      modifies this`recording, dev`mem, dev`recording
      ensures Valid() && SameShape(old(dev.mem), dev.mem)
      ensures r == old(CheckNow(node, args))
      ensures old(Lockstep()) ==> Lockstep()
      ensures r.Failed? ==> recording == old(recording) && dev.recording == old(dev.recording)
      ensures r.Failed? || old(dev.recording).Some? ==> dev.mem == old(dev.mem)
      ensures recording.Some? <==> old(recording).Some?
      ensures dev.recording.Some? <==> old(dev.recording).Some?
      ensures r.Passed? && old(dev.recording).None? ==>
        && Has(old(dev.mem), Refs(RawCallOf(nodes[node], bufs, args).slots))
        && dev.mem == Invoke(RunNow(RawCallOf(nodes[node], bufs, args)), old(dev.mem))
      ensures r.Passed? && old(dev.recording).Some? ==>
        dev.recording == Some(old(dev.recording).value + [RawCallOf(nodes[node], bufs, args)])
      ensures r.Passed? && old(recording).Some? ==>
        recording == Some(old(recording).value + [RecordedCallOf(nodes[node], bufs, args)])
    {
      hide CheckCall, Invoke, Apart, RunNow, Refs;
      r := CheckCall(nodes[node].shader.sig, nodes[node].lens, bufs, args);
      if r.Failed? {
        return;
      }
      var ok := dev.ExecuteRaw(nodes[node], AccessesOf(bufs, args));
      assert ok;
      if recording.Some? {
        recording := Some(recording.value + [RecordedCallOf(nodes[node], bufs, args)]);
      }
    }

    // --------------------------------------------------------------------------
    // Capture
    // --------------------------------------------------------------------------

    method BeginCapture() returns (r: Check)
      requires Valid() && Lockstep()
      modifies this`recording, dev`recording
      ensures Valid() && Lockstep()
      ensures r == if old(recording).Some? then Failed(AlreadyCapturing) else Passed
      ensures if r.Passed? then recording == Some([]) && dev.recording == Some([])
              else recording == old(recording) && dev.recording == old(dev.recording)
    {
      if recording.Some? {
        return Failed(AlreadyCapturing);
      }
      recording := Some([]);
      dev.BeginCapture();
      r := Passed;
    }

    /** What was recorded, if the closure succeeded; if it failed, nothing is kept. */
    method EndCapture(result: Check) returns (r: Result<Recording>)
      requires Valid() && Lockstep() && recording.Some?
      modifies this`recording, dev`recording, dev`captures, dev`nextCapture
      ensures Valid() && recording.None? && dev.recording.None?
      ensures if result.Failed? then r == Err(result.error) && dev.captures == old(dev.captures)
              else r.Ok? && Fresh(r.value, old(dev.captures), dev) && r.value.raw.id == old(dev.nextCapture)
      ensures dev.nextCapture == old(dev.nextCapture) + 1
      ensures r.Ok? ==> r.value.calls == old(recording).value && r.value.raw.calls == old(dev.recording).value
    {
      var calls := recording.value;
      recording := None;
      var raw := dev.EndCapture();
      if result.Failed? {
        dev.ReleaseCapture(raw.value);
        return Err(result.error);
      }
      r := Ok(Recording(raw.value, calls, dev));
    }

    /** `EndCaptureOnDrop`, when the closure panicked. */
    method AbandonCapture()
      requires Valid() && Lockstep() && recording.Some?
      modifies this`recording, dev`recording, dev`captures, dev`nextCapture
      ensures Valid() && recording.None? && dev.recording.None? && dev.captures == old(dev.captures)
      ensures old(dev.nextCapture) <= dev.nextCapture
    {
      recording := None;
      var raw := dev.EndCapture();
      if raw.Some? {
        dev.ReleaseCapture(raw.value);
      }
    }

    /** The calls among the first `k` that pass their checks, as a capture records them. */
    ghost function Kept(f: seq<(nat, seq<Arg>)>, k: nat): seq<RecordedCall>
      requires Valid() && k <= |f| && forall j | 0 <= j < |f| :: f[j].0 < |nodes| && InScope(bufs, f[j].1)
      reads this, dev, nodes
    {
      if k == 0 then []
      else
        var call := f[k - 1];
        Kept(f, k - 1)
          + if CheckNow(call.0, call.1).Passed? then [RecordedCallOf(nodes[call.0], bufs, call.1)] else []
    }

    /** Main result: a capture of a closure that makes the executes `f` and then ends in any
        way. No buffer changes, both lists name the calls that passed their checks, both
        recordings are off at the end, and the one raw capture is the `Recording`'s or
        already released. */
    method Capture(f: seq<(nat, seq<Arg>)>, ending: Ending) returns (r: Captured)
      requires Valid() && Lockstep() && forall j | 0 <= j < |f| :: f[j].0 < |nodes| && InScope(bufs, f[j].1)
      modifies this`recording, dev
      ensures Valid() && Lockstep() && dev.mem == old(dev.mem)
      ensures old(recording).Some? ==>
        r == Refused(AlreadyCapturing) && recording == old(recording) && dev.recording == old(dev.recording)
      ensures old(recording).None? ==> recording.None? && dev.recording.None?
      ensures old(recording).None? ==>
        match ending
        case Panics => r == Unwound
        case Returns(Failed(e)) => r == Refused(e)
        case Returns(Passed) => r.Kept? && Fresh(r.recording, old(dev.captures), dev)
                                && r.recording.calls == old(Kept(f, |f|))
      ensures !r.Kept? ==> dev.captures == old(dev.captures)
      ensures old(dev.nextCapture) <= dev.nextCapture
      ensures r.Kept? ==> old(dev.nextCapture) <= r.recording.raw.id < dev.nextCapture
    {
      hide CheckCall, RecordedCallOf, RawCallOf, Matches, Invoke, Sound, Apart;
      var begun := BeginCapture();
      if begun.Failed? {
        return Refused(begun.error);
      }
      for k := 0 to |f|
        invariant Valid() && Lockstep() && recording.Some? && dev.mem == old(dev.mem)
        invariant dev.captures == old(dev.captures) && dev.nextCapture == old(dev.nextCapture)
        invariant recording.value == old(Kept(f, k))
      {
        var _ := Execute(f[k].0, f[k].1);
      }
      match ending
      case Panics =>
        AbandonCapture();
        r := Unwound;
      case Returns(result) =>
        var ended := EndCapture(result);
        r := if ended.Ok? then Captured.Kept(ended.value) else Refused(ended.error);
    }

    // --------------------------------------------------------------------------
    // Replay
    // --------------------------------------------------------------------------

    /** What a replay needs beyond its checks: the two lists agree, and a recorded block that
        still is somewhere has its recorded size. */
    ghost predicate Replayable(recording: Recording)
      reads dev
    {
      && AllMatch(recording.calls, recording.raw.calls)
      && (recording.dev == dev ==> recording.raw.owner == dev.owner)
      && forall k, j | 0 <= k < |recording.raw.calls| && 0 <= j < |recording.raw.calls[k].slots| ::
           var slot := recording.raw.calls[k].slots[j];
           slot.address in dev.mem ==> |dev.mem[slot.address]| == slot.bytes
    }

    ghost function ReplayResult(recording: Recording): Check
      requires Valid()
      reads this, dev, nodes
    {
      if recording.dev != dev then Failed(OtherDevice(TheRecording))
      else if this.recording.Some? then Failed(ReplayWhileCapturing)
      else ReplayChecks(nodes, bufs, recording.calls, 0)
    }

    /** Finds one recorded call's node and buffers, and makes its checks again. */
    method CheckRecorded(call: RecordedCall) returns (r: Check)
      requires Valid()
      ensures r == ReplayCheck(nodes, bufs, call)
    {
      var index := NodePosition(nodes, call.node);
      if index.None? {
        return Failed(NotBound(TheNode));
      }
      var node := nodes[index.value];
      var args := FindArgs(bufs, call.args);
      if args.Err? {
        return Failed(args.error);
      }
      r := CheckCall(node.shader.sig, node.lens, bufs, args.value);
    }

    /** Finds and checks all calls, then runs all: a failure has changed nothing. */
    method Replay(recording: Recording) returns (r: Check)
      requires Valid() && Replayable(recording)
      modifies dev`mem
      ensures Valid() && r == old(ReplayResult(recording))
      ensures r.Failed? ==> dev.mem == old(dev.mem)
      ensures r.Passed? ==>
        && AllHave(old(dev.mem), RunsNow(recording.raw.calls))
        && dev.mem == InvokeAll(RunsNow(recording.raw.calls), old(dev.mem))
    {
      if recording.dev != dev {
        return Failed(OtherDevice(TheRecording));
      }
      if this.recording.Some? {
        return Failed(ReplayWhileCapturing);
      }
      r := CheckAll(recording);
      if r.Passed? {
        AllFound(recording);
        ReplayAll(recording);
      }
    }

    method ReplayAll(recording: Recording)
      requires Valid() && recording.raw.owner == dev.owner
      requires forall k | 0 <= k < |recording.raw.calls| :: StillThere(dev.mem, recording.raw.calls[k].slots)
      modifies dev`mem
      ensures Valid() && AllHave(old(dev.mem), RunsNow(recording.raw.calls))
      ensures dev.mem == InvokeAll(RunsNow(recording.raw.calls), old(dev.mem))
    {
      hide Apart, StillThere, InvokeAll, RunsNow, AllHave, BufferBytes;
      ghost var mem := dev.mem;
      var ok := dev.Replay(recording.raw);
      assert ok && SameShape(mem, dev.mem);
    }

    /** Makes every recorded call's checks again. */
    method CheckAll(recording: Recording) returns (r: Check)
      requires Valid()
      ensures r == ReplayChecks(nodes, bufs, recording.calls, 0)
    {
      hide ReplayCheck;
      for k := 0 to |recording.calls|
        invariant ReplayChecks(nodes, bufs, recording.calls, 0) == ReplayChecks(nodes, bufs, recording.calls, k)
      {
        r := CheckRecorded(recording.calls[k]);
        if r.Failed? {
          return;
        }
      }
      r := Passed;
    }

    lemma AllFound(recording: Recording)
      requires Valid() && Replayable(recording) && ReplayChecks(nodes, bufs, recording.calls, 0).Passed?
      ensures forall k | 0 <= k < |recording.raw.calls| :: StillThere(dev.mem, recording.raw.calls[k].slots)
    {
      hide ReplayCheck, StillThere, Apart, Sound;
      forall k | 0 <= k < |recording.raw.calls|
        ensures StillThere(dev.mem, recording.raw.calls[k].slots)
      {
        FoundIsThere(recording, k);
      }
    }

    lemma FoundIsThere(recording: Recording, k: nat)
      requires Valid() && Replayable(recording) && k < |recording.calls|
      requires ReplayCheck(nodes, bufs, recording.calls[k]).Passed?
      ensures StillThere(dev.mem, recording.raw.calls[k].slots)
    {
      var args := FindArgs(bufs, recording.calls[k].args).value;
      assert Matches(recording.calls[k], recording.raw.calls[k]);
      forall j | 0 <= j < |args|
        ensures recording.raw.calls[k].slots[j].address in dev.mem
      {
        assert Sound(bufs[args[j].slot]);
      }
    }
  }

  /** How a captured closure ends. */
  datatype Ending = Returns(result: Check) | Panics

  datatype Captured = Kept(recording: Recording) | Refused(error: Error) | Unwound

  /** A new recording of `dev`, the one owner of its raw capture. */
  ghost predicate Fresh(recording: Recording, captures: set<nat>, dev: Device)
    reads dev
  {
    && recording.dev == dev && recording.raw.owner == dev.owner
    && AllMatch(recording.calls, recording.raw.calls)
    && recording.raw.id !in captures && dev.captures == captures + {recording.raw.id}
  }
}
