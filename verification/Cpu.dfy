/** The CPU backend: native code run at once on host memory, or recorded by address to be
    run again. */
module Cpu {
  import opened Options
  import opened Blocks
  import opened Rules

  /** Native code, as a function: what each slot holds after, given the words and what each holds before. */
  type Native = (seq<nat>, seq<Bytes>) -> seq<Bytes>

  datatype Shader = Shader(sig: Signature, code: Native)

  /** A meta value. A float is its bits. */
  datatype MetaValue = UintValue(word: nat) | FloatValue(word: nat) {
    function Type(): MetaType {
      if UintValue? then Uint else Float
    }
  }

  function TypesOf(meta: seq<MetaValue>): (r: seq<MetaType>)
    ensures |r| == |meta|
  {
    seq(|meta|, k requires 0 <= k < |meta| => meta[k].Type())
  }

  function Words(meta: seq<MetaValue>): (r: seq<nat>)
    ensures |r| == |meta|
  {
    seq(|meta|, k requires 0 <= k < |meta| => meta[k].word)
  }

  /** `min_lens`, one entry per slot. */
  function MinLens(sig: Signature, words: seq<nat>, wg: Workgroups): (r: seq<nat>)
    ensures |r| == |sig.layout|
  {
    seq(|sig.layout|, slot requires 0 <= slot < |sig.layout| => sig.needs(words, wg, slot))
  }

  // ----------------------------------------------------------------------------
  // Runs of native code
  // ----------------------------------------------------------------------------

  /** One run: the code, its meta words, and its slots' blocks. */
  datatype Invocation = Invocation(code: Native, words: seq<nat>, slots: seq<SlotRef>)

  function Invoke(i: Invocation, mem: Memory): (r: Memory)
    requires Has(mem, i.slots)
    ensures SameShape(mem, r)
  {
    WriteBackKeepsShape(i.slots, i.code(i.words, Contents(i.slots, mem)), mem);
    WriteBack(i.slots, i.code(i.words, Contents(i.slots, mem)), mem)
  }

  predicate AllHave(mem: Memory, runs: seq<Invocation>) {
    forall k | 0 <= k < |runs| :: Has(mem, runs[k].slots)
  }

  /** Runs one after another. */
  function InvokeAll(runs: seq<Invocation>, mem: Memory): (r: Memory)
    requires AllHave(mem, runs)
    ensures SameShape(mem, r)
  {
    if runs == [] then mem else Invoke(runs[|runs| - 1], InvokeAll(runs[..|runs| - 1], mem))
  }

  lemma InvokeOneMore(runs: seq<Invocation>, i: Invocation, mem: Memory)
    requires AllHave(mem, runs) && Has(mem, i.slots)
    ensures AllHave(mem, runs + [i]) && Has(InvokeAll(runs, mem), i.slots)
    ensures InvokeAll(runs + [i], mem) == Invoke(i, InvokeAll(runs, mem))
  {
    assert (runs + [i])[..|runs|] == runs;
  }

  lemma OneMoreRun(runs: seq<Invocation>, k: nat, start: Memory, mem: Memory)
    requires k < |runs| && AllHave(start, runs[..k]) && Has(InvokeAll(runs[..k], start), runs[k].slots)
    requires mem == Invoke(runs[k], InvokeAll(runs[..k], start))
    ensures AllHave(start, runs[..k + 1]) && mem == InvokeAll(runs[..k + 1], start)
  {
    assert runs[..k + 1] == runs[..k] + [runs[k]];
    assert Has(start, runs[k].slots);
    InvokeOneMore(runs[..k], runs[k], start);
  }

  lemma NoRuns(mem: Memory)
    ensures AllHave(mem, []) && InvokeAll([], mem) == mem
  {
  }

  /** The same run, with each named slot at its place. */
  function Placed(i: Invocation, places: Places): Invocation
    requires forall k | 0 <= k < |i.slots| :: i.slots[k].block in places
  {
    i.(slots := AtPlaces(i.slots, places))
  }

  ghost predicate AllPlaced(runs: seq<Invocation>, at: seq<Invocation>, places: Places) {
    && |at| == |runs|
    && forall k | 0 <= k < |runs| :: AllNamed(places, runs[k].slots) && at[k] == Placed(runs[k], places)
  }

  lemma PlacedOneMore(runs: seq<Invocation>, at: seq<Invocation>, i: Invocation, places: Places)
    requires AllPlaced(runs, at, places) && AllNamed(places, i.slots)
    ensures AllPlaced(runs + [i], at + [Placed(i, places)], places)
  {
  }

  lemma InvokeByName(i: Invocation, mem: Memory, places: Places)
    requires InMemory(places, mem) && Separate(places, mem) && AllNamed(places, i.slots)
    ensures Has(mem, Placed(i, places).slots)
    ensures InMemory(places, Invoke(Placed(i, places), mem))
    ensures Named(places, Invoke(Placed(i, places), mem)) == Invoke(i, Named(places, mem))
  {
    var slots := AtPlaces(i.slots, places);
    assert Contents(slots, mem) == Contents(i.slots, Named(places, mem));
    WriteBackByName(i.slots, i.code(i.words, Contents(slots, mem)), mem, places);
  }

  /** Runs on blocks do to each name's block what runs on names do to the names: a whole
      run may be followed by names. */
  lemma {:induction false} InvokeAllByName(runs: seq<Invocation>, at: seq<Invocation>, mem: Memory, places: Places)
    requires InMemory(places, mem) && Separate(places, mem) && AllPlaced(runs, at, places)
    ensures AllHave(mem, at) && AllHave(Named(places, mem), runs)
    ensures InMemory(places, InvokeAll(at, mem)) && Separate(places, InvokeAll(at, mem))
    ensures Named(places, InvokeAll(at, mem)) == InvokeAll(runs, Named(places, mem))
  {
    if runs != [] {
      var n := |runs| - 1;
      InvokeAllByName(runs[..n], at[..n], mem, places);
      InvokeByName(runs[n], InvokeAll(at[..n], mem), places);
    }
  }

  /** A block none of the runs writes stays as it was. */
  lemma {:induction false} InvokeAllFrame(runs: seq<Invocation>, mem: Memory, b: nat)
    requires AllHave(mem, runs) && b in mem
    requires forall k, j | 0 <= k < |runs| && 0 <= j < |runs[k].slots| && runs[k].slots[j].write :: runs[k].slots[j].block != b
    ensures InvokeAll(runs, mem)[b] == mem[b]
  {
    if runs != [] {
      var n := |runs| - 1;
      InvokeAllFrame(runs[..n], mem, b);
      var before, last := InvokeAll(runs[..n], mem), runs[n];
      WriteBackFrame(last.slots, last.code(last.words, Contents(last.slots, before)), before, b);
    }
  }

  // ----------------------------------------------------------------------------
  // Nodes
  // ----------------------------------------------------------------------------

  /** A shader to dispatch, and its meta; it is known by its address. */
  class Node {
    const dev: Device
    const shader: Shader
    const workgroups: Workgroups
    var meta: seq<MetaValue>
    /** The backend's own: the meta as words. */
    var words: seq<nat>
    /** The shader's `min_lens` for the current meta. */
    var lens: seq<nat>

    ghost predicate Valid()
      reads this
    {
      && TypesOf(meta) == shader.sig.meta && words == Words(meta)
      && lens == MinLens(shader.sig, words, workgroups)
    }

    constructor (dev: Device, shader: Shader, meta: seq<MetaValue>, workgroups: Workgroups)
      requires TypesOf(meta) == shader.sig.meta
      ensures Valid() && this.dev == dev && this.shader == shader && this.workgroups == workgroups && this.meta == meta
    {
      this.dev, this.shader, this.workgroups, this.meta := dev, shader, workgroups, meta;
      words := Words(meta);
      lens := MinLens(shader.sig, Words(meta), workgroups);
    }

    /** Sets new meta values, or fails and changes nothing. */
    method UpdateMeta(meta: seq<MetaValue>) returns (r: Check)
      requires Valid()
      modifies this
      ensures Valid() && r == MetaTypes(shader.sig, TypesOf(meta))
      ensures r.Passed? <==>
        |meta| == |shader.sig.meta| && forall k | 0 <= k < |meta| :: shader.sig.meta[k].Uint? <==> meta[k].UintValue?
      ensures this.meta == if r.Passed? then meta else old(this.meta)
    {
      assert TypesOf(meta) == shader.sig.meta ==> forall k | 0 <= k < |meta| :: TypesOf(meta)[k] == shader.sig.meta[k];
      r := MetaTypes(shader.sig, TypesOf(meta));
      if r.Passed? {
        words := Words(meta);
        lens := MinLens(shader.sig, words, workgroups);
        this.meta := meta;
      }
    }
  }

  // ----------------------------------------------------------------------------
  // The device
  // ----------------------------------------------------------------------------

  /** A buffer: where its block is, how long it is, and whose it is. */
  datatype Buffer = Buffer(address: nat, bytes: nat, owner: nat)

  datatype Access = Access(buf: Buffer, write: bool)

  /** A recorded slot: a pointer and a length. */
  datatype RawSlot = RawSlot(address: nat, bytes: nat, write: bool)

  /** A call as recorded: the node itself and not its words, which are read when it is replayed. */
  datatype RawCall = RawCall(node: Node, slots: seq<RawSlot>)

  datatype Capture = Capture(id: nat, calls: seq<RawCall>, owner: nat)

  function RawSlots(bindings: seq<Access>): (r: seq<RawSlot>)
    ensures |r| == |bindings|
  {
    seq(|bindings|, k requires 0 <= k < |bindings| =>
      RawSlot(bindings[k].buf.address, bindings[k].buf.bytes, bindings[k].write))
  }

  function Refs(slots: seq<RawSlot>): (r: seq<SlotRef>)
    ensures |r| == |slots|
  {
    seq(|slots|, k requires 0 <= k < |slots| => SlotRef(slots[k].address, slots[k].write))
  }

  /** What running `call` now would be. */
  ghost function RunNow(call: RawCall): Invocation
    reads call.node
  {
    Invocation(call.node.shader.code, call.node.words, Refs(call.slots))
  }

  ghost function RunsNow(calls: seq<RawCall>): (r: seq<Invocation>)
    reads set k | 0 <= k < |calls| :: calls[k].node
    ensures |r| == |calls| && forall k | 0 <= k < |r| :: r[k] == RunNow(calls[k])
  {
    if calls == [] then [] else RunsNow(calls[..|calls| - 1]) + [RunNow(calls[|calls| - 1])]
  }

  lemma RunsNowOneMore(calls: seq<RawCall>, call: RawCall)
    ensures RunsNow(calls + [call]) == RunsNow(calls) + [RunNow(call)]
  {
    assert (calls + [call])[..|calls|] == calls;
  }

  lemma RunsNowPrefix(calls: seq<RawCall>, k: nat)
    requires k <= |calls|
    ensures RunsNow(calls[..k]) == RunsNow(calls)[..k]
  {
    hide RunNow;
  }

  /** Each recorded block still has its recorded size. */
  ghost predicate StillThere(mem: Memory, slots: seq<RawSlot>) {
    forall k | 0 <= k < |slots| :: slots[k].address in mem && |mem[slots[k].address]| == slots[k].bytes
  }

  /** Where every empty buffer is. */
  const DANGLING: nat := 4

  class Device {
    const owner: nat
    var mem: Memory
    var next: nat
    /** `Some` between `begin_capture` and `end_capture`. */
    var recording: Option<seq<RawCall>>
    /** The captures handed out and not released. */
    var captures: set<nat>
    var nextCapture: nat

    ghost predicate Valid()
      reads this
    {
      && (forall a | a in mem :: a < next)
      && DANGLING in mem && mem[DANGLING] == []
      && forall id | id in captures :: id < nextCapture
    }

    constructor (owner: nat)
      ensures Valid() && this.owner == owner && recording.None? && captures == {}
    {
      this.owner := owner;
      mem, next, recording, captures, nextCapture := map[DANGLING := []], DANGLING + 1, None, {}, 0;
    }

    /** A zeroed block of its own, of whole words; empty ones share their address. */
    method AllocRaw(bytes: nat) returns (buf: Buffer)
      requires Valid()
      modifies this`mem, this`next
      ensures Valid() && buf.owner == owner && buf.bytes == (bytes + 3) / 4 * 4
      ensures if bytes == 0 then mem == old(mem) && buf.address == DANGLING
              else buf.address !in old(mem) && mem == old(mem)[buf.address := Zeros(buf.bytes)]
    {
      if bytes == 0 {
        buf := Buffer(DANGLING, 0, owner);
      } else {
        buf := Buffer(next, (bytes + 3) / 4 * 4, owner);
        mem := mem[next := Zeros(buf.bytes)];
        next := next + buf.bytes;
      }
    }

    /** Runs the node's code at once, or records the call. */
    method ExecuteRaw(node: Node, bindings: seq<Access>) returns (ok: bool)
      requires Valid() && forall k | 0 <= k < |bindings| :: bindings[k].buf.address in mem
      modifies this`mem, this`recording
      ensures Valid() && SameShape(old(mem), mem)
      ensures ok <==> forall k | 0 <= k < |bindings| :: bindings[k].buf.owner == owner
      ensures !ok ==> recording == old(recording)
      ensures !ok || recording.Some? ==> mem == old(mem)
      ensures ok && old(recording).None? ==>
        recording.None? && Has(old(mem), Refs(RawSlots(bindings)))
        && mem == Invoke(RunNow(RawCall(node, RawSlots(bindings))), old(mem))
      ensures ok && old(recording).Some? ==>
        recording == Some(old(recording).value + [RawCall(node, RawSlots(bindings))])
    {
      ok := forall k | 0 <= k < |bindings| :: bindings[k].buf.owner == owner;
      if ok {
        if recording.Some? {
          recording := Some(recording.value + [RawCall(node, RawSlots(bindings))]);
        } else {
          mem := Invoke(Invocation(node.shader.code, node.words, Refs(RawSlots(bindings))), mem);
        }
      }
    }

    /** A begin inside a capture panics, and is a precondition here. */
    method BeginCapture()
      requires recording.None?
      modifies this`recording
      ensures recording == Some([])
    {
      recording := Some([]);
    }

    method EndCapture() returns (r: Option<Capture>)
      requires Valid()
      modifies this`recording, this`captures, this`nextCapture
      ensures Valid() && recording.None? && (r.Some? <==> old(recording).Some?)
      ensures r.Some? ==>
        && r.value.calls == old(recording).value && r.value.owner == owner
        && r.value.id == old(nextCapture) && nextCapture == r.value.id + 1
        && r.value.id !in old(captures) && captures == old(captures) + {r.value.id}
      ensures r.None? ==> captures == old(captures) && nextCapture == old(nextCapture)
    {
      if recording.None? {
        return None;
      }
      r := Some(Capture(nextCapture, recording.value, owner));
      recording := None;
      captures := captures + {nextCapture};
      nextCapture := nextCapture + 1;
    }

    /** Only a capture not released yet can be released. */
    method ReleaseCapture(capture: Capture)
      requires Valid() && capture.id in captures
      modifies this`captures
      ensures Valid() && captures == old(captures) - {capture.id}
    {
      captures := captures - {capture.id};
    }

    method ReplayCalls(calls: seq<RawCall>)
      requires AllHave(mem, RunsNow(calls))
      modifies this`mem
      ensures AllHave(old(mem), RunsNow(calls)) && mem == InvokeAll(RunsNow(calls), old(mem))
    {
      ghost var runs, start := RunsNow(calls), mem;
      hide RunsNow, Invoke, InvokeAll, Has;
      NoRuns(mem);
      for k := 0 to |calls|
        invariant SameShape(start, mem) && AllHave(start, runs[..k]) && mem == InvokeAll(runs[..k], start)
      {
        InvokeOneMore(runs[..k], runs[k], start);
        assert runs[..k + 1] == runs[..k] + [runs[k]] && runs[k] == RunNow(calls[k]);
        var node := calls[k].node;
        mem := Invoke(Invocation(node.shader.code, node.words, Refs(calls[k].slots)), mem);
      }
      assert runs[..|calls|] == runs;
    }

    /** Runs the recorded calls again, in order, each with its node's current meta. */
    method Replay(capture: Capture) returns (ok: bool)
      requires Valid() && forall k | 0 <= k < |capture.calls| :: StillThere(mem, capture.calls[k].slots)
      modifies this`mem
      ensures Valid() && (ok <==> capture.owner == owner)
      ensures AllHave(old(mem), RunsNow(capture.calls))
      ensures mem == if ok then InvokeAll(RunsNow(capture.calls), old(mem)) else old(mem)
    {
      ok := capture.owner == owner;
      if ok {
        ReplayCalls(capture.calls);
      }
    }
  }
}
