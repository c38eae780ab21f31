/** What the calls of a wgpu device do, as its callers see it: in terms of the bytes they give
    and get, and of what a kernel computes from its meta and its slots. `Wgpu.Backend.Drive`
    answers any calls with `Replies`. */
module WgpuLaws {
  import opened Options
  import opened Blocks
  import opened WgpuQueue
  import opened Wgpu

  /** The machine after some calls. */
  function After(d: Device, m: Machine, calls: seq<Call>): Machine
    requires AllSafe(d, m, calls)
    decreases |calls|
  {
    if calls == [] then m else After(d, Apply(d, m, calls[0]).0, calls[1..])
  }

  /** Calls made in two goes. */
  lemma {:induction false} InTwoGoes(d: Device, m: Machine, first: seq<Call>, then_: seq<Call>)
    requires AllSafe(d, m, first) && AllSafe(d, After(d, m, first), then_)
    ensures AllSafe(d, m, first + then_)
    ensures Replies(d, m, first + then_) == Replies(d, m, first) + Replies(d, After(d, m, first), then_)
    ensures After(d, m, first + then_) == After(d, After(d, m, first), then_)
    decreases |first|
  {
    hide Apply, Safe;
    if first == [] {
      assert first + then_ == then_;
    } else {
      assert (first + then_)[1..] == first[1..] + then_;
      InTwoGoes(d, Apply(d, m, first[0]).0, first[1..], then_);
    }
  }

  // ----------------------------------------------------------------------------
  // What a call leaves alone
  // ----------------------------------------------------------------------------

  /** The call is given `id` to write to. */
  predicate Writes(call: Call, id: nat) {
    match call
    case UploadRaw(buf, _, _) => buf.id == id
    case CopyRaw(_, _, dst, _, _) => dst.id == id
    case ClearRaw(buf) => buf.id == id
    case UpdateMeta(node, _) => node.meta == id
    case ExecuteRaw(_, bindings) => exists k | 0 <= k < |bindings| :: bindings[k].Write? && bindings[k].buf.id == id
    case _ => false
  }

  predicate NoneWrites(calls: seq<Call>, id: nat) {
    forall k | 0 <= k < |calls| :: !Writes(calls[k], id)
  }

  /** Ids are handed out upwards. */
  predicate Tidy(m: Machine) {
    forall id | id in m.mem :: id < m.next
  }

  /** A backend is such a machine. */
  lemma BackendIsTidy(b: Backend)
    requires b.Valid()
    ensures Tidy(b.Now())
  {
    assert SameShape(b.memory, b.Now().mem);
  }

  /** One call leaves every buffer it isn't given to write as it was. */
  lemma OneCallFrame(d: Device, m: Machine, call: Call, id: nat)
    requires Safe(d, m, call) && Tidy(m) && id in m.mem && !Writes(call, id)
    ensures Tidy(Apply(d, m, call).0) && id in Apply(d, m, call).0.mem && Apply(d, m, call).0.mem[id] == m.mem[id]
  {
    if call.ExecuteRaw? && call.node.owner == d.owner && BindingError(d, call.bindings, 0).None? {
      var slots := Refs(call.bindings);
      var out := call.node.kernel.run(m.mem[call.node.meta], Contents(slots, m.mem));
      WriteBackKeepsShape(slots, out, m.mem);
      WriteBackFrame(slots, out, m.mem, id);
    }
  }

  /** Nor do any calls. */
  lemma {:induction false} Frame(d: Device, m: Machine, calls: seq<Call>, id: nat)
    requires AllSafe(d, m, calls) && Tidy(m) && id in m.mem && NoneWrites(calls, id)
    ensures Tidy(After(d, m, calls)) && id in After(d, m, calls).mem && After(d, m, calls).mem[id] == m.mem[id]
    decreases |calls|
  {
    hide Apply, Safe, Writes;
    if calls != [] {
      OneCallFrame(d, m, calls[0], id);
      Frame(d, Apply(d, m, calls[0]).0, calls[1..], id);
    }
  }

  /** What is downloaded of a buffer after some calls that don't write it. */
  lemma DownloadLater(d: Device, m: Machine, calls: seq<Call>, buf: Buffer, offset: nat, bytes: nat)
    requires AllSafe(d, m, calls) && Tidy(m) && NoneWrites(calls, buf.id)
    requires buf.owner == d.owner && buf.id in m.mem && |m.mem[buf.id]| == buf.bytes && offset + bytes <= buf.bytes
    ensures AllSafe(d, m, calls + [DownloadRaw(buf, offset, bytes)])
    ensures Replies(d, m, calls + [DownloadRaw(buf, offset, bytes)])[|calls|] == Data(m.mem[buf.id][offset..offset + bytes])
  {
    Frame(d, m, calls, buf.id);
    OneDownload(d, After(d, m, calls), buf, offset, bytes);
    hide *;
    InTwoGoes(d, m, calls, [DownloadRaw(buf, offset, bytes)]);
  }

  lemma OneDownload(d: Device, m: Machine, buf: Buffer, offset: nat, bytes: nat)
    requires buf.owner == d.owner && buf.id in m.mem && |m.mem[buf.id]| == buf.bytes && offset + bytes <= buf.bytes
    ensures AllSafe(d, m, [DownloadRaw(buf, offset, bytes)])
    ensures Replies(d, m, [DownloadRaw(buf, offset, bytes)]) == [Data(m.mem[buf.id][offset..offset + bytes])]
  {
  }

  // ----------------------------------------------------------------------------
  // Uploads, clears, copies
  // ----------------------------------------------------------------------------

  /** A buffer of this device, as it is now. */
  predicate Here(d: Device, m: Machine, buf: Buffer) {
    buf.owner == d.owner && buf.id in m.mem && |m.mem[buf.id]| == buf.bytes
  }

  lemma SpliceHolds(s: Bytes, at: nat, data: Bytes)
    requires at + |data| <= |s|
    ensures Splice(s, at, data)[at..at + |data|] == data
  {
  }

  /** A call, some others, and a last one. */
  function Between(first: Call, calls: seq<Call>, last: Call): (all: seq<Call>)
    ensures |all| == |calls| + 2
  {
    [first] + calls + [last]
  }

  lemma FirstAndLast(d: Device, m: Machine, call: Call, calls: seq<Call>, last: Call)
    requires Safe(d, m, call) && AllSafe(d, Apply(d, m, call).0, calls + [last])
    ensures AllSafe(d, m, Between(call, calls, last)) && |Replies(d, m, Between(call, calls, last))| == |calls| + 2
    ensures Replies(d, m, Between(call, calls, last))[0] == Apply(d, m, call).1
    ensures Replies(d, m, Between(call, calls, last))[|calls| + 1]
         == Replies(d, Apply(d, m, call).0, calls + [last])[|calls|]
  {
    assert Between(call, calls, last) == [call] + (calls + [last]);
    hide *;
    First(d, m, call, calls + [last]);
  }

  lemma Rest(d: Device, m: Machine, call: Call, calls: seq<Call>)
    requires AllSafe(d, m, [call] + calls)
    ensures Safe(d, m, call) && AllSafe(d, Apply(d, m, call).0, calls)
  {
    assert ([call] + calls)[1..] == calls;
    hide Apply, Safe;
  }

  /** The first of some calls, and then the rest. */
  lemma First(d: Device, m: Machine, call: Call, rest: seq<Call>)
    requires Safe(d, m, call) && AllSafe(d, Apply(d, m, call).0, rest)
    ensures AllSafe(d, m, [call] + rest)
    ensures Replies(d, m, [call] + rest) == [Apply(d, m, call).1] + Replies(d, Apply(d, m, call).0, rest)
    ensures After(d, m, [call] + rest) == After(d, Apply(d, m, call).0, rest)
  {
    assert ([call] + rest)[1..] == rest;
    hide Apply, Safe;
  }

  /** A download of what was uploaded is the data, whatever calls that don't write the buffer
      are made in between. */
  lemma DownloadAfterUpload(d: Device, m: Machine, buf: Buffer, offset: nat, data: Bytes, calls: seq<Call>)
    requires Tidy(m) && Here(d, m, buf) && offset + |data| <= buf.bytes
    requires AllSafe(d, m, [UploadRaw(buf, offset, data)] + calls) && NoneWrites(calls, buf.id)
    ensures var all := Between(UploadRaw(buf, offset, data), calls, DownloadRaw(buf, offset, |data|));
      AllSafe(d, m, all) && Replies(d, m, all)[0] == Done && Replies(d, m, all)[|calls| + 1] == Data(data)
  {
    hide *;
    var up, n := UploadRaw(buf, offset, data), |data|;
    OneUpload(d, m, buf, offset, data);
    Rest(d, m, up, calls);
    DownloadLater(d, Apply(d, m, up).0, calls, buf, offset, n);
    FirstAndLast(d, m, up, calls, DownloadRaw(buf, offset, n));
  }

  lemma OneUpload(d: Device, m: Machine, buf: Buffer, offset: nat, data: Bytes)
    requires Tidy(m) && Here(d, m, buf) && offset + |data| <= buf.bytes
    ensures Safe(d, m, UploadRaw(buf, offset, data))
    ensures var (after, reply) := Apply(d, m, UploadRaw(buf, offset, data));
      && Tidy(after) && Here(d, after, buf) && reply == Done && buf.owner == d.owner
      && buf.id in after.mem && |after.mem[buf.id]| == buf.bytes
      && after.mem[buf.id][offset..offset + |data|] == data
  {
    SpliceHolds(m.mem[buf.id], offset, data);
    hide Splice;
  }

  /** And of what was cleared it is zeros, byte by byte. */
  lemma DownloadAfterClear(d: Device, m: Machine, buf: Buffer, offset: nat, bytes: nat, calls: seq<Call>)
    requires Tidy(m) && Here(d, m, buf) && offset + bytes <= buf.bytes
    requires AllSafe(d, m, [ClearRaw(buf)] + calls) && NoneWrites(calls, buf.id)
    ensures var all := Between(ClearRaw(buf), calls, DownloadRaw(buf, offset, bytes));
      && AllSafe(d, m, all) && Replies(d, m, all)[0] == Done && Replies(d, m, all)[|calls| + 1].Data?
      && var data := Replies(d, m, all)[|calls| + 1].data;
         |data| == bytes && forall k | 0 <= k < bytes :: data[k] == 0
  {
    var clear, down := ClearRaw(buf), DownloadRaw(buf, offset, bytes);
    assert ([clear] + calls)[1..] == calls;
    var now := Apply(d, m, clear).0;
    DownloadLater(d, now, calls, buf, offset, bytes);
    FirstAndLast(d, m, clear, calls, down);
  }

  /** And of what was copied it is what the source held. */
  lemma DownloadAfterCopy(
    d: Device, m: Machine, src: Buffer, srcOffset: nat, dst: Buffer, dstOffset: nat, bytes: nat, calls: seq<Call>)
    requires Tidy(m) && Here(d, m, src) && Here(d, m, dst)
    requires srcOffset + bytes <= src.bytes && dstOffset + bytes <= dst.bytes
    requires AllSafe(d, m, [CopyRaw(src, srcOffset, dst, dstOffset, bytes)] + calls) && NoneWrites(calls, dst.id)
    ensures var all := Between(CopyRaw(src, srcOffset, dst, dstOffset, bytes), calls, DownloadRaw(dst, dstOffset, bytes));
      && AllSafe(d, m, all) && Replies(d, m, all)[0] == Done
      && Replies(d, m, all)[|calls| + 1] == Data(m.mem[src.id][srcOffset..srcOffset + bytes])
  {
    var copy, down := CopyRaw(src, srcOffset, dst, dstOffset, bytes), DownloadRaw(dst, dstOffset, bytes);
    hide *;
    OneCopy(d, m, src, srcOffset, dst, dstOffset, bytes);
    Rest(d, m, copy, calls);
    DownloadLater(d, Apply(d, m, copy).0, calls, dst, dstOffset, bytes);
    FirstAndLast(d, m, copy, calls, down);
  }

  lemma OneCopy(d: Device, m: Machine, src: Buffer, srcOffset: nat, dst: Buffer, dstOffset: nat, bytes: nat)
    requires Tidy(m) && Here(d, m, src) && Here(d, m, dst)
    requires srcOffset + bytes <= src.bytes && dstOffset + bytes <= dst.bytes
    ensures Safe(d, m, CopyRaw(src, srcOffset, dst, dstOffset, bytes))
    ensures var (after, reply) := Apply(d, m, CopyRaw(src, srcOffset, dst, dstOffset, bytes));
      && Tidy(after) && Here(d, after, dst) && reply == Done && dst.owner == d.owner
      && src.id in m.mem && dst.id in after.mem && |after.mem[dst.id]| == dst.bytes && |m.mem[src.id]| == src.bytes
      && after.mem[dst.id][dstOffset..dstOffset + bytes] == m.mem[src.id][srcOffset..srcOffset + bytes]
  {
    SpliceHolds(m.mem[dst.id], dstOffset, m.mem[src.id][srcOffset..srcOffset + bytes]);
    hide Splice;
  }

  /** A buffer is as large as was asked for, rounded up, and zero. */
  lemma DownloadAfterAlloc(d: Device, m: Machine, size: nat, calls: seq<Call>)
    requires Tidy(m) && AllSafe(d, m, [AllocRaw(size, false)] + calls) && NoneWrites(calls, m.next)
    requires size + 4 <= d.maxBuffer
    ensures Replies(d, m, [AllocRaw(size, false)] + calls)[0].Allocated?
    ensures var buf := Replies(d, m, [AllocRaw(size, false)] + calls)[0].buf;
      && buf.id !in m.mem && buf.owner == d.owner && buf.bytes % 4 == 0
      && size <= buf.bytes && (buf.bytes < size + 4 || buf.bytes == 4)
      && var all := Between(AllocRaw(size, false), calls, DownloadRaw(buf, 0, buf.bytes));
         && AllSafe(d, m, all) && Replies(d, m, all)[|calls| + 1].Data?
         && var data := Replies(d, m, all)[|calls| + 1].data;
            |data| == buf.bytes && forall k | 0 <= k < |data| :: data[k] == 0
  {
    var alloc := AllocRaw(size, false);
    assert ([alloc] + calls)[1..] == calls;
    var (now, reply) := Apply(d, m, alloc);
    hide Rounded;
    var down := DownloadRaw(reply.buf, 0, reply.buf.bytes);
    DownloadLater(d, now, calls, reply.buf, 0, reply.buf.bytes);
    First(d, m, alloc, calls);
    FirstAndLast(d, m, alloc, calls, down);
  }

  /** What other calls refuse, changing nothing: another device's buffers, a copy's source first,
      and a buffer over the device's limit once it is rounded up. */
  lemma OthersRefused(d: Device, m: Machine, call: Call)
    requires Safe(d, m, call)
    ensures Apply(d, m, call).1.Failed? ==> Apply(d, m, call).0 == m
    ensures call.CopyRaw? && call.src.owner != d.owner ==> Apply(d, m, call).1 == Failed(ForeignSource)
    ensures call.CopyRaw? && call.src.owner == d.owner && call.dst.owner != d.owner ==>
      Apply(d, m, call).1 == Failed(ForeignDestination)
    ensures call.ClearRaw? && call.buf.owner != d.owner ==> Apply(d, m, call).1 == Failed(ForeignBuffer)
    ensures call.AllocRaw? ==>
      (Apply(d, m, call).1 == Failed(OverBufferLimit) <==>
         d.maxBuffer < 4 || exists words: nat :: d.maxBuffer < 4 * words < call.size + 4)
    ensures call.AllocRaw? && call.outOfMemory ==> Apply(d, m, call).1.Failed?
    ensures call.BuildNode? && !call.compiles ==> Apply(d, m, call).1 == Failed(BadShader)
  {
    if call.AllocRaw? {
      var words := Rounded(call.size) / 4;
      assert Rounded(call.size) == 4 * words;
    }
  }

  // ----------------------------------------------------------------------------
  // Executes
  // ----------------------------------------------------------------------------

  /** What an execute finds acceptable: everything is this device's, and no buffer is too big
      to be bound. */
  predicate Bindable(d: Device, m: Machine, node: Node, bindings: seq<Access>) {
    && node.owner == d.owner && node.meta in m.mem
    && forall k | 0 <= k < |bindings| :: Here(d, m, bindings[k].buf) && bindings[k].buf.bytes <= d.maxBinding
  }

  /** The bytes bound to each slot. */
  function Held(m: Machine, bindings: seq<Access>): (r: seq<Bytes>)
    requires forall k | 0 <= k < |bindings| :: bindings[k].buf.id in m.mem
    ensures |r| == |bindings| && forall k | 0 <= k < |r| :: r[k] == m.mem[bindings[k].buf.id]
  {
    seq(|bindings|, k requires 0 <= k < |bindings| => m.mem[bindings[k].buf.id])
  }

  /** A buffer bound for writing, in no other slot. */
  predicate WrittenOnce(bindings: seq<Access>, k: nat) {
    && k < |bindings| && bindings[k].Write?
    && forall j | 0 <= j < |bindings| && j != k :: bindings[j].buf.id != bindings[k].buf.id
  }

  /** Main result: an execute runs the kernel on its node's meta and its slots' bytes as they
      are; each buffer bound for writing, in no other slot, then holds what the kernel left in
      its slot, and every buffer not bound for writing is as it was. */
  lemma ExecuteRunsKernel(d: Device, m: Machine, node: Node, bindings: seq<Access>)
    requires Bindable(d, m, node, bindings)
    ensures Safe(d, m, ExecuteRaw(node, bindings))
    ensures var out := node.kernel.run(m.mem[node.meta], Held(m, bindings));
      var (after, reply) := Apply(d, m, ExecuteRaw(node, bindings));
      && reply == Done && after.next == m.next && SameShape(m.mem, after.mem)
      && (forall k: nat | WrittenOnce(bindings, k) && k < |out| && |out[k]| == bindings[k].buf.bytes ::
            after.mem[bindings[k].buf.id] == out[k])
      && forall id | id in m.mem && (forall k | 0 <= k < |bindings| && bindings[k].Write? :: bindings[k].buf.id != id) ::
           after.mem[id] == m.mem[id]
  {
    var slots, mem := Refs(bindings), m.mem;
    assert Contents(slots, mem) == Held(m, bindings);
    var out := node.kernel.run(mem[node.meta], Contents(slots, mem));
    assert Apply(d, m, ExecuteRaw(node, bindings)) == (m.(mem := WriteBack(slots, out, mem)), Done);
    hide Apply, Run, Contents, BindingError;
    WriteBackKeepsShape(slots, out, mem);
    forall k: nat | WrittenOnce(bindings, k) && k < |out| && |out[k]| == bindings[k].buf.bytes
      ensures WriteBack(slots, out, mem)[bindings[k].buf.id] == out[k]
    {
      WriteBackAt(slots, out, mem, k);
    }
    forall id | id in mem && forall k | 0 <= k < |bindings| && bindings[k].Write? :: bindings[k].buf.id != id
      ensures WriteBack(slots, out, mem)[id] == mem[id]
    {
      WriteBackFrame(slots, out, mem, id);
    }
  }

  /** A refused execute changes nothing, and says what is wrong with the first bad slot. */
  lemma ExecuteRefused(d: Device, m: Machine, node: Node, bindings: seq<Access>, k: nat)
    requires Safe(d, m, ExecuteRaw(node, bindings)) && !Bindable(d, m, node, bindings)
    ensures Apply(d, m, ExecuteRaw(node, bindings)).0 == m
    ensures node.owner != d.owner ==> Apply(d, m, ExecuteRaw(node, bindings)).1 == Failed(ForeignNode)
    ensures
      && node.owner == d.owner && k < |bindings|
      && (forall j | 0 <= j < k :: bindings[j].buf.owner == d.owner && bindings[j].buf.bytes <= d.maxBinding)
      && (bindings[k].buf.owner != d.owner || bindings[k].buf.bytes > d.maxBinding) ==>
        Apply(d, m, ExecuteRaw(node, bindings)).1
          == Failed(if bindings[k].buf.owner != d.owner then ForeignBuffer else OverBindingLimit(k + 1))
  {
  }

  /** A download after an execute returns what the kernel computed, whatever calls that don't
      write the buffer are made in between. */
  lemma DownloadAfterExecute(d: Device, m: Machine, node: Node, bindings: seq<Access>, k: nat, calls: seq<Call>)
    requires Tidy(m) && Bindable(d, m, node, bindings) && WrittenOnce(bindings, k)
    requires AllSafe(d, m, [ExecuteRaw(node, bindings)] + calls) && NoneWrites(calls, bindings[k].buf.id)
    requires var out := node.kernel.run(m.mem[node.meta], Held(m, bindings)); k < |out| && |out[k]| == bindings[k].buf.bytes
    ensures var buf := bindings[k].buf;
      var all := Between(ExecuteRaw(node, bindings), calls, DownloadRaw(buf, 0, buf.bytes));
      && AllSafe(d, m, all) && Replies(d, m, all)[0] == Done
      && Replies(d, m, all)[|calls| + 1] == Data(node.kernel.run(m.mem[node.meta], Held(m, bindings))[k])
  {
    var buf := bindings[k].buf;
    var call, down := ExecuteRaw(node, bindings), DownloadRaw(buf, 0, buf.bytes);
    assert ([call] + calls)[1..] == calls;
    ExecuteRunsKernel(d, m, node, bindings);
    var now := Apply(d, m, call).0;
    assert now.mem[buf.id][0..buf.bytes] == now.mem[buf.id];
    hide Apply, Safe, Writes;
    DownloadLater(d, now, calls, buf, 0, buf.bytes);
    FirstAndLast(d, m, call, calls, down);
  }

  // ----------------------------------------------------------------------------
  // Metas
  // ----------------------------------------------------------------------------

  /** An execute after `update_meta`, and after any calls that don't write that meta, runs with
      the new words. */
  lemma ExecuteAfterUpdateMeta(
    d: Device, m: Machine, node: Node, meta: Bytes, calls: seq<Call>, bindings: seq<Access>, k: nat)
    requires Tidy(m) && node.owner == d.owner && node.meta in m.mem && |m.mem[node.meta]| == |meta|
    requires AllSafe(d, m, [UpdateMeta(node, meta)] + calls) && NoneWrites(calls, node.meta)
    requires var now := After(d, m, [UpdateMeta(node, meta)] + calls);
      && Bindable(d, now, node, bindings) && WrittenOnce(bindings, k)
      && var out := node.kernel.run(meta, Held(now, bindings)); k < |out| && |out[k]| == bindings[k].buf.bytes
    ensures var now := After(d, m, [UpdateMeta(node, meta)] + calls);
      && Safe(d, now, ExecuteRaw(node, bindings))
      && var after := Apply(d, now, ExecuteRaw(node, bindings)).0;
         var id := bindings[k].buf.id;
         id in after.mem && after.mem[id] == node.kernel.run(meta, Held(now, bindings))[k]
  {
    var update := UpdateMeta(node, meta);
    assert ([update] + calls)[1..] == calls;
    var set_ := Apply(d, m, update).0;
    assert set_.mem[node.meta] == meta;
    var now := After(d, set_, calls);
    hide Apply, Safe, Writes;
    Frame(d, set_, calls, node.meta);
    First(d, m, update, calls);
    ExecuteRunsKernel(d, now, node, bindings);
  }

  /** A new node's meta holds its words, then zeros up to the least size of a meta. */
  lemma NodeHoldsItsMeta(d: Device, m: Machine, kernel: Kernel, meta: Bytes, calls: seq<Call>)
    requires Tidy(m) && AllSafe(d, m, [BuildNode(kernel, meta, true)] + calls) && NoneWrites(calls, m.next)
    ensures Replies(d, m, [BuildNode(kernel, meta, true)] + calls)[0].Built?
    ensures var node := Replies(d, m, [BuildNode(kernel, meta, true)] + calls)[0].node;
      var now := After(d, m, [BuildNode(kernel, meta, true)] + calls);
      && node.kernel == kernel && node.owner == d.owner && node.meta !in m.mem && node.meta in now.mem
      && meta <= now.mem[node.meta] && (|meta| >= 4 ==> now.mem[node.meta] == meta)
      && |now.mem[node.meta]| >= 4 && forall k | |meta| <= k < |now.mem[node.meta]| :: now.mem[node.meta][k] == 0
  {
    var build := BuildNode(kernel, meta, true);
    assert ([build] + calls)[1..] == calls;
    var (made, reply) := Apply(d, m, build);
    assert Tidy(made) && meta <= made.mem[m.next];
    hide Apply, Safe, Writes;
    Frame(d, made, calls, m.next);
    First(d, m, build, calls);
  }
}
