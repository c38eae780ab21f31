/** What a wgpu queue does: a `write_buffer` is staged until the next submit, where it lands
    before that submit's commands. */
module WgpuQueue {
  import opened Blocks

  // ----------------------------------------------------------------------------
  // What a device is made of
  // ----------------------------------------------------------------------------

  /** A handle: a buffer's identity and what the backend keeps about it. */
  datatype Buffer = Buffer(id: nat, bytes: nat, owner: nat)

  /** A shader's effect: from its meta and its slots' contents to their new contents. */
  datatype Kernel = Kernel(run: (Bytes, seq<Bytes>) -> seq<Bytes>)

  datatype Node = Node(kernel: Kernel, meta: nat, owner: nat)

  datatype Access = Read(buf: Buffer) | Write(buf: Buffer)

  datatype Staged = Staged(buf: nat, offset: nat, data: Bytes)

  datatype Command =
    | Copy(src: nat, srcOffset: nat, dst: nat, dstOffset: nat, bytes: nat)
    | Clear(buf: nat)
    | Dispatch(kernel: Kernel, meta: nat, slots: seq<SlotRef>)

  predicate StagedFits(w: Staged, mem: Memory) {
    InRange(mem, w.buf, w.offset, |w.data|)
  }

  predicate CommandFits(c: Command, mem: Memory) {
    match c
    case Copy(src, srcOffset, dst, dstOffset, bytes) =>
      InRange(mem, src, srcOffset, bytes) && InRange(mem, dst, dstOffset, bytes)
    case Clear(buf) => buf in mem
    case Dispatch(_, meta, slots) => meta in mem && Has(mem, slots)
  }

  function Land(w: Staged, mem: Memory): Memory
    requires StagedFits(w, mem)
  {
    mem[w.buf := Splice(mem[w.buf], w.offset, w.data)]
  }

  function Run(c: Command, mem: Memory): Memory
    requires CommandFits(c, mem)
  {
    match c
    case Copy(src, srcOffset, dst, dstOffset, bytes) =>
      mem[dst := Splice(mem[dst], dstOffset, mem[src][srcOffset..srcOffset + bytes])]
    case Clear(buf) => mem[buf := Zeros(|mem[buf]|)]
    case Dispatch(kernel, meta, slots) => WriteBack(slots, kernel.run(mem[meta], Contents(slots, mem)), mem)
  }

  // ----------------------------------------------------------------------------
  // Buffers keep their lengths
  // ----------------------------------------------------------------------------

  lemma RunKeepsShape(c: Command, mem: Memory)
    requires CommandFits(c, mem)
    ensures SameShape(mem, Run(c, mem))
  {
    if c.Dispatch? {
      WriteBackKeepsShape(c.slots, c.kernel.run(mem[c.meta], Contents(c.slots, mem)), mem);
    }
  }

  predicate AllStagedFit(ws: seq<Staged>, mem: Memory) {
    forall k | 0 <= k < |ws| :: StagedFits(ws[k], mem)
  }

  predicate AllCommandsFit(cs: seq<Command>, mem: Memory) {
    forall k | 0 <= k < |cs| :: CommandFits(cs[k], mem)
  }

  /** What staged writes leave, in their order. */
  function LandAll(ws: seq<Staged>, mem: Memory): (r: Memory)
    requires AllStagedFit(ws, mem)
    ensures SameShape(mem, r)
  {
    if ws == [] then mem else Land(ws[|ws| - 1], LandAll(ws[..|ws| - 1], mem))
  }

  function RunAll(cs: seq<Command>, mem: Memory): (r: Memory)
    requires AllCommandsFit(cs, mem)
    ensures SameShape(mem, r)
  {
    if cs == [] then mem
    else
      var before := RunAll(cs[..|cs| - 1], mem);
      RunKeepsShape(cs[|cs| - 1], before);
      Run(cs[|cs| - 1], before)
  }

  // ----------------------------------------------------------------------------
  // A new buffer commutes with what is queued
  // ----------------------------------------------------------------------------

  lemma RunBesideNew(c: Command, mem: Memory, id: nat, v: Bytes)
    requires id !in mem && CommandFits(c, mem)
    ensures CommandFits(c, mem[id := v]) && Run(c, mem[id := v]) == Run(c, mem)[id := v]
  {
    if c.Dispatch? {
      assert Contents(c.slots, mem[id := v]) == Contents(c.slots, mem);
      WriteBackBesideNew(c.slots, c.kernel.run(mem[c.meta], Contents(c.slots, mem)), mem, id, v);
    }
  }

  lemma {:induction false} RunAllBesideNew(cs: seq<Command>, mem: Memory, id: nat, v: Bytes)
    requires id !in mem && AllCommandsFit(cs, mem)
    ensures AllCommandsFit(cs, mem[id := v]) && RunAll(cs, mem[id := v]) == RunAll(cs, mem)[id := v]
  {
    if cs != [] {
      hide Run, CommandFits;
      var n := |cs| - 1;
      RunAllBesideNew(cs[..n], mem, id, v);
      forall k | 0 <= k < |cs| ensures CommandFits(cs[k], mem[id := v]) {
        RunBesideNew(cs[k], mem, id, v);
      }
      RunBesideNew(cs[n], RunAll(cs[..n], mem), id, v);
    }
  }

  lemma {:induction false} LandAllBesideNew(ws: seq<Staged>, mem: Memory, id: nat, v: Bytes)
    requires id !in mem && AllStagedFit(ws, mem)
    ensures AllStagedFit(ws, mem[id := v]) && LandAll(ws, mem[id := v]) == LandAll(ws, mem)[id := v]
  {
    if ws != [] {
      LandAllBesideNew(ws[..|ws| - 1], mem, id, v);
    }
  }

  // ----------------------------------------------------------------------------
  // What the buffers will hold
  // ----------------------------------------------------------------------------

  lemma FitsAfter(cs: seq<Command>, mem: Memory, mem': Memory)
    requires AllCommandsFit(cs, mem) && SameShape(mem, mem')
    ensures AllCommandsFit(cs, mem')
  {
    forall k | 0 <= k < |cs| ensures CommandFits(cs[k], mem') {
      assert CommandFits(cs[k], mem);
    }
  }

  predicate Fitting(ws: seq<Staged>, cs: seq<Command>, mem: Memory) {
    AllStagedFit(ws, mem) && AllCommandsFit(cs, mem)
  }

  /** Once the staged writes landed and then the commands ran. */
  function Outcome(ws: seq<Staged>, cs: seq<Command>, mem: Memory): (r: Memory)
    requires Fitting(ws, cs, mem)
    ensures SameShape(mem, r)
  {
    FitsAfter(cs, mem, LandAll(ws, mem));
    RunAll(cs, LandAll(ws, mem))
  }

  lemma NothingQueued(mem: Memory)
    ensures Fitting([], [], mem) && Outcome([], [], mem) == mem
  {
  }

  lemma OneMoreCommand(ws: seq<Staged>, cs: seq<Command>, mem: Memory, c: Command)
    requires Fitting(ws, cs, mem) && CommandFits(c, mem)
    ensures Fitting(ws, cs + [c], mem) && CommandFits(c, Outcome(ws, cs, mem))
    ensures Outcome(ws, cs + [c], mem) == Run(c, Outcome(ws, cs, mem))
  {
    hide CommandFits, Run;
    var landed := LandAll(ws, mem);
    FitsAfter(cs, mem, landed);
    FitsAfter(cs + [c], mem, landed);
    FitsAfter([c], mem, RunAll(cs, landed));
    assert [c][0] == c && (cs + [c])[..|cs|] == cs;
  }

  lemma OneMoreWrite(ws: seq<Staged>, mem: Memory, w: Staged)
    requires Fitting(ws, [], mem) && StagedFits(w, mem)
    ensures Fitting(ws + [w], [], mem) && StagedFits(w, Outcome(ws, [], mem))
    ensures Outcome(ws + [w], [], mem) == Land(w, Outcome(ws, [], mem))
  {
    LandSnoc(ws, w, mem);
  }

  /** A new buffer now is a new buffer once everything queued is done. */
  lemma NewBuffer(ws: seq<Staged>, cs: seq<Command>, mem: Memory, id: nat, v: Bytes)
    requires id !in mem && Fitting(ws, cs, mem)
    ensures Fitting(ws, cs, mem[id := v]) && Outcome(ws, cs, mem[id := v]) == Outcome(ws, cs, mem)[id := v]
  {
    FitsAfter(cs, mem, LandAll(ws, mem));
    LandAllBesideNew(ws, mem, id, v);
    RunAllBesideNew(cs, mem, id, v);
    RunAllBesideNew(cs, LandAll(ws, mem), id, v);
  }

  lemma LandSnoc(ws: seq<Staged>, w: Staged, mem: Memory)
    requires AllStagedFit(ws, mem) && StagedFits(w, mem)
    ensures AllStagedFit(ws + [w], mem) && StagedFits(w, LandAll(ws, mem))
    ensures LandAll(ws + [w], mem) == Land(w, LandAll(ws, mem))
  {
    assert (ws + [w])[..|ws|] == ws;
  }

  lemma SpliceZeros(size: nat, data: Bytes)
    requires |data| <= size
    ensures Splice(Zeros(size), 0, data) == data + Zeros(size - |data|)
  {
  }

  lemma LandOnNew(ws: seq<Staged>, mem: Memory, id: nat, size: nat, data: Bytes)
    requires id !in mem && AllStagedFit(ws, mem) && |data| <= size
    ensures AllStagedFit(ws + [Staged(id, 0, data)], mem[id := Zeros(size)])
    ensures LandAll(ws + [Staged(id, 0, data)], mem[id := Zeros(size)])
         == LandAll(ws, mem)[id := data + Zeros(size - |data|)]
  {
    hide LandAll, AllStagedFit, Splice;
    LandAllBesideNew(ws, mem, id, Zeros(size));
    LandSnoc(ws, Staged(id, 0, data), mem[id := Zeros(size)]);
    SpliceZeros(size, data);
  }

  /** `build_node`'s write to its fresh meta buffer may be staged while commands are still
      pending: it lands before them, and nothing can tell. */
  lemma FreshWriteNeedsNoOrdering(ws: seq<Staged>, cs: seq<Command>, mem: Memory, id: nat, size: nat, data: Bytes)
    requires id !in mem && Fitting(ws, cs, mem) && |data| <= size
    ensures Fitting(ws + [Staged(id, 0, data)], cs, mem[id := Zeros(size)])
    ensures Outcome(ws + [Staged(id, 0, data)], cs, mem[id := Zeros(size)])
         == Outcome(ws, cs, mem)[id := data + Zeros(size - |data|)]
  {
    FitsAfter(cs, mem, LandAll(ws, mem));
    hide RunAll, LandAll, AllStagedFit, AllCommandsFit, SameShape;
    LandOnNew(ws, mem, id, size, data);
    RunAllBesideNew(cs, mem, id, Zeros(size));
    RunAllBesideNew(cs, LandAll(ws, mem), id, data + Zeros(size - |data|));
  }

  /** A copy to a fresh staging buffer takes what the source will hold. */
  lemma StagingCopy(ws: seq<Staged>, cs: seq<Command>, mem: Memory, staging: nat, src: nat, offset: nat, bytes: nat)
    requires staging !in mem && Fitting(ws, cs, mem) && InRange(mem, src, offset, bytes)
    ensures Fitting(ws, cs + [Copy(src, offset, staging, 0, bytes)], mem[staging := Zeros(bytes)])
    ensures InRange(Outcome(ws, cs, mem), src, offset, bytes)
    ensures Outcome(ws, cs + [Copy(src, offset, staging, 0, bytes)], mem[staging := Zeros(bytes)])
         == Outcome(ws, cs, mem)[staging := Outcome(ws, cs, mem)[src][offset..offset + bytes]]
  {
    var now := Outcome(ws, cs, mem);
    assert SameShape(mem, now) && InRange(now, src, offset, bytes);
    hide Fitting, Outcome, Splice, SameShape;
    NewBuffer(ws, cs, mem, staging, Zeros(bytes));
    OneMoreCommand(ws, cs, mem[staging := Zeros(bytes)], Copy(src, offset, staging, 0, bytes));
    var piece := now[src][offset..offset + bytes];
    SpliceZeros(bytes, piece);
    assert piece + Zeros(0) == piece;
  }
}
