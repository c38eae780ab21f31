/** What a call does, slot by slot: the code gets its node's meta values and its slots' bytes;
    slots that aren't inputs take what it leaves there, and nothing else changes. */
module ScopeLaws {
  import opened Blocks
  import opened Dtype
  import opened Rules
  import opened Cpu
  import opened Scopes
  import opened Plans
  import opened Runs
  import opened PlainRuns

  /** What the code is given of a meta: one word per value, in order. */
  ghost function WordsOf(meta: seq<MetaValue>): (r: seq<nat>)
    ensures |r| == |meta| && forall k | 0 <= k < |meta| ::
              meta[k] == (if meta[k].UintValue? then UintValue(r[k]) else FloatValue(r[k]))
  {
    seq(|meta|, k requires 0 <= k < |meta| => match meta[k] case UintValue(w) => w case FloatValue(w) => w)
  }

  /** What the code leaves of the bytes in `blocks`, one per slot. */
  ghost function Left(shader: Shader, meta: seq<MetaValue>, blocks: seq<nat>, mem: Memory): seq<Bytes>
    requires forall j | 0 <= j < |blocks| :: blocks[j] in mem
  {
    shader.code(WordsOf(meta), seq(|blocks|, j requires 0 <= j < |blocks| => mem[blocks[j]]))
  }

  /** `after` is `mem` after the shader ran on the slots' `blocks`, one per slot. */
  ghost predicate Acts(shader: Shader, meta: seq<MetaValue>, blocks: seq<nat>, mem: Memory, after: Memory) {
    && |blocks| == |shader.sig.layout| && (forall j | 0 <= j < |blocks| :: blocks[j] in mem) && SameShape(mem, after)
    && var out := Left(shader, meta, blocks, mem);
    && (forall j | 0 <= j < |blocks| && j < |out| && !shader.sig.layout[j].Input? && |out[j]| == |mem[blocks[j]]| ::
          after[blocks[j]] == out[j])
    && forall a | a in mem && (forall j | 0 <= j < |blocks| && blocks[j] == a :: shader.sig.layout[j].Input?) ::
         after[a] == mem[a]
  }

  ghost predicate OneWriter(slots: seq<SlotRef>, mem: Memory)
    requires Has(mem, slots)
  {
    forall j, k | 0 <= j < |slots| && 0 <= k < |slots| && j != k && slots[j].write && slots[j].block == slots[k].block ::
      mem[slots[j].block] == []
  }

  /** An invocation whose slots are written as their roles say acts so. */
  lemma InvokeActs(shader: Shader, meta: seq<MetaValue>, slots: seq<SlotRef>, blocks: seq<nat>, mem: Memory)
    requires Has(mem, slots) && |slots| == |blocks| == |shader.sig.layout| && OneWriter(slots, mem)
    requires forall j | 0 <= j < |slots| :: slots[j] == SlotRef(blocks[j], !shader.sig.layout[j].Input?)
    ensures Acts(shader, meta, blocks, mem, Invoke(Invocation(shader.code, Words(meta), slots), mem))
  {
    assert Words(meta) == WordsOf(meta);
    assert Contents(slots, mem) == seq(|blocks|, j requires 0 <= j < |blocks| => mem[blocks[j]]);
    var out := Left(shader, meta, blocks, mem);
    assert Invoke(Invocation(shader.code, Words(meta), slots), mem) == WriteBack(slots, out, mem);
    hide Invoke, Contents, Words, WordsOf, Left;
    WriteBackKeepsShape(slots, out, mem);
    forall j | 0 <= j < |blocks| && j < |out| && !shader.sig.layout[j].Input? && |out[j]| == |mem[blocks[j]]|
      ensures WriteBack(slots, out, mem)[blocks[j]] == out[j]
    {
      if mem[blocks[j]] != [] {
        WriteBackAt(slots, out, mem, j);
      }
    }
    forall a | a in mem && (forall j | 0 <= j < |blocks| && blocks[j] == a :: shader.sig.layout[j].Input?)
      ensures WriteBack(slots, out, mem)[a] == mem[a]
    {
      WriteBackFrame(slots, out, mem, a);
    }
  }

  // ----------------------------------------------------------------------------
  // Which error a check finds
  // ----------------------------------------------------------------------------

  lemma {:induction false} FirstWrongKind(layout: seq<Role>, kinds: seq<Kind>, slot: nat, j: nat)
    requires slot <= j < |layout| == |kinds| && layout[j].kind != kinds[j]
    requires forall i | slot <= i < j :: layout[i].kind == kinds[i]
    ensures KindsFrom(layout, kinds, slot) == Failed(SlotKind(j, layout[j].kind, kinds[j]))
    decreases j - slot
  {
    if slot < j {
      FirstWrongKind(layout, kinds, slot + 1, j);
    }
  }

  lemma SlotChecksNext(sig: Signature, lens: seq<nat>, tensors: seq<Tensor>, args: seq<Arg>, slot: nat)
    requires slot < |sig.layout| == |lens| == |tensors| == |args|
    ensures SlotChecks(sig, lens, tensors, args, slot)
         == if args[slot].write == sig.layout[slot].Input? then Failed(SlotAccess(slot))
            else if tensors[slot].len < lens[slot] then Failed(TooShort(slot, lens[slot], tensors[slot].len))
            else SlotChecks(sig, lens, tensors, args, slot + 1)
  {
  }

  lemma {:induction false} FirstWrongSlot(
    sig: Signature, lens: seq<nat>, tensors: seq<Tensor>, args: seq<Arg>, slot: nat, j: nat)
    requires slot <= j < |sig.layout| == |lens| == |tensors| == |args|
    requires args[j].write == sig.layout[j].Input? || tensors[j].len < lens[j]
    requires forall i | slot <= i < j :: args[i].write == !sig.layout[i].Input? && tensors[i].len >= lens[i]
    ensures SlotChecks(sig, lens, tensors, args, slot)
         == Failed(if args[j].write == sig.layout[j].Input? then SlotAccess(j) else TooShort(j, lens[j], tensors[j].len))
    decreases j - slot
  {
    hide *;
    SlotChecksNext(sig, lens, tensors, args, slot);
    if slot < j {
      FirstWrongSlot(sig, lens, tensors, args, slot + 1, j);
    }
  }

  /** The tensor in slot `j` is in another slot. */
  ghost predicate TwiceGiven(args: seq<Arg>, j: nat)
    requires j < |args|
  {
    exists i | 0 <= i < |args| && i != j :: args[i].slot == args[j].slot
  }

  lemma SharedIsTwice(args: seq<Arg>, j: nat)
    requires j < |args|
    ensures Shared(SlotsOf(args), j) <==> TwiceGiven(args, j)
  {
    assert forall i | 0 <= i < |args| :: SlotsOf(args)[i] == args[i].slot;
  }

  /** The first thing wrong with a call: the number of tensors, */
  lemma WrongCount(sig: Signature, lens: seq<nat>, bufs: seq<Tensor>, args: seq<Arg>)
    requires |lens| == |sig.layout| && InScope(bufs, args) && |args| != |sig.layout|
    ensures CheckCall(sig, lens, bufs, args) == Failed(SlotCount(|sig.layout|, |args|))
  {
  }

  /** then a slot's kind, then a slot read for written, written for read, or too short, then a
      written tensor in another slot. */
  lemma FirstError(sig: Signature, lens: seq<nat>, bufs: seq<Tensor>, args: seq<Arg>, j: nat)
    requires |lens| == |sig.layout| == |args| && InScope(bufs, args) && j < |args|
    ensures
      && bufs[args[j].slot].kind != sig.layout[j].kind
      && (forall i | 0 <= i < j :: bufs[args[i].slot].kind == sig.layout[i].kind) ==>
        CheckCall(sig, lens, bufs, args) == Failed(SlotKind(j, sig.layout[j].kind, bufs[args[j].slot].kind))
    ensures
      && (forall i | 0 <= i < |args| :: bufs[args[i].slot].kind == sig.layout[i].kind)
      && (args[j].write == sig.layout[j].Input? || bufs[args[j].slot].len < lens[j])
      && (forall i | 0 <= i < j :: args[i].write == !sig.layout[i].Input? && bufs[args[i].slot].len >= lens[i]) ==>
        CheckCall(sig, lens, bufs, args)
          == Failed(if args[j].write == sig.layout[j].Input? then SlotAccess(j)
                    else TooShort(j, lens[j], bufs[args[j].slot].len))
    ensures
      && (forall i | 0 <= i < |args| :: bufs[args[i].slot].kind == sig.layout[i].kind)
      && (forall i | 0 <= i < |args| :: args[i].write == !sig.layout[i].Input? && bufs[args[i].slot].len >= lens[i])
      && !sig.layout[j].Input? && TwiceGiven(args, j)
      && (forall i: nat | i < j && !sig.layout[i].Input? :: !TwiceGiven(args, i)) ==>
        CheckCall(sig, lens, bufs, args) == Failed(Aliased(j))
  {
    var tensors := TensorsOf(bufs, args);
    var kinds := KindsOf(tensors);
    assert forall i | 0 <= i < |args| :: tensors[i] == bufs[args[i].slot] && kinds[i] == bufs[args[i].slot].kind;
    assert CheckCall(sig, lens, bufs, args)
        == if SlotKinds(sig, kinds).Failed? then SlotKinds(sig, kinds)
           else SlotChecks(sig, lens, tensors, args, 0).Then(NotAliased(sig, SlotsOf(args)));
    assert SlotKinds(sig, kinds) == KindsFrom(sig.layout, kinds, 0);
    hide CheckCall, TensorsOf, KindsOf, SlotKinds, KindsFrom, SlotChecks, NotAliased, TwiceGiven, SlotsOf, Shared;
    if kinds[j] != sig.layout[j].kind && forall i | 0 <= i < j :: kinds[i] == sig.layout[i].kind {
      FirstWrongKind(sig.layout, kinds, 0, j);
    }
    if (args[j].write == sig.layout[j].Input? || tensors[j].len < lens[j])
       && forall i | 0 <= i < j :: args[i].write == !sig.layout[i].Input? && tensors[i].len >= lens[i] {
      FirstWrongSlot(sig, lens, tensors, args, 0, j);
    }
    forall i: nat | i < |args| ensures Shared(SlotsOf(args), i) <==> TwiceGiven(args, i) {
      SharedIsTwice(args, i);
    }
  }

  /** And with a call of a plan: a tensor that isn't in it, their number, then a slot's kind. */
  lemma FirstErrorInPlan(tensors: seq<TensorSpec>, call: CallSpec, j: nat)
    requires Distinct(TensorIds(tensors))
    ensures var (layout, kinds) := (call.node.shader.sig.layout, KindMap(tensors));
      var all := forall i | 0 <= i < |call.tensors| :: call.tensors[i] in kinds;
      && (!all ==> CheckCallSpec(tensors, call) == Failed(NotInPlan(TheTensor)))
      && (all && |call.tensors| != |layout| ==>
            CheckCallSpec(tensors, call) == Failed(SlotCount(|layout|, |call.tensors|)))
      && (all && |call.tensors| == |layout| && j < |layout| && layout[j].kind != kinds[call.tensors[j]]
          && (forall i | 0 <= i < j :: layout[i].kind == kinds[call.tensors[i]]) ==>
            CheckCallSpec(tensors, call) == Failed(SlotKind(j, layout[j].kind, kinds[call.tensors[j]])))
  {
    var layout, kinds, ids := call.node.shader.sig.layout, KindMap(tensors), call.tensors;
    KindsOfPlan(tensors, ids);
    var found := KindsOfIds(tensors, ids);
    hide KindMap, TensorIds, KindsFrom, NotAliased, KindsOfIds;
    if found.Ok? && |ids| == |layout| && j < |layout| && layout[j].kind != found.value[j]
       && forall i | 0 <= i < j :: layout[i].kind == found.value[i] {
      FirstWrongKind(layout, found.value, 0, j);
    }
  }

  /** The kinds found for some ids are the plan's. */
  lemma KindsOfPlan(tensors: seq<TensorSpec>, ids: seq<nat>)
    requires Distinct(TensorIds(tensors))
    ensures KindsOfIds(tensors, ids).Ok? <==> forall i | 0 <= i < |ids| :: ids[i] in KindMap(tensors)
    ensures KindsOfIds(tensors, ids).Ok? ==>
      && |KindsOfIds(tensors, ids).value| == |ids|
      && forall i | 0 <= i < |ids| :: ids[i] in KindMap(tensors) && KindsOfIds(tensors, ids).value[i] == KindMap(tensors)[ids[i]]
    ensures KindsOfIds(tensors, ids).Err? ==> KindsOfIds(tensors, ids).error == NotInPlan(TheTensor)
  {
    hide KindMap, TensorIds, KindsOfIds, FindTensor;
    forall k | 0 <= k < |ids|
      ensures FindTensor(tensors, ids[k]).Ok? <==> ids[k] in KindMap(tensors)
      ensures ids[k] in KindMap(tensors) ==> FindTensor(tensors, ids[k]).value.kind == KindMap(tensors)[ids[k]]
    {
    }
  }

  // ----------------------------------------------------------------------------
  // Calls in a scope
  // ----------------------------------------------------------------------------

  /** The blocks of a call's slots. */
  ghost function Addresses(bufs: seq<Tensor>, args: seq<Arg>): (r: seq<nat>)
    requires InScope(bufs, args)
    ensures |r| == |args| && forall j | 0 <= j < |args| :: r[j] == bufs[args[j].slot].buf.address
  {
    seq(|args|, j requires 0 <= j < |args| => bufs[args[j].slot].buf.address)
  }

  lemma CallSlots(node: Node, bufs: seq<Tensor>, args: seq<Arg>)
    requires node.Valid() && InScope(bufs, args) && CheckCall(node.shader.sig, node.lens, bufs, args).Passed?
    ensures var slots := Refs(RawCallOf(node, bufs, args).slots);
      && |slots| == |args| == |node.shader.sig.layout| && Unaliased(node.shader.sig.layout, SlotsOf(args))
      && forall j | 0 <= j < |slots| :: slots[j] == SlotRef(Addresses(bufs, args)[j], !node.shader.sig.layout[j].Input?)
    ensures RunNow(RawCallOf(node, bufs, args))
         == Invocation(node.shader.code, Words(node.meta), Refs(RawCallOf(node, bufs, args).slots))
  {
    CheckPassesExactly(node.shader.sig, node.lens, bufs, args);
    hide CheckCall, Words, MinLens, TypesOf, Unaliased;
  }

  lemma OneWriterHere(layout: seq<Role>, bufs: seq<Tensor>, args: seq<Arg>, slots: seq<SlotRef>, mem: Memory)
    requires InScope(bufs, args) && |slots| == |args| == |layout| && Unaliased(layout, SlotsOf(args))
    requires forall i | 0 <= i < |bufs| :: SoundIn(bufs[i], mem)
    requires forall i, j | 0 <= i < |bufs| && 0 <= j < |bufs| && i != j :: Apart(bufs[i], bufs[j])
    requires forall j | 0 <= j < |slots| :: slots[j] == SlotRef(Addresses(bufs, args)[j], !layout[j].Input?)
    ensures Has(mem, slots) && OneWriter(slots, mem)
  {
    forall j, k | 0 <= j < |slots| && 0 <= k < |slots| && j != k && slots[j].write && slots[j].block == slots[k].block
      ensures mem[slots[j].block] == []
    {
      assert SlotsOf(args)[j] == args[j].slot && SlotsOf(args)[k] == args[k].slot;
      assert Apart(bufs[args[j].slot], bufs[args[k].slot]);
    }
  }

  /** Main result: an execute outside a capture, of any shader and with any roles, fails and
      changes no buffer, or acts as its slots' roles say, on its node's meta values. */
  method ExecuteByRoles(scope: Scope, node: nat, args: seq<Arg>) returns (r: Check)
    requires scope.Valid() && node < |scope.nodes| && InScope(scope.bufs, args) && scope.dev.recording.None?
    modifies scope`recording, scope.dev`mem, scope.dev`recording
    ensures scope.Valid() && r == old(scope.CheckNow(node, args))
    ensures r.Failed? ==> scope.dev.mem == old(scope.dev.mem)
    ensures r.Passed? ==>
      Acts(scope.nodes[node].shader, scope.nodes[node].meta, Addresses(scope.bufs, args), old(scope.dev.mem), scope.dev.mem)
  {
    ghost var n, mem := scope.nodes[node], scope.dev.mem;
    if scope.CheckNow(node, args).Passed? {
      CallSlots(n, scope.bufs, args);
      ghost var slots := Refs(RawCallOf(n, scope.bufs, args).slots);
      OneWriterHere(n.shader.sig.layout, scope.bufs, args, slots, mem);
      InvokeActs(n.shader, n.meta, slots, Addresses(scope.bufs, args), mem);
    }
    hide Acts, CheckCall, Invoke, Apart, Sound, RunNow, RawCallOf, Refs, Words, OneWriter;
    r := scope.Execute(node, args);
  }

  // ----------------------------------------------------------------------------
  // Calls of a run
  // ----------------------------------------------------------------------------

  /** What a call of a run does to the tensors by id: the same. */
  lemma JobActs(call: Call, meta: seq<MetaValue>, tensors: Tensors, store: Memory)
    requires CallFits(call, tensors) && store.Keys == tensors.Keys
    ensures Has(store, JobOf(call, meta).slots)
    ensures Acts(call.node.shader, meta, call.tensors, store, Invoke(JobOf(call, meta), store))
  {
    InvokeActs(call.node.shader, meta, JobOf(call, meta).slots, call.tensors, store);
  }
}
