/** Replays find tensors by address, and empty tensors may share one: what a replay's checks
    then find. */
module EmptyTensors {
  import opened Options
  import opened Dtype
  import opened Rules
  import opened Cpu
  import opened Scopes
  import Areas

  /** The first tensor bound at each argument's address is of the argument's kind, and a
      written argument's address is no other argument's. */
  ghost predicate ToldApart(layout: seq<Role>, bufs: seq<Tensor>, args: seq<Arg>)
    requires InScope(bufs, args) && |args| == |layout|
  {
    forall j | 0 <= j < |args| ::
      && FirstAt(bufs, args[j].slot).kind == bufs[args[j].slot].kind
      && (Written(layout[j]) ==>
            forall k | 0 <= k < |args| && k != j :: bufs[args[k].slot].buf.address != bufs[args[j].slot].buf.address)
  }

  /** The first tensor bound at the address of the one in `slot`. */
  function FirstAt(bufs: seq<Tensor>, slot: nat): (t: Tensor)
    requires slot < |bufs|
    ensures t in bufs && t.buf.address == bufs[slot].buf.address
  {
    bufs[BufferPosition(bufs, bufs[slot].buf.address).value]
  }

  /** The recorded form of some arguments. */
  predicate IsRecorded(bufs: seq<Tensor>, args: seq<Arg>, recorded: seq<RecordedArg>)
    requires InScope(bufs, args)
  {
    |recorded| == |args| && forall k | 0 <= k < |args| ::
      recorded[k] == RecordedArg(bufs[args[k].slot].buf.address, args[k].write)
  }

  /** Right but for their lengths. */
  ghost predicate FitsLayout(layout: seq<Role>, bufs: seq<Tensor>, args: seq<Arg>)
    requires InScope(bufs, args)
  {
    && |args| == |layout| && Unaliased(layout, SlotsOf(args))
    && forall j | 0 <= j < |args| ::
         bufs[args[j].slot].kind == layout[j].kind && args[j].write == Written(layout[j])
  }

  /** Tensors of blocks of their own, or empty. */
  ghost predicate OwnBlocks(bufs: seq<Tensor>) {
    && (forall i | 0 <= i < |bufs| :: bufs[i].buf.bytes == BufferBytes(bufs[i].kind, bufs[i].len))
    && forall i, j | 0 <= i < |bufs| && 0 <= j < |bufs| && i != j :: Apart(bufs[i], bufs[j])
  }

  /** Whichever of them is found at an address, its length is the same. */
  lemma SameLength(bufs: seq<Tensor>, slot: nat)
    requires OwnBlocks(bufs) && slot < |bufs|
    ensures FirstAt(bufs, slot).len == bufs[slot].len
  {
    var i := BufferPosition(bufs, bufs[slot].buf.address).value;
    if i != slot {
      assert Apart(bufs[i], bufs[slot]);
      NoBytesNoElements(bufs[i]);
      NoBytesNoElements(bufs[slot]);
    }
  }

  lemma NoBytesNoElements(t: Tensor)
    requires BufferBytes(t.kind, t.len) == 0
    ensures t.len == 0
  {
    assert BytesFor(t.kind, t.len) == 0;
    assert t.len * Bits(t.kind) >= t.len;
  }

  /** Recorded arguments are found, each as the first tensor at its address. */
  lemma {:induction false} Found(bufs: seq<Tensor>, args: seq<Arg>, recorded: seq<RecordedArg>)
    requires InScope(bufs, args) && IsRecorded(bufs, args, recorded)
    ensures FindArgs(bufs, recorded).Ok?
    ensures
      var found := FindArgs(bufs, recorded).value;
      && |found| == |args|
      && forall k | 0 <= k < |args| ::
           found[k].slot < |bufs| && bufs[found[k].slot] == FirstAt(bufs, args[k].slot) && found[k].write == args[k].write
  {
    forall k | 0 <= k < |recorded|
      ensures BufferPosition(bufs, recorded[k].address).Some?
    {
      assert bufs[args[k].slot].buf.address == recorded[k].address;
    }
  }

  /** Two recorded arguments are found in one slot exactly when they have one address. */
  lemma FoundTogether(bufs: seq<Tensor>, args: seq<Arg>, recorded: seq<RecordedArg>, j: nat, k: nat)
    requires InScope(bufs, args) && IsRecorded(bufs, args, recorded) && j < |args| && k < |args|
    ensures FindArgs(bufs, recorded).Ok?
    ensures
      var found := FindArgs(bufs, recorded).value;
      found[j].slot == found[k].slot <==> bufs[args[j].slot].buf.address == bufs[args[k].slot].buf.address
  {
    Found(bufs, args, recorded);
  }

  lemma FoundUnaliased(layout: seq<Role>, bufs: seq<Tensor>, args: seq<Arg>, recorded: seq<RecordedArg>)
    requires InScope(bufs, args) && IsRecorded(bufs, args, recorded) && |args| == |layout|
    ensures FindArgs(bufs, recorded).Ok?
    ensures Unaliased(layout, SlotsOf(FindArgs(bufs, recorded).value)) <==>
              forall j, k | 0 <= j < |args| && 0 <= k < |args| && j != k && Written(layout[j]) ::
                bufs[args[k].slot].buf.address != bufs[args[j].slot].buf.address
  {
    Found(bufs, args, recorded);
    var slots := SlotsOf(FindArgs(bufs, recorded).value);
    forall j, k | 0 <= j < |args| && 0 <= k < |args|
      ensures slots[j] == slots[k] <==> bufs[args[j].slot].buf.address == bufs[args[k].slot].buf.address
    {
      FoundTogether(bufs, args, recorded, j, k);
    }
    hide FindArgs, IsRecorded, SlotsOf;
  }

  /** What is found for some arguments passes its check exactly when the first tensor at each
      address has the slot's kind and length, and no written slot's address is another's. */
  lemma FirstsPassExactly(
    sig: Signature, lens: seq<nat>, bufs: seq<Tensor>, args: seq<Arg>, recorded: seq<RecordedArg>)
    requires |lens| == |sig.layout| == |args| && InScope(bufs, args) && IsRecorded(bufs, args, recorded)
    requires forall j | 0 <= j < |args| :: args[j].write == Written(sig.layout[j])
    ensures FindArgs(bufs, recorded).Ok?
    ensures CheckCall(sig, lens, bufs, FindArgs(bufs, recorded).value).Passed? <==>
              forall j | 0 <= j < |args| ::
                && FirstAt(bufs, args[j].slot).kind == sig.layout[j].kind
                && FirstAt(bufs, args[j].slot).len >= lens[j]
                && (Written(sig.layout[j]) ==>
                      forall k | 0 <= k < |args| && k != j ::
                        bufs[args[k].slot].buf.address != bufs[args[j].slot].buf.address)
  {
    hide FindArgs, CheckCall, FirstAt, Unaliased, SlotsOf, IsRecorded;
    Found(bufs, args, recorded);
    FoundUnaliased(sig.layout, bufs, args, recorded);
    CheckPassesExactly(sig, lens, bufs, FindArgs(bufs, recorded).value);
  }

  /** Of tensors with blocks of their own, what is found passes exactly when the arguments are
      long enough and told apart: a wrong pick can only make it fail. */
  lemma FoundPassesExactly(
    sig: Signature, lens: seq<nat>, bufs: seq<Tensor>, args: seq<Arg>, recorded: seq<RecordedArg>)
    requires |lens| == |sig.layout| && InScope(bufs, args) && FitsLayout(sig.layout, bufs, args)
    requires OwnBlocks(bufs) && IsRecorded(bufs, args, recorded)
    ensures FindArgs(bufs, recorded).Ok?
    ensures CheckCall(sig, lens, bufs, FindArgs(bufs, recorded).value).Passed? <==>
              && (forall j | 0 <= j < |args| :: bufs[args[j].slot].len >= lens[j])
              && ToldApart(sig.layout, bufs, args)
  {
    hide FindArgs, CheckCall, FirstAt, OwnBlocks, Unaliased, SlotsOf, IsRecorded;
    FirstsPassExactly(sig, lens, bufs, args, recorded);
    forall j | 0 <= j < |args|
      ensures FirstAt(bufs, args[j].slot).len == bufs[args[j].slot].len
    {
      SameLength(bufs, args[j].slot);
    }
  }

  /** No first tensor at an argument's address is longer than the argument. */
  ghost predicate NoLongerFirst(bufs: seq<Tensor>, args: seq<Arg>)
    requires InScope(bufs, args)
  {
    forall j | 0 <= j < |args| :: FirstAt(bufs, args[j].slot).len <= bufs[args[j].slot].len
  }

  /** Main result: whatever elements a node comes to need, a wrong pick can only make a check
      fail, exactly when no first tensor is longer than the argument it is taken for, or the
      arguments aren't told apart, when every check of what is found fails. */
  lemma WrongPickOnlyFails(sig: Signature, bufs: seq<Tensor>, args: seq<Arg>, recorded: seq<RecordedArg>)
    requires InScope(bufs, args) && FitsLayout(sig.layout, bufs, args) && IsRecorded(bufs, args, recorded)
    ensures FindArgs(bufs, recorded).Ok?
    ensures
      (forall lens: seq<nat> | |lens| == |sig.layout| ::
         CheckCall(sig, lens, bufs, FindArgs(bufs, recorded).value).Passed? ==> CheckCall(sig, lens, bufs, args).Passed?)
      <==> (ToldApart(sig.layout, bufs, args) ==> NoLongerFirst(bufs, args))
  {
    Found(bufs, args, recorded);
    var found, firsts := FindArgs(bufs, recorded).value, FirstLens(bufs, args);
    hide *;
    forall lens: seq<nat> | |lens| == |sig.layout|
      ensures CheckCall(sig, lens, bufs, found).Passed? <==> ToldApart(sig.layout, bufs, args) && Reach(firsts, lens)
      ensures CheckCall(sig, lens, bufs, args).Passed? <==> OwnReach(bufs, args, lens)
    {
      Verdicts(sig, lens, bufs, args, recorded);
    }
    FirstsReach(sig, bufs, args);
    forall lens: seq<nat> | |lens| == |sig.layout| && NoLongerFirst(bufs, args) && Reach(firsts, lens)
      ensures OwnReach(bufs, args, lens)
    {
      ReachAlong(bufs, args, lens);
    }
  }

  /** The lengths of the first tensors. */
  ghost function FirstLens(bufs: seq<Tensor>, args: seq<Arg>): (r: seq<nat>)
    requires InScope(bufs, args)
  {
    seq(|args|, j requires 0 <= j < |args| => FirstAt(bufs, args[j].slot).len)
  }

  ghost predicate Reach(has: seq<nat>, lens: seq<nat>) {
    |has| == |lens| && forall j | 0 <= j < |has| :: has[j] >= lens[j]
  }

  ghost predicate OwnReach(bufs: seq<Tensor>, args: seq<Arg>, lens: seq<nat>)
    requires InScope(bufs, args)
  {
    |args| == |lens| && forall j | 0 <= j < |args| :: bufs[args[j].slot].len >= lens[j]
  }

  lemma FirstsReach(sig: Signature, bufs: seq<Tensor>, args: seq<Arg>)
    requires InScope(bufs, args) && FitsLayout(sig.layout, bufs, args)
    ensures |FirstLens(bufs, args)| == |sig.layout| && Reach(FirstLens(bufs, args), FirstLens(bufs, args))
    ensures OwnReach(bufs, args, FirstLens(bufs, args)) <==> NoLongerFirst(bufs, args)
  {
    hide FirstAt;
    var firsts := FirstLens(bufs, args);
    assert forall j | 0 <= j < |args| :: firsts[j] == FirstAt(bufs, args[j].slot).len;
  }

  lemma ReachAlong(bufs: seq<Tensor>, args: seq<Arg>, lens: seq<nat>)
    requires InScope(bufs, args) && NoLongerFirst(bufs, args) && Reach(FirstLens(bufs, args), lens)
    ensures OwnReach(bufs, args, lens)
  {
    hide FirstAt;
  }

  lemma Verdicts(sig: Signature, lens: seq<nat>, bufs: seq<Tensor>, args: seq<Arg>, recorded: seq<RecordedArg>)
    requires |lens| == |sig.layout| && InScope(bufs, args) && FitsLayout(sig.layout, bufs, args)
    requires IsRecorded(bufs, args, recorded)
    ensures FindArgs(bufs, recorded).Ok?
    ensures CheckCall(sig, lens, bufs, FindArgs(bufs, recorded).value).Passed?
       <==> ToldApart(sig.layout, bufs, args) && Reach(FirstLens(bufs, args), lens)
    ensures CheckCall(sig, lens, bufs, args).Passed? <==> OwnReach(bufs, args, lens)
  {
    hide FindArgs, CheckCall, FirstAt, Unaliased, SlotsOf, IsRecorded;
    FirstsPassExactly(sig, lens, bufs, args, recorded);
    CheckPassesExactly(sig, lens, bufs, args);
  }

  // ----------------------------------------------------------------------------
  // Parts of areas
  // ----------------------------------------------------------------------------

  /** A shader that reads one slot. */
  function ReadOne(code: Native): Shader {
    Shader(Signature([], [Input(F32)], (words: seq<nat>, wg: Workgroups, slot: nat) => 1), code)
  }

  /** The buffer of a part of an area at `base`. */
  function PartAt(base: nat, c: Areas.Carver, owner: nat): Buffer
    requires c.status.Got?
  {
    Buffer(base + c.status.start, c.bytes, owner)
  }

  /** An empty part of a CPU area, before its end, breaks it: bound after the part it shares its
      address with, its execute is too short, and what is found for it passes. */
  lemma EmptyPartPasses(
    a: Areas.Area, run: seq<Areas.State>, k: nat, i: nat, base: nat, dev: Device, code: Native)
    returns (j: nat, t: Tensor, empty: Tensor)
    requires Areas.IsRun(a, run) && k < |run| && a.CpuArea? && i < |run[k].carvers|
    requires Areas.EmptyBefore(run[k].carvers[i], run[k].next)
    requires forall c | c in run[k].carvers :: c.bytes % 4 == 0
    ensures j < |run[k].carvers| && run[k].carvers[j].status.Got?
    ensures empty == Tensor(F32, 0, PartAt(base, run[k].carvers[i], dev.owner), dev)
    ensures t.kind == F32 && t.buf == PartAt(base, run[k].carvers[j], dev.owner) && t.dev == dev
    ensures t.buf.bytes == BufferBytes(F32, t.len) && empty.buf.bytes == BufferBytes(F32, 0)
    ensures
      var (sig, bufs) := (ReadOne(code).sig, [t, empty]);
      && CheckCall(sig, [1], bufs, [Arg(1, false)]) == Failed(TooShort(0, 1, 0))
      && FindArgs(bufs, [RecordedArg(empty.buf.address, false)]) == Ok([Arg(0, false)])
      && CheckCall(sig, [1], bufs, [Arg(0, false)]).Passed?
  {
    j := Areas.EmptyPartSharesItsStart(a, run, k, i);
    var c, e := run[k].carvers[j], run[k].carvers[i];
    assert c in run[k].carvers;
    hide Areas.IsRun;
    t := PartTensor(base, c, dev);
    empty := Tensor(F32, 0, PartAt(base, e, dev.owner), dev);
    assert BufferBytes(F32, 0) == 0;
    hide *;
    LongerFirstPasses(t, empty, code);
  }

  lemma PartTensor(base: nat, c: Areas.Carver, dev: Device) returns (t: Tensor)
    requires c.status.Got? && c.bytes > 0 && c.bytes % 4 == 0
    ensures t.kind == F32 && t.len > 0 && t.buf == PartAt(base, c, dev.owner) && t.dev == dev
    ensures t.buf.bytes == BufferBytes(F32, t.len)
    ensures t.buf.address == base + c.status.start
  {
    t := Tensor(F32, c.bytes / 4, PartAt(base, c, dev.owner), dev);
  }

  lemma LongerFirstPasses(t: Tensor, empty: Tensor, code: Native)
    requires t.kind == F32 && empty.kind == F32 && t.len > 0 && empty.len == 0
    requires t.buf.address == empty.buf.address
    ensures
      var (sig, bufs) := (ReadOne(code).sig, [t, empty]);
      && CheckCall(sig, [1], bufs, [Arg(1, false)]) == Failed(TooShort(0, 1, 0))
      && FindArgs(bufs, [RecordedArg(empty.buf.address, false)]) == Ok([Arg(0, false)])
      && CheckCall(sig, [1], bufs, [Arg(0, false)]).Passed?
  {
    CheckPassesExactly(ReadOne(code).sig, [1], [t, empty], [Arg(0, false)]);
    EmptyIsTooShort(t, empty, code);
    FoundFirst(t, empty, false);
    assert SlotsOf([Arg(0, false)]) == [0];
    hide CheckCall, FindArgs;
  }

  lemma EmptyIsTooShort(t: Tensor, empty: Tensor, code: Native)
    requires empty.kind == F32 && empty.len == 0
    ensures CheckCall(ReadOne(code).sig, [1], [t, empty], [Arg(1, false)]) == Failed(TooShort(0, 1, 0))
  {
    assert SlotsOf([Arg(1, false)]) == [1];
  }

  lemma FoundFirst(t: Tensor, u: Tensor, write: bool)
    requires t.buf.address == u.buf.address
    ensures FindArgs([t, u], [RecordedArg(u.buf.address, write)]) == Ok([Arg(0, write)])
  {
    var bufs, recorded := [t, u], [RecordedArg(t.buf.address, write)];
    assert bufs[0].buf.address == t.buf.address;
    assert BufferPosition(bufs, t.buf.address) == Some(0);
    hide BufferPosition;
    assert FindArgs(bufs, recorded).Ok?;
    assert FindArgs(bufs, recorded).value == [Arg(0, write)];
  }

  // ----------------------------------------------------------------------------
  // Empty tensors of their own
  // ----------------------------------------------------------------------------

  /** A tensor that isn't empty is told apart from all others. */
  lemma NonEmptyToldApart(sig: Signature, bufs: seq<Tensor>, args: seq<Arg>)
    requires InScope(bufs, args) && FitsLayout(sig.layout, bufs, args) && OwnBlocks(bufs)
    requires forall j | 0 <= j < |args| :: bufs[args[j].slot].buf.bytes > 0
    ensures ToldApart(sig.layout, bufs, args)
  {
    forall j | 0 <= j < |args|
      ensures forall i | 0 <= i < |bufs| && i != args[j].slot :: bufs[i].buf.address != bufs[args[j].slot].buf.address
    {
      forall i | 0 <= i < |bufs| && i != args[j].slot
        ensures bufs[i].buf.address != bufs[args[j].slot].buf.address
      {
        assert Apart(bufs[i], bufs[args[j].slot]);
      }
    }
    forall j, k | 0 <= j < |args| && 0 <= k < |args| && k != j && Written(sig.layout[j])
      ensures args[k].slot != args[j].slot
    {
      assert SlotsOf(args)[j] == args[j].slot && SlotsOf(args)[k] == args[k].slot;
    }
  }

  /** A shader that reads one slot and writes another, and needs no elements. */
  function ReadWrite(code: Native): Shader {
    Shader(Signature([], [Input(F32), Output(F32)], (words: seq<nat>, wg: Workgroups, slot: nat) => 0), code)
  }

  /** Two empty tensors of one address: an execute accepts them, and what is recorded of it is
      found twice in the first, and refused. */
  lemma EmptyTensorsConfuse(t: Tensor, u: Tensor, code: Native)
    requires t.kind == F32 && u.kind == F32 && t.buf.address == u.buf.address
    ensures
      var (sig, bufs) := (ReadWrite(code).sig, [t, u]);
      var address := t.buf.address;
      && CheckCall(sig, [0, 0], bufs, [Arg(0, false), Arg(1, true)]).Passed?
      && FindArgs(bufs, [RecordedArg(address, false), RecordedArg(address, true)]) == Ok([Arg(0, false), Arg(0, true)])
      && CheckCall(sig, [0, 0], bufs, [Arg(0, false), Arg(0, true)]) == Failed(Aliased(1))
  {
    BothPass(t, u, code);
    FoundTwice(t, u);
    FirstTwiceFails(t, u, code);
  }

  lemma BothPass(t: Tensor, u: Tensor, code: Native)
    requires t.kind == F32 && u.kind == F32
    ensures CheckCall(ReadWrite(code).sig, [0, 0], [t, u], [Arg(0, false), Arg(1, true)]).Passed?
  {
    CheckPassesExactly(ReadWrite(code).sig, [0, 0], [t, u], [Arg(0, false), Arg(1, true)]);
    assert SlotsOf([Arg(0, false), Arg(1, true)]) == [0, 1];
    hide CheckCall;
  }

  lemma FoundTwice(t: Tensor, u: Tensor)
    requires t.buf.address == u.buf.address
    ensures FindArgs([t, u], [RecordedArg(t.buf.address, false), RecordedArg(t.buf.address, true)])
         == Ok([Arg(0, false), Arg(0, true)])
  {
    var bufs, recorded := [t, u], [RecordedArg(t.buf.address, false), RecordedArg(t.buf.address, true)];
    assert bufs[0].buf.address == t.buf.address;
    assert BufferPosition(bufs, t.buf.address) == Some(0);
    hide BufferPosition;
    assert FindArgs(bufs, recorded).Ok?;
    assert FindArgs(bufs, recorded).value == [Arg(0, false), Arg(0, true)];
  }

  lemma FirstTwiceFails(t: Tensor, u: Tensor, code: Native)
    requires t.kind == F32
    ensures CheckCall(ReadWrite(code).sig, [0, 0], [t, u], [Arg(0, false), Arg(0, true)]) == Failed(Aliased(1))
  {
    var args := [Arg(0, false), Arg(0, true)];
    assert SlotsOf(args)[0] == SlotsOf(args)[1];
    CheckPassesExactly(ReadWrite(code).sig, [0, 0], [t, u], args);
  }

  /** Two empty tensors and one node are bound. */
  ghost predicate TwoEmpty(scope: Scope, code: Native)
    reads scope, scope.dev, scope.nodes
  {
    && scope.Valid() && scope.recording.None? && scope.dev.recording.None?
    && |scope.bufs| == 2 && scope.bufs[0].kind == F32 && scope.bufs[1].kind == F32
    && scope.bufs[0].buf.address == scope.bufs[1].buf.address
    && |scope.nodes| == 1 && scope.nodes[0].shader == ReadWrite(code) && scope.nodes[0].lens == [0, 0]
  }

  method BindEmpty(dev: Device, t: Tensor, u: Tensor) returns (scope: Scope)
    requires dev.Valid() && t.dev == u.dev == dev && Sound(t) && Sound(u) && Apart(t, u)
    ensures fresh(scope) && scope.Valid() && scope.dev == dev && scope.recording.None?
    ensures scope.bufs == [t, u] && scope.nodes == []
  {
    scope := new Scope(dev);
    var a := scope.Bind(t);
    var b := scope.Bind(u);
  }

  method BindTwoEmpty(owner: nat, code: Native) returns (scope: Scope)
    ensures fresh(scope) && fresh(scope.dev) && fresh(scope.nodes) && TwoEmpty(scope, code)
  {
    var dev := new Device(owner);
    var x := dev.AllocRaw(0);
    var y := dev.AllocRaw(0);
    var t, u := Tensor(F32, 0, x, dev), Tensor(F32, 0, y, dev);
    scope := BindEmpty(dev, t, u);
    var node := new Node(dev, ReadWrite(code), [], Workgroups(1, 1, 1));
    var n := scope.BindNode(node);
  }

  /** The execute is accepted; what is recorded of it is refused. */
  lemma ReplayIsRefused(scope: Scope, code: Native)
    requires TwoEmpty(scope, code)
    ensures scope.CheckNow(0, [Arg(0, false), Arg(1, true)]).Passed?
    ensures ReplayCheck(scope.nodes, scope.bufs, RecordedCallOf(scope.nodes[0], scope.bufs, [Arg(0, false), Arg(1, true)]))
         == Failed(Aliased(1))
  {
    var t, u, address := scope.bufs[0], scope.bufs[1], scope.bufs[0].buf.address;
    assert scope.bufs == [t, u];
    EmptyTensorsConfuse(t, u, code);
    assert RecordedCallOf(scope.nodes[0], scope.bufs, [Arg(0, false), Arg(1, true)]).args
        == [RecordedArg(address, false), RecordedArg(address, true)];
    hide CheckCall, FindArgs;
  }

  const BOTH: seq<Arg> := [Arg(0, false), Arg(1, true)]

  ghost function RecordedBoth(scope: Scope): RecordedCall
    requires |scope.bufs| == 2 && |scope.nodes| == 1
    reads scope
  {
    RecordedCallOf(scope.nodes[0], scope.bufs, BOTH)
  }

  method ExecuteBoth(scope: Scope, code: Native) returns (executed: Check)
    requires TwoEmpty(scope, code)
    modifies scope`recording, scope.dev`mem, scope.dev`recording
    ensures TwoEmpty(scope, code) && executed.Passed?
  {
    ReplayIsRefused(scope, code);
    hide CheckCall, Apart, Sound, RecordedCallOf, RawCallOf, Invoke, RunNow, Refs, AllMatch;
    executed := scope.Execute(0, BOTH);
  }

  /** A capture of that execute. */
  method RecordBoth(scope: Scope, code: Native) returns (r: Recording)
    requires TwoEmpty(scope, code)
    modifies scope`recording, scope.dev
    ensures TwoEmpty(scope, code) && r.dev == scope.dev && scope.Replayable(r) && r.calls == [RecordedBoth(scope)]
  {
    ReplayIsRefused(scope, code);
    hide CheckCall, Apart, Sound, RecordedCallOf, RawCallOf, Invoke, RunNow, Refs, AllMatch, ReadWrite, Scope.Replayable;
    var begun := scope.BeginCapture();
    var passed := scope.Execute(0, BOTH);
    var ended := scope.EndCapture(passed);
    r := ended.value;
    OneCallIsThere(scope, BOTH, r);
  }

  /** A recording of one call of a scope's own tensors is replayable. */
  lemma OneCallIsThere(scope: Scope, args: seq<Arg>, r: Recording)
    requires scope.Valid() && |scope.nodes| > 0 && InScope(scope.bufs, args)
    requires AllMatch(r.calls, r.raw.calls) && r.raw.owner == scope.dev.owner
    requires r.raw.calls == [RawCallOf(scope.nodes[0], scope.bufs, args)]
    ensures scope.Replayable(r)
  {
    hide Apart;
  }

  method ReplayBoth(scope: Scope, code: Native, recording: Recording) returns (replayed: Check)
    requires TwoEmpty(scope, code) && recording.dev == scope.dev && scope.Replayable(recording)
    requires recording.calls == [RecordedBoth(scope)]
    modifies scope.dev`mem
    ensures replayed == Failed(Aliased(1))
  {
    ReplayIsRefused(scope, code);
    hide CheckCall, ReplayCheck, Apart, Sound, RecordedCallOf, RawCallOf, Invoke, RunNow, Refs, AllMatch, Scope.Replayable;
    replayed := scope.Replay(recording);
  }

  /** And it happens: two empty tensors of a new device share an address. Their execute passes,
      and a replay of it is refused. */
  method ReplayRefusesEmpty(owner: nat, code: Native) returns (executed: Check, replayed: Check)
    ensures executed.Passed? && replayed == Failed(Aliased(1))
  {
    hide TwoEmpty, Scope.Replayable;
    var scope := BindTwoEmpty(owner, code);
    executed := ExecuteBoth(scope, code);
    var recording := RecordBoth(scope, code);
    replayed := ReplayBoth(scope, code, recording);
  }
}
