/** The builtins' signatures: what their `min_lens` promise, and that a call that passes its
    checks gives native code all that it indexes. */
module Builtins {
  import opened Dtype
  import opened Rules
  import opened Blocks
  import opened Cpu
  import opened Scopes
  import opened Native

  datatype Builtin = MatmulOf(v: Variant) | GemvCall | TransposeCall | ReduceCall(dot: bool)

  /** A meta word. `NodeSpec::new` and `ComputeDevice::node` check their count. */
  function Word(words: seq<nat>, k: nat): nat {
    if k < |words| then words[k] else 0
  }

  /** `min_lens`: how many elements the shape in the words asks of a slot. */
  function Needs(b: Builtin, words: seq<nat>, wg: Workgroups, slot: nat): nat {
    var (x, y, z) := (Word(words, 0), Word(words, 1), Word(words, 2));
    match b
    case MatmulOf(_) => if slot == 0 then x * z else if slot == 1 then z * y else x * y
    case GemvCall => if slot == 0 then z else if slot == 1 then z * y else y
    case TransposeCall => x * y
    case ReduceCall(dot) =>
      var partials := wg.x * wg.y * wg.z;
      if slot + 1 < |RolesOf(b)| then x else if partials == 0 then 1 else partials
  }

  function RolesOf(b: Builtin): seq<Role> {
    match b
    case MatmulOf(Accumulating) => [Input(F32), Input(F32), Accumulate(F32)]
    case MatmulOf(_) => [Input(F32), Input(F32), Output(F32)]
    case GemvCall => [Input(F32), Input(F32), Output(F32)]
    case TransposeCall => [Input(F32), Output(F32)]
    case ReduceCall(dot) => if dot then [Input(F32), Input(F32), Output(F32)] else [Input(F32), Output(F32)]
  }

  function MetaOf(b: Builtin): seq<MetaType> {
    match b
    case MatmulOf(_) => [Uint, Uint, Uint]
    case GemvCall => [Uint, Uint, Uint]
    case TransposeCall => [Uint, Uint]
    case ReduceCall(_) => [Uint]
  }

  function SignatureOf(b: Builtin): Signature {
    Signature(MetaOf(b), RolesOf(b), (words: seq<nat>, wg: Workgroups, slot: nat) => Needs(b, words, wg, slot))
  }

  /** `read_f32` of a slot: its whole buffer, four bytes an element. */
  ghost function Floats(t: Tensor, mem: Memory): nat
    requires SoundIn(t, mem)
  {
    |mem[t.buf.address]| / 4
  }

  /** What the native code of `b` indexes is inside the `n[j]` floats of its slots. */
  predicate Contained(b: Builtin, words: seq<nat>, n: seq<nat>)
    requires |n| == |RolesOf(b)|
  {
    var (x, y, z) := (Word(words, 0), Word(words, 1), Word(words, 2));
    match b
    case MatmulOf(_) => n[0] >= x * z && n[1] >= z * y && n[2] >= x * y
    case GemvCall => n[0] >= z && n[1] >= z * y && n[2] >= y
    case TransposeCall => n[0] >= x * y && n[1] >= x * y
    case ReduceCall(dot) => n[0] >= x && (dot ==> n[1] >= x) && n[|n| - 1] >= 1
  }

  ghost function FloatsOf(bufs: seq<Tensor>, args: seq<Arg>, mem: Memory): (n: seq<nat>)
    requires InScope(bufs, args) && forall j | 0 <= j < |bufs| :: SoundIn(bufs[j], mem)
    ensures |n| == |args|
  {
    seq(|args|, j requires 0 <= j < |args| => Floats(bufs[args[j].slot], mem))
  }

  /** Main result: a call of a node whose `lens` are its shader's `min_lens`, on sound
      tensors, gives native code all that it indexes, once it passes its checks. */
  lemma CheckedIsContained(
    b: Builtin, words: seq<nat>, wg: Workgroups, bufs: seq<Tensor>, args: seq<Arg>, mem: Memory)
    requires InScope(bufs, args) && forall j | 0 <= j < |bufs| :: SoundIn(bufs[j], mem)
    requires CheckCall(SignatureOf(b), MinLens(SignatureOf(b), words, wg), bufs, args).Passed?
    ensures |args| == |RolesOf(b)| && Contained(b, words, FloatsOf(bufs, args, mem))
  {
    var sig, lens := SignatureOf(b), MinLens(SignatureOf(b), words, wg);
    CheckPassesExactly(sig, lens, bufs, args);
    assert |args| == |RolesOf(b)|;
    hide CheckCall;
    forall j | 0 <= j < |args|
      ensures FloatsOf(bufs, args, mem)[j] >= Needs(b, words, wg, j)
    {
      SlotIsContained(b, words, wg, bufs, args, mem, j);
    }
    hide Acceptable, FloatsOf, SoundIn, MinLens;
  }

  lemma SlotIsContained(
    b: Builtin, words: seq<nat>, wg: Workgroups, bufs: seq<Tensor>, args: seq<Arg>, mem: Memory, j: nat)
    requires InScope(bufs, args) && forall j | 0 <= j < |bufs| :: SoundIn(bufs[j], mem)
    requires Acceptable(SignatureOf(b), MinLens(SignatureOf(b), words, wg), bufs, args) && j < |args|
    ensures FloatsOf(bufs, args, mem)[j] >= Needs(b, words, wg, j)
  {
    var t := bufs[args[j].slot];
    FloatsHold(t, mem);
    hide Needs, BufferBytes;
  }

  lemma FloatsHold(t: Tensor, mem: Memory)
    requires SoundIn(t, mem) && t.kind == F32
    ensures Floats(t, mem) == t.len
  {
  }

  /** `Contained` is exactly what the native methods require of their slices. */
  lemma ContainedIsRequired<T>(b: Builtin, words: seq<nat>, x: seq<T>, y: seq<T>, out: seq<T>)
    ensures var shape := Shape(Word(words, 0), Word(words, 1), Word(words, 2));
      Contained(b, words, if |RolesOf(b)| == 3 then [|x|, |y|, |out|] else [|x|, |out|]) <==>
        match b
        case MatmulOf(_) => Native.LongEnough(shape, x, y, out)
        case GemvCall => GemvLongEnough(shape, x, y, out)
        case TransposeCall => |x| >= shape.m * shape.n && |out| >= shape.m * shape.n
        case ReduceCall(dot) => Long(Reduction(dot, shape.m), x, y) && |out| > 0
  {
  }
}
