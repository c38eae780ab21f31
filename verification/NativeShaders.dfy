/** The builtins' native code on bytes: read as floats, computed by the native kernels, and
    written back. An execute that passes its checks runs it inside its tensors. */
module NativeShaders {
  import opened Arith
  import opened Rules
  import opened Blocks
  import opened Cpu
  import opened Scopes
  import opened Native
  import opened NativeLaws
  import opened Builtins

  /** A float's four bytes; `Arith<Float>` says what adding and multiplying them gives. */
  type Float = b: Bytes | |b| == 4 witness [0, 0, 0, 0]

  // ----------------------------------------------------------------------------
  // Floats in bytes
  // ----------------------------------------------------------------------------

  function FloatAt(b: Bytes, i: nat): Float
    requires 4 * i + 4 <= |b|
  {
    b[4 * i..4 * i + 4]
  }

  /** `read_f32`. A buffer is whole floats. */
  function ReadFloats(b: Bytes): (f: seq<Float>)
    ensures |f| == |b| / 4 && forall i | 0 <= i < |f| :: f[i] == FloatAt(b, i)
  {
    seq(|b| / 4, i requires 0 <= i < |b| / 4 => FloatAt(b, i))
  }

  /** The bytes `write_f32` copies into the slot. */
  function FloatBytes(f: seq<Float>): (b: Bytes)
    ensures |b| == 4 * |f|
  {
    if f == [] then [] else FloatBytes(f[..|f| - 1]) + f[|f| - 1]
  }

  lemma {:induction false} FloatBytesAt(f: seq<Float>, i: nat)
    requires i < |f|
    ensures FloatAt(FloatBytes(f), i) == f[i]
  {
    if i < |f| - 1 {
      FloatBytesAt(f[..|f| - 1], i);
    }
  }

  /** What is written is what is read. */
  lemma ReadsBack(f: seq<Float>)
    ensures ReadFloats(FloatBytes(f)) == f
  {
    forall i | 0 <= i < |f| ensures FloatAt(FloatBytes(f), i) == f[i] {
      FloatBytesAt(f, i);
    }
  }

  lemma SameFloatsFromSameBytes(b: Bytes, c: Bytes, n: nat)
    requires 4 * n <= |b| && 4 * n <= |c| && b[..4 * n] == c[..4 * n]
    ensures ReadFloats(b)[..n] == ReadFloats(c)[..n]
  {
    forall i: nat | i < n ensures FloatAt(b, i) == FloatAt(c, i) {
      assert FloatAt(b, i) == b[..4 * n][4 * i..4 * i + 4] && FloatAt(c, i) == c[..4 * n][4 * i..4 * i + 4];
    }
  }

  /** Equal floats are equal bytes. */
  lemma SameBytesFromSameFloats(b: Bytes, c: Bytes, from: nat, to: nat)
    requires from <= to && 4 * to <= |b| && 4 * to <= |c| && ReadFloats(b)[from..to] == ReadFloats(c)[from..to]
    ensures b[4 * from..4 * to] == c[4 * from..4 * to]
  {
    forall k: nat | 4 * from <= k < 4 * to ensures b[k] == c[k] {
      var i := k / 4;
      assert ReadFloats(b)[from..to][i - from] == FloatAt(b, i) && ReadFloats(c)[from..to][i - from] == FloatAt(c, i);
      assert b[k] == FloatAt(b, i)[k - 4 * i] && c[k] == FloatAt(c, i)[k - 4 * i];
    }
  }

  // ----------------------------------------------------------------------------
  // The code of a builtin
  // ----------------------------------------------------------------------------

  function Sizes(f: seq<seq<Float>>): (n: seq<nat>)
    ensures |n| == |f|
  {
    seq(|f|, j requires 0 <= j < |f| => |f[j]|)
  }

  /** The slots' floats are enough for all that the code indexes. */
  predicate Enough(b: Builtin, words: seq<nat>, f: seq<seq<Float>>) {
    |f| == |RolesOf(b)| && Contained(b, words, Sizes(f))
  }

  function ShapeOf(words: seq<nat>): Shape {
    Shape(Word(words, 0), Word(words, 1), Word(words, 2))
  }

  /** The second input of a `dot`. */
  function Second(dot: bool, f: seq<seq<Float>>): seq<Float>
    requires |f| == if dot then 3 else 2
  {
    if dot then f[1] else []
  }

  /** What the native kernel leaves in the last slot, the one it writes. */
  function Result(b: Builtin, ar: Arith<Float>, words: seq<nat>, f: seq<seq<Float>>): (r: seq<Float>)
    requires Enough(b, words, f)
    ensures |r| == |f[|f| - 1]|
  {
    match b
    case MatmulOf(v) => MatmulResult(ar, v, ShapeOf(words), f[0], f[1], f[2])
    case GemvCall => GemvResult(ar, ShapeOf(words), f[0], f[1], f[2])
    case TransposeCall => TransposeResult(Word(words, 0), Word(words, 1), f[0], f[1])
    case ReduceCall(dot) => ReductionResult(ar, Reduction(dot, Word(words, 0)), f[0], Second(dot, f), f[|f| - 1])
  }

  function ReadAll(slots: seq<Bytes>): (f: seq<seq<Float>>)
    ensures |f| == |slots|
  {
    seq(|slots|, j requires 0 <= j < |slots| => ReadFloats(slots[j]))
  }

  /** The code on its slots' bytes. Where it would index past a slot it panics: it then has
      no effect here. */
  function Run(b: Builtin, ar: Arith<Float>, words: seq<nat>, slots: seq<Bytes>): (out: seq<Bytes>)
    ensures |out| == |slots|
  {
    var f := ReadAll(slots);
    if Enough(b, words, f) then slots[|slots| - 1 := FloatBytes(Result(b, ar, words, f))] else slots
  }

  function ShaderOf(b: Builtin, ar: Arith<Float>): Shader {
    Shader(SignatureOf(b), (words: seq<nat>, slots: seq<Bytes>) => Run(b, ar, words, slots))
  }

  /** The entry point: floats are read, the kernel's loops run in place on the last slot's,
      and these are written back. */
  method Entry(b: Builtin, ar: Arith<Float>, words: seq<nat>, slots: seq<Bytes>) returns (out: seq<Bytes>)
    requires Enough(b, words, ReadAll(slots))
    ensures out == Run(b, ar, words, slots)
  {
    var f := ReadAll(slots);
    var n := |f| - 1;
    var written := new Float[|f[n]|](i requires 0 <= i < |f[n]| => f[n][i]);
    assert written[..] == f[n];
    match b {
      case MatmulOf(v) => Matmul(ar, v, ShapeOf(words), f[0], f[1], written);
      case GemvCall => Gemv(ar, ShapeOf(words), f[0], f[1], written);
      case TransposeCall => Transpose(Word(words, 0), Word(words, 1), f[0], written);
      case ReduceCall(dot) => Reduce(ar, Reduction(dot, Word(words, 0)), f[0], Second(dot, f), written);
    }
    out := slots[n := FloatBytes(written[..])];
  }

  // ----------------------------------------------------------------------------
  // It stays inside `min_lens`
  // ----------------------------------------------------------------------------

  /** Both hold what each slot needs, and agree on that. */
  ghost predicate AgreeOn(n: seq<nat>, f: seq<seq<Float>>, g: seq<seq<Float>>) {
    && |f| == |g| == |n|
    && forall j | 0 <= j < |n| :: n[j] <= |f[j]| && n[j] <= |g[j]| && f[j][..n[j]] == g[j][..n[j]]
  }

  lemma LensAreEnough(b: Builtin, words: seq<nat>, wg: Workgroups, f: seq<seq<Float>>)
    requires |f| == |RolesOf(b)|
    requires forall j | 0 <= j < |f| :: |f[j]| >= MinLens(SignatureOf(b), words, wg)[j]
    ensures Enough(b, words, f)
  {
    var lens := MinLens(SignatureOf(b), words, wg);
    forall j | 0 <= j < |f| ensures Sizes(f)[j] >= Needs(b, words, wg, j) {
      assert lens[j] == Needs(b, words, wg, j);
    }
  }

  /** The kernel's result depends on the first `min_lens` elements of each slot only, and past
      its own it leaves what was there. */
  lemma ResultStaysInMinLens(
    b: Builtin, ar: Arith<Float>, words: seq<nat>, wg: Workgroups, f: seq<seq<Float>>, g: seq<seq<Float>>)
    requires |f| == |RolesOf(b)| && AgreeOn(MinLens(SignatureOf(b), words, wg), f, g)
    ensures Enough(b, words, f) && Enough(b, words, g)
    ensures var n := MinLens(SignatureOf(b), words, wg)[|f| - 1];
      && n <= |f[|f| - 1]| && n <= |g[|f| - 1]|
      && Result(b, ar, words, f)[..n] == Result(b, ar, words, g)[..n]
      && Result(b, ar, words, f)[n..] == f[|f| - 1][n..]
  {
    LensAreEnough(b, words, wg, f);
    LensAreEnough(b, words, wg, g);
    var lens := MinLens(SignatureOf(b), words, wg);
    assert forall j | 0 <= j < |f| :: lens[j] == Needs(b, words, wg, j);
    hide MatmulResult, GemvResult, TransposeResult, ReductionResult, MinLens, SignatureOf;
    match b
    case MatmulOf(v) =>
      MatmulStaysInMinLens(ar, v, ShapeOf(words), f[0], f[1], f[2], g[0], g[1], g[2]);
    case GemvCall =>
      GemvStaysInMinLens(ar, ShapeOf(words), f[0], f[1], f[2], g[0], g[1], g[2]);
    case TransposeCall =>
      TransposeStaysInMinLens(Word(words, 0), Word(words, 1), f[0], f[1], g[0], g[1]);
    case ReduceCall(dot) =>
      var n := |f| - 1;
      ReductionStaysInMinLens(ar, Reduction(dot, Word(words, 0)), f[0], Second(dot, f), f[n], g[0], Second(dot, g), g[n], lens[n]);
  }

  /** Whole floats, at least `min_lens` of each slot, and the same there. */
  ghost predicate SameFirst(lens: seq<nat>, slots: seq<Bytes>, slots': seq<Bytes>) {
    && |slots| == |slots'| == |lens|
    && forall j | 0 <= j < |lens| ::
         && |slots'[j]| == |slots[j]| && |slots[j]| % 4 == 0 && 4 * lens[j] <= |slots[j]|
         && slots'[j][..4 * lens[j]] == slots[j][..4 * lens[j]]
  }

  lemma SameFirstAgree(lens: seq<nat>, slots: seq<Bytes>, slots': seq<Bytes>)
    requires SameFirst(lens, slots, slots')
    ensures AgreeOn(lens, ReadAll(slots), ReadAll(slots'))
  {
    forall j | 0 <= j < |lens|
      ensures ReadAll(slots)[j][..lens[j]] == ReadAll(slots')[j][..lens[j]]
    {
      SameFloatsFromSameBytes(slots[j], slots'[j], lens[j]);
    }
  }

  /** The same of the bytes. */
  lemma RunStaysInMinLens(
    b: Builtin, ar: Arith<Float>, words: seq<nat>, wg: Workgroups, slots: seq<Bytes>, slots': seq<Bytes>)
    requires |slots| == |RolesOf(b)| && SameFirst(MinLens(SignatureOf(b), words, wg), slots, slots')
    ensures Enough(b, words, ReadAll(slots))
    ensures var (n, out) := (|slots| - 1, Run(b, ar, words, slots));
      var len := MinLens(SignatureOf(b), words, wg)[n];
      && |out[n]| == |slots[n]| == |Run(b, ar, words, slots')[n]| && 4 * len <= |slots[n]|
      && ReadFloats(out[n]) == Result(b, ar, words, ReadAll(slots))
      && out[n][..4 * len] == Run(b, ar, words, slots')[n][..4 * len]
      && out[n][4 * len..] == slots[n][4 * len..]
  {
    var n, lens, f, f' := |slots| - 1, MinLens(SignatureOf(b), words, wg), ReadAll(slots), ReadAll(slots');
    SameFirstAgree(lens, slots, slots');
    ResultStaysInMinLens(b, ar, words, wg, f, f');
    var r, r' := Result(b, ar, words, f), Result(b, ar, words, f');
    assert |slots[n]| % 4 == 0 && |slots'[n]| == |slots[n]| && 4 * lens[n] <= |slots[n]|;
    assert f[n] == ReadFloats(slots[n]) && f'[n] == ReadFloats(slots'[n]);
    hide Result, Enough, SameFirst, AgreeOn, MinLens, SignatureOf, RolesOf, FloatBytes;
    WrittenBytes(slots[n], lens[n], r, r');
  }

  /** Floats written to a slot: equal ones are equal bytes. */
  lemma WrittenBytes(slot: Bytes, len: nat, r: seq<Float>, r': seq<Float>)
    requires |slot| % 4 == 0 && 4 * |r| == |slot| && |r'| == |r| && len <= |r|
    requires r[..len] == r'[..len] && r[len..] == ReadFloats(slot)[len..]
    ensures |FloatBytes(r)| == |FloatBytes(r')| == |slot| && ReadFloats(FloatBytes(r)) == r
    ensures FloatBytes(r)[..4 * len] == FloatBytes(r')[..4 * len]
    ensures FloatBytes(r)[4 * len..] == slot[4 * len..]
  {
    ReadsBack(r);
    ReadsBack(r');
    hide FloatBytes, ReadFloats;
    SameHead(FloatBytes(r), FloatBytes(r'), len);
    SameTail(FloatBytes(r), slot, len);
  }

  lemma SameHead(b: Bytes, c: Bytes, n: nat)
    requires 4 * n <= |b| && 4 * n <= |c| && ReadFloats(b)[..n] == ReadFloats(c)[..n]
    ensures b[..4 * n] == c[..4 * n]
  {
    assert ReadFloats(b)[0..n] == ReadFloats(c)[0..n];
    SameBytesFromSameFloats(b, c, 0, n);
    hide ReadFloats;
    assert b[..4 * n] == b[4 * 0..4 * n] && c[..4 * n] == c[4 * 0..4 * n];
  }

  lemma SameTail(b: Bytes, c: Bytes, n: nat)
    requires |b| == |c| && |b| % 4 == 0 && 4 * n <= |b| && ReadFloats(b)[n..] == ReadFloats(c)[n..]
    ensures b[4 * n..] == c[4 * n..]
  {
    var m := |b| / 4;
    assert ReadFloats(b)[n..m] == ReadFloats(c)[n..m];
    SameBytesFromSameFloats(b, c, n, m);
    hide ReadFloats;
    assert 4 * m == |b|;
  }

  // ----------------------------------------------------------------------------
  // Executes
  // ----------------------------------------------------------------------------

  /** Only the last slot is written, and it is in no other slot. */
  lemma LastIsWritten(slots: seq<SlotRef>, out: seq<Bytes>, mem: Memory)
    requires |slots| > 0 && Has(mem, slots) && |out| == |slots|
    requires forall k | 0 <= k < |slots| :: slots[k].write <==> k == |slots| - 1
    requires |out[|slots| - 1]| == |mem[slots[|slots| - 1].block]|
    ensures WriteBack(slots, out, mem) == mem[slots[|slots| - 1].block := out[|slots| - 1]]
  {
    var n := |slots| - 1;
    NothingWritten(slots[..n], out, mem);
  }

  lemma {:induction false} NothingWritten(slots: seq<SlotRef>, out: seq<Bytes>, mem: Memory)
    requires forall k | 0 <= k < |slots| :: !slots[k].write
    ensures WriteBack(slots, out, mem) == mem
  {
    if slots != [] {
      NothingWritten(slots[..|slots| - 1], out, mem);
    }
  }

  /** The blocks of a call's slots. */
  ghost function SlotsOfCall(bufs: seq<Tensor>, args: seq<Arg>): (r: seq<SlotRef>)
    requires InScope(bufs, args)
    ensures |r| == |args| && forall j | 0 <= j < |args| :: r[j] == SlotRef(bufs[args[j].slot].buf.address, args[j].write)
  {
    seq(|args|, j requires 0 <= j < |args| => SlotRef(bufs[args[j].slot].buf.address, args[j].write))
  }

  /** `mem'` has the first `lens` floats of each argument that has so many as `mem` has them. */
  ghost predicate SameInputs(bufs: seq<Tensor>, args: seq<Arg>, lens: seq<nat>, mem: Memory, mem': Memory)
    requires InScope(bufs, args)
  {
    && Has(mem, SlotsOfCall(bufs, args)) && SameShape(mem, mem')
    && forall j | 0 <= j < |args| && j < |lens| ::
         var (a, n) := (SlotsOfCall(bufs, args)[j].block, 4 * lens[j]);
         n <= |mem[a]| ==> mem'[a][..n] == mem[a][..n]
  }

  /** What an acceptable call of a builtin finds in its slots. */
  lemma AcceptedSlots(
    b: Builtin, words: seq<nat>, wg: Workgroups, bufs: seq<Tensor>, args: seq<Arg>, mem: Memory, mem': Memory)
    requires InScope(bufs, args) && forall j | 0 <= j < |bufs| :: SoundIn(bufs[j], mem)
    requires CheckCall(SignatureOf(b), MinLens(SignatureOf(b), words, wg), bufs, args).Passed?
    requires SameInputs(bufs, args, MinLens(SignatureOf(b), words, wg), mem, mem')
    ensures var slots := SlotsOfCall(bufs, args);
      && |args| == |RolesOf(b)| && Has(mem, slots) && Has(mem', slots)
      && SameFirst(MinLens(SignatureOf(b), words, wg), Contents(slots, mem), Contents(slots, mem'))
      && forall k | 0 <= k < |slots| :: slots[k].write <==> k == |slots| - 1
  {
    hide *;
    AcceptedArgs(b, words, wg, bufs, args, mem);
    SlotsFilled(bufs, args, MinLens(SignatureOf(b), words, wg), mem, mem');
  }

  /** Slots that hold `lens` floats, the last of them written. */
  ghost predicate Filled(bufs: seq<Tensor>, args: seq<Arg>, lens: seq<nat>, mem: Memory)
    requires InScope(bufs, args)
  {
    |lens| == |args| && forall j | 0 <= j < |args| ::
      && bufs[args[j].slot].buf.address in mem && |mem[bufs[args[j].slot].buf.address]| % 4 == 0
      && 4 * lens[j] <= |mem[bufs[args[j].slot].buf.address]|
      && (args[j].write <==> j == |args| - 1)
  }

  lemma AcceptedArgs(b: Builtin, words: seq<nat>, wg: Workgroups, bufs: seq<Tensor>, args: seq<Arg>, mem: Memory)
    requires InScope(bufs, args) && forall j | 0 <= j < |bufs| :: SoundIn(bufs[j], mem)
    requires CheckCall(SignatureOf(b), MinLens(SignatureOf(b), words, wg), bufs, args).Passed?
    ensures |args| == |RolesOf(b)| && Filled(bufs, args, MinLens(SignatureOf(b), words, wg), mem)
  {
    var sig, lens := SignatureOf(b), MinLens(SignatureOf(b), words, wg);
    CheckPassesExactly(sig, lens, bufs, args);
    hide CheckCall, Needs, MinLens, SoundIn, Unaliased;
    forall j | 0 <= j < |args|
      ensures bufs[args[j].slot].buf.address in mem && |mem[bufs[args[j].slot].buf.address]| % 4 == 0
      ensures 4 * lens[j] <= |mem[bufs[args[j].slot].buf.address]|
      ensures args[j].write <==> j == |args| - 1
    {
      FloatsThere(bufs[args[j].slot], mem);
    }
  }

  lemma SlotsFilled(bufs: seq<Tensor>, args: seq<Arg>, lens: seq<nat>, mem: Memory, mem': Memory)
    requires InScope(bufs, args) && Filled(bufs, args, lens, mem) && SameInputs(bufs, args, lens, mem, mem')
    ensures var slots := SlotsOfCall(bufs, args);
      && Has(mem, slots) && Has(mem', slots)
      && SameFirst(lens, Contents(slots, mem), Contents(slots, mem'))
      && forall k | 0 <= k < |slots| :: slots[k].write <==> k == |slots| - 1
  {
  }

  lemma FloatsThere(t: Tensor, mem: Memory)
    requires SoundIn(t, mem) && t.kind == Dtype.F32
    ensures t.buf.address in mem && |mem[t.buf.address]| == 4 * t.len
  {
    FloatsHold(t, mem);
  }

  /** Running a builtin's code replaces the last slot's block. */
  lemma InvokedBuiltin(b: Builtin, ar: Arith<Float>, words: seq<nat>, slots: seq<SlotRef>, mem: Memory)
    requires |slots| > 0 && Has(mem, slots)
    requires forall k | 0 <= k < |slots| :: slots[k].write <==> k == |slots| - 1
    requires |Run(b, ar, words, Contents(slots, mem))[|slots| - 1]| == |mem[slots[|slots| - 1].block]|
    ensures Invoke(Invocation(ShaderOf(b, ar).code, words, slots), mem)
         == mem[slots[|slots| - 1].block := Run(b, ar, words, Contents(slots, mem))[|slots| - 1]]
  {
    LastIsWritten(slots, Run(b, ar, words, Contents(slots, mem)), mem);
    hide Run, WriteBack;
  }

  /** Main result: a call of a builtin that passes its checks has all that its code indexes. It
      leaves the native kernel's result in the tensor it writes; the first `min_lens` elements
      of each slot alone decide the first `min_lens` it writes, and past these, and in every
      other block, nothing changes. */
  lemma AcceptedStaysInMinLens(
    b: Builtin, ar: Arith<Float>, words: seq<nat>, wg: Workgroups, bufs: seq<Tensor>, args: seq<Arg>,
    mem: Memory, mem': Memory)
    requires InScope(bufs, args) && forall j | 0 <= j < |bufs| :: SoundIn(bufs[j], mem)
    requires CheckCall(SignatureOf(b), MinLens(SignatureOf(b), words, wg), bufs, args).Passed?
    requires SameInputs(bufs, args, MinLens(SignatureOf(b), words, wg), mem, mem')
    ensures |args| == |RolesOf(b)| > 0
    ensures Stays(b, ar, words, MinLens(SignatureOf(b), words, wg), SlotsOfCall(bufs, args), mem, mem')
  {
    hide *;
    RolesAreSome(b);
    AcceptedSlots(b, words, wg, bufs, args, mem, mem');
    SlotsStay(b, ar, words, wg, SlotsOfCall(bufs, args), mem, mem');
  }

  lemma RolesAreSome(b: Builtin)
    ensures |RolesOf(b)| > 0 && forall words, wg :: |MinLens(SignatureOf(b), words, wg)| == |RolesOf(b)|
  {
  }

  lemma SlotsStay(
    b: Builtin, ar: Arith<Float>, words: seq<nat>, wg: Workgroups, slots: seq<SlotRef>, mem: Memory, mem': Memory)
    requires |slots| == |RolesOf(b)| && Has(mem, slots) && Has(mem', slots)
    requires SameFirst(MinLens(SignatureOf(b), words, wg), Contents(slots, mem), Contents(slots, mem'))
    requires forall k | 0 <= k < |slots| :: slots[k].write <==> k == |slots| - 1
    ensures Stays(b, ar, words, MinLens(SignatureOf(b), words, wg), slots, mem, mem')
  {
    hide Run, Result, Enough, SameFirst, MinLens, RolesOf, SignatureOf, Invoke, ReadFloats, ReadAll, Contents, ShaderOf;
    RunOnBlocks(b, ar, words, wg, slots, mem, mem');
    InvokedBuiltin(b, ar, words, slots, mem);
    InvokedBuiltin(b, ar, words, slots, mem');
  }

  lemma RunOnBlocks(
    b: Builtin, ar: Arith<Float>, words: seq<nat>, wg: Workgroups, slots: seq<SlotRef>, mem: Memory, mem': Memory)
    requires |slots| == |RolesOf(b)| && Has(mem, slots) && Has(mem', slots)
    requires SameFirst(MinLens(SignatureOf(b), words, wg), Contents(slots, mem), Contents(slots, mem'))
    ensures |MinLens(SignatureOf(b), words, wg)| == |slots| > 0
    ensures Enough(b, words, ReadAll(Contents(slots, mem)))
    ensures var (n, out) := (|slots| - 1, Run(b, ar, words, Contents(slots, mem)));
      var (len, w) := (4 * MinLens(SignatureOf(b), words, wg)[n], slots[n].block);
      && |out[n]| == |mem[w]| == |mem'[w]| == |Run(b, ar, words, Contents(slots, mem'))[n]| && len <= |mem[w]|
      && ReadFloats(out[n]) == Result(b, ar, words, ReadAll(Contents(slots, mem)))
      && out[n][..len] == Run(b, ar, words, Contents(slots, mem'))[n][..len]
      && out[n][len..] == mem[w][len..]
  {
    RolesAreSome(b);
    RunStaysInMinLens(b, ar, words, wg, Contents(slots, mem), Contents(slots, mem'));
    hide Run, Result, Enough, RolesOf, MinLens, SignatureOf, ReadFloats, ReadAll;
  }

  /** Running builtin `b` on `slots` stays inside `lens`, whatever is past these in `mem'`. */
  ghost predicate Stays(
    b: Builtin, ar: Arith<Float>, words: seq<nat>, lens: seq<nat>, slots: seq<SlotRef>, mem: Memory, mem': Memory)
  {
    && |slots| == |lens| > 0 && Has(mem, slots) && Has(mem', slots)
    && var (i, n) := (Invocation(ShaderOf(b, ar).code, words, slots), |slots| - 1);
    && var (len, w) := (4 * lens[n], slots[n].block);
    && Enough(b, words, ReadAll(Contents(slots, mem)))
    && ReadFloats(Invoke(i, mem)[w]) == Result(b, ar, words, ReadAll(Contents(slots, mem)))
    && len <= |mem[w]| == |mem'[w]|
    && Invoke(i, mem)[w][..len] == Invoke(i, mem')[w][..len]
    && Invoke(i, mem)[w][len..] == mem[w][len..]
    && forall a | a in mem && a != w :: Invoke(i, mem)[a] == mem[a]
  }

  /** The same of `Scope::execute`, on any other memory with the same first elements. */
  method ExecuteBuiltin(scope: Scope, node: nat, args: seq<Arg>, b: Builtin, ar: Arith<Float>, ghost other: Memory)
    returns (r: Check)
    requires scope.Valid() && node < |scope.nodes| && InScope(scope.bufs, args)
    requires scope.nodes[node].shader == ShaderOf(b, ar) && scope.dev.recording.None?
    requires SameInputs(scope.bufs, args, scope.nodes[node].lens, scope.dev.mem, other)
    modifies scope`recording, scope.dev`mem, scope.dev`recording
    ensures scope.Valid() && r == old(scope.CheckNow(node, args))
    ensures r.Failed? ==> scope.dev.mem == old(scope.dev.mem)
    ensures r.Passed? ==>
      var (words, slots) := (scope.nodes[node].words, SlotsOfCall(scope.bufs, args));
      && Stays(b, ar, words, scope.nodes[node].lens, slots, old(scope.dev.mem), other)
      && scope.dev.mem == Invoke(Invocation(ShaderOf(b, ar).code, words, slots), old(scope.dev.mem))
  {
    ghost var mem, n := scope.dev.mem, scope.nodes[node];
    assert n.Valid();
    if scope.CheckNow(node, args).Passed? {
      AcceptedStaysInMinLens(b, ar, n.words, n.workgroups, scope.bufs, args, mem, other);
    }
    CallIsItsSlots(n, scope.bufs, args);
    hide Stays, CheckCall, Invoke, SameInputs, Apart, Sound, ShaderOf, RunNow, RawCallOf, Refs;
    r := scope.Execute(node, args);
  }

  lemma CallIsItsSlots(node: Node, bufs: seq<Tensor>, args: seq<Arg>)
    requires InScope(bufs, args)
    ensures Refs(RawCallOf(node, bufs, args).slots) == SlotsOfCall(bufs, args)
    ensures RunNow(RawCallOf(node, bufs, args)) == Invocation(node.shader.code, node.words, SlotsOfCall(bufs, args))
  {
  }
}
