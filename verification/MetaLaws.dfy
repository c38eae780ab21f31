/** What a node's meta values mean to the builtins: the sizes its tensors need, and the native
    kernel's result for those sizes. */
module MetaLaws {
  import opened Arith
  import opened Rules
  import opened Blocks
  import opened Cpu
  import opened Scopes
  import opened Layout
  import opened Native
  import opened Builtins
  import opened NativeShaders
  import Simt
  import TreeReduction

  /** The sizes a builtin's meta names, in its order: M, N, K; rows, columns; or n. */
  datatype Dims = Dims(x: nat, y: nat, z: nat)

  /** The meta values say these sizes. */
  ghost predicate Says(b: Builtin, meta: seq<MetaValue>, s: Dims) {
    match b
    case MatmulOf(_) => meta == [UintValue(s.x), UintValue(s.y), UintValue(s.z)]
    case GemvCall => meta == [UintValue(s.x), UintValue(s.y), UintValue(s.z)]
    case TransposeCall => meta == [UintValue(s.x), UintValue(s.y)]
    case ReduceCall(_) => meta == [UintValue(s.x)]
  }

  /** The elements these sizes take in each slot: A is MxK, B is KxN, C is MxN (`gemv` has one
      row); a transposed matrix takes as many as before; a reduction's inputs have n, and its
      partials one per workgroup, and one even without any. */
  ghost predicate Takes(b: Builtin, s: Dims, wg: Workgroups, lens: seq<nat>) {
    match b
    case MatmulOf(_) => lens == [s.x * s.z, s.z * s.y, s.x * s.y]
    case GemvCall => lens == [s.z, s.z * s.y, s.y]
    case TransposeCall => lens == [s.x * s.y, s.x * s.y]
    case ReduceCall(dot) =>
      var groups := wg.x * wg.y * wg.z;
      lens == (if dot then [s.x, s.x] else [s.x]) + [if groups > 0 then groups else 1]
  }

  /** What the kernel makes of those of its slots' floats. */
  ghost predicate Computes(b: Builtin, ar: Arith<Float>, s: Dims, f: seq<seq<Float>>, result: seq<Float>) {
    match b
    case MatmulOf(v) =>
      |f| == 3 && Native.LongEnough(Shape(s.x, s.y, s.z), f[0], f[1], f[2])
      && result == MatmulResult(ar, v, Shape(s.x, s.y, s.z), f[0], f[1], f[2])
    case GemvCall =>
      |f| == 3 && GemvLongEnough(Shape(s.x, s.y, s.z), f[0], f[1], f[2])
      && result == GemvResult(ar, Shape(s.x, s.y, s.z), f[0], f[1], f[2])
    case TransposeCall =>
      |f| == 2 && |f[0]| >= s.x * s.y && |f[1]| >= s.x * s.y && result == TransposeResult(s.x, s.y, f[0], f[1])
    case ReduceCall(dot) =>
      |f| == (if dot then 3 else 2) && Long(Reduction(dot, s.x), f[0], f[1]) && |f[|f| - 1]| > 0
      && result == ReductionResult(ar, Reduction(dot, s.x), f[0], f[1], f[|f| - 1])
  }

  lemma WordsSay(b: Builtin, meta: seq<MetaValue>, s: Dims)
    requires Says(b, meta, s)
    ensures Word(Words(meta), 0) == s.x
    ensures b.MatmulOf? || b.GemvCall? || b.TransposeCall? ==> Word(Words(meta), 1) == s.y
    ensures b.MatmulOf? || b.GemvCall? ==> Word(Words(meta), 2) == s.z
  {
  }

  /** The lengths a node checks are those its meta values take. */
  lemma LensFromMeta(b: Builtin, meta: seq<MetaValue>, s: Dims, wg: Workgroups)
    requires Says(b, meta, s)
    ensures Takes(b, s, wg, MinLens(SignatureOf(b), Words(meta), wg))
  {
    WordsSay(b, meta, s);
    hide Words, Word;
  }

  lemma ResultFromMeta(b: Builtin, ar: Arith<Float>, meta: seq<MetaValue>, s: Dims, f: seq<seq<Float>>)
    requires Says(b, meta, s) && Enough(b, Words(meta), f)
    ensures Computes(b, ar, s, f, NativeShaders.Result(b, ar, Words(meta), f))
  {
    WordsSay(b, meta, s);
    hide Words, Word, MatmulResult, GemvResult, TransposeResult;
    if b.ReduceCall? {
      TermsOfSum(ar, s.x, f[0], f[1]);
    }
  }

  /** A `sum` has no second input. */
  lemma TermsOfSum(ar: Arith<Float>, n: nat, x: seq<Float>, y: seq<Float>)
    requires |x| >= n
    ensures Terms(ar, Reduction(false, n), x, y) == Terms(ar, Reduction(false, n), x, [])
  {
  }

  /** Tensors a reduction's check accepts are enough for the kernel that leaves a partial for
      each workgroup, and the partials could not be fewer. */
  lemma PartialsFit<T>(
    dot: bool, s: Dims, g: Grid, lens: seq<nat>, mem: Simt.Memory<T>, x: seq<T>, y: seq<T>, partial: seq<T>)
    requires g.Dispatched() && Takes(ReduceCall(dot), s, Workgroups(g.x, g.y, 1), lens)
    requires Simt.Holds(mem, 0, x) && (dot ==> Simt.Holds(mem, 1, y))
    requires Simt.Holds(mem, TreeReduction.PARTIAL, partial)
    requires forall w: nat, k: nat | w < g.x * g.y && k < 256 :: TreeReduction.Scratch(w, k) in mem
    ensures TreeReduction.Bound(Reduction(dot, s.x), g, mem, x, y, partial)
       <==> |x| >= lens[0] && (dot ==> |y| >= lens[1]) && |partial| >= lens[|lens| - 1]
  {
    assert g.x * g.y > 0;
  }

  /** The floats bound to a call's slots. */
  ghost function FloatsIn(bufs: seq<Tensor>, args: seq<Arg>, mem: Memory): (f: seq<seq<Float>>)
    requires InScope(bufs, args) && forall j | 0 <= j < |args| :: bufs[args[j].slot].buf.address in mem
    ensures |f| == |args| && forall j | 0 <= j < |args| :: f[j] == ReadFloats(mem[bufs[args[j].slot].buf.address])
  {
    seq(|args|, j requires 0 <= j < |args| => ReadFloats(mem[bufs[args[j].slot].buf.address]))
  }

  /** A node's check of a call, in plain terms. */
  lemma PassesPlainly(b: Builtin, ar: Arith<Float>, n: Node, bufs: seq<Tensor>, args: seq<Arg>)
    requires n.Valid() && n.shader == ShaderOf(b, ar) && InScope(bufs, args)
    ensures CheckCall(n.shader.sig, n.lens, bufs, args).Passed? <==>
      && |args| == |n.lens|
      && (forall j | 0 <= j < |args| ::
            bufs[args[j].slot].kind.F32? && bufs[args[j].slot].len >= n.lens[j] && (args[j].write <==> j == |args| - 1))
      && forall j | 0 <= j < |args| - 1 :: args[j].slot != args[|args| - 1].slot
  {
    var layout := n.shader.sig.layout;
    CheckPassesExactly(n.shader.sig, n.lens, bufs, args);
    LastRole(b);
    hide CheckCall, Words, MinLens, TypesOf, ShaderOf, RolesOf;
    if |args| == |layout| {
      assert forall j | 0 <= j < |args| :: SlotsOf(args)[j] == args[j].slot;
    }
  }

  lemma LastRole(b: Builtin)
    ensures |RolesOf(b)| > 0
    ensures forall j | 0 <= j < |RolesOf(b)| ::
              RolesOf(b)[j].kind.F32? && (Written(RolesOf(b)[j]) <==> j == |RolesOf(b)| - 1)
  {
  }

  lemma LeftBySizes(
    b: Builtin, ar: Arith<Float>, n: Node, bufs: seq<Tensor>, args: seq<Arg>, s: Dims, mem: Memory, after: Memory)
    requires n.Valid() && n.shader == ShaderOf(b, ar) && InScope(bufs, args) && Says(b, n.meta, s)
    requires Stays(b, ar, n.words, n.lens, SlotsOfCall(bufs, args), mem, mem)
    requires after == Invoke(Invocation(ShaderOf(b, ar).code, n.words, SlotsOfCall(bufs, args)), mem)
    ensures |args| > 0 && forall j | 0 <= j < |args| :: bufs[args[j].slot].buf.address in mem
    ensures var w := bufs[args[|args| - 1].slot].buf.address;
      && SameShape(mem, after)
      && Computes(b, ar, s, FloatsIn(bufs, args, mem), ReadFloats(after[w]))
      && forall a | a in mem && a != w :: after[a] == mem[a]
  {
    var slots := SlotsOfCall(bufs, args);
    assert forall j | 0 <= j < |args| :: slots[j].block == bufs[args[j].slot].buf.address;
    assert ReadAll(Contents(slots, mem)) == FloatsIn(bufs, args, mem);
    hide Invoke, Computes, Says, NativeShaders.Result, Enough, ShaderOf, Words, MinLens, TypesOf, ReadFloats;
    ResultFromMeta(b, ar, n.meta, s, FloatsIn(bufs, args, mem));
  }

  /** Main result: an execute of a builtin's node, in terms of its meta values. It passes exactly
      when the tensors are F32, hold what the sizes take, and are read and written as they
      should be, the last slot's in no other; it then leaves the kernel's result for those
      sizes in the last slot, and changes nothing else. */
  method ExecuteSizes(scope: Scope, node: nat, args: seq<Arg>, b: Builtin, ar: Arith<Float>, s: Dims)
    returns (r: Check)
    requires scope.Valid() && node < |scope.nodes| && InScope(scope.bufs, args)
    requires scope.nodes[node].shader == ShaderOf(b, ar) && scope.dev.recording.None?
    requires Says(b, scope.nodes[node].meta, s)
    modifies scope`recording, scope.dev`mem, scope.dev`recording
    ensures scope.Valid() && Takes(b, s, scope.nodes[node].workgroups, scope.nodes[node].lens)
    ensures r.Passed? <==>
      && |args| == |scope.nodes[node].lens|
      && (forall j | 0 <= j < |args| ::
            var t := scope.bufs[args[j].slot];
            t.kind.F32? && t.len >= scope.nodes[node].lens[j] && (args[j].write <==> j == |args| - 1))
      && forall j | 0 <= j < |args| - 1 :: args[j].slot != args[|args| - 1].slot
    ensures r.Failed? ==> scope.dev.mem == old(scope.dev.mem)
    ensures r.Passed? ==>
      && |args| > 0 && (forall j | 0 <= j < |args| :: scope.bufs[args[j].slot].buf.address in old(scope.dev.mem))
      && var w := scope.bufs[args[|args| - 1].slot].buf.address;
      && SameShape(old(scope.dev.mem), scope.dev.mem)
      && Computes(b, ar, s, FloatsIn(scope.bufs, args, old(scope.dev.mem)), ReadFloats(scope.dev.mem[w]))
      && forall a | a in old(scope.dev.mem) && a != w :: scope.dev.mem[a] == old(scope.dev.mem)[a]
  {
    ghost var n, mem := scope.nodes[node], scope.dev.mem;
    LensFromMeta(b, n.meta, s, n.workgroups);
    assert n.Valid();
    PassesPlainly(b, ar, n, scope.bufs, args);
    hide Takes, Says, CheckCall, Computes, Stays, Apart, Sound, ShaderOf, Acceptable, Words, MinLens;
    r := ExecuteBuiltin(scope, node, args, b, ar, mem);
    if r.Passed? {
      LeftBySizes(b, ar, n, scope.bufs, args, s, mem, scope.dev.mem);
    }
  }
}
