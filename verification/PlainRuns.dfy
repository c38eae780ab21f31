/** A run as plain values: what its tensors hold by id, its calls' metas, and its dynamics. On
    these an execute is a step like any other. */
module PlainRuns {
  import opened Options
  import opened Dtype
  import opened Rules
  import opened Blocks
  import opened TypedTensors
  import opened Cpu
  import opened Plans
  import opened Runs
  import opened Dynamics

  /** What stays: the calls, their order, and the tensors' kinds and lengths. */
  datatype Program = Program(calls: map<nat, Call>, order: seq<nat>, tensors: Tensors) {
    ghost predicate Made() {
      && (forall id | id in tensors :: tensors[id].Live?)
      && (forall id | id in order :: id in calls)
      && forall id | id in calls :: CallFits(calls[id], tensors)
    }

    /** The dynamics its calls read. */
    ghost function Dynamics(): set<Dynamic> {
      set id, d | id in calls && d in Watched(calls[id].sources) :: d
    }
  }

  datatype Plain = Plain(store: Memory, metas: map<nat, seq<MetaValue>>, dynamics: map<Dynamic, Option<nat>>)

  ghost predicate Fits(p: Program, s: Plain) {
    && p.Made()
    && s.store.Keys == p.tensors.Keys
    && (forall id | id in p.tensors :: |s.store[id]| == BufferBytes(p.tensors[id].Kind(), p.tensors[id].Len()))
    && s.metas.Keys == p.calls.Keys
    && (forall id | id in p.calls :: TypesOf(s.metas[id]) == p.calls[id].node.shader.sig.meta)
    && s.dynamics.Keys == p.Dynamics()
  }

  // ----------------------------------------------------------------------------
  // Executes
  // ----------------------------------------------------------------------------

  /** A call with some meta, on the store. */
  ghost function JobOf(call: Call, meta: seq<MetaValue>): Invocation
    requires |call.tensors| == |call.node.shader.sig.layout|
  {
    Invocation(call.node.shader.code, Words(meta),
      seq(|call.tensors|, j requires 0 <= j < |call.tensors| =>
        SlotRef(call.tensors[j], Written(call.node.shader.sig.layout[j]))))
  }

  ghost function JobsOf(p: Program, metas: map<nat, seq<MetaValue>>, k: nat): (r: seq<Invocation>)
    requires p.Made() && metas.Keys == p.calls.Keys && k <= |p.order|
    ensures |r| == k && forall mem: Memory | mem.Keys == p.tensors.Keys :: AllHave(mem, r)
  {
    if k == 0 then []
    else
      var id := p.order[k - 1];
      assert id in p.order && CallFits(p.calls[id], p.tensors);
      JobsOf(p, metas, k - 1) + [JobOf(p.calls[id], metas[id])]
  }

  /** Whether the call's tensors are long enough for some meta. */
  ghost function LengthsOf(call: Call, meta: seq<MetaValue>, tensors: Tensors): Check
    requires CallFits(call, tensors)
  {
    LengthsFrom(MinLens(call.node.shader.sig, Words(meta), call.node.workgroups), LensOf(tensors, call.tensors), 0)
  }

  /** The first failing call's error, from place `k` on. */
  ghost function LengthsFail(p: Program, metas: map<nat, seq<MetaValue>>, k: nat): Check
    requires p.Made() && metas.Keys == p.calls.Keys && k <= |p.order|
    decreases |p.order| - k
  {
    if k == |p.order| then Passed
    else
      assert p.order[k] in p.order;
      LengthsOf(p.calls[p.order[k]], metas[p.order[k]], p.tensors).Then(LengthsFail(p, metas, k + 1))
  }

  // ----------------------------------------------------------------------------
  // Moves
  // ----------------------------------------------------------------------------

  /** What a program does with a captured run. The last two bind it into a new scope. */
  datatype Move =
    | UploadMove(id: nat, data: HostData)
    | ZeroMove(id: nat)
    | SetMove(dynamic: Dynamic, value: nat)
    | ApplyMove
    | ReplayMove

  ghost predicate AllGiven(sources: seq<MetaSource>, dynamics: map<Dynamic, Option<nat>>)
    requires Watched(sources) <= dynamics.Keys
  {
    forall j | 0 <= j < |sources| && sources[j].PerRun() :: dynamics[sources[j].from].Some?
  }

  ghost function RefreshedBy(sources: seq<MetaSource>, meta: seq<MetaValue>, dynamics: map<Dynamic, Option<nat>>)
    : (r: seq<MetaValue>)
    requires |meta| == |sources| && Watched(sources) <= dynamics.Keys && AllGiven(sources, dynamics)
    ensures |r| == |meta|
  {
    seq(|meta|, j requires 0 <= j < |meta| =>
      match sources[j]
      case UintPerRun(d) => UintValue(dynamics[d].value)
      case FloatPerRun(d) => FloatValue(dynamics[d].value)
      case _ => meta[j])
  }

  lemma MetaSized(p: Program, s: Plain, id: nat)
    requires Fits(p, s) && id in p.calls
    ensures |s.metas[id]| == |p.calls[id].sources| && Watched(p.calls[id].sources) <= s.dynamics.Keys
  {
    assert |TypesOf(s.metas[id])| == |SourceTypes(p.calls[id].sources)|;
  }

  ghost predicate CanApply(p: Program, s: Plain)
    requires Fits(p, s)
  {
    forall id | id in p.calls :: MetaSized(p, s, id); AllGiven(p.calls[id].sources, s.dynamics)
  }

  ghost function Applied(p: Program, s: Plain): map<nat, seq<MetaValue>>
    requires Fits(p, s) && CanApply(p, s)
  {
    map id | id in p.calls :: MetaSized(p, s, id); RefreshedBy(p.calls[id].sources, s.metas[id], s.dynamics)
  }

  /** One move: the state after it, and its reply. An execute that would fail leaves all as it
      was, as a replay checks every call before it runs any. */
  ghost function Step(p: Program, s: Plain, m: Move): (Plain, Check)
    requires Fits(p, s) && (m.UploadMove? ==> m.data.Valid())
  {
    match m
    case UploadMove(id, data) =>
      if id !in p.tensors then (s, Failed(NotInPlan(TheTensor)))
      else
        var u := Upload(p.tensors[id].Kind(), p.tensors[id].Len(), s.store[id], data);
        if u.Err? then (s, Failed(u.error)) else (s.(store := s.store[id := u.value]), Passed)
    case ZeroMove(id) =>
      if id !in p.tensors then (s, Failed(NotInPlan(TheTensor)))
      else (s.(store := s.store[id := Zeros(|s.store[id]|)]), Passed)
    case SetMove(d, v) =>
      (if d in s.dynamics then s.(dynamics := s.dynamics[d := Some(v)]) else s, Passed)
    case ApplyMove =>
      if CanApply(p, s) then (s.(metas := Applied(p, s)), Passed) else (s, Failed(DynamicUnset))
    case ReplayMove =>
      var check := LengthsFail(p, s.metas, 0);
      if check.Failed? then (s, check)
      else (s.(store := InvokeAll(JobsOf(p, s.metas, |p.order|), s.store)), Passed)
  }

  lemma TypesRefreshed(sources: seq<MetaSource>, meta: seq<MetaValue>, dynamics: map<Dynamic, Option<nat>>)
    requires TypesOf(meta) == SourceTypes(sources) && Watched(sources) <= dynamics.Keys && AllGiven(sources, dynamics)
    ensures |meta| == |sources| && TypesOf(RefreshedBy(sources, meta, dynamics)) == TypesOf(meta)
  {
    assert |TypesOf(meta)| == |SourceTypes(sources)|;
    forall j | 0 <= j < |sources|
      ensures RefreshedBy(sources, meta, dynamics)[j].Type() == meta[j].Type()
    {
      assert TypesOf(meta)[j] == SourceTypes(sources)[j];
    }
  }

  lemma AppliedFits(p: Program, s: Plain)
    requires Fits(p, s) && CanApply(p, s)
    ensures Fits(p, s.(metas := Applied(p, s)))
  {
    forall id | id in p.calls
      ensures TypesOf(Applied(p, s)[id]) == p.calls[id].node.shader.sig.meta
    {
      MetaSized(p, s, id);
      assert CallFits(p.calls[id], p.tensors);
      TypesRefreshed(p.calls[id].sources, s.metas[id], s.dynamics);
    }
    hide RefreshedBy;
  }

  lemma StepFits(p: Program, s: Plain, m: Move)
    requires Fits(p, s) && (m.UploadMove? ==> m.data.Valid())
    ensures Fits(p, Step(p, s, m).0)
  {
    hide Upload, InvokeAll, Applied, LengthsFail, CanApply, TypesOf, Program.Made, BufferBytes;
    if m.ApplyMove? && CanApply(p, s) {
      AppliedFits(p, s);
    }
  }

  ghost predicate AllValid(moves: seq<Move>) {
    forall m | m in moves && m.UploadMove? :: m.data.Valid()
  }

  /** The moves in order: the state after them, and each one's reply. */
  ghost function After(p: Program, s: Plain, moves: seq<Move>): (r: (Plain, seq<Check>))
    requires Fits(p, s) && AllValid(moves)
    ensures Fits(p, r.0) && |r.1| == |moves|
  {
    if moves == [] then (s, [])
    else
      var n := |moves| - 1;
      var before := After(p, s, moves[..n]);
      StepFits(p, before.0, moves[n]);
      var last := Step(p, before.0, moves[n]);
      (last.0, before.1 + [last.1])
  }

  lemma OneMoreMove(p: Program, s: Plain, moves: seq<Move>, k: nat)
    requires Fits(p, s) && AllValid(moves) && k < |moves|
    ensures AllValid(moves[..k]) && AllValid(moves[..k + 1])
    ensures var (before, last) := (After(p, s, moves[..k]), Step(p, After(p, s, moves[..k]).0, moves[k]));
      After(p, s, moves[..k + 1]) == (last.0, before.1 + [last.1])
  {
    assert moves[..k + 1][..k] == moves[..k];
  }
}
