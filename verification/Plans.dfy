/** Plans: tensors and calls by id, before they are built, and the checks made on them. */
module Plans {
  import opened Options
  import opened Dtype
  import opened Rules
  import opened Cpu
  import opened TypedTensors

  /** A per-run value: a cell that all who hold it share. */
  class Dynamic {
    var value: Option<nat>

    constructor ()
      ensures value.None?
    {
      value := None;
    }

    method Set(v: nat)
      modifies this
      ensures value == Some(v)
    {
      value := Some(v);
    }
  }

  /** What is known so far of the values known later, by their identity. It only grows:
      see `Deferred`. */
  datatype Known = Known(numbers: map<nat, nat>, grids: map<nat, Workgroups>) {
    predicate Before(later: Known) {
      && (forall v | v in numbers :: v in later.numbers && later.numbers[v] == numbers[v])
      && (forall v | v in grids :: v in later.grids && later.grids[v] == grids[v])
    }
  }

  /** A meta field is a deferred value or reads a dynamic. */
  datatype MetaSource =
    | UintOnce(of: nat) | FloatOnce(of: nat) | UintPerRun(from: Dynamic) | FloatPerRun(from: Dynamic)
  {
    function Type(): MetaType {
      if UintOnce? || UintPerRun? then Uint else Float
    }

    predicate PerRun() {
      UintPerRun? || FloatPerRun?
    }

    /** The field's value in a new node: 0 until its dynamic is read. */
    function BuildValue(known: Known): (r: Result<MetaValue>)
      ensures r.Ok? ==> r.value.Type() == Type()
      ensures r.Err? <==> !PerRun() && of !in known.numbers
      ensures r.Err? ==> r.error == NotGivenYet
    {
      match this
      case UintOnce(of) => if of in known.numbers then Ok(UintValue(known.numbers[of])) else Err(NotGivenYet)
      case FloatOnce(of) => if of in known.numbers then Ok(FloatValue(known.numbers[of])) else Err(NotGivenYet)
      case UintPerRun(_) => Ok(UintValue(0))
      case FloatPerRun(_) => Ok(FloatValue(0))
    }
  }

  function SourceTypes(sources: seq<MetaSource>): (r: seq<MetaType>)
    ensures |r| == |sources|
  {
    seq(|sources|, k requires 0 <= k < |sources| => sources[k].Type())
  }

  datatype NodeSpec = NodeSpec(shader: Shader, meta: seq<MetaSource>, workgroups: nat)

  datatype CallSpec = CallSpec(id: nat, node: NodeSpec, tensors: seq<nat>)

  /** A built tensor's first contents. */
  datatype Init = Blank | UploadData(data: HostData) | ZeroFill

  /** `len` names a value that may be known later. */
  datatype TensorSpec = TensorSpec(id: nat, kind: Kind, len: nat, init: Init)

  datatype RunSpec = RunSpec(tensors: seq<TensorSpec>, calls: seq<CallSpec>)

  // ----------------------------------------------------------------------------
  // The checks of `RunSpec::new`
  // ----------------------------------------------------------------------------

  function FindTensor(tensors: seq<TensorSpec>, id: nat): (r: Result<TensorSpec>)
    ensures r.Ok? ==> r.value in tensors && r.value.id == id
    ensures r.Err? ==> r.error == NotInPlan(TheTensor) && forall t | t in tensors :: t.id != id
  {
    if tensors == [] then Err(NotInPlan(TheTensor))
    else if tensors[0].id == id then Ok(tensors[0])
    else FindTensor(tensors[1..], id)
  }

  function KindsOfIds(tensors: seq<TensorSpec>, ids: seq<nat>): (r: Result<seq<Kind>>)
    ensures r.Ok? <==> forall k | 0 <= k < |ids| :: FindTensor(tensors, ids[k]).Ok?
    ensures r.Ok? ==> |r.value| == |ids| && forall k | 0 <= k < |ids| :: r.value[k] == FindTensor(tensors, ids[k]).value.kind
    ensures r.Err? ==> r.error == NotInPlan(TheTensor)
  {
    if ids == [] then Ok([])
    else
      var before := KindsOfIds(tensors, ids[..|ids| - 1]);
      if before.Err? then before
      else
        var last := FindTensor(tensors, ids[|ids| - 1]);
        if last.Err? then Err(last.error) else Ok(before.value + [last.value.kind])
  }

  function CheckCallSpec(tensors: seq<TensorSpec>, call: CallSpec): Check {
    var kinds := KindsOfIds(tensors, call.tensors);
    if kinds.Err? then Failed(kinds.error)
    else
      var fits := SlotKinds(call.node.shader.sig, kinds.value);
      if fits.Failed? then fits else NotAliased(call.node.shader.sig, call.tensors)
  }

  /** The first call's error. */
  function CheckCalls(tensors: seq<TensorSpec>, calls: seq<CallSpec>): (r: Check)
    ensures r.Passed? <==> forall c | c in calls :: CheckCallSpec(tensors, c).Passed?
    ensures r.Failed? ==> exists k | 0 <= k < |calls| ::
              r == CheckCallSpec(tensors, calls[k]) && forall j | 0 <= j < k :: CheckCallSpec(tensors, calls[j]).Passed?
  {
    if calls == [] then Passed
    else
      assert forall j | 0 < j < |calls| :: calls[j] == calls[1..][j - 1];
      CheckCallSpec(tensors, calls[0]).Then(CheckCalls(tensors, calls[1..]))
  }

  /** `RunSpec::new`. */
  function NewRunSpec(tensors: seq<TensorSpec>, calls: seq<CallSpec>): (r: Result<RunSpec>)
    ensures r.Ok? <==> forall c | c in calls :: CheckCallSpec(tensors, c).Passed?
    ensures r.Ok? ==> r.value.tensors == tensors && r.value.calls == calls
    ensures r.Err? ==> exists k | 0 <= k < |calls| ::
              && CheckCallSpec(tensors, calls[k]) == Failed(r.error)
              && forall j | 0 <= j < k :: CheckCallSpec(tensors, calls[j]).Passed?
  {
    var check := CheckCalls(tensors, calls);
    if check.Failed? then Err(check.error) else Ok(RunSpec(tensors, calls))
  }

  ghost predicate Distinct<T>(xs: seq<T>) {
    forall i, j | 0 <= i < |xs| && 0 <= j < |xs| && i != j :: xs[i] != xs[j]
  }

  function TensorIds(tensors: seq<TensorSpec>): (r: seq<nat>)
    ensures |r| == |tensors| && forall k | 0 <= k < |r| :: r[k] == tensors[k].id
  {
    seq(|tensors|, k requires 0 <= k < |tensors| => tensors[k].id)
  }

  function CallIds(calls: seq<CallSpec>): (r: seq<nat>)
    ensures |r| == |calls| && forall k | 0 <= k < |r| :: r[k] == calls[k].id
  {
    seq(|calls|, k requires 0 <= k < |calls| => calls[k].id)
  }

  /** A plan made by the constructors of its parts: no two specs have one id, and every
      check passed. */
  ghost predicate Made(plan: RunSpec) {
    && Distinct(TensorIds(plan.tensors)) && Distinct(CallIds(plan.calls))
    && (forall t | t in plan.tensors && t.init.UploadData? :: t.init.data.Valid() && t.init.data.kind == t.kind)
    && (forall c | c in plan.calls :: c.node.shader.sig.meta == SourceTypes(c.node.meta))
    && NewRunSpec(plan.tensors, plan.calls) == Ok(plan)
  }

  /** What a call of a built run needs of its tensors: there is one per slot, of its kind,
      and a written one is in no other slot. */
  ghost predicate FitsTensors(sig: Signature, ids: seq<nat>, kinds: map<nat, Kind>) {
    && |ids| == |sig.layout|
    && (forall j | 0 <= j < |ids| :: ids[j] in kinds && kinds[ids[j]] == sig.layout[j].kind)
    && Unaliased(sig.layout, ids)
  }

  ghost function KindMap(tensors: seq<TensorSpec>): (m: map<nat, Kind>)
    requires Distinct(TensorIds(tensors))
    ensures forall id :: id in m <==> exists t :: t in tensors && t.id == id
    ensures forall t | t in tensors :: t.id in m && m[t.id] == t.kind
  {
    map t | t in tensors :: t.id := t.kind
  }

  /** A plan's checks are those its calls need, no more and no less. */
  lemma PlanChecksExactly(tensors: seq<TensorSpec>, call: CallSpec)
    requires Distinct(TensorIds(tensors))
    ensures CheckCallSpec(tensors, call).Passed?
        <==> FitsTensors(call.node.shader.sig, call.tensors, KindMap(tensors))
  {
    var sig, ids, kinds := call.node.shader.sig, call.tensors, KindMap(tensors);
    forall k | 0 <= k < |ids|
      ensures FindTensor(tensors, ids[k]).Ok? <==> ids[k] in kinds
      ensures ids[k] in kinds ==> FindTensor(tensors, ids[k]).value.kind == kinds[ids[k]]
    {
    }
    if |ids| == |sig.layout| {
      NotAliasedExactly(sig, ids);
    }
  }

  // ----------------------------------------------------------------------------
  // Ready
  // ----------------------------------------------------------------------------

  /** A tensor's length is known, and its data is of that length in whole host words. */
  function TensorReady(known: Known, spec: TensorSpec): (r: Check)
    requires spec.init.UploadData? ==> spec.init.data.Valid()
    ensures r.Passed? <==>
      && spec.len in known.numbers
      && (spec.init.UploadData? ==> spec.init.data.Len() == WholeWords(spec.kind, known.numbers[spec.len]))
    ensures spec.len !in known.numbers ==> r == Failed(NotGivenYet)
    ensures spec.len in known.numbers && r.Failed? ==>
      spec.init.UploadData? && r == Failed(LenMismatch(WholeWords(spec.kind, known.numbers[spec.len]), spec.init.data.Len()))
  {
    if spec.len !in known.numbers then Failed(NotGivenYet)
    else
      var len := WholeWords(spec.kind, known.numbers[spec.len]);
      if spec.init.UploadData? && spec.init.data.Len() != len then Failed(LenMismatch(len, spec.init.data.Len()))
      else Passed
  }

  /** The value comes from its source: what was given for it, as that type of number, or 0 when
      it is read before each run. */
  predicate FieldFrom(value: MetaValue, source: MetaSource, known: Known) {
    match source
    case UintOnce(of) => of in known.numbers && value == UintValue(known.numbers[of])
    case FloatOnce(of) => of in known.numbers && value == FloatValue(known.numbers[of])
    case UintPerRun(_) => value == UintValue(0)
    case FloatPerRun(_) => value == FloatValue(0)
  }

  /** Field by field. */
  predicate FieldsFrom(meta: seq<MetaValue>, sources: seq<MetaSource>, known: Known) {
    |meta| == |sources| && forall k | 0 <= k < |meta| :: FieldFrom(meta[k], sources[k], known)
  }

  /** The values a node is built with. */
  function BuildValues(known: Known, sources: seq<MetaSource>): (r: Result<seq<MetaValue>>)
    ensures r.Ok? <==> forall s | s in sources :: s.PerRun() || s.of in known.numbers
    ensures r.Ok? ==> TypesOf(r.value) == SourceTypes(sources) && FieldsFrom(r.value, sources, known)
    ensures r.Err? ==> r.error == NotGivenYet
  {
    if sources == [] then Ok([])
    else
      var n := |sources| - 1;
      var before := BuildValues(known, sources[..n]);
      if before.Err? then before
      else
        var last := sources[n].BuildValue(known);
        if last.Err? then Err(last.error)
        else
          var values := before.value + [last.value];
          assert TypesOf(values) == TypesOf(before.value) + [last.value.Type()];
          assert SourceTypes(sources) == SourceTypes(sources[..n]) + [sources[n].Type()];
          Ok(values)
  }

  /** The workgroup count and every value known once is known. */
  function NodeReady(known: Known, spec: NodeSpec): (r: Check)
    ensures r.Passed? <==> spec.workgroups in known.grids && BuildValues(known, spec.meta).Ok?
    ensures r.Failed? ==> r.error == NotGivenYet
  {
    if spec.workgroups !in known.grids then Failed(NotGivenYet)
    else
      var values := BuildValues(known, spec.meta);
      if values.Err? then Failed(values.error) else Passed
  }

  function TensorsReady(known: Known, specs: seq<TensorSpec>): (r: Check)
    requires forall t | t in specs && t.init.UploadData? :: t.init.data.Valid()
    ensures r.Passed? <==> forall t | t in specs :: TensorReady(known, t).Passed?
  {
    if specs == [] then Passed else TensorReady(known, specs[0]).Then(TensorsReady(known, specs[1..]))
  }

  function CallsReady(known: Known, specs: seq<CallSpec>): (r: Check)
    ensures r.Passed? <==> forall c | c in specs :: NodeReady(known, c.node).Passed?
    ensures r.Failed? ==> r.error == NotGivenYet
  {
    if specs == [] then Passed else NodeReady(known, specs[0].node).Then(CallsReady(known, specs[1..]))
  }

  /** What was ready stays ready as more becomes known. */
  lemma ReadyStays(known: Known, later: Known, plan: RunSpec)
    requires Made(plan) && known.Before(later)
    ensures TensorsReady(known, plan.tensors).Passed? ==> TensorsReady(later, plan.tensors).Passed?
    ensures CallsReady(known, plan.calls).Passed? ==> CallsReady(later, plan.calls).Passed?
  {
  }
}
