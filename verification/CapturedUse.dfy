/** A captured run, used in any way, against the plain run it stands for. */
module CapturedUse {
  import opened Options
  import opened Blocks
  import opened Dtype
  import opened Rules
  import opened Cpu
  import opened Scopes
  import opened Plans
  import opened Runs
  import opened Binding
  import opened Dynamics
  import opened Captures
  import opened CapturedRuns
  import opened TypedTensors
  import opened PlainRuns

  // ----------------------------------------------------------------------------
  // A run's plain state
  // ----------------------------------------------------------------------------

  ghost function ProgramOf(run: Run): Program
    reads run
  {
    Program(run.calls, run.order, run.tensors)
  }

  ghost function DynamicsNow(run: Run): map<Dynamic, Option<nat>>
    reads run, ProgramOf(run).Dynamics()
  {
    map d | d in ProgramOf(run).Dynamics() :: d.value
  }

  ghost function PlainOf(run: Run): Plain
    requires run.Valid() && !run.ContainsHollow()
    reads run, run.device, run.Nodes(), ProgramOf(run).Dynamics()
  {
    Plain(run.Store(), Metas(run), DynamicsNow(run))
  }

  lemma PlainFits(run: Run)
    requires run.Valid() && !run.ContainsHollow()
    ensures ProgramOf(run).Made() && Fits(ProgramOf(run), PlainOf(run))
  {
    forall id | id in run.order ensures id in run.calls {
    }
    forall id | id in run.tensors
      ensures |run.Store()[id]| == BufferBytes(run.tensors[id].Kind(), run.tensors[id].Len())
    {
      assert SoundIn(run.tensors[id].tensor, run.device.mem);
    }
    forall id | id in run.calls
      ensures TypesOf(Metas(run)[id]) == run.calls[id].node.shader.sig.meta
    {
      assert run.calls[id].node.Valid();
    }
  }

  lemma {:induction false} JobsAreThose(run: Run, k: nat)
    requires run.Valid() && !run.ContainsHollow() && k <= |run.order| && ProgramOf(run).Made()
    ensures run.Jobs(k) == JobsOf(ProgramOf(run), Metas(run), k)
  {
    if k > 0 {
      JobsAreThose(run, k - 1);
      assert run.order[k - 1] in run.order;
      var call := run.calls[run.order[k - 1]];
      assert call.node.Valid() && CallFits(call, run.tensors);
      assert Job(call) == JobOf(call, call.node.meta);
    }
  }

  /** What the calls from place `k` on come to. */
  ghost function OutcomeFrom(run: Run, k: nat): Check
    requires run.Made() && run.NodesValid() && k <= |run.order|
    reads run, run.Nodes()
  {
    if run.Reach(k) == |run.order| then Passed else Failed(run.CheckAt(run.Reach(k)).error)
  }

  lemma OutcomeNext(run: Run, k: nat)
    requires run.Made() && run.NodesValid() && k <= |run.order|
    ensures OutcomeFrom(run, k)
         == if k == |run.order| then Passed else run.CheckAt(k).Then(OutcomeFrom(run, k + 1))
  {
    hide Run.CheckAt, CallsMade, Run.NodesValid;
  }

  lemma LengthsFailNext(p: Program, metas: map<nat, seq<MetaValue>>, k: nat)
    requires p.Made() && metas.Keys == p.calls.Keys && k <= |p.order|
    ensures k < |p.order| ==> p.order[k] in p.calls && CallFits(p.calls[p.order[k]], p.tensors)
    ensures LengthsFail(p, metas, k)
         == if k == |p.order| then Passed
            else LengthsOf(p.calls[p.order[k]], metas[p.order[k]], p.tensors).Then(LengthsFail(p, metas, k + 1))
  {
    assert k < |p.order| ==> p.order[k] in p.order;
    hide LengthsOf, CallFits;
  }

  lemma {:induction false} ChecksAreThose(run: Run, k: nat)
    requires run.Made() && run.NodesValid() && k <= |run.order| && ProgramOf(run).Made()
    requires ProgramOf(run).order == run.order && Metas(run).Keys == ProgramOf(run).calls.Keys
    ensures LengthsFail(ProgramOf(run), Metas(run), k) == OutcomeFrom(run, k)
    decreases |run.order| - k
  {
    hide *;
    OutcomeNext(run, k);
    LengthsFailNext(ProgramOf(run), Metas(run), k);
    if k < |run.order| {
      CheckIsThat(run, k);
      ChecksAreThose(run, k + 1);
    }
  }

  lemma CheckIsThat(run: Run, k: nat)
    requires run.Made() && run.NodesValid() && k < |run.order| && ProgramOf(run).Made()
    ensures ProgramOf(run).calls == run.calls && ProgramOf(run).order == run.order && ProgramOf(run).tensors == run.tensors
    ensures run.order[k] in run.calls && CallFits(run.calls[run.order[k]], run.tensors)
    ensures LengthsOf(run.calls[run.order[k]], Metas(run)[run.order[k]], run.tensors) == run.CheckAt(k)
  {
    assert run.order[k] in run.order;
    var call := run.calls[run.order[k]];
    assert call.node.Valid() && CallFits(call, run.tensors);
    hide LengthsFrom, TensorsSound;
  }

  lemma AppliedIsThat(run: Run)
    requires run.Valid() && !run.ContainsHollow() && Fits(ProgramOf(run), PlainOf(run))
    ensures CanApply(ProgramOf(run), PlainOf(run)) <==> forall id | id in run.calls :: AllSet(run.calls[id].sources)
    ensures forall id | id in run.calls :: |Metas(run)[id]| == |run.calls[id].sources|
    ensures CanApply(ProgramOf(run), PlainOf(run)) ==> Applied(ProgramOf(run), PlainOf(run)) == RefreshedMetas(run)
  {
    var p, s := ProgramOf(run), PlainOf(run);
    forall id | id in run.calls
      ensures |Metas(run)[id]| == |run.calls[id].sources| && Watched(run.calls[id].sources) <= s.dynamics.Keys
      ensures AllGiven(run.calls[id].sources, s.dynamics) <==> AllSet(run.calls[id].sources)
      ensures AllSet(run.calls[id].sources) ==>
        RefreshedBy(run.calls[id].sources, Metas(run)[id], s.dynamics) == Refreshed(run.calls[id].sources, Metas(run)[id])
    {
      MetaSized(p, s, id);
      SourcesAgree(run.calls[id].sources, Metas(run)[id], s.dynamics);
    }
  }

  lemma SourcesAgree(sources: seq<MetaSource>, meta: seq<MetaValue>, dynamics: map<Dynamic, Option<nat>>)
    requires |meta| == |sources| && Watched(sources) <= dynamics.Keys
    requires forall d | d in Watched(sources) :: dynamics[d] == d.value
    ensures AllGiven(sources, dynamics) <==> AllSet(sources)
    ensures AllSet(sources) ==> RefreshedBy(sources, meta, dynamics) == Refreshed(sources, meta)
  {
    forall j | 0 <= j < |sources| && sources[j].PerRun()
      ensures sources[j].from in Watched(sources)
    {
    }
  }

  lemma DynamicsAllocated(run: Run)
    ensures forall d | d in ProgramOf(run).Dynamics() :: allocated(d)
  {
  }

  // ----------------------------------------------------------------------------
  // Moves
  // ----------------------------------------------------------------------------

  /** A captured run with no empty tensor, between uses. */
  ghost predicate Ready(run: Run, recording: Recording)
    reads run, run.device, run.Nodes()
  {
    run.Valid() && IsCaptureOf(recording, run) && NonEmpty(run) && run.device.recording.None?
  }

  /** The move took `s` to `s'` and was answered `r`, as a plain run's is. */
  ghost predicate Moved(p: Program, s: Plain, m: Move, s': Plain, r: Check) {
    Fits(p, s) && (m.UploadMove? ==> m.data.Valid()) && (s', r) == Step(p, s, m)
  }

  /** One tensor's block written, by id. */
  lemma StoreWritten(run: Run, mem: Memory, id: nat, v: Bytes)
    requires run.Valid() && !run.ContainsHollow() && TensorsSound(run.tensors, run.device, mem) && id in run.tensors
    requires SoundIn(run.tensors[id].tensor, mem) && |v| == |mem[run.tensors[id].tensor.buf.address]|
    requires run.device.mem == mem[run.tensors[id].tensor.buf.address := v]
    ensures InMemory(run.Places(), mem) && run.Store() == Named(run.Places(), mem)[id := v]
  {
    run.PlacesSeparate(mem);
    hide TensorsSound, CallsMade, Run.NodesValid, Separate, SoundIn;
    assert run.Places()[id] == run.tensors[id].tensor.buf.address;
    NameOne(run.Places(), mem, mem, id, v);
  }

  /** Before a move: the run's plain state was `s`, on memory `mem`. */
  ghost predicate Before(run: Run, mem: Memory, s: Plain)
    reads run, run.Nodes(), ProgramOf(run).Dynamics()
  {
    && run.Made() && run.NodesValid() && !run.ContainsHollow() && TensorsSound(run.tensors, run.device, mem) && Fits(ProgramOf(run), s)
    && InMemory(run.Places(), mem) && s == Plain(Named(run.Places(), mem), Metas(run), DynamicsNow(run))
  }

  lemma NothingWritten(run: Run, s: Plain)
    requires run.Valid() && !run.ContainsHollow() && Before(run, run.device.mem, s)
    ensures PlainOf(run) == s
  {
  }

  lemma OneWritten(run: Run, mem: Memory, s: Plain, id: nat, v: Bytes)
    requires Before(run, mem, s) && run.Valid() && !run.ContainsHollow() && id in run.tensors
    requires SoundIn(run.tensors[id].tensor, mem) && |v| == |mem[run.tensors[id].tensor.buf.address]|
    requires run.device.mem == mem[run.tensors[id].tensor.buf.address := v]
    ensures PlainOf(run) == s.(store := s.store[id := v])
  {
    StoreWritten(run, mem, id, v);
    hide TensorsSound, CallsMade, Run.NodesValid, Metas, DynamicsNow, Named, Fits;
  }

  /** A live tensor of the run, and its place in the plain state. */
  lemma TensorAt(run: Run, mem: Memory, s: Plain, id: nat)
    requires Before(run, mem, s) && run.Valid() && !run.ContainsHollow() && id in run.tensors
    ensures run.tensors[id].Live? && SoundIn(run.tensors[id].tensor, mem)
    ensures var t := run.tensors[id].tensor;
      s.store[id] == mem[t.buf.address] && run.tensors[id].Kind() == t.kind && run.tensors[id].Len() == t.len
      && |s.store[id]| == BufferBytes(t.kind, t.len) == t.buf.bytes
  {
  }

  /** What `CapturedRun::upload` does to the device. */
  ghost predicate Uploaded(run: Run, mem: Memory, id: nat, data: HostData, r: Check)
    requires data.Valid()
    reads run, run.device
  {
    && (id !in run.tensors ==> r == Failed(NotInPlan(TheTensor)) && run.device.mem == mem)
    && (id in run.tensors && run.tensors[id].Live? && SoundIn(run.tensors[id].tensor, mem) ==>
          var t := run.tensors[id].tensor;
          var u := Upload(t.kind, t.len, mem[t.buf.address], data);
          && r == (if u.Ok? then Passed else Failed(u.error))
          && run.device.mem == if u.Ok? then mem[t.buf.address := u.value] else mem)
  }

  lemma UploadMoves(run: Run, mem: Memory, s: Plain, id: nat, data: HostData, r: Check)
    requires Before(run, mem, s) && run.Valid() && !run.ContainsHollow() && data.Valid()
    requires Uploaded(run, mem, id, data, r)
    ensures Moved(ProgramOf(run), s, UploadMove(id, data), PlainOf(run), r)
  {
    BeforeIs(run, mem, s);
    if id !in run.tensors {
      NothingWritten(run, s);
      hide *;
      UploadStep(ProgramOf(run), s, id, data, s, r);
    } else {
      TensorAt(run, mem, s, id);
      var t := run.tensors[id].tensor;
      var u := Upload(t.kind, t.len, mem[t.buf.address], data);
      hide *;
      if u.Ok? {
        OneWritten(run, mem, s, id, u.value);
        UploadStep(ProgramOf(run), s, id, data, s.(store := s.store[id := u.value]), r);
      } else {
        NothingWritten(run, s);
        UploadStep(ProgramOf(run), s, id, data, s, r);
      }
    }
  }

  lemma BeforeIs(run: Run, mem: Memory, s: Plain)
    requires Before(run, mem, s)
    ensures Fits(ProgramOf(run), s) && ProgramOf(run).tensors == run.tensors
  {
  }

  lemma UploadStep(p: Program, s: Plain, id: nat, data: HostData, s': Plain, r: Check)
    requires Fits(p, s) && data.Valid()
    requires id !in p.tensors ==> s' == s && r == Failed(NotInPlan(TheTensor))
    requires id in p.tensors ==>
      var u := Upload(p.tensors[id].Kind(), p.tensors[id].Len(), s.store[id], data);
      && r == (if u.Ok? then Passed else Failed(u.error))
      && s' == if u.Ok? then s.(store := s.store[id := u.value]) else s
    ensures Moved(p, s, UploadMove(id, data), s', r)
  {
    hide Upload, Program.Made;
  }

  method DoUpload(run: Run, recording: Recording, id: nat, data: HostData) returns (r: Check)
    requires Ready(run, recording) && data.Valid()
    modifies run.device`mem
    ensures Ready(run, recording)
    ensures Moved(ProgramOf(run), old(PlainOf(run)), UploadMove(id, data), PlainOf(run), r)
  {
    hide *;
    ghost var mem, s := BeforeMove(run, recording);
    r := UploadCaptured(run, recording, id, data);
    AfterMove(run, recording);
    hide *;
    UploadMoves(run, mem, s, id, data, r);
  }

  method UploadCaptured(run: Run, recording: Recording, id: nat, data: HostData) returns (r: Check)
    requires Ready(run, recording) && data.Valid()
    modifies run.device`mem
    ensures Ready(run, recording) && Uploaded(run, old(run.device.mem), id, data, r)
  {
    hide Upload, Elements, OnlyChanged, CallsMade, Run.NodesValid, Run.Recorded, Run.RawCalls, TensorsSound, BytesFor;
    hide IsCaptureOf, Run.Made;
    r := UploadTo(run, recording, id, data);
  }

  lemma AfterMove(run: Run, recording: Recording)
    requires Ready(run, recording)
    ensures run.Valid() && !run.ContainsHollow()
  {
  }

  lemma BeforeMove(run: Run, recording: Recording) returns (mem: Memory, s: Plain)
    requires Ready(run, recording)
    ensures mem == run.device.mem && s == PlainOf(run) && Before(run, mem, s)
    ensures forall n | n in run.Nodes() :: allocated(n)
    ensures forall d | d in ProgramOf(run).Dynamics() :: allocated(d)
  {
    mem, s := run.device.mem, PlainOf(run);
    PlainFits(run);
    run.StoreIs();
    hide CallsMade, Fits;
  }

  /** What `CapturedRun::zero` does to the device. */
  ghost predicate Zeroed(run: Run, mem: Memory, id: nat, r: Check)
    reads run, run.device
  {
    && (id !in run.tensors ==> r == Failed(NotInPlan(TheTensor)) && run.device.mem == mem)
    && (id in run.tensors && run.tensors[id].Live? && SoundIn(run.tensors[id].tensor, mem) ==>
          var t := run.tensors[id].tensor;
          r == Passed && run.device.mem == mem[t.buf.address := Zeros(t.buf.bytes)])
  }

  lemma ZeroMoves(run: Run, mem: Memory, s: Plain, id: nat, r: Check)
    requires Before(run, mem, s) && run.Valid() && !run.ContainsHollow() && Zeroed(run, mem, id, r)
    ensures Moved(ProgramOf(run), s, ZeroMove(id), PlainOf(run), r)
  {
    BeforeIs(run, mem, s);
    if id !in run.tensors {
      NothingWritten(run, s);
      hide *;
      ZeroStep(ProgramOf(run), s, id, s, r);
    } else {
      TensorAt(run, mem, s, id);
      var t := run.tensors[id].tensor;
      assert |mem[t.buf.address]| == t.buf.bytes;
      hide *;
      OneWritten(run, mem, s, id, Zeros(t.buf.bytes));
      ZeroStep(ProgramOf(run), s, id, s.(store := s.store[id := Zeros(t.buf.bytes)]), r);
    }
  }

  lemma ZeroStep(p: Program, s: Plain, id: nat, s': Plain, r: Check)
    requires Fits(p, s)
    requires id !in p.tensors ==> s' == s && r == Failed(NotInPlan(TheTensor))
    requires id in p.tensors ==> r == Passed && s' == s.(store := s.store[id := Zeros(|s.store[id]|)])
    ensures Moved(p, s, ZeroMove(id), s', r)
  {
    hide Program.Made;
  }

  method ZeroCaptured(run: Run, recording: Recording, id: nat) returns (r: Check)
    requires Ready(run, recording)
    modifies run.device`mem
    ensures Ready(run, recording) && Zeroed(run, old(run.device.mem), id, r)
  {
    hide CallsMade, Run.NodesValid, Run.Recorded, Run.RawCalls, TensorsSound, IsCaptureOf, Run.Made, OnlyChanged;
    r := ZeroIn(run, recording, id);
  }

  method DoZero(run: Run, recording: Recording, id: nat) returns (r: Check)
    requires Ready(run, recording)
    modifies run.device`mem
    ensures Ready(run, recording)
    ensures Moved(ProgramOf(run), old(PlainOf(run)), ZeroMove(id), PlainOf(run), r)
  {
    hide *;
    ghost var mem, s := BeforeMove(run, recording);
    r := ZeroCaptured(run, recording, id);
    AfterMove(run, recording);
    hide *;
    ZeroMoves(run, mem, s, id, r);
  }

  /** What the dynamics are once one is set. */
  ghost function AfterSet(dynamics: map<Dynamic, Option<nat>>, d: Dynamic, v: nat): map<Dynamic, Option<nat>> {
    if d in dynamics then dynamics[d := Some(v)] else dynamics
  }

  method SetDynamic(run: Run, d: Dynamic, v: nat)
    modifies d
    ensures DynamicsNow(run) == AfterSet(old(DynamicsNow(run)), d, v) && Metas(run) == old(Metas(run))
  {
    DynamicsAllocated(run);
    run.NodesAllocated();
    hide Watched, Metas;
    d.Set(v);
  }

  method SetReady(run: Run, recording: Recording, d: Dynamic, v: nat)
    requires Ready(run, recording)
    modifies d
    ensures Ready(run, recording) && run.device.mem == old(run.device.mem) && Metas(run) == old(Metas(run))
    ensures DynamicsNow(run) == AfterSet(old(DynamicsNow(run)), d, v)
  {
    run.NodesAllocated();
    hide *;
    SetDynamic(run, d, v);
  }

  method DoSet(run: Run, recording: Recording, d: Dynamic, v: nat) returns (r: Check)
    requires Ready(run, recording)
    modifies d
    ensures Ready(run, recording)
    ensures Moved(ProgramOf(run), old(PlainOf(run)), SetMove(d, v), PlainOf(run), r)
  {
    PlainFits(run);
    PlainIs(run, recording);
    ghost var s := PlainOf(run);
    hide *;
    SetReady(run, recording, d, v);
    PlainIs(run, recording);
    SetStep(ProgramOf(run), s, d, v);
    r := Passed;
  }

  lemma PlainIs(run: Run, recording: Recording)
    requires Ready(run, recording)
    ensures run.Valid() && !run.ContainsHollow() && InMemory(run.Places(), run.device.mem)
    ensures PlainOf(run) == Plain(Named(run.Places(), run.device.mem), Metas(run), DynamicsNow(run))
  {
    run.StoreIs();
  }

  lemma SetStep(p: Program, s: Plain, d: Dynamic, v: nat)
    requires Fits(p, s)
    ensures Moved(p, s, SetMove(d, v), s.(dynamics := AfterSet(s.dynamics, d, v)), Passed)
  {
    hide Fits;
  }

  /** In a new scope, the recorded calls are run again. */
  method ReplayCaptured(run: Run, recording: Recording) returns (r: Check)
    requires Ready(run, recording)
    modifies run.device`mem
    ensures Ready(run, recording) && Metas(run) == old(Metas(run)) && DynamicsNow(run) == old(DynamicsNow(run))
    ensures r == old(ReplayOutcome(run))
    ensures r.Failed? ==> run.device.mem == old(run.device.mem)
    ensures r.Passed? ==>
      && AllHave(old(run.Store()), old(run.Jobs(|run.order|)))
      && run.Store() == InvokeAll(old(run.Jobs(|run.order|)), old(run.Store()))
  {
    hide CallsMade, TensorsSound, BoundAt, CallsBound, DynamicsOf, Run.Recorded, Run.RawCalls, ReplayOutcome, InvokeAll;
    hide AllToldApart, NonEmpty, Run.NodesValid, Metas, DynamicsNow;
    run.NodesAllocated();
    DynamicsAllocated(run);
    var bound, ids := BindCaptured(run, recording);
    hide Ready, IsCaptureOf, Scope.Valid, Run.Valid, Run.ContainsHollow, Run.Made, NonEmpty;
    r := Replay(bound, run, recording);
  }

  /** Binding a captured run into a new scope. */
  method BindCaptured(run: Run, recording: Recording) returns (bound: Bound, ghost ids: seq<nat>)
    requires Ready(run, recording)
    ensures Binds(bound, run) && DynamicsOf(bound.calls, bound.perRun, run, ids) && Ready(run, recording)
    ensures fresh(bound.scope) && bound.scope.dev == run.device && bound.scope.recording.None?
    ensures PlainOf(run) == old(PlainOf(run))
  {
    DynamicsAllocated(run);
    hide CallsMade, TensorsSound, BoundAt, CallsBound, DynamicsOf, Run.Recorded, Run.RawCalls, PlainOf, Watched, Run.NodesValid;
    run.NodesAllocated();
    var s := new Scope(run.device);
    var b;
    b, ids := Bind(run, s);
    bound := b.value;
  }

  lemma ReplayStep(p: Program, s: Plain, check: Check)
    requires Fits(p, s) && check == LengthsFail(p, s.metas, 0)
    ensures check.Failed? ==> Moved(p, s, ReplayMove, s, check)
    ensures check.Passed? ==>
      && AllHave(s.store, JobsOf(p, s.metas, |p.order|))
      && Moved(p, s, ReplayMove, s.(store := InvokeAll(JobsOf(p, s.metas, |p.order|), s.store)), check)
  {
    hide LengthsFail, InvokeAll;
  }

  /** A run's outcome and jobs, in its plain state. */
  lemma OutcomeIsThat(run: Run)
    requires run.Valid() && !run.ContainsHollow()
    ensures run.Made() && run.NodesValid() && Fits(ProgramOf(run), PlainOf(run))
    ensures ReplayOutcome(run) == LengthsFail(ProgramOf(run), PlainOf(run).metas, 0)
    ensures run.Jobs(|run.order|) == JobsOf(ProgramOf(run), PlainOf(run).metas, |ProgramOf(run).order|)
  {
    PlainFits(run);
    ChecksAreThose(run, 0);
    JobsAreThose(run, |run.order|);
    hide Fits, LengthsFail, JobsOf, CallsMade, TensorsSound;
  }

  method DoReplay(run: Run, recording: Recording) returns (r: Check)
    requires Ready(run, recording)
    modifies run.device`mem
    ensures Ready(run, recording)
    ensures Moved(ProgramOf(run), old(PlainOf(run)), ReplayMove, PlainOf(run), r)
  {
    hide *;
    ghost var s := ReplayKnown(run, recording);
    hide *;
    r := ReplayCaptured(run, recording);
    StoreOfPlain(run, recording);
  }

  /** A replay's move, known before it is made. */
  lemma ReplayKnown(run: Run, recording: Recording) returns (s: Plain)
    requires Ready(run, recording)
    ensures run.Valid() && run.Made() && run.NodesValid() && !run.ContainsHollow()
    ensures s == PlainOf(run) == Plain(run.Store(), Metas(run), DynamicsNow(run))
    ensures InMemory(run.Places(), run.device.mem) && run.Store() == Named(run.Places(), run.device.mem)
    ensures var (check, jobs) := (ReplayOutcome(run), run.Jobs(|run.order|));
      && (check.Failed? ==> Moved(ProgramOf(run), s, ReplayMove, s, check))
      && (check.Passed? ==>
            && AllHave(run.Store(), jobs)
            && Moved(ProgramOf(run), s, ReplayMove, s.(store := InvokeAll(jobs, run.Store())), check))
  {
    s := PlainOf(run);
    AfterMove(run, recording);
    OutcomeIsThat(run);
    StoreOfPlain(run, recording);
    ReplayStep(ProgramOf(run), s, ReplayOutcome(run));
    hide *;
  }

  lemma StoreOfPlain(run: Run, recording: Recording)
    requires Ready(run, recording)
    ensures run.Valid() && !run.ContainsHollow()
    ensures PlainOf(run) == Plain(run.Store(), Metas(run), DynamicsNow(run))
    ensures InMemory(run.Places(), run.device.mem) && run.Store() == Named(run.Places(), run.device.mem)
  {
    run.StoreIs();
  }

  /** What a move may change of a run. */
  ghost predicate Now(run: Run, mem: Memory, metas: map<nat, seq<MetaValue>>, dynamics: map<Dynamic, Option<nat>>)
    reads run, run.device, run.Nodes(), ProgramOf(run).Dynamics()
  {
    run.device.mem == mem && Metas(run) == metas && DynamicsNow(run) == dynamics
  }

  /** What refreshing will do: `after` are the metas then, if every dynamic is set. */
  ghost predicate WillRefresh(run: Run, can: bool, after: map<nat, seq<MetaValue>>)
    reads run, run.Nodes(), ProgramOf(run).Dynamics()
  {
    && (can <==> forall id | id in run.calls :: AllSet(run.calls[id].sources))
    && (forall id | id in run.calls :: |Metas(run)[id]| == |run.calls[id].sources|)
    && after == if can then RefreshedMetas(run) else Metas(run)
  }

  /** The per-run metas are refreshed. */
  method RefreshBound(bound: Bound, ghost run: Run, recording: Recording, ghost ids: seq<nat>, ghost can: bool,
                      ghost after: map<nat, seq<MetaValue>>) returns (r: Check)
    requires Binds(bound, run) && IsCaptureOf(recording, run) && DynamicsOf(bound.calls, bound.perRun, run, ids)
    requires WillRefresh(run, can, after)
    modifies run.Nodes()
    ensures Binds(bound, run) && IsCaptureOf(recording, run)
    ensures r == (if can then Passed else Failed(DynamicUnset)) && Metas(run) == after
  {
    hide Binds, IsCaptureOf, DynamicsOf, Metas, RefreshedMetas, AllSet;
    r := ApplyBetweenReplays(bound, run, recording, ids);
  }

  /** The rest stays. */
  method RefreshFramed(
    bound: Bound, ghost run: Run, recording: Recording, ghost ids: seq<nat>, ghost can: bool,
    ghost after: map<nat, seq<MetaValue>>, ghost mem: Memory, ghost dynamics: map<Dynamic, Option<nat>>)
    returns (r: Check)
    requires Binds(bound, run) && IsCaptureOf(recording, run) && DynamicsOf(bound.calls, bound.perRun, run, ids)
    requires WillRefresh(run, can, after) && DynamicsNow(run) == dynamics
    requires NonEmpty(run) && run.device.recording.None? && run.device.mem == mem
    modifies run.Nodes()
    ensures Binds(bound, run) && IsCaptureOf(recording, run)
    ensures NonEmpty(run) && run.device.recording.None?
    ensures run.device.mem == mem && Metas(run) == after && DynamicsNow(run) == dynamics
    ensures r == if can then Passed else Failed(DynamicUnset)
  {
    DynamicsAllocated(run);
    hide *;
    r := RefreshBound(bound, run, recording, ids, can, after);
  }

  method ApplyBound(bound: Bound, ghost run: Run, recording: Recording, ghost ids: seq<nat>, ghost can: bool,
                    ghost after: map<nat, seq<MetaValue>>, ghost mem: Memory, ghost dynamics: map<Dynamic, Option<nat>>)
    returns (r: Check)
    requires Ready(run, recording) && Binds(bound, run) && DynamicsOf(bound.calls, bound.perRun, run, ids)
    requires WillRefresh(run, can, after) && Now(run, mem, Metas(run), dynamics)
    modifies run.Nodes()
    ensures Ready(run, recording) && Now(run, mem, after, dynamics)
    ensures r == if can then Passed else Failed(DynamicUnset)
  {
    hide Binds, IsCaptureOf, NonEmpty, WillRefresh, DynamicsOf, Metas, DynamicsNow;
    r := RefreshFramed(bound, run, recording, ids, can, after, mem, dynamics);
    BindsReady(bound, run, recording);
  }

  lemma IsNow(run: Run, mem: Memory, metas: map<nat, seq<MetaValue>>, dynamics: map<Dynamic, Option<nat>>)
    requires run.device.mem == mem && Metas(run) == metas && DynamicsNow(run) == dynamics
    ensures Now(run, mem, metas, dynamics)
  {
  }

  lemma IsReady(run: Run, recording: Recording)
    requires Ready(run, recording)
    ensures run.Valid() && IsCaptureOf(recording, run) && NonEmpty(run) && run.device.recording.None?
  {
  }

  lemma BindsReady(bound: Bound, run: Run, recording: Recording)
    requires Binds(bound, run) && IsCaptureOf(recording, run) && NonEmpty(run) && run.device.recording.None?
    ensures Ready(run, recording)
  {
  }

  lemma ApplyStep(p: Program, s: Plain, can: bool)
    requires Fits(p, s) && can == CanApply(p, s)
    ensures can ==> Moved(p, s, ApplyMove, s.(metas := Applied(p, s)), Passed)
    ensures !can ==> Moved(p, s, ApplyMove, s, Failed(DynamicUnset))
  {
    hide Fits, CanApply, Applied;
  }

  /** What refreshing will do, in the plain state and in the run. */
  lemma RefreshIs(run: Run, can: bool, after: map<nat, seq<MetaValue>>)
    requires run.Valid() && !run.ContainsHollow() && Fits(ProgramOf(run), PlainOf(run))
    requires can == CanApply(ProgramOf(run), PlainOf(run))
    requires after == if can then Applied(ProgramOf(run), PlainOf(run)) else Metas(run)
    ensures WillRefresh(run, can, after)
  {
    AppliedIsThat(run);
    hide RefreshedMetas, Metas, AllSet, CanApply, Applied, Fits, CallsMade, TensorsSound, PlainOf, Watched;
  }

  /** A refresh's move, known before it is made. */
  lemma ApplyKnown(run: Run, recording: Recording)
    returns (s: Plain, mem: Memory, can: bool, after: map<nat, seq<MetaValue>>)
    requires Ready(run, recording)
    ensures run.Valid() && !run.ContainsHollow() && InMemory(run.Places(), mem) && run.device.mem == mem
    ensures s == PlainOf(run) == Plain(Named(run.Places(), mem), Metas(run), DynamicsNow(run))
    ensures WillRefresh(run, can, after) && Now(run, mem, Metas(run), s.dynamics)
    ensures Moved(ProgramOf(run), s, ApplyMove, s.(metas := after), if can then Passed else Failed(DynamicUnset))
  {
    s, mem := PlainOf(run), run.device.mem;
    PlainIs(run, recording);
    PlainFits(run);
    IsNow(run, mem, Metas(run), s.dynamics);
    can := CanApply(ProgramOf(run), s);
    after := if can then Applied(ProgramOf(run), s) else Metas(run);
    hide *;
    RefreshIs(run, can, after);
    ApplyStep(ProgramOf(run), s, can);
  }

  method DoApply(run: Run, recording: Recording) returns (r: Check)
    requires Ready(run, recording)
    modifies run.Nodes()
    ensures Ready(run, recording)
    ensures Moved(ProgramOf(run), old(PlainOf(run)), ApplyMove, PlainOf(run), r)
  {
    hide *;
    var bound, ids := BindCaptured(run, recording);
    ghost var s, mem, can, after := ApplyKnown(run, recording);
    r := ApplyBound(bound, run, recording, ids, can, after, mem, s.dynamics);
    PlainNow(run, recording, mem, after, s.dynamics);
  }

  lemma PlainNow(
    run: Run, recording: Recording, mem: Memory, metas: map<nat, seq<MetaValue>>, dynamics: map<Dynamic, Option<nat>>)
    requires Ready(run, recording) && Now(run, mem, metas, dynamics)
    ensures run.Valid() && !run.ContainsHollow() && InMemory(run.Places(), mem)
    ensures PlainOf(run) == Plain(Named(run.Places(), mem), metas, dynamics)
  {
    PlainIs(run, recording);
  }

  // ----------------------------------------------------------------------------
  // Any use
  // ----------------------------------------------------------------------------

  method DoMove(run: Run, recording: Recording, m: Move) returns (r: Check)
    requires Ready(run, recording) && (m.UploadMove? ==> m.data.Valid())
    modifies run.device`mem, run.Nodes(), if m.SetMove? then {m.dynamic} else {}
    ensures Ready(run, recording)
    ensures Moved(ProgramOf(run), old(PlainOf(run)), m, PlainOf(run), r)
  {
    hide Ready, PlainOf, Moved;
    match m
    case UploadMove(id, data) => r := DoUpload(run, recording, id, data);
    case ZeroMove(id) => r := DoZero(run, recording, id);
    case SetMove(d, v) => r := DoSet(run, recording, d, v);
    case ApplyMove => r := DoApply(run, recording);
    case ReplayMove => r := DoReplay(run, recording);
  }

  /** The moves took the plain state from `s` to the run's, with these replies. */
  ghost predicate Came(run: Run, recording: Recording, p: Program, s: Plain, moves: seq<Move>, replies: seq<Check>)
    reads run, run.device, run.Nodes(), ProgramOf(run).Dynamics()
  {
    && Ready(run, recording) && p == ProgramOf(run) && Fits(p, s) && AllValid(moves)
    && (PlainOf(run), replies) == After(p, s, moves)
  }

  lemma CameOneMore(
    run: Run, recording: Recording, p: Program, s: Plain, moves: seq<Move>, k: nat, replies: seq<Check>, before: Plain,
    reply: Check)
    requires Ready(run, recording) && p == ProgramOf(run) && Fits(p, s) && AllValid(moves) && k < |moves|
    requires AllValid(moves[..k]) && (before, replies) == After(p, s, moves[..k])
    requires Moved(p, before, moves[k], PlainOf(run), reply)
    ensures Came(run, recording, p, s, moves[..k + 1], replies + [reply])
  {
    OneMoreMove(p, s, moves, k);
    hide Ready, PlainOf, Step, Fits, ProgramOf, After;
  }

  lemma CameSoFar(
    run: Run, recording: Recording, p: Program, s: Plain, moves: seq<Move>, k: nat, replies: seq<Check>)
    returns (before: Plain)
    requires AllValid(moves) && k < |moves| && Came(run, recording, p, s, moves[..k], replies)
    ensures Ready(run, recording) && run.Valid() && !run.ContainsHollow() && p == ProgramOf(run) && Fits(p, s)
    ensures before == PlainOf(run) && AllValid(moves[..k]) && (before, replies) == After(p, s, moves[..k])
    ensures moves[k] in moves && (moves[k].UploadMove? ==> moves[k].data.Valid())
  {
    before := PlainOf(run);
    hide PlainOf, Fits, After;
  }

  method UseOne(
    run: Run, recording: Recording, ghost p: Program, ghost s: Plain, moves: seq<Move>, k: nat, replies: seq<Check>)
    returns (more: seq<Check>)
    requires AllValid(moves) && k < |moves| && Came(run, recording, p, s, moves[..k], replies)
    modifies run.device`mem, run.Nodes(), set m | m in moves && m.SetMove? :: m.dynamic
    ensures Came(run, recording, p, s, moves[..k + 1], more)
  {
    hide *;
    ghost var before := CameSoFar(run, recording, p, s, moves, k, replies);
    var reply := DoMove(run, recording, moves[k]);
    CameOneMore(run, recording, p, s, moves, k, replies, before, reply);
    more := replies + [reply];
  }

  /** Main result: a captured run with no empty tensor, used in any way: uploads, clears, dynamics
      set and applied, replays, each bind in a scope of its own. Every reply, and all that its
      tensors and metas hold at the end, are the plain run's; a replay never answers
      `NotBound`. */
  method Use(run: Run, recording: Recording, moves: seq<Move>) returns (replies: seq<Check>)
    requires Ready(run, recording) && AllValid(moves)
    modifies run.device`mem, run.Nodes(), set m | m in moves && m.SetMove? :: m.dynamic
    ensures Ready(run, recording)
    ensures Fits(ProgramOf(run), old(PlainOf(run)))
    ensures (PlainOf(run), replies) == After(ProgramOf(run), old(PlainOf(run)), moves)
  {
    replies := [];
    ghost var p, s := ProgramOf(run), PlainOf(run);
    PlainFits(run);
    assert moves[..0] == [];
    hide Ready, PlainOf, Fits, AllValid;
    for k := 0 to |moves|
      invariant Came(run, recording, p, s, moves[..k], replies)
    {
      replies := UseOne(run, recording, p, s, moves, k, replies);
    }
    assert moves[..|moves|] == moves;
  }

  // ----------------------------------------------------------------------------
  // Executes instead
  // ----------------------------------------------------------------------------

  lemma OutcomePlace(run: Run)
    requires run.Made() && run.NodesValid()
    ensures run.Outcome().Passed? <==> ReplayOutcome(run).Passed?
    ensures run.Outcome().Failed? ==>
      ReplayOutcome(run).Failed? && run.Outcome().error == InCall(run.Reach(0), ReplayOutcome(run).error)
    ensures run.Outcome().Passed? ==> run.Reach(0) == |run.order|
  {
  }

  method ExecuteBound(bound: Bound, ghost run: Run, recording: Recording) returns (r: Check)
    requires Ready(run, recording) && Binds(bound, run)
    modifies bound.scope`recording, run.device`mem, run.device`recording
    ensures Ready(run, recording) && Metas(run) == old(Metas(run)) && DynamicsNow(run) == old(DynamicsNow(run))
    ensures r.Passed? <==> old(ReplayOutcome(run)).Passed?
    ensures r.Failed? ==> r.error.InCall? && old(ReplayOutcome(run)) == Failed(r.error.error)
    ensures r.Passed? ==>
      && AllHave(old(run.Store()), old(run.Jobs(|run.order|)))
      && run.Store() == InvokeAll(old(run.Jobs(|run.order|)), old(run.Store()))
  {
    hide *;
    run.NodesAllocated();
    DynamicsAllocated(run);
    IsReady(run, recording);
    bound.BoundRun(run);
    OutcomePlace(run);
    r := bound.Execute(run);
    BindsReady(bound, run, recording);
  }

  lemma MovedIs(p: Program, s: Plain, m: Move, s': Plain, r: Check)
    requires Moved(p, s, m, s', r)
    ensures Fits(p, s) && (m.UploadMove? ==> m.data.Valid()) && Step(p, s, m) == (s', r)
  {
  }

  /** In place of a replay that passes, an execute takes the plain state to the same one. Where a
      replay fails, an execute fails with that error, and the place of its call. */
  method DoExecute(run: Run, recording: Recording) returns (r: Check)
    requires Ready(run, recording)
    modifies run.device`mem, run.device`recording
    ensures Ready(run, recording) && Fits(ProgramOf(run), old(PlainOf(run)))
    ensures var (s, reply) := Step(ProgramOf(run), old(PlainOf(run)), ReplayMove);
      && (r.Passed? <==> reply.Passed?)
      && (r.Passed? ==> PlainOf(run) == s)
      && (r.Failed? ==> r.error.InCall? && reply == Failed(r.error.error))
  {
    hide *;
    var bound, ids := BindCaptured(run, recording);
    ghost var s := ReplayKnown(run, recording);
    PlainFits(run);
    if ReplayOutcome(run).Failed? {
      MovedIs(ProgramOf(run), s, ReplayMove, s, ReplayOutcome(run));
    } else {
      ghost var jobs := run.Jobs(|run.order|);
      MovedIs(ProgramOf(run), s, ReplayMove, s.(store := InvokeAll(jobs, run.Store())), ReplayOutcome(run));
    }
    r := ExecuteBound(bound, run, recording);
    StoreOfPlain(run, recording);
  }
}
