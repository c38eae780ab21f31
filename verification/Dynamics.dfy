/** `apply_dynamics`: the per-run meta fields, read and set between runs. */
module Dynamics {
  import opened Options
  import opened Rules
  import opened Cpu
  import opened Scopes
  import opened Plans
  import opened Runs
  import opened Binding

  /** The dynamics some sources read. */
  function Watched(sources: seq<MetaSource>): set<Dynamic> {
    set j | 0 <= j < |sources| && sources[j].PerRun() :: sources[j].from
  }

  predicate AllSet(sources: seq<MetaSource>)
    reads Watched(sources)
  {
    forall j | 0 <= j < |sources| && sources[j].PerRun() :: sources[j].from.value.Some?
  }

  /** A meta after the dynamics are read into it. */
  function Refreshed(sources: seq<MetaSource>, meta: seq<MetaValue>): (r: seq<MetaValue>)
    requires |meta| == |sources| && AllSet(sources)
    reads Watched(sources)
    ensures |r| == |meta|
  {
    seq(|meta|, j reads Watched(sources) requires 0 <= j < |meta| && AllSet(sources) =>
      match sources[j]
      case UintPerRun(d) => UintValue(d.value.value)
      case FloatPerRun(d) => FloatValue(d.value.value)
      case _ => meta[j])
  }

  /** What the dynamics a run's calls read hold. */
  ghost function Seen(run: Run): map<Dynamic, Option<nat>>
    reads set id, d | id in run.calls && d in Watched(run.calls[id].sources) :: d
  {
    map id, d | id in run.calls && d in Watched(run.calls[id].sources) :: d := d.value
  }

  /** Field by field: what its dynamic holds, as a number of the field's type, or what it was. */
  ghost predicate FieldsNow(
    meta: seq<MetaValue>, sources: seq<MetaSource>, was: seq<MetaValue>, seen: map<Dynamic, Option<nat>>)
  {
    && |meta| == |sources| == |was|
    && forall j | 0 <= j < |sources| ::
         match sources[j]
         case UintPerRun(d) => d in seen && seen[d].Some? && meta[j] == UintValue(seen[d].value)
         case FloatPerRun(d) => d in seen && seen[d].Some? && meta[j] == FloatValue(seen[d].value)
         case _ => meta[j] == was[j]
  }

  /** So every call's meta, and no call is missing. */
  ghost predicate AllNow(
    run: Run, after: map<nat, seq<MetaValue>>, before: map<nat, seq<MetaValue>>, seen: map<Dynamic, Option<nat>>)
  {
    && after.Keys == before.Keys == run.calls.Keys
    && forall id | id in run.calls :: FieldsNow(after[id], run.calls[id].sources, before[id], seen)
  }

  lemma RefreshedFields(run: Run, id: nat, meta: seq<MetaValue>)
    requires id in run.calls && |meta| == |run.calls[id].sources| && AllSet(run.calls[id].sources)
    ensures FieldsNow(Refreshed(run.calls[id].sources, meta), run.calls[id].sources, meta, Seen(run))
  {
    var sources := run.calls[id].sources;
    forall j | 0 <= j < |sources| && sources[j].PerRun()
      ensures sources[j].from in Watched(sources) && sources[j].from in Seen(run)
    {
    }
  }

  lemma AllFieldsNow(run: Run)
    requires forall id | id in run.calls ::
               AllSet(run.calls[id].sources) && |Metas(run)[id]| == |run.calls[id].sources|
    ensures AllNow(run, RefreshedMetas(run), Metas(run), Seen(run))
  {
    hide Refreshed, FieldsNow, AllSet, Seen;
    forall id | id in run.calls
      ensures FieldsNow(RefreshedMetas(run)[id], run.calls[id].sources, Metas(run)[id], Seen(run))
    {
      RefreshedFields(run, id, Metas(run)[id]);
    }
  }

  /** The new metas of all entries, or none when some dynamic is unset. */
  function ReadDynamics(perRun: seq<PerRun>): (r: Result<seq<(nat, seq<MetaValue>)>>)
    requires forall p | p in perRun :: |p.meta| == |p.sources|
    reads set p, d | p in perRun && d in Watched(p.sources) :: d
    ensures r.Ok? <==> forall p | p in perRun :: AllSet(p.sources)
    ensures r.Err? ==> r.error == DynamicUnset
    ensures r.Ok? ==> |r.value| == |perRun| && forall k | 0 <= k < |perRun| ::
              r.value[k] == (perRun[k].node, Refreshed(perRun[k].sources, perRun[k].meta))
  {
    if perRun == [] then Ok([])
    else
      var n := |perRun| - 1;
      var before := ReadDynamics(perRun[..n]);
      if before.Err? then before
      else if !AllSet(perRun[n].sources) then Err(DynamicUnset)
      else Ok(before.value + [(perRun[n].node, Refreshed(perRun[n].sources, perRun[n].meta))])
  }

  /** The metas to set: one per call with a per-run source, each of its shader's types. */
  ghost predicate Settable(b: Bound, run: Run, ids: seq<nat>, metas: seq<(nat, seq<MetaValue>)>) {
    && |metas| == |ids| && Distinct(ids)
    && forall k | 0 <= k < |ids| ::
         && ids[k] in run.calls && ids[k] in b.calls && metas[k].0 == b.calls[ids[k]].0
         && TypesOf(metas[k].1) == run.calls[ids[k]].node.shader.sig.meta
  }

  /** The first `n` metas are set, and no other. */
  ghost predicate SetSoFar(
    run: Run, ids: seq<nat>, metas: seq<(nat, seq<MetaValue>)>, n: nat, before: map<nat, seq<MetaValue>>)
    requires n <= |ids| == |metas|
    reads run.Nodes()
  {
    && (forall k | 0 <= k < n :: ids[k] in run.calls && run.calls[ids[k]].node.meta == metas[k].1)
    && (forall id | id in run.calls && id !in ids[..n] :: id in before && run.calls[id].node.meta == before[id])
  }

  lemma SetStep(
    run: Run, ids: seq<nat>, metas: seq<(nat, seq<MetaValue>)>, n: nat, before: map<nat, seq<MetaValue>>,
    now: map<nat, seq<MetaValue>>)
    requires n < |ids| == |metas| && Distinct(ids) && ids[n] in run.calls
    requires now.Keys == run.calls.Keys
    requires (forall k | 0 <= k < n :: ids[k] in run.calls && now[ids[k]] == metas[k].1)
    requires (forall id | id in run.calls && id !in ids[..n] :: id in before && now[id] == before[id])
    requires forall id | id in run.calls :: run.calls[id].node.meta == if id == ids[n] then metas[n].1 else now[id]
    ensures SetSoFar(run, ids, metas, n + 1, before)
  {
    assert ids[..n + 1] == ids[..n] + [ids[n]];
  }

  lemma OtherNodes(run: Run, id: nat)
    requires run.Made() && id in run.calls
    ensures run.calls[id].node in run.Nodes()
    ensures forall other | other in run.calls && other != id :: run.calls[other].node != run.calls[id].node
  {
  }

  lemma NoneSet(b: Bound, run: Run, ids: seq<nat>, metas: seq<(nat, seq<MetaValue>)>)
    requires Settable(b, run, ids, metas)
    ensures |metas| == |ids| && SetSoFar(run, ids, metas, 0, Metas(run))
  {
  }

  method SetMetas(b: Bound, ghost run: Run, ghost ids: seq<nat>, metas: seq<(nat, seq<MetaValue>)>)
    requires Binds(b, run) && Settable(b, run, ids, metas)
    modifies run.Nodes()
    ensures Binds(b, run) && SetSoFar(run, ids, metas, |ids|, old(Metas(run)))
  {
    hide *;
    ghost var before := Metas(run);
    NoneSet(b, run, ids, metas);
    for k := 0 to |metas|
      invariant Binds(b, run) && SetSoFar(run, ids, metas, k, before)
    {
      SetMetaNext(b, run, ids, metas, k, before);
    }
  }

  method SetMetaNext(b: Bound, ghost run: Run, ghost ids: seq<nat>, metas: seq<(nat, seq<MetaValue>)>, k: nat,
                     ghost before: map<nat, seq<MetaValue>>)
    requires Binds(b, run) && Settable(b, run, ids, metas) && k < |metas| && SetSoFar(run, ids, metas, k, before)
    modifies run.Nodes()
    ensures Binds(b, run) && SetSoFar(run, ids, metas, k + 1, before)
  {
    hide Binds, Run.Made, Run.NodesValid, TypesOf;
    b.BoundRun(run);
    OtherNodes(run, ids[k]);
    ghost var now := Metas(run);
    SetMetaAt(b, run, ids[k], metas[k]);
    SetStep(run, ids, metas, k, before, now);
  }

  /** Setting one node's meta keeps the run valid and bound, and the other nodes' metas. */
  method SetMetaAt(b: Bound, ghost run: Run, ghost id: nat, set_: (nat, seq<MetaValue>))
    requires Binds(b, run) && id in run.calls && id in b.calls && set_.0 == b.calls[id].0
    requires TypesOf(set_.1) == run.calls[id].node.shader.sig.meta
    modifies run.calls[id].node
    ensures Binds(b, run) && run.calls[id].node.meta == set_.1
    ensures forall other | other in run.calls && other != id :: run.calls[other].node.meta == old(run.calls[other].node.meta)
  {
    hide CallsMade, TensorsSound, BoundAt, CallsBound, Sound, Apart, CheckCall, LengthCheck, Run.Made, MinLens, Words, TypesOf;
    b.BoundCall(run, id);
    b.BoundRun(run);
    OtherNodes(run, id);
    var r := b.scope.UpdateMeta(set_.0, set_.1);
  }

  lemma RefreshedAgain(p: PerRun, meta: seq<MetaValue>)
    requires MetaKept(p, meta) && AllSet(p.sources)
    ensures Refreshed(p.sources, p.meta) == Refreshed(p.sources, meta)
    ensures MetaKept(p, Refreshed(p.sources, p.meta))
    ensures TypesOf(meta) == SourceTypes(p.sources) ==> TypesOf(Refreshed(p.sources, p.meta)) == SourceTypes(p.sources)
  {
    forall j | 0 <= j < |meta| ensures Refreshed(p.sources, p.meta)[j] == Refreshed(p.sources, meta)[j] {
    }
    if TypesOf(meta) == SourceTypes(p.sources) {
      forall j | 0 <= j < |meta|
        ensures TypesOf(Refreshed(p.sources, p.meta))[j] == SourceTypes(p.sources)[j]
      {
        assert TypesOf(meta)[j] == SourceTypes(p.sources)[j];
      }
    }
  }

  lemma NothingPerRun(sources: seq<MetaSource>, meta: seq<MetaValue>)
    requires !HasPerRun(sources) && |meta| == |sources|
    ensures AllSet(sources) && Refreshed(sources, meta) == meta
  {
  }

  /** The entries watch every dynamic the calls do, and no other. */
  lemma AllSetExactly(bound: map<nat, (nat, seq<Arg>)>, perRun: seq<PerRun>, run: Run, ids: seq<nat>)
    requires DynamicsOf(bound, perRun, run, ids)
    ensures (forall p | p in perRun :: AllSet(p.sources)) <==> forall id | id in run.calls :: AllSet(run.calls[id].sources)
  {
    hide AllSet, MetaKept;
    if forall p | p in perRun :: AllSet(p.sources) {
      forall id | id in run.calls ensures AllSet(run.calls[id].sources) {
        if HasPerRun(run.calls[id].sources) {
          var k :| 0 <= k < |ids| && ids[k] == id;
          assert perRun[k] in perRun;
        } else {
          NothingSet(run.calls[id].sources);
        }
      }
    } else if forall id | id in run.calls :: AllSet(run.calls[id].sources) {
      forall p | p in perRun ensures AllSet(p.sources) {
        var k :| 0 <= k < |perRun| && perRun[k] == p;
        assert ids[k] in ids;
      }
    }
  }

  lemma NothingSet(sources: seq<MetaSource>)
    requires !HasPerRun(sources)
    ensures AllSet(sources)
  {
  }

  /** Main result: `apply_dynamics` sets each per-run field to its dynamic's value and no
      other field; it fails only if a dynamic was never set, and then changes no meta. */
  method ApplyDynamics(b: Bound, ghost run: Run, ghost ids: seq<nat>) returns (r: Check)
    requires Binds(b, run) && DynamicsOf(b.calls, b.perRun, run, ids)
    modifies run.Nodes()
    ensures Binds(b, run) && DynamicsOf(b.calls, b.perRun, run, ids)
    ensures r.Passed? <==> old(forall id | id in run.calls :: AllSet(run.calls[id].sources))
    ensures r.Failed? ==> r == Failed(DynamicUnset) && Metas(run) == old(Metas(run))
    ensures forall id | id in run.calls :: |old(Metas(run))[id]| == |run.calls[id].sources|
    ensures r.Passed? ==> Metas(run) == old(RefreshedMetas(run))
    ensures r.Passed? ==> AllNow(run, Metas(run), old(Metas(run)), old(Seen(run)))
  {
    hide *;
    EntriesSized(b, run, ids);
    AllSetExactly(b.calls, b.perRun, run, ids);
    var metas := ReadDynamics(b.perRun);
    if metas.Err? {
      return Failed(metas.error);
    }
    MetasSettable(b, run, ids, metas.value);
    FreshMetas(b, run, ids, metas.value);
    ghost var before, after := Metas(run), RefreshedMetas(run);
    AllFieldsNow(run);
    SetMetas(b, run, ids, metas.value);
    MetasAreFresh(b, run, ids, metas.value, before, after);
    r := Passed;
  }

  /** Each call's meta after the dynamics are read into it. */
  ghost function RefreshedMetas(run: Run): map<nat, seq<MetaValue>>
    requires forall id | id in run.calls ::
               AllSet(run.calls[id].sources) && |Metas(run)[id]| == |run.calls[id].sources|
    reads run.Nodes(), set id, d | id in run.calls && d in Watched(run.calls[id].sources) :: d
  {
    map id | id in run.calls :: Refreshed(run.calls[id].sources, Metas(run)[id])
  }

  ghost predicate EntriesAgree(b: Bound, calls: map<nat, Call>, ids: seq<nat>, metas: map<nat, seq<MetaValue>>) {
    && Tracks(b.perRun, ids, calls.Keys, calls, b.calls) && metas.Keys == calls.Keys
    && forall k | 0 <= k < |ids| :: ids[k] in metas && MetaKept(b.perRun[k], metas[ids[k]])
  }

  lemma EntriesSized(b: Bound, run: Run, ids: seq<nat>)
    requires Binds(b, run) && DynamicsOf(b.calls, b.perRun, run, ids)
    ensures forall p | p in b.perRun :: |p.meta| == |p.sources|
    ensures EntriesAgree(b, run.calls, ids, Metas(run)) && |b.perRun| == |ids|
    ensures forall id | id in run.calls :: |Metas(run)[id]| == |run.calls[id].sources|
  {
    hide MetaKept, TensorsSound, BoundAt, CallsBound;
    forall id | id in run.calls ensures |run.calls[id].node.meta| == |run.calls[id].sources| {
      assert CallFits(run.calls[id], run.tensors) && run.calls[id].node.Valid();
      assert |TypesOf(run.calls[id].node.meta)| == |SourceTypes(run.calls[id].sources)|;
    }
    forall p | p in b.perRun ensures |p.meta| == |p.sources| {
      var k :| 0 <= k < |b.perRun| && b.perRun[k] == p;
      KeptSized(p, run.calls[ids[k]].node.meta);
    }
  }

  lemma KeptSized(p: PerRun, meta: seq<MetaValue>)
    requires MetaKept(p, meta)
    ensures |p.meta| == |p.sources|
  {
  }

  lemma MetasSettable(b: Bound, run: Run, ids: seq<nat>, metas: seq<(nat, seq<MetaValue>)>)
    requires Binds(b, run) && DynamicsOf(b.calls, b.perRun, run, ids) && |metas| == |b.perRun|
    requires forall p | p in b.perRun :: |p.meta| == |p.sources| && AllSet(p.sources)
    requires forall k | 0 <= k < |b.perRun| ::
               metas[k] == (b.perRun[k].node, Refreshed(b.perRun[k].sources, b.perRun[k].meta))
    ensures Settable(b, run, ids, metas)
  {
    hide Refreshed, AllSet, TensorsSound, BoundAt, TypesOf, SourceTypes, MetaKept;
    forall k | 0 <= k < |ids|
      ensures TypesOf(metas[k].1) == run.calls[ids[k]].node.shader.sig.meta
    {
      assert b.perRun[k] in b.perRun && CallFits(run.calls[ids[k]], run.tensors);
      RefreshedAgain(b.perRun[k], run.calls[ids[k]].node.meta);
    }
  }

  /** The metas to set are the refreshed ones; the calls without a per-run source have
      theirs already. */
  lemma FreshMetas(b: Bound, run: Run, ids: seq<nat>, metas: seq<(nat, seq<MetaValue>)>)
    requires EntriesAgree(b, run.calls, ids, Metas(run)) && |metas| == |b.perRun| == |ids|
    requires forall p | p in b.perRun :: |p.meta| == |p.sources| && AllSet(p.sources)
    requires forall k | 0 <= k < |b.perRun| ::
               metas[k] == (b.perRun[k].node, Refreshed(b.perRun[k].sources, b.perRun[k].meta))
    requires forall id | id in run.calls ::
               AllSet(run.calls[id].sources) && |Metas(run)[id]| == |run.calls[id].sources|
    ensures AreFresh(b, ids, metas, Metas(run), RefreshedMetas(run))
  {
    hide Refreshed, AllSet, MetaKept, HasPerRun;
    forall k | 0 <= k < |ids|
      ensures metas[k].1 == RefreshedMetas(run)[ids[k]] && MetaKept(b.perRun[k], metas[k].1)
    {
      assert b.perRun[k] in b.perRun;
      RefreshedAgain(b.perRun[k], run.calls[ids[k]].node.meta);
    }
    forall id | id in run.calls && id !in ids ensures RefreshedMetas(run)[id] == Metas(run)[id] {
      NothingPerRun(run.calls[id].sources, run.calls[id].node.meta);
    }
  }

  ghost predicate AreFresh(
    b: Bound, ids: seq<nat>, metas: seq<(nat, seq<MetaValue>)>, before: map<nat, seq<MetaValue>>,
    after: map<nat, seq<MetaValue>>)
  {
    && after.Keys == before.Keys && |metas| == |b.perRun| == |ids|
    && (forall k | 0 <= k < |ids| :: ids[k] in after && metas[k].1 == after[ids[k]] && MetaKept(b.perRun[k], metas[k].1))
    && (forall id | id in after && id !in ids :: after[id] == before[id])
  }

  lemma MetasAreFresh(
    b: Bound, run: Run, ids: seq<nat>, metas: seq<(nat, seq<MetaValue>)>, before: map<nat, seq<MetaValue>>,
    after: map<nat, seq<MetaValue>>)
    requires EntriesAgree(b, run.calls, ids, before) && AreFresh(b, ids, metas, before, after)
    requires SetSoFar(run, ids, metas, |ids|, before)
    ensures DynamicsOf(b.calls, b.perRun, run, ids) && Metas(run) == after
  {
    hide MetaKept;
    assert ids[..|ids|] == ids;
  }
}
