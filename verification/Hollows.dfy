/** `fill_from`: live tensors move between the runs of one plan. */
module Hollows {
  import opened Blocks
  import opened Dtype
  import opened Rules
  import opened Cpu
  import opened Scopes
  import opened Plans
  import opened Runs
  import opened Builds

  /** Why a fill fails, in the order it checks. */
  function FillCheck(sameDevice: bool, to: Tensors, from: Tensors, id: nat): (r: Check)
    ensures r.Passed? <==>
      && sameDevice && id in to && id in from && to[id].Hollow? && from[id].Live?
      && to[id].Kind() == from[id].Kind() && to[id].Len() == from[id].Len()
    ensures r == Failed(OtherDevice(TheTensor)) <==> !sameDevice
    ensures r == Failed(NotInPlan(TheTensor)) <==> sameDevice && (id !in to || id !in from)
    ensures r.Failed? && r.error.NotHollow? ==> id in to && to[id].Live?
    ensures r.Failed? && r.error.Hollow? ==> id in to && id in from && to[id].Hollow? && from[id].Hollow?
    ensures r.Failed? && r.error.KindMismatch? ==>
      id in to && id in from && r.error == KindMismatch(to[id].Kind(), from[id].Kind()) && to[id].Hollow? && from[id].Live?
    ensures r.Failed? && r.error.LenMismatch? ==>
      id in to && id in from && r.error == LenMismatch(to[id].Len(), from[id].Len()) && to[id].Hollow? && from[id].Live?
  {
    if !sameDevice then Failed(OtherDevice(TheTensor))
    else if id !in to || id !in from then Failed(NotInPlan(TheTensor))
    else if to[id].Live? then Failed(Error.NotHollow)
    else if from[id].Hollow? then Failed(Error.Hollow)
    else if to[id].Kind() != from[id].Kind() then Failed(KindMismatch(to[id].Kind(), from[id].Kind()))
    else if to[id].Len() != from[id].Len() then Failed(LenMismatch(to[id].Len(), from[id].Len()))
    else Passed
  }

  /** Two runs own different live tensors. */
  ghost predicate OwnApart(a: Tensors, b: Tensors) {
    forall i, j | i in a && j in b && a[i].Live? && b[j].Live? :: Apart(a[i].tensor, b[j].tensor)
  }

  /** Same keys, kinds and lengths: all that the checks of a run look at. */
  ghost predicate SameFaces(a: Tensors, b: Tensors) {
    a.Keys == b.Keys && forall id | id in a :: a[id].Kind() == b[id].Kind() && a[id].Len() == b[id].Len()
  }

  lemma FacesKeepCalls(calls: map<nat, Call>, order: seq<nat>, a: Tensors, b: Tensors, device: Device)
    requires CallsMade(calls, order, a, device) && SameFaces(a, b)
    ensures CallsMade(calls, order, b, device)
  {
    assert Kinds(a) == Kinds(b);
  }

  lemma SwapKeepsSound(to: Tensors, from: Tensors, id: nat, device: Device, mem: Memory)
    requires TensorsSound(to, device, mem) && TensorsSound(from, device, mem) && OwnApart(to, from)
    requires FillCheck(true, to, from, id).Passed?
    ensures TensorsSound(to[id := from[id]], device, mem) && TensorsSound(from[id := to[id]], device, mem)
    ensures OwnApart(to[id := from[id]], from[id := to[id]])
    ensures SameFaces(to, to[id := from[id]]) && SameFaces(from, from[id := to[id]])
  {
    forall other | other in to && other != id && to[other].Live?
      ensures Apart(to[other].tensor, from[id].tensor) && Apart(from[id].tensor, to[other].tensor)
    {
    }
  }

  /** Moves the live tensor of `id` out of `from` into its hollow place, or fails and changes
      nothing. Neither run's checks can tell. */
  method FillFrom(to: Run, from: Run, id: nat) returns (r: Check)
    requires to.Valid() && from.Valid() && to != from
    requires to.device == from.device ==> OwnApart(to.tensors, from.tensors)
    modifies to`tensors, from`tensors
    ensures to.Valid() && from.Valid()
    ensures to.device == from.device ==> OwnApart(to.tensors, from.tensors)
    ensures r == old(FillCheck(to.device == from.device, to.tensors, from.tensors, id))
    ensures r.Failed? ==> to.tensors == old(to.tensors) && from.tensors == old(from.tensors)
    ensures r.Passed? ==>
      && to.tensors == old(to.tensors)[id := old(from.tensors)[id]]
      && from.tensors == old(from.tensors)[id := old(to.tensors)[id]]
    ensures to.device == from.device ==> forall kinds: map<nat, Kind> ::
              After([old(to.tensors), old(from.tensors)], kinds, Fill(0, 1, id)) == [to.tensors, from.tensors]
  {
    r := FillCheck(to.device == from.device, to.tensors, from.tensors, id);
    if r.Failed? {
      return;
    }
    ghost var a, b := to.tensors, from.tensors;
    SwapKeepsSound(a, b, id, to.device, to.device.mem);
    to.tensors, from.tensors := to.tensors[id := from.tensors[id]], from.tensors[id := to.tensors[id]];
    FacesKeepCalls(to.calls, to.order, a, to.tensors, to.device);
    FacesKeepCalls(from.calls, from.order, b, from.tensors, from.device);
  }

  // ----------------------------------------------------------------------------
  // Every run of one plan
  // ----------------------------------------------------------------------------

  /** What happens to the runs of a plan: one more hollow run, with the lengths known then,
      or a fill of run `to` from run `from`. */
  datatype Event = MoreHollow(lens: map<nat, nat>) | Fill(to: nat, from: nat, id: nat)

  /** `Fill` between two different runs; anything else changes nothing. */
  function After(runs: seq<Tensors>, kinds: map<nat, Kind>, e: Event): seq<Tensors> {
    match e
    case MoreHollow(lens) =>
      runs + [map id | id in kinds && id in lens :: AnyTensor.Hollow(kinds[id], lens[id])]
    case Fill(to, from, id) =>
      if to < |runs| && from < |runs| && to != from && FillCheck(true, runs[to], runs[from], id).Passed? then
        var filled: Tensors, emptied: Tensors := runs[to][id := runs[from][id]], runs[from][id := runs[to][id]];
        runs[to := filled][from := emptied]
      else runs
  }

  /** A hollow run as it is built is what that event adds. */
  lemma HollowIsThat(specs: seq<TensorSpec>, known: Known, tensors: Tensors, runs: seq<Tensors>)
    requires Distinct(TensorIds(specs)) && HollowSoFar(specs, |specs|, known, tensors)
    ensures forall t | t in specs :: t.len in known.numbers
    ensures var lens := map id | id in tensors :: tensors[id].Len();
      && (forall t | t in specs :: t.id in lens && lens[t.id] == known.numbers[t.len])
      && After(runs, KindMap(specs), MoreHollow(lens)) == runs + [tensors]
  {
    var lens, kinds := map id | id in tensors :: tensors[id].Len(), KindMap(specs);
    hide *;
    forall id | id in tensors ensures id in kinds && tensors[id] == AnyTensor.Hollow(kinds[id], lens[id]) {
      HollowPlace(specs, known, tensors, id);
    }
    forall t | t in specs ensures t.len in known.numbers && t.id in lens && lens[t.id] == known.numbers[t.len] {
      HollowSpec(specs, known, tensors, t);
    }
    AddedHollow(runs, kinds, lens, tensors);
  }

  lemma HollowPlace(specs: seq<TensorSpec>, known: Known, tensors: Tensors, id: nat)
    requires Distinct(TensorIds(specs)) && HollowSoFar(specs, |specs|, known, tensors) && id in tensors
    ensures id in KindMap(specs) && tensors[id] == AnyTensor.Hollow(KindMap(specs)[id], tensors[id].Len())
  {
    var j :| 0 <= j < |specs| && specs[j].id == id;
    assert specs[j] in specs;
  }

  lemma HollowSpec(specs: seq<TensorSpec>, known: Known, tensors: Tensors, t: TensorSpec)
    requires HollowSoFar(specs, |specs|, known, tensors) && t in specs
    ensures t.len in known.numbers && t.id in tensors && tensors[t.id].Len() == known.numbers[t.len]
  {
  }

  lemma AddedHollow(runs: seq<Tensors>, kinds: map<nat, Kind>, lens: map<nat, nat>, tensors: Tensors)
    requires lens.Keys == tensors.Keys
    requires forall id | id in tensors :: id in kinds && tensors[id] == AnyTensor.Hollow(kinds[id], lens[id])
    ensures After(runs, kinds, MoreHollow(lens)) == runs + [tensors]
  {
    var added: Tensors := map id | id in kinds && id in lens :: AnyTensor.Hollow(kinds[id], lens[id]);
    assert After(runs, kinds, MoreHollow(lens)) == runs + [added];
    assert added == tensors;
  }

  function AfterAll(runs: seq<Tensors>, kinds: map<nat, Kind>, events: seq<Event>): seq<Tensors> {
    if events == [] then runs
    else After(AfterAll(runs, kinds, events[..|events| - 1]), kinds, events[|events| - 1])
  }

  ghost predicate LiveIn(runs: seq<Tensors>, id: nat, k: nat) {
    k < |runs| && id in runs[k] && runs[k][id].Live?
  }

  /** Each id's tensor is live in exactly one run, and it is the one that was built; each
      place keeps its kind. */
  ghost predicate OneOwner(runs: seq<Tensors>, built: map<nat, Tensor>) {
    && (forall id | id in built :: exists k: nat :: LiveIn(runs, id, k))
    && (forall id: nat, j: nat, k: nat :: LiveIn(runs, id, j) && LiveIn(runs, id, k) ==> j == k)
    && (forall id: nat, k: nat :: LiveIn(runs, id, k) ==> id in built && runs[k][id].tensor == built[id])
    && (forall id: nat, k: nat | k < |runs| && id in runs[k] :: id in built && runs[k][id].Kind() == built[id].kind)
  }

  /** A fill makes `to` the owner of its id, in `from`'s place, and no other. */
  lemma FillMovesOwner(runs: seq<Tensors>, kinds: map<nat, Kind>, e: Event)
    requires e.Fill? && e.to < |runs| && e.from < |runs| && e.to != e.from
    requires FillCheck(true, runs[e.to], runs[e.from], e.id).Passed?
    ensures var after := After(runs, kinds, e);
      && (forall id: nat, k: nat | id != e.id :: LiveIn(after, id, k) <==> LiveIn(runs, id, k))
      && (forall k: nat :: LiveIn(after, e.id, k) <==> k == e.to || (k != e.from && LiveIn(runs, e.id, k)))
      && (forall id: nat, k: nat | LiveIn(after, id, k) ::
            if id == e.id && k == e.to then LiveIn(runs, id, e.from) && after[k][id].tensor == runs[e.from][id].tensor
            else LiveIn(runs, id, k) && after[k][id].tensor == runs[k][id].tensor)
  {
  }

  lemma FillKeepsOwner(runs: seq<Tensors>, built: map<nat, Tensor>, kinds: map<nat, Kind>, e: Event)
    requires OneOwner(runs, built) && e.Fill? && e.to < |runs| && e.from < |runs| && e.to != e.from
    requires FillCheck(true, runs[e.to], runs[e.from], e.id).Passed?
    ensures OneOwner(After(runs, kinds, e), built)
  {
    var after := After(runs, kinds, e);
    FillMovesOwner(runs, kinds, e);
    forall id | id in built ensures exists k: nat :: LiveIn(after, id, k) {
      var k: nat :| LiveIn(runs, id, k);
      assert LiveIn(after, id, if id == e.id then e.to else k);
    }
    forall id: nat, k: nat | k < |after| && id in after[k]
      ensures id in built && after[k][id].Kind() == built[id].kind
    {
    }
    hide After, LiveIn, FillCheck;
  }

  lemma EventKeepsOwner(runs: seq<Tensors>, built: map<nat, Tensor>, kinds: map<nat, Kind>, e: Event)
    requires OneOwner(runs, built) && kinds.Keys == built.Keys && forall id | id in kinds :: kinds[id] == built[id].kind
    ensures OneOwner(After(runs, kinds, e), built)
  {
    var after := After(runs, kinds, e);
    if e.MoreHollow? {
      forall id: nat, k: nat ensures LiveIn(after, id, k) <==> LiveIn(runs, id, k) {
      }
    } else if after != runs {
      hide OneOwner;
      FillKeepsOwner(runs, built, kinds, e);
    }
  }

  /** Main result: over any sequence of hollow builds and fills, each id is live in exactly
      one run, the tensor that was built with it is the one that moves, block and all, and
      no place changes its kind. */
  lemma {:induction false} OwnershipIsLinear(
    runs: seq<Tensors>, built: map<nat, Tensor>, kinds: map<nat, Kind>, events: seq<Event>)
    requires OneOwner(runs, built) && kinds.Keys == built.Keys && forall id | id in kinds :: kinds[id] == built[id].kind
    ensures OneOwner(AfterAll(runs, kinds, events), built)
  {
    if events != [] {
      var n := |events| - 1;
      OwnershipIsLinear(runs, built, kinds, events[..n]);
      EventKeepsOwner(AfterAll(runs, kinds, events[..n]), built, kinds, events[n]);
    }
  }

  /** A built run owns all its tensors. */
  lemma BuildOwnsAll(specs: seq<TensorSpec>, known: Known, device: Device, tensors: Tensors, mem: Memory)
    requires BuiltSoFar(specs, |specs|, known, device, tensors, mem)
    ensures forall id | id in tensors :: tensors[id].Live?
    ensures OneOwner([tensors], map id | id in tensors :: tensors[id].tensor)
  {
    var built := map id | id in tensors :: tensors[id].tensor;
    forall id | id in tensors ensures tensors[id].Live? && LiveIn([tensors], id, 0) {
      var j :| 0 <= j < |specs| && specs[j].id == id;
    }
  }

  /** Main result: that is so of all the runs ever made of one plan, from its building on. */
  lemma PlansRunsAreLinear(
    specs: seq<TensorSpec>, known: Known, device: Device, tensors: Tensors, mem: Memory, events: seq<Event>)
    requires BuiltSoFar(specs, |specs|, known, device, tensors, mem)
    ensures forall id | id in tensors :: tensors[id].Live?
    ensures OneOwner(AfterAll([tensors], Kinds(tensors), events), map id | id in tensors :: tensors[id].tensor)
  {
    BuildOwnsAll(specs, known, device, tensors, mem);
    hide BuiltSoFar, OneOwner, AfterAll;
    OwnershipIsLinear([tensors], map id | id in tensors :: tensors[id].tensor, Kinds(tensors), events);
  }

  /** Main result: filling a hollow place of a plan's run from its live one fails on length
      exactly when the length isn't whole host words: the live one was rounded up, the
      hollow one wasn't. */
  lemma FillFailsOnLength(
    specs: seq<TensorSpec>, known: Known, device: Device, live: Tensors, hollow: Tensors, mem: Memory, j: nat)
    requires j < |specs| && BuiltSoFar(specs, |specs|, known, device, live, mem)
    requires HollowSoFar(specs, |specs|, known, hollow)
    ensures specs[j].len in known.numbers
    ensures var (id, len, kind) := (specs[j].id, known.numbers[specs[j].len], specs[j].kind);
      FillCheck(true, hollow, live, id)
        == if len % ElemsPerHostWord(kind) == 0 then Passed else Failed(LenMismatch(len, WholeWords(kind, len)))
  {
    var len := known.numbers[specs[j].len];
    assert BuiltFrom(live[specs[j].id].tensor, specs[j], known, mem);
    assert WholeWords(specs[j].kind, len) == len <==> len % ElemsPerHostWord(specs[j].kind) == 0;
  }
}
