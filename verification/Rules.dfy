/** The checks that plans and scopes share, and the errors of the model. */
module Rules {
  import opened Dtype

  datatype Role = Input(kind: Kind) | Output(kind: Kind) | InOut(kind: Kind) | Accumulate(kind: Kind)

  datatype MetaType = Uint | Float

  datatype Workgroups = Workgroups(x: nat, y: nat, z: nat)

  /** How a shader is called. `needs` is its `min_lens`, slot by slot. */
  datatype Signature = Signature(
    meta: seq<MetaType>,
    layout: seq<Role>,
    needs: (seq<nat>, Workgroups, nat) -> nat)

  datatype Thing = TheTensor | TheNode | TheCall | TheRecording

  datatype Error =
    | OtherDevice(what: Thing)
    | KindMismatch(expected: Kind, got: Kind)
    | LenMismatch(wanted: nat, len: nat)
    | SlotCount(slots: nat, tensors: nat)
    | SlotKind(slot: nat, holds: Kind, given: Kind)
    | SlotAccess(slot: nat)
    | TooShort(slot: nat, needs: nat, has: nat)
    | Aliased(slot: nat)
    | MetaCount(fields: nat, values: nat)
    | MetaMismatch(field: nat)
    | OutOfRange(offset: nat, count: nat, tensorLen: nat)
    | Misaligned(element: nat)
    | NoWorkgroups
    | SameTensor
    | AlreadyCapturing
    | ReplayWhileCapturing
    | NotBound(what: Thing)
    | NotInPlan(what: Thing)
    | Hollow
    | NotHollow
    | NotGivenYet
    | DynamicUnset
    | InCall(index: nat, error: Error)

  datatype Result<+T> = Ok(value: T) | Err(error: Error) {
    predicate IsFailure() {
      Err?
    }

    function PropagateFailure<U>(): Result<U>
      requires Err?
    {
      Err(error)
    }

    function Extract(): T
      requires Ok?
    {
      value
    }
  }

  datatype Check = Passed | Failed(error: Error) {
    /** This check's error, or else `next`'s. */
    function Then(next: Check): Check {
      if Failed? then this else next
    }
  }

  predicate Written(role: Role) {
    !role.Input?
  }

  /** The first slot, from `slot` on, whose tensor is of another kind. */
  function KindsFrom(layout: seq<Role>, kinds: seq<Kind>, slot: nat): (r: Check)
    requires slot <= |layout| == |kinds|
    ensures r.Passed? <==> forall j | slot <= j < |layout| :: layout[j].kind == kinds[j]
    ensures r.Failed? ==> r.error.SlotKind?
    decreases |layout| - slot
  {
    if slot == |layout| then Passed
    else if layout[slot].kind != kinds[slot] then Failed(SlotKind(slot, layout[slot].kind, kinds[slot]))
    else KindsFrom(layout, kinds, slot + 1)
  }

  /** The kinds of some tensors are those the layout has, slot by slot. */
  function SlotKinds(shader: Signature, kinds: seq<Kind>): (r: Check)
    ensures r.Passed? <==> |kinds| == |shader.layout| && forall j | 0 <= j < |kinds| :: shader.layout[j].kind == kinds[j]
    ensures r.Failed? ==> if |kinds| != |shader.layout| then r.error.SlotCount? else r.error.SlotKind?
  {
    if |shader.layout| != |kinds| then Failed(SlotCount(|shader.layout|, |kinds|))
    else KindsFrom(shader.layout, kinds, 0)
  }

  function TypesFrom(meta: seq<MetaType>, types: seq<MetaType>, field: nat): (r: Check)
    requires field <= |meta| == |types|
    ensures r.Passed? <==> meta[field..] == types[field..]
    ensures r.Failed? ==> exists k | field <= k < |meta| ::
              r == Failed(MetaMismatch(k)) && meta[k] != types[k] && forall j | field <= j < k :: meta[j] == types[j]
    decreases |meta| - field
  {
    if field == |meta| then Passed
    else if meta[field] != types[field] then
      assert meta[field..][0] != types[field..][0];
      Failed(MetaMismatch(field))
    else
      assert meta[field..] == [meta[field]] + meta[field + 1..];
      assert types[field..] == [types[field]] + types[field + 1..];
      TypesFrom(meta, types, field + 1)
  }

  /** The types of some values are the meta's. */
  function MetaTypes(shader: Signature, types: seq<MetaType>): (r: Check)
    ensures r.Passed? <==> shader.meta == types
    ensures |types| != |shader.meta| ==> r == Failed(MetaCount(|shader.meta|, |types|))
    ensures r.Failed? && |types| == |shader.meta| ==> exists k | 0 <= k < |types| ::
              r == Failed(MetaMismatch(k)) && shader.meta[k] != types[k] && forall j | 0 <= j < k :: shader.meta[j] == types[j]
  {
    if |shader.meta| != |types| then Failed(MetaCount(|shader.meta|, |types|))
    else
      assert shader.meta[0..] == shader.meta && types[0..] == types;
      TypesFrom(shader.meta, types, 0)
  }

  /** Written slots take `Arg::Write`, `Input` slots `Arg::Read`. */
  function RightAccess(slot: nat, role: Role, write: bool): (r: Check)
    ensures r.Passed? <==> write == Written(role)
    ensures r.Failed? ==> r.error == SlotAccess(slot)
  {
    if write != Written(role) then Failed(SlotAccess(slot)) else Passed
  }

  function LongEnough(slot: nat, needs: nat, has: nat): (r: Check)
    ensures r.Passed? <==> has >= needs
    ensures r.Failed? ==> r.error == TooShort(slot, needs, has)
  {
    if has >= needs then Passed else Failed(TooShort(slot, needs, has))
  }

  /** The tensor in `slot` is in another slot too. */
  predicate Shared<T(==)>(tensors: seq<T>, slot: nat)
    requires slot < |tensors|
  {
    exists other :: 0 <= other < |tensors| && other != slot && tensors[other] == tensors[slot]
  }

  function AliasFrom<T(==)>(layout: seq<Role>, tensors: seq<T>, slot: nat): (r: Check)
    requires slot <= |layout| == |tensors|
    ensures r.Passed? <==> forall j: nat | slot <= j < |layout| && Written(layout[j]) :: !Shared(tensors, j)
    ensures r.Failed? ==>
      && r.error.Aliased? && slot <= r.error.slot < |layout|
      && Written(layout[r.error.slot]) && Shared(tensors, r.error.slot)
      && forall j: nat | slot <= j < r.error.slot && Written(layout[j]) :: !Shared(tensors, j)
    decreases |layout| - slot
  {
    if slot == |layout| then Passed
    else if Written(layout[slot]) && Shared(tensors, slot) then Failed(Aliased(slot))
    else AliasFrom(layout, tensors, slot + 1)
  }

  /** No name at a written slot comes twice, whatever the names are. */
  function NotAliased<T(==)>(shader: Signature, tensors: seq<T>): (r: Check)
    requires |shader.layout| == |tensors|
    ensures r.Passed? <==> forall j: nat | j < |tensors| && Written(shader.layout[j]) :: !Shared(tensors, j)
    ensures r.Failed? ==>
      && r.error.Aliased? && r.error.slot < |tensors|
      && Written(shader.layout[r.error.slot]) && Shared(tensors, r.error.slot)
      && forall j: nat | j < r.error.slot && Written(shader.layout[j]) :: !Shared(tensors, j)
  {
    AliasFrom(shader.layout, tensors, 0)
  }

  /** Equal tensors are in slots that are only read. */
  ghost predicate Unaliased<T>(layout: seq<Role>, tensors: seq<T>) {
    forall j, k | 0 <= j < |tensors| && 0 <= k < |tensors| && j != k && tensors[j] == tensors[k] ::
      j < |layout| && !Written(layout[j])
  }

  lemma NotAliasedExactly<T>(shader: Signature, tensors: seq<T>)
    requires |shader.layout| == |tensors|
    ensures NotAliased(shader, tensors).Passed? <==> Unaliased(shader.layout, tensors)
  {
    if NotAliased(shader, tensors).Passed? {
      forall j, k | 0 <= j < |tensors| && 0 <= k < |tensors| && j != k && tensors[j] == tensors[k]
        ensures !Written(shader.layout[j])
      {
        assert tensors[k] == tensors[j];
        assert Shared(tensors, j);
      }
    } else {
      var j := NotAliased(shader, tensors).error.slot;
      var k :| 0 <= k < |tensors| && k != j && tensors[k] == tensors[j];
      assert tensors[j] == tensors[k];
    }
  }

  /** Only which names are equal matters, not what they are. */
  lemma AliasingIsRenaming<T, U>(shader: Signature, xs: seq<T>, ys: seq<U>)
    requires |shader.layout| == |xs| == |ys|
    requires forall i, j | 0 <= i < |xs| && 0 <= j < |xs| :: xs[i] == xs[j] <==> ys[i] == ys[j]
    ensures NotAliased(shader, xs) == NotAliased(shader, ys)
  {
    forall j: nat | j < |xs| ensures Shared(xs, j) <==> Shared(ys, j) {
      if Shared(xs, j) {
        var other :| 0 <= other < |xs| && other != j && xs[other] == xs[j];
        assert ys[other] == ys[j];
      }
      if Shared(ys, j) {
        var other :| 0 <= other < |ys| && other != j && ys[other] == ys[j];
        assert xs[other] == xs[j];
      }
    }
    var x, y := NotAliased(shader, xs), NotAliased(shader, ys);
    if x.Failed? {
      assert Shared(ys, x.error.slot);
    }
    if y.Failed? {
      assert Shared(xs, y.error.slot);
    }
  }
}
