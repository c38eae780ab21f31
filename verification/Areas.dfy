/** Bump areas under concurrency: any number of carvers race with compare-and-swap on one
    `next`, and what each gets is its own. */
module Areas {

  /** The CPU's area counts in words; CUDA's in bytes, of which it takes whole 256s. */
  datatype Area = CpuArea(total: nat) | CudaArea(total: nat)

  const CARVE_ALIGN: nat := 256
  const MIN_BYTES: nat := 4

  /** The size a carved buffer has, in the area's unit. */
  function Size(a: Area, bytes: nat): nat {
    match a
    case CpuArea(_) => (bytes + 3) / 4
    case CudaArea(_) => if bytes < MIN_BYTES then MIN_BYTES else bytes
  }

  /** What `next` moves by for it. */
  function Taken(a: Area, bytes: nat): (n: nat)
    ensures n >= Size(a, bytes) && (a.CudaArea? ==> n % CARVE_ALIGN == 0)
  {
    match a
    case CpuArea(_) => Size(a, bytes)
    case CudaArea(_) =>
      var blocks := (Size(a, bytes) + CARVE_ALIGN - 1) / CARVE_ALIGN;
      assert CARVE_ALIGN * blocks % CARVE_ALIGN == 0;
      CARVE_ALIGN * blocks
  }

  /** A carver before its load, between a load and its compare-and-swap, or done. */
  datatype Status = Starting | Loaded(prev: nat) | Got(start: nat) | Refused

  datatype Carver = Carver(bytes: nat, status: Status)

  /** `past` are the values `next` has held, its own last: a relaxed load may return any. */
  datatype State = State(next: nat, past: set<nat>, carvers: seq<Carver>)

  function With(s: State, i: nat, status: Status): State
    requires i < |s.carvers|
  {
    s.(carvers := s.carvers[i := s.carvers[i].(status := status)])
  }

  /** `load`. */
  ghost predicate LoadStep(s: State, s': State, i: nat) {
    && i < |s.carvers| && s.carvers[i].status.Starting?
    && exists v :: v in s.past && s' == With(s, i, Loaded(v))
  }

  /** The update's function says there is no room after what was loaded. */
  ghost predicate RefuseStep(a: Area, s: State, s': State, i: nat) {
    && i < |s.carvers| && s.carvers[i].status.Loaded?
    && Taken(a, s.carvers[i].bytes) > a.total - s.carvers[i].status.prev
    && s' == With(s, i, Refused)
  }

  /** The compare-and-swap succeeds: nobody moved `next` since. */
  ghost predicate SwapStep(a: Area, s: State, s': State, i: nat) {
    && i < |s.carvers| && s.carvers[i].status == Loaded(s.next)
    && Taken(a, s.carvers[i].bytes) <= a.total - s.next
    && var next := s.next + Taken(a, s.carvers[i].bytes);
       s' == With(s, i, Got(s.next)).(next := next, past := s.past + {next})
  }

  /** It fails, for somebody did or for no reason at all. What it then sees is tried next: a
      relaxed failure, like a load, may see any value `next` has held. */
  ghost predicate RetryStep(a: Area, s: State, s': State, i: nat) {
    && i < |s.carvers| && s.carvers[i].status.Loaded?
    && Taken(a, s.carvers[i].bytes) <= a.total - s.carvers[i].status.prev
    && exists v :: v in s.past && s' == With(s, i, Loaded(v))
  }

  /** Another carver comes. */
  ghost predicate ArriveStep(s: State, s': State, bytes: nat) {
    s' == s.(carvers := s.carvers + [Carver(bytes, Starting)])
  }

  ghost predicate Step(a: Area, s: State, s': State) {
    || (exists i: nat :: LoadStep(s, s', i))
    || (exists i: nat :: RefuseStep(a, s, s', i))
    || (exists i: nat :: SwapStep(a, s, s', i))
    || (exists i: nat :: RetryStep(a, s, s', i))
    || (exists bytes: nat :: ArriveStep(s, s', bytes))
  }

  ghost predicate IsRun(a: Area, run: seq<State>) {
    && |run| > 0 && run[0] == State(0, {0}, [])
    && forall k | 0 <= k < |run| - 1 :: Step(a, run[k], run[k + 1])
  }

  // ----------------------------------------------------------------------------
  // What every state keeps
  // ----------------------------------------------------------------------------

  /** What the first `n` carvers took. */
  function SumTaken(a: Area, carvers: seq<Carver>, n: nat): nat
    requires n <= |carvers|
  {
    if n == 0 then 0
    else SumTaken(a, carvers, n - 1) + if carvers[n - 1].status.Got? then Taken(a, carvers[n - 1].bytes) else 0
  }

  /** Inside the area, and disjoint from every other carver's. */
  ghost predicate OwnRanges(a: Area, s: State) {
    && (forall i | 0 <= i < |s.carvers| && s.carvers[i].status.Got? ::
          && s.carvers[i].status.start + Taken(a, s.carvers[i].bytes) <= s.next
          && (a.CudaArea? ==> s.carvers[i].status.start % CARVE_ALIGN == 0))
    && forall i, j | 0 <= i < |s.carvers| && 0 <= j < |s.carvers| && i != j
                     && s.carvers[i].status.Got? && s.carvers[j].status.Got? ::
         || s.carvers[i].status.start + Taken(a, s.carvers[i].bytes) <= s.carvers[j].status.start
         || s.carvers[j].status.start + Taken(a, s.carvers[j].bytes) <= s.carvers[i].status.start
  }

  /** Every unit below `next` is in somebody's range. */
  ghost predicate Tiled(a: Area, s: State) {
    forall p: nat | p < s.next :: HasOwner(a, s.carvers, p)
  }

  ghost predicate HasOwner(a: Area, carvers: seq<Carver>, p: nat) {
    exists i | 0 <= i < |carvers| :: Covers(a, carvers[i], p)
  }

  ghost predicate Covers(a: Area, c: Carver, p: nat) {
    c.status.Got? && c.status.start <= p < c.status.start + Taken(a, c.bytes)
  }

  ghost predicate Inv(a: Area, s: State) {
    && s.next <= a.total && s.next in s.past && (forall v | v in s.past :: v <= s.next)
    && (a.CudaArea? ==> s.next % CARVE_ALIGN == 0)
    && s.next == SumTaken(a, s.carvers, |s.carvers|)
    && OwnRanges(a, s) && Tiled(a, s)
    && (forall i | 0 <= i < |s.carvers| ::
          && (s.carvers[i].status.Loaded? ==> s.carvers[i].status.prev <= s.next)
          && (s.carvers[i].status.Refused? ==> Taken(a, s.carvers[i].bytes) > a.total - s.next))
  }

  lemma {:induction false} SumOfUpdate(a: Area, carvers: seq<Carver>, i: nat, status: Status, n: nat)
    requires i < |carvers| && n <= |carvers| && !carvers[i].status.Got?
    ensures SumTaken(a, carvers[i := carvers[i].(status := status)], n)
         == SumTaken(a, carvers, n) + if i < n && status.Got? then Taken(a, carvers[i].bytes) else 0
  {
    if n > 0 {
      SumOfUpdate(a, carvers, i, status, n - 1);
    }
  }

  lemma {:induction false} SumOfArrival(a: Area, carvers: seq<Carver>, bytes: nat, n: nat)
    requires n <= |carvers|
    ensures SumTaken(a, carvers + [Carver(bytes, Starting)], n) == SumTaken(a, carvers, n)
  {
    if n > 0 {
      SumOfArrival(a, carvers, bytes, n - 1);
    }
  }

  /** Ranges stay tiled while nobody loses one and each new unit is somebody's. */
  lemma StaysTiled(a: Area, s: State, s': State)
    requires Tiled(a, s) && s.next <= s'.next && |s.carvers| <= |s'.carvers|
    requires forall i | 0 <= i < |s.carvers| && s.carvers[i].status.Got? :: s'.carvers[i] == s.carvers[i]
    requires forall p: nat | s.next <= p < s'.next :: HasOwner(a, s'.carvers, p)
    ensures Tiled(a, s')
  {
    hide Taken;
    forall p: nat | p < s'.next
      ensures HasOwner(a, s'.carvers, p)
    {
      if p < s.next {
        assert HasOwner(a, s.carvers, p);
        var i :| 0 <= i < |s.carvers| && Covers(a, s.carvers[i], p);
        assert Covers(a, s'.carvers[i], p);
      }
    }
  }

  /** A carver that gets nothing changes nobody's range. */
  lemma KeepsInv(a: Area, s: State, i: nat, status: Status)
    requires Inv(a, s) && i < |s.carvers| && !s.carvers[i].status.Got? && !status.Got?
    requires status.Loaded? ==> status.prev <= s.next
    requires status.Refused? ==> Taken(a, s.carvers[i].bytes) > a.total - s.next
    ensures Inv(a, With(s, i, status))
  {
    SumOfUpdate(a, s.carvers, i, status, |s.carvers|);
    StaysTiled(a, s, With(s, i, status));
    hide SumTaken, Taken, Tiled;
    assert OwnRanges(a, With(s, i, status));
  }

  lemma SwapKeepsRanges(a: Area, s: State, s': State, i: nat)
    requires Inv(a, s) && SwapStep(a, s, s', i)
    ensures OwnRanges(a, s')
  {
    hide SumTaken, Taken;
  }

  lemma SwapKeepsInv(a: Area, s: State, s': State, i: nat)
    requires Inv(a, s) && SwapStep(a, s, s', i)
    ensures Inv(a, s') && s.next <= s'.next
  {
    SumOfUpdate(a, s.carvers, i, Got(s.next), |s.carvers|);
    SwapKeepsRanges(a, s, s', i);
    forall p: nat | s.next <= p < s'.next ensures HasOwner(a, s'.carvers, p) {
      assert Covers(a, s'.carvers[i], p);
    }
    StaysTiled(a, s, s');
    hide SumTaken, OwnRanges, Tiled;
  }

  lemma ArriveKeepsInv(a: Area, s: State, s': State, bytes: nat)
    requires Inv(a, s) && ArriveStep(s, s', bytes)
    ensures Inv(a, s')
  {
    SumOfArrival(a, s.carvers, bytes, |s.carvers|);
    assert SumTaken(a, s'.carvers, |s'.carvers|) == SumTaken(a, s.carvers, |s.carvers|);
    StaysTiled(a, s, s');
    hide SumTaken, Taken, Tiled;
    assert OwnRanges(a, s');
  }

  lemma StepKeepsInv(a: Area, s: State, s': State)
    requires Inv(a, s) && Step(a, s, s')
    ensures Inv(a, s') && s.next <= s'.next
  {
    if i: nat :| LoadStep(s, s', i) {
      var v :| v in s.past && s' == With(s, i, Loaded(v));
      KeepsInv(a, s, i, Loaded(v));
    } else if i: nat :| RefuseStep(a, s, s', i) {
      KeepsInv(a, s, i, Refused);
    } else if i: nat :| SwapStep(a, s, s', i) {
      SwapKeepsInv(a, s, s', i);
    } else if i: nat :| RetryStep(a, s, s', i) {
      var v :| v in s.past && s' == With(s, i, Loaded(v));
      KeepsInv(a, s, i, Loaded(v));
    } else {
      var bytes: nat :| ArriveStep(s, s', bytes);
      ArriveKeepsInv(a, s, s', bytes);
    }
    hide SumTaken, OwnRanges, Taken, Tiled;
  }

  /** Nobody is stuck: a carver not done loads, or gets its part, is refused or tries again. */
  lemma NobodyIsStuck(a: Area, s: State, i: nat)
    requires Inv(a, s) && i < |s.carvers|
    ensures s.carvers[i].status.Starting? ==> exists s' :: LoadStep(s, s', i)
    ensures s.carvers[i].status.Loaded? ==>
      || (exists s' :: RefuseStep(a, s, s', i)) || (exists s' :: SwapStep(a, s, s', i))
      || (exists s' :: RetryStep(a, s, s', i))
    ensures s.carvers[i].status == Loaded(s.next) ==>
      (exists s' :: RefuseStep(a, s, s', i)) || (exists s' :: SwapStep(a, s, s', i))
  {
    hide Taken, SumTaken, Tiled, OwnRanges;
    match s.carvers[i].status
    case Starting =>
      assert LoadStep(s, With(s, i, Loaded(s.next)), i);
    case Loaded(prev) =>
      if Taken(a, s.carvers[i].bytes) > a.total - prev {
        assert RefuseStep(a, s, With(s, i, Refused), i);
      } else if prev == s.next {
        var next := s.next + Taken(a, s.carvers[i].bytes);
        assert SwapStep(a, s, With(s, i, Got(s.next)).(next := next, past := s.past + {next}), i);
      } else {
        assert RetryStep(a, s, With(s, i, Loaded(s.next)), i);
      }
    case _ =>
  }

  lemma {:induction false} EveryStateKeepsInv(a: Area, run: seq<State>, k: nat)
    requires IsRun(a, run) && k < |run|
    ensures Inv(a, run[k])
  {
    if k > 0 {
      EveryStateKeepsInv(a, run, k - 1);
      assert Step(a, run[k - 1], run[k - 1 + 1]);
      StepKeepsInv(a, run[k - 1], run[k]);
    }
  }

  /** Main result: in every interleaving, the ranges handed out are inside the area and
      pairwise disjoint, CUDA's start at multiples of 256, and `next` is what was taken:
      a refused carve took nothing, and there is still no room for it. */
  lemma RangesAreDisjoint(a: Area, run: seq<State>, k: nat)
    requires IsRun(a, run) && k < |run|
    ensures OwnRanges(a, run[k]) && run[k].next == SumTaken(a, run[k].carvers, |run[k].carvers|) <= a.total
    ensures forall i | 0 <= i < |run[k].carvers| && run[k].carvers[i].status.Refused? ::
              Taken(a, run[k].carvers[i].bytes) > a.total - run[k].next
  {
    EveryStateKeepsInv(a, run, k);
  }

  // ----------------------------------------------------------------------------
  // In bytes
  // ----------------------------------------------------------------------------

  /** Where a part's bytes are in its area, from the first to the one past the last. */
  function FirstByte(a: Area, c: Carver): nat
    requires c.status.Got?
  {
    if a.CpuArea? then 4 * c.status.start else c.status.start
  }

  function EndByte(a: Area, c: Carver): nat
    requires c.status.Got?
  {
    FirstByte(a, c) + if a.CudaArea? && c.bytes < 4 then 4 else c.bytes
  }

  /** The bytes of an area, or of its units before `at`. */
  function InBytes(a: Area, at: nat): nat {
    if a.CpuArea? then 4 * at else at
  }

  /** What a part takes has room for its bytes, and for less than one alignment unit more. */
  lemma TakenInBytes(a: Area, bytes: nat)
    ensures a.CpuArea? ==> bytes <= 4 * Taken(a, bytes) < bytes + 4
    ensures a.CudaArea? ==> bytes <= Taken(a, bytes) && 4 <= Taken(a, bytes)
    ensures a.CudaArea? ==> Taken(a, bytes) < bytes + 256 || Taken(a, bytes) == 256
  {
  }

  /** Main result, in bytes: every buffer handed out is its area's own, from its first byte to
      its last, and no two overlap. */
  lemma BuffersAreDisjoint(a: Area, run: seq<State>, k: nat)
    requires IsRun(a, run) && k < |run|
    ensures var got := run[k].carvers;
      && (forall i | 0 <= i < |got| && got[i].status.Got? ::
            EndByte(a, got[i]) <= InBytes(a, a.total) && (a.CudaArea? ==> FirstByte(a, got[i]) % 256 == 0))
      && forall i, j | 0 <= i < |got| && 0 <= j < |got| && i != j && got[i].status.Got? && got[j].status.Got? ::
           EndByte(a, got[i]) <= FirstByte(a, got[j]) || EndByte(a, got[j]) <= FirstByte(a, got[i])
  {
    EveryStateKeepsInv(a, run, k);
    var got := run[k].carvers;
    forall i | 0 <= i < |got| {
      TakenInBytes(a, got[i].bytes);
    }
    hide Taken, SumTaken, Tiled;
  }

  /** And a refused one's bytes, rounded up to whole words or to a multiple of 256, are more than
      the area has left. */
  lemma RefusedHasNoRoom(a: Area, run: seq<State>, k: nat, i: nat, rounded: nat)
    requires IsRun(a, run) && k < |run| && i < |run[k].carvers| && run[k].carvers[i].status.Refused?
    requires rounded >= run[k].carvers[i].bytes && rounded % 4 == 0
    requires a.CudaArea? ==> rounded >= 4 && rounded % 256 == 0
    ensures rounded > InBytes(a, a.total) - InBytes(a, run[k].next)
  {
    EveryStateKeepsInv(a, run, k);
    if a.CudaArea? {
      var unit := rounded / 256;
      assert rounded == 256 * unit && unit > 0;
      TakenIsLeast(a, run[k].carvers[i].bytes, unit);
    }
    hide Taken, SumTaken, Tiled;
    TakenInBytes(a, run[k].carvers[i].bytes);
  }

  lemma TakenIsLeast(a: Area, bytes: nat, unit: nat)
    requires a.CudaArea? && unit > 0 && bytes <= 256 * unit
    ensures Taken(a, bytes) <= 256 * unit
  {
  }

  /** No two parts start at one place, but for empty ones of a CPU area: CUDA gives the
      smallest part 256 bytes. */
  lemma StartsDiffer(a: Area, run: seq<State>, k: nat, i: nat, j: nat)
    requires IsRun(a, run) && k < |run| && i != j && i < |run[k].carvers| && j < |run[k].carvers|
    requires run[k].carvers[i].status.Got? && run[k].carvers[j].status.Got?
    ensures run[k].carvers[i].status.start == run[k].carvers[j].status.start ==>
              a.CpuArea? && (run[k].carvers[i].bytes == 0 || run[k].carvers[j].bytes == 0)
  {
    EveryStateKeepsInv(a, run, k);
    hide Tiled, SumTaken;
  }

  /** Two parts, not both empty, have one address. */
  ghost predicate SharedStart(s: State) {
    exists i, j | 0 <= i < |s.carvers| && 0 <= j < |s.carvers| && i != j ::
      && s.carvers[i].status.Got? && s.carvers[j].status.Got?
      && s.carvers[i].status.start == s.carvers[j].status.start
      && !(s.carvers[i].bytes == 0 && s.carvers[j].bytes == 0)
  }

  /** An empty part that isn't the last thing carved. */
  predicate EmptyBefore(c: Carver, next: nat) {
    c.status.Got? && c.bytes == 0 && c.status.start < next
  }

  /** An empty part of a CPU area starts where the part carved after it does. */
  lemma EmptyPartSharesItsStart(a: Area, run: seq<State>, k: nat, i: nat) returns (j: nat)
    requires IsRun(a, run) && k < |run| && a.CpuArea? && i < |run[k].carvers|
    requires EmptyBefore(run[k].carvers[i], run[k].next)
    ensures j < |run[k].carvers| && j != i && run[k].carvers[j].status == run[k].carvers[i].status
    ensures run[k].carvers[j].bytes > 0
  {
    EveryStateKeepsInv(a, run, k);
    var s := run[k];
    assert HasOwner(a, s.carvers, s.carvers[i].status.start);
    j :| 0 <= j < |s.carvers| && Covers(a, s.carvers[j], s.carvers[i].status.start);
  }

  /** Main result: two parts that aren't both empty share their address exactly in a CPU area
      with an empty part before its end; in a CUDA area none do. */
  lemma SharedStartExactly(a: Area, run: seq<State>, k: nat)
    requires IsRun(a, run) && k < |run|
    ensures SharedStart(run[k]) <==>
              a.CpuArea? && exists i | 0 <= i < |run[k].carvers| :: EmptyBefore(run[k].carvers[i], run[k].next)
  {
    var s := run[k];
    EveryStateKeepsInv(a, run, k);
    if SharedStart(s) {
      SharedStartIsEmpty(a, s);
    }
    if a.CpuArea? {
      forall i | 0 <= i < |s.carvers| && EmptyBefore(s.carvers[i], s.next)
        ensures SharedStart(s)
      {
        var j := EmptyPartSharesItsStart(a, run, k, i);
        assert s.carvers[i].status.start == s.carvers[j].status.start;
      }
    }
  }

  lemma SharedStartIsEmpty(a: Area, s: State)
    requires Inv(a, s) && SharedStart(s)
    ensures a.CpuArea? && exists i | 0 <= i < |s.carvers| :: EmptyBefore(s.carvers[i], s.next)
  {
    hide SumTaken, Tiled;
    var i, j :| 0 <= i < |s.carvers| && 0 <= j < |s.carvers| && i != j
                && s.carvers[i].status.Got? && s.carvers[j].status.Got?
                && s.carvers[i].status.start == s.carvers[j].status.start
                && !(s.carvers[i].bytes == 0 && s.carvers[j].bytes == 0);
    assert EmptyBefore(s.carvers[i], s.next) || EmptyBefore(s.carvers[j], s.next);
  }

  /** And it happens: an empty part, then one word. */
  lemma SharedStartHappens()
    ensures exists run: seq<State> :: IsRun(CpuArea(1), run) && SharedStart(run[|run| - 1])
  {
    var a := CpuArea(1);
    var s0, s1 := State(0, {0}, []), State(0, {0}, [Carver(0, Starting)]);
    var s2, s3 := State(0, {0}, [Carver(0, Loaded(0))]), State(0, {0}, [Carver(0, Got(0))]);
    var s4 := State(0, {0}, [Carver(0, Got(0)), Carver(4, Starting)]);
    var s5 := State(0, {0}, [Carver(0, Got(0)), Carver(4, Loaded(0))]);
    var s6 := State(1, {0, 1}, [Carver(0, Got(0)), Carver(4, Got(0))]);
    assert ArriveStep(s0, s1, 0) && LoadStep(s1, s2, 0) && SwapStep(a, s2, s3, 0);
    assert ArriveStep(s3, s4, 4) && LoadStep(s4, s5, 1) && SwapStep(a, s5, s6, 1);
    hide SharedStart;
    assert IsRun(a, [s0, s1, s2, s3, s4, s5, s6]);
    LastIsShared(s6);
  }

  lemma LastIsShared(s: State)
    requires s.carvers == [Carver(0, Got(0)), Carver(4, Got(0))]
    ensures SharedStart(s)
  {
    assert s.carvers[0].status.start == s.carvers[1].status.start;
  }
}
