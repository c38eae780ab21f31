/** Values that are given once, or computed once from others, after code refers to them.
    Reading them with its caches is proved to be plain evaluation. */
module Deferred {
  import opened Options
  import opened Rules
  import opened Plans

  /** What a plan takes from a deferred value: a size or meta value, or workgroup counts. */
  datatype Amount = Number(n: nat) | Grid(groups: Workgroups)

  /** A value is given by its one resolver, or computed by a relation from its inputs. */
  datatype Source = Given | Computed(inputs: seq<Slot>, f: seq<Amount> -> Amount)

  /** The right to give a value, or why there is none. */
  datatype Handed = Handed(slot: Slot) | ResolverTaken | IsComputed

  // ----------------------------------------------------------------------------
  // Plain evaluation
  // ----------------------------------------------------------------------------

  /** Everything a relation is computed from was there before it. */
  ghost predicate Closed(all: set<Slot>) {
    forall s, x | s in all && s.source.Computed? && x in s.source.inputs :: x in all && x.rank < s.rank
  }

  /** The value, computed anew from what was given, if that is enough. */
  ghost function Eval(s: Slot, all: set<Slot>, given: map<Slot, Amount>): Option<Amount>
    requires Closed(all) && s in all
    decreases s.rank, 1, 0
  {
    match s.source
    case Given => if s in given then Some(given[s]) else None
    case Computed(inputs, f) =>
      match EvalAll(inputs, s.rank, all, given)
      case None => None
      case Some(values) => Some(f(values))
  }

  ghost function EvalAll(inputs: seq<Slot>, rank: nat, all: set<Slot>, given: map<Slot, Amount>): (r: Option<seq<Amount>>)
    requires Closed(all) && forall x | x in inputs :: x in all && x.rank < rank
    ensures r.Some? ==> |r.value| == |inputs|
    decreases rank, 0, |inputs|
  {
    if inputs == [] then Some([])
    else
      var n := |inputs| - 1;
      match EvalAll(inputs[..n], rank, all, given)
      case None => None
      case Some(values) =>
        match Eval(inputs[n], all, given)
        case None => None
        case Some(v) => Some(values + [v])
  }

  /** The inputs have values exactly when each has, and item by item these are theirs. */
  lemma {:induction false} EvalAllItems(inputs: seq<Slot>, rank: nat, all: set<Slot>, given: map<Slot, Amount>)
    requires Closed(all) && forall x | x in inputs :: x in all && x.rank < rank
    ensures EvalAll(inputs, rank, all, given).Some? <==> forall i | 0 <= i < |inputs| :: Eval(inputs[i], all, given).Some?
    ensures EvalAll(inputs, rank, all, given).Some? ==>
              forall i | 0 <= i < |inputs| :: Eval(inputs[i], all, given) == Some(EvalAll(inputs, rank, all, given).value[i])
  {
    if inputs != [] {
      EvalAllItems(inputs[..|inputs| - 1], rank, all, given);
    }
  }

  /** The values of some cells, if each has one. */
  ghost function ValuesOf(cells: seq<Slot>, all: set<Slot>, given: map<Slot, Amount>): (r: seq<Amount>)
    requires Closed(all) && forall i | 0 <= i < |cells| :: cells[i] in all && Eval(cells[i], all, given).Some?
    ensures |r| == |cells| && forall i | 0 <= i < |r| :: Eval(cells[i], all, given) == Some(r[i])
  {
    seq(|cells|, i requires 0 <= i < |cells| => Eval(cells[i], all, given).value)
  }

  /** Main result: a computed value is its function of its inputs' values, in their order, and is
      there exactly when they all are. */
  lemma ComputedValue(s: Slot, all: set<Slot>, given: map<Slot, Amount>)
    requires Closed(all) && s in all && s.source.Computed?
    ensures Eval(s, all, given).Some? <==> forall i | 0 <= i < |s.source.inputs| :: Eval(s.source.inputs[i], all, given).Some?
    ensures Eval(s, all, given).Some? ==>
              Eval(s, all, given) == Some(s.source.f(ValuesOf(s.source.inputs, all, given)))
  {
    EvalAllItems(s.source.inputs, s.rank, all, given);
    var values := EvalAll(s.source.inputs, s.rank, all, given);
    if values.Some? {
      assert values.value == ValuesOf(s.source.inputs, all, given);
    }
  }

  /** `later` has all that was given before, as it was. */
  ghost predicate Grows(given: map<Slot, Amount>, later: map<Slot, Amount>) {
    forall s | s in given :: s in later && later[s] == given[s]
  }

  /** Once there is a value it stays, whatever is given later. */
  lemma {:induction false} EvalStays(s: Slot, all: set<Slot>, given: map<Slot, Amount>, later: map<Slot, Amount>)
    requires Closed(all) && s in all && Grows(given, later)
    ensures Eval(s, all, given).Some? ==> Eval(s, all, later) == Eval(s, all, given)
    decreases s.rank, 1, 0
  {
    if s.source.Computed? {
      EvalAllStays(s.source.inputs, s.rank, all, given, later);
    }
  }

  lemma {:induction false} EvalAllStays(
    inputs: seq<Slot>, rank: nat, all: set<Slot>, given: map<Slot, Amount>, later: map<Slot, Amount>)
    requires Closed(all) && (forall x | x in inputs :: x in all && x.rank < rank) && Grows(given, later)
    ensures EvalAll(inputs, rank, all, given).Some? ==>
              EvalAll(inputs, rank, all, later) == EvalAll(inputs, rank, all, given)
    decreases rank, 0, |inputs|
  {
    if inputs != [] {
      EvalAllStays(inputs[..|inputs| - 1], rank, all, given, later);
      EvalStays(inputs[|inputs| - 1], all, given, later);
    }
  }

  /** Values made later change no evaluation. */
  lemma {:induction false} EvalIgnoresNew(s: Slot, all: set<Slot>, more: set<Slot>, given: map<Slot, Amount>)
    requires Closed(all) && Closed(more) && s in all && all <= more
    ensures Eval(s, more, given) == Eval(s, all, given)
    decreases s.rank, 1, 0
  {
    if s.source.Computed? {
      EvalAllIgnoresNew(s.source.inputs, s.rank, all, more, given);
    }
  }

  lemma {:induction false} EvalAllIgnoresNew(
    inputs: seq<Slot>, rank: nat, all: set<Slot>, more: set<Slot>, given: map<Slot, Amount>)
    requires Closed(all) && Closed(more) && all <= more && forall x | x in inputs :: x in all && x.rank < rank
    ensures EvalAll(inputs, rank, more, given) == EvalAll(inputs, rank, all, given)
    decreases rank, 0, |inputs|
  {
    if inputs != [] {
      EvalAllIgnoresNew(inputs[..|inputs| - 1], rank, all, more, given);
      EvalIgnoresNew(inputs[|inputs| - 1], all, more, given);
    }
  }

  lemma EvalAllStops(inputs: seq<Slot>, rank: nat, all: set<Slot>, given: map<Slot, Amount>, n: nat)
    requires Closed(all) && (forall x | x in inputs :: x in all && x.rank < rank) && n <= |inputs|
    requires EvalAll(inputs[..n], rank, all, given).None?
    ensures EvalAll(inputs, rank, all, given).None?
    decreases |inputs| - n
  {
    if n == |inputs| {
      assert inputs[..n] == inputs;
    } else {
      assert inputs[..n + 1][..n] == inputs[..n];
      EvalAllStops(inputs, rank, all, given, n + 1);
    }
  }

  // ----------------------------------------------------------------------------
  // The shared cells
  // ----------------------------------------------------------------------------

  ghost function MaxRank(inputs: seq<Slot>): (r: nat)
    ensures forall x | x in inputs :: x.rank <= r
  {
    if inputs == [] then 0
    else
      var rest := MaxRank(inputs[1..]);
      assert forall x | x in inputs :: x == inputs[0] || x in inputs[1..];
      if inputs[0].rank > rest then inputs[0].rank else rest
  }

  /** What the cells hold is what evaluation gives, and each relation's function was called
      once if its value is kept, and else never. */
  ghost predicate Coherent(all: set<Slot>, given: map<Slot, Amount>)
    reads all
  {
    && Closed(all)
    && (forall s | s in given :: s in all && s.source.Given?)
    && forall s | s in all :: s.Holds(all, given)
  }

  /** What all clones of a deferred value share. */
  class Slot {
    const source: Source
    ghost const rank: nat
    var value: Option<Amount>
    var resolverTaken: bool

    /** A resolver was handed out and has not been used. */
    ghost var resolverOut: bool

    /** How many resolvers were handed out. */
    ghost var handed: nat

    /** How often the relation's function was called. */
    ghost var calls: nat

    ghost predicate Holds(all: set<Slot>, given: map<Slot, Amount>)
      requires Closed(all) && this in all
      reads this
    {
      if source.Given? then
        && value == (if this in given then Some(given[this]) else None)
        && (value.Some? ==> resolverTaken)
        && (resolverOut ==> resolverTaken && value.None?)
        && calls == 0 && handed <= (if resolverTaken then 1 else 0)
      else
        && (value.Some? ==> value == Eval(this, all, given))
        && calls == (if value.Some? then 1 else 0)
        && !resolverOut && handed == 0
    }

    constructor New()
      ensures source.Given? && value.None? && !resolverTaken && !resolverOut && calls == 0 && handed == 0
    {
      source, rank, value := Given, 0, None;
      resolverTaken, resolverOut, calls, handed := false, false, 0, 0;
    }

    constructor Fixed(v: Amount)
      ensures source.Given? && value == Some(v) && resolverTaken && !resolverOut && calls == 0 && handed == 0
    {
      source, rank, value := Given, 0, Some(v);
      resolverTaken, resolverOut, calls, handed := true, false, 0, 0;
    }

    constructor Relation(inputs: seq<Slot>, f: seq<Amount> -> Amount)
      ensures source == Computed(inputs, f) && forall x | x in inputs :: x.rank < rank
      ensures value.None? && !resolverOut && calls == 0 && handed == 0
    {
      source, rank, value := Computed(inputs, f), MaxRank(inputs) + 1, None;
      resolverTaken, resolverOut, calls, handed := false, false, 0, 0;
    }

    /** Only the first to ask gets it. */
    method Resolver(ghost all: set<Slot>, ghost given: map<Slot, Amount>) returns (r: Handed)
      requires this in all && Coherent(all, given)
      modifies this`resolverTaken, this`resolverOut, this`handed
      ensures Coherent(all, given)
      ensures r == if source.Computed? then IsComputed else if old(resolverTaken) then ResolverTaken else Handed(this)
      ensures r.Handed? ==> resolverOut && resolverTaken && handed == old(handed) + 1
      ensures !r.Handed? ==> unchanged(this)
    {
      if source.Computed? {
        return IsComputed;
      }
      if resolverTaken {
        return ResolverTaken;
      }
      resolverTaken, resolverOut, handed := true, true, handed + 1;
      return Handed(this);
    }

    /** Uses up the resolver. */
    method Resolve(v: Amount, ghost all: set<Slot>, ghost given: map<Slot, Amount>)
      requires this in all && Coherent(all, given) && source.Given? && resolverOut
      modifies this`value, this`resolverOut
      ensures this !in given && Coherent(all, given[this := v]) && !resolverOut
    {
      if value.None? {
        value := Some(v);
      }
      resolverOut := false;
      forall s | s in all && s.source.Computed? && s.value.Some?
        ensures s.value == Eval(s, all, given[this := v])
      {
        EvalStays(s, all, given, given[this := v]);
      }
    }

    /** Main result for a read: it ends, its answer is plain evaluation's, and it keeps what
        it computed. */
    method Value(ghost all: set<Slot>, ghost given: map<Slot, Amount>) returns (r: Result<Amount>)
      requires this in all && Coherent(all, given)
      modifies all`value, all`calls
      ensures Coherent(all, given)
      ensures r == match Eval(this, all, given) { case Some(v) => Ok(v) case None => Err(NotGivenYet) }
      ensures r.Ok? ==> value == Some(r.value)
      ensures forall s | s in all && s.rank >= rank && s != this :: s.value == old(s.value) && s.calls == old(s.calls)
      decreases rank, 1
    {
      if value.Some? {
        return Ok(value.value);
      }
      match source {
        case Given =>
          return Err(NotGivenYet);
        case Computed(inputs, f) =>
          var values := ReadInputs(inputs, all, given);
          if values.Err? {
            return Err(NotGivenYet);
          }
          hide EvalAll;
          calls := calls + 1;
          value := Some(f(values.value));
          return Ok(value.value);
      }
    }

    /** The inputs' values, read in order up to the first that is missing. */
    method ReadInputs(inputs: seq<Slot>, ghost all: set<Slot>, ghost given: map<Slot, Amount>) returns (r: Result<seq<Amount>>)
      requires this in all && Coherent(all, given) && source.Computed? && source.inputs == inputs
      modifies all`value, all`calls
      ensures Coherent(all, given)
      ensures r == match EvalAll(inputs, rank, all, given) { case Some(values) => Ok(values) case None => Err(NotGivenYet) }
      ensures forall s | s in all && s.rank >= rank :: s.value == old(s.value) && s.calls == old(s.calls)
      decreases rank, 0
    {
      hide Slot.Holds;
      var values: seq<Amount> := [];
      for i := 0 to |inputs|
        invariant Coherent(all, given) && EvalAll(inputs[..i], rank, all, given) == Some(values)
        invariant forall s | s in all && s.rank >= rank :: s.value == old(s.value) && s.calls == old(s.calls)
      {
        assert inputs[..i + 1][..i] == inputs[..i];
        var v := inputs[i].Value(all, given);
        if v.Err? {
          EvalAllStops(inputs, rank, all, given, i + 1);
          return Err(NotGivenYet);
        }
        values := values + [v.value];
      }
      assert inputs[..|inputs|] == inputs;
      return Ok(values);
    }
  }

  /** A cell made after all others leaves them as they are. */
  lemma OneMoreSlot(all: set<Slot>, given: map<Slot, Amount>, s: Slot, later: map<Slot, Amount>)
    requires Coherent(all, given) && s !in all
    requires s.source.Computed? ==> forall x | x in s.source.inputs :: x in all && x.rank < s.rank
    requires later == (if s.value.Some? then given[s := s.value.value] else given) && (s.value.Some? ==> s.source.Given?)
    requires !s.resolverOut && (s.value.Some? ==> s.resolverTaken) && s.calls == 0 && s.handed == 0
    ensures Closed(all + {s}) && Coherent(all + {s}, later) && Grows(given, later)
  {
    forall t | t in all && t.source.Computed? && t.value.Some?
      ensures t.value == Eval(t, all + {s}, later)
    {
      EvalIgnoresNew(t, all, all + {s}, given);
      EvalStays(t, all + {s}, given, later);
    }
  }

  // ----------------------------------------------------------------------------
  // Whole runs
  // ----------------------------------------------------------------------------

  /** What a program does with deferred values, by handle. */
  datatype Op =
    | MakeNew
    | MakeFixed(v: Amount)
    | Relate(inputs: seq<nat>, f: seq<Amount> -> Amount)
    | TakeResolver(at: nat)
    | Give(at: nat, v: Amount)
    | Read(at: nat)

  /** The cell is computed by `f` from the cells of those handles. */
  ghost predicate Relates(s: Slot, handles: seq<Slot>, inputs: seq<nat>, f: seq<Amount> -> Amount)
    requires forall i | 0 <= i < |inputs| :: inputs[i] < |handles|
  {
    && s.source.Computed? && s.source.f == f && |s.source.inputs| == |inputs|
    && forall i | 0 <= i < |inputs| :: s.source.inputs[i] == handles[inputs[i]]
  }

  /** The operation makes a cell, when there are `count` already. */
  predicate Makes(op: Op, count: nat) {
    op.MakeNew? || op.MakeFixed? || (op.Relate? && forall i | 0 <= i < |op.inputs| :: op.inputs[i] < count)
  }

  /** How many cells there are after the first `n` operations, which is the next one's handle. */
  function Count(ops: seq<Op>, n: nat, start: nat): (c: nat)
    requires n <= |ops|
    ensures c >= start
  {
    if n == 0 then start else Count(ops, n - 1, start) + if Makes(ops[n - 1], Count(ops, n - 1, start)) then 1 else 0
  }

  function CellsOf(handles: seq<Slot>, inputs: seq<nat>): (cells: seq<Slot>)
    requires forall i | 0 <= i < |inputs| :: inputs[i] < |handles|
    ensures |cells| == |inputs| && forall i | 0 <= i < |cells| :: cells[i] == handles[inputs[i]] && cells[i] in handles
  {
    seq(|inputs|, i requires 0 <= i < |inputs| => handles[inputs[i]])
  }

  /** The cell of handle `at` is the one `op` asks for. */
  ghost predicate IsFor(op: Op, at: nat, handles: seq<Slot>, given: map<Slot, Amount>)
    requires at < |handles|
  {
    match op
    case MakeFixed(v) => handles[at] in given && given[handles[at]] == v
    case Relate(inputs, f) => (forall i | 0 <= i < |inputs| :: inputs[i] < |handles|) && Relates(handles[at], handles, inputs, f)
    case _ => true
  }

  /** The cells are those the first `n` operations ask for. */
  ghost predicate Followed(ops: seq<Op>, n: nat, start: nat, handles: seq<Slot>, given: map<Slot, Amount>)
    requires n <= |ops|
  {
    && |handles| == Count(ops, n, start)
    && forall k | 0 <= k < n && Makes(ops[k], Count(ops, k, start)) ::
         Count(ops, k, start) < |handles| && IsFor(ops[k], Count(ops, k, start), handles, given)
  }

  lemma FollowedOneMore(
    ops: seq<Op>, k: nat, start: nat, before: seq<Slot>, was: map<Slot, Amount>, handles: seq<Slot>, given: map<Slot, Amount>)
    requires k < |ops| && Followed(ops, k, start, before, was) && before <= handles && Grows(was, given)
    requires |handles| == |before| + if Makes(ops[k], |before|) then 1 else 0
    requires Makes(ops[k], |before|) ==> IsFor(ops[k], |before|, handles, given)
    ensures Followed(ops, k + 1, start, handles, given)
  {
    forall j | 0 <= j < k && Makes(ops[j], Count(ops, j, start))
      ensures Count(ops, j, start) < |handles| && IsFor(ops[j], Count(ops, j, start), handles, given)
    {
      assert IsFor(ops[j], Count(ops, j, start), before, was);
    }
  }

  ghost function SetOf(handles: seq<Slot>): set<Slot> {
    set s | s in handles
  }

  /** A read's answer, if it succeeded, is what evaluation gives. */
  ghost predicate Answered(op: Op, reply: Option<Result<Amount>>, handles: seq<Slot>, given: map<Slot, Amount>)
    requires Closed(SetOf(handles))
  {
    && (reply.Some? ==> op.Read? && op.at < |handles|)
    && (reply.Some? && reply.value.Ok? ==> Eval(handles[op.at], SetOf(handles), given) == Some(reply.value.value))
  }

  /** Reads of one handle agree, once one succeeded. */
  ghost predicate Repeats(ops: seq<Op>, replies: seq<Option<Result<Amount>>>)
    requires |replies| <= |ops|
  {
    forall j, k | 0 <= j < k < |replies| && ops[j].Read? && ops[k] == ops[j] && replies[j].Some? && replies[j].value.Ok? ::
      replies[k] == replies[j]
  }

  /** The first operations were followed, and their reads' answers still hold. */
  ghost predicate RunSoFar(
    ops: seq<Op>, replies: seq<Option<Result<Amount>>>, start: nat, handles: seq<Slot>, given: map<Slot, Amount>)
    requires Closed(SetOf(handles))
  {
    && |replies| <= |ops| && Followed(ops, |replies|, start, handles, given) && Repeats(ops, replies)
    && forall j | 0 <= j < |replies| :: Answered(ops[j], replies[j], handles, given)
  }

  lemma AnswerStays(
    op: Op, reply: Option<Result<Amount>>, before: seq<Slot>, was: map<Slot, Amount>, handles: seq<Slot>,
    given: map<Slot, Amount>)
    requires Closed(SetOf(before)) && Closed(SetOf(handles)) && before <= handles && Grows(was, given)
    requires Answered(op, reply, before, was)
    ensures Answered(op, reply, handles, given)
  {
    if reply.Some? && reply.value.Ok? {
      EvalIgnoresNew(before[op.at], SetOf(before), SetOf(handles), was);
      EvalStays(before[op.at], SetOf(handles), was, given);
    }
    hide Eval;
  }

  /** One more reply. */
  lemma RunOneMore(
    ops: seq<Op>, replies: seq<Option<Result<Amount>>>, start: nat, before: seq<Slot>, was: map<Slot, Amount>,
    reply: Option<Result<Amount>>, handles: seq<Slot>, given: map<Slot, Amount>)
    requires Closed(SetOf(before)) && Closed(SetOf(handles)) && before <= handles && Grows(was, given)
    requires |replies| < |ops| && RunSoFar(ops, replies, start, before, was)
    requires Followed(ops, |replies| + 1, start, handles, given)
    requires reply.Some? <==> ops[|replies|].Read? && ops[|replies|].at < |handles|
    requires reply.Some? ==>
               reply.value == match Eval(handles[ops[|replies|].at], SetOf(handles), given)
                              case Some(v) => Ok(v) case None => Err(NotGivenYet)
    ensures RunSoFar(ops, replies + [reply], start, handles, given)
  {
    hide Eval, Followed, Closed, Grows, SetOf;
    forall j | 0 <= j < |replies|
      ensures Answered(ops[j], replies[j], handles, given)
    {
      AnswerStays(ops[j], replies[j], before, was, handles, given);
    }
    assert Answered(ops[|replies|], reply, handles, given);
  }

  lemma GivenValue(s: Slot, all: set<Slot>, given: map<Slot, Amount>)
    requires Closed(all) && s in all && s.source.Given? && s in given
    ensures Eval(s, all, given) == Some(given[s])
  {
  }

  class Program {
    var handles: seq<Slot>

    /** The resolvers it holds. */
    var resolvers: set<Slot>

    ghost var given: map<Slot, Amount>

    ghost function All(): set<Slot>
      reads this
    {
      SetOf(handles)
    }

    ghost predicate Valid()
      reads this, All()
    {
      && Coherent(All(), given)
      && resolvers <= All() && forall s | s in All() :: s in resolvers <==> s.resolverOut
    }

    constructor ()
      ensures Valid() && handles == [] && given == map[]
    {
      handles, resolvers, given := [], {}, map[];
    }

    /** Adds a cell just made. */
    method Add(s: Slot)
      requires Valid() && s !in All() && !s.resolverOut
      requires s.source.Computed? ==> s.value.None? && forall x | x in s.source.inputs :: x in All() && x.rank < s.rank
      requires (s.value.Some? ==> s.resolverTaken) && s.calls == 0 && s.handed == 0
      modifies this
      ensures Valid() && handles == old(handles) + [s] && resolvers == old(resolvers) && Grows(old(given), given)
    {
      ghost var later := if s.value.Some? then given[s := s.value.value] else given;
      OneMoreSlot(All(), given, s, later);
      handles, given := handles + [s], later;
      assert All() == old(All()) + {s};
    }

    method New()
      requires Valid()
      modifies this
      ensures Valid() && |handles| == |old(handles)| + 1 && old(handles) <= handles && Grows(old(given), given)
      ensures fresh(All() - old(All()))
    {
      var s := new Slot.New();
      Add(s);
    }

    method Fixed(v: Amount)
      requires Valid()
      modifies this
      ensures Valid() && |handles| == |old(handles)| + 1 && old(handles) <= handles && Grows(old(given), given)
      ensures fresh(All() - old(All()))
      ensures handles[|handles| - 1] in given && given[handles[|handles| - 1]] == v
    {
      var s := new Slot.Fixed(v);
      Add(s);
      assert s in All() && s.Holds(All(), given);
    }

    method Relation(inputs: seq<nat>, f: seq<Amount> -> Amount)
      requires Valid() && forall i | 0 <= i < |inputs| :: inputs[i] < |handles|
      modifies this
      ensures Valid() && |handles| == |old(handles)| + 1 && old(handles) <= handles && Grows(old(given), given)
      ensures fresh(All() - old(All()))
      ensures Relates(handles[|handles| - 1], old(handles), inputs, f)
    {
      var cells: seq<Slot> := [];
      for i := 0 to |inputs|
        invariant |cells| == i && forall j | 0 <= j < i :: cells[j] == handles[inputs[j]]
      {
        cells := cells + [handles[inputs[i]]];
      }
      var s := new Slot.Relation(cells, f);
      Add(s);
    }

    /** One step; a read's answer is plain evaluation's. A handle it does not have is no step. */
    method Step(op: Op) returns (reply: Option<Result<Amount>>)
      requires Valid()
      modifies this, All()
      ensures Valid() && old(handles) <= handles && Grows(old(given), given)
      ensures fresh(All() - old(All()))
      ensures reply.Some? <==> op.Read? && op.at < |handles|
      ensures |handles| == |old(handles)| + if Makes(op, |old(handles)|) then 1 else 0
      ensures op.Read? ==> handles == old(handles) && given == old(given)
      ensures op.MakeFixed? ==> |handles| == |old(handles)| + 1 && (handles[|handles| - 1], op.v) in given.Items
      ensures op.Relate? && (forall i | 0 <= i < |op.inputs| :: op.inputs[i] < |old(handles)|) ==>
        |handles| == |old(handles)| + 1 && Relates(handles[|handles| - 1], old(handles), op.inputs, op.f)
      ensures op.TakeResolver? ==> handles == old(handles) && given == old(given)
      ensures op.TakeResolver? && op.at < |handles| && handles[op.at].source.Given? ==>
        resolvers == if old(handles[op.at].resolverTaken) then old(resolvers) else old(resolvers) + {handles[op.at]}
      ensures op.Give? && op.at < |handles| && handles[op.at] in old(resolvers) ==>
        resolvers == old(resolvers) - {handles[op.at]} && given == old(given)[handles[op.at] := op.v]
      ensures op.Give? && !(op.at < |handles| && handles[op.at] in old(resolvers)) ==> given == old(given)
      ensures reply.Some? ==>
        reply.value == match Eval(handles[op.at], All(), given) { case Some(v) => Ok(v) case None => Err(NotGivenYet) }
    {
      reply := None;
      match op {
        case MakeNew =>
          New();
        case MakeFixed(v) =>
          Fixed(v);
        case Relate(inputs, f) =>
          if forall i | 0 <= i < |inputs| :: inputs[i] < |handles| {
            Relation(inputs, f);
          }
        case TakeResolver(at) =>
          if at < |handles| {
            var r := handles[at].Resolver(All(), given);
            if r.Handed? {
              resolvers := resolvers + {r.slot};
            }
          }
        case Give(at, v) =>
          if at < |handles| && handles[at] in resolvers {
            handles[at].Resolve(v, All(), given);
            resolvers, given := resolvers - {handles[at]}, given[handles[at] := v];
          }
        case Read(at) =>
          if at < |handles| {
            var v := handles[at].Value(All(), given);
            reply := Some(v);
          }
      }
    }

    /** Main result over a run, whatever is made, given and read in between: a read that
        succeeded gave plain evaluation's value, every later read of it gives the same, no
        relation's function was called twice, and no value had two resolvers. */
    method RunAll(ops: seq<Op>) returns (replies: seq<Option<Result<Amount>>>)
      requires Valid()
      modifies this, All()
      ensures Valid() && |replies| == |ops|
      ensures forall k | 0 <= k < |ops| :: Answered(ops[k], replies[k], handles, given)
      ensures Repeats(ops, replies)
      ensures forall s | s in All() :: s.calls <= 1 && s.handed <= 1
      ensures Followed(ops, |ops|, |old(handles)|, handles, given)
      ensures forall j, k | 0 <= j < |ops| && 0 <= k < |ops| :: RightRead(ops, k, |old(handles)|, ops[j], replies[j])
    {
      replies := [];
      ghost var start := |handles|;
      while |replies| < |ops|
        invariant Valid() && fresh(All() - old(All())) && RunSoFar(ops, replies, start, handles, given)
      {
        replies := RunOne(ops, replies, start);
      }
      forall j, k | 0 <= j < |ops| && 0 <= k < |ops|
        ensures RightRead(ops, k, start, ops[j], replies[j])
      {
        ReadsRight(ops, k, start, ops[j], replies[j]);
      }
      CalledOnce();
      hide RunSoFar, Coherent, RightRead, Followed, Answered;
    }

    lemma CalledOnce()
      requires Valid()
      ensures forall s | s in All() :: s.calls <= 1 && s.handed <= 1
    {
    }

    method RunOne(ops: seq<Op>, replies: seq<Option<Result<Amount>>>, ghost start: nat)
      returns (more: seq<Option<Result<Amount>>>)
      requires Valid() && |replies| < |ops| && RunSoFar(ops, replies, start, handles, given)
      modifies this, All()
      ensures Valid() && |more| == |replies| + 1 && RunSoFar(ops, more, start, handles, given) && fresh(All() - old(All()))
    {
      ghost var before, was := handles, given;
      var reply := Step(ops[|replies|]);
      hide *;
      FollowedOneMore(ops, |replies|, start, before, was, handles, given);
      RunOneMore(ops, replies, start, before, was, reply, handles, given);
      more := replies + [reply];
    }

    /** A successful read of the cell operation `k` made: of a fixed one it gives its value, of a
        relation's it gives the function of the values of its inputs, in their order. */
    ghost predicate RightRead(ops: seq<Op>, k: nat, start: nat, op: Op, reply: Option<Result<Amount>>)
      requires k < |ops| && Closed(All())
      reads this
    {
      op == Read(Count(ops, k, start)) && reply.Some? && reply.value.Ok? && Makes(ops[k], Count(ops, k, start)) ==>
        match ops[k]
        case MakeFixed(v) => reply.value.value == v
        case Relate(inputs, f) =>
          && (forall i | 0 <= i < |inputs| :: inputs[i] < |handles| && Eval(handles[inputs[i]], All(), given).Some?)
          && reply.value.value == f(ValuesOf(CellsOf(handles, inputs), All(), given))
        case _ => true
    }

    lemma ReadsRight(ops: seq<Op>, k: nat, start: nat, op: Op, reply: Option<Result<Amount>>)
      requires Valid() && k < |ops| && Followed(ops, |ops|, start, handles, given) && Answered(op, reply, handles, given)
      ensures RightRead(ops, k, start, op, reply)
    {
      hide Eval, Slot.Holds;
      var at := Count(ops, k, start);
      if op == Read(at) && reply.Some? && reply.value.Ok? && Makes(ops[k], at) {
        assert IsFor(ops[k], at, handles, given);
        match ops[k]
        case MakeFixed(v) => GivenValue(handles[at], All(), given);
        case Relate(inputs, f) =>
          ComputedValue(handles[at], All(), given);
          assert handles[at].source.inputs == CellsOf(handles, inputs);
        case _ =>
      }
    }
  }

  // ----------------------------------------------------------------------------
  // What plans see of them
  // ----------------------------------------------------------------------------

  /** The plan's values that have one. */
  ghost function KnownFrom(names: map<nat, Slot>, all: set<Slot>, given: map<Slot, Amount>): (r: Known)
    requires Closed(all) && names.Values <= all
    ensures r.numbers.Keys <= names.Keys && r.grids.Keys <= names.Keys
    ensures forall v | v in names ::
              && (v in r.numbers <==> Eval(names[v], all, given).Some? && Eval(names[v], all, given).value.Number?)
              && (v in r.numbers ==> Eval(names[v], all, given) == Some(Number(r.numbers[v])))
              && (v in r.grids <==> Eval(names[v], all, given).Some? && Eval(names[v], all, given).value.Grid?)
              && (v in r.grids ==> Eval(names[v], all, given) == Some(Grid(r.grids[v])))
  {
    Known(
      map v | v in names && Eval(names[v], all, given).Some? && Eval(names[v], all, given).value.Number? ::
        Eval(names[v], all, given).value.n,
      map v | v in names && Eval(names[v], all, given).Some? && Eval(names[v], all, given).value.Grid? ::
        Eval(names[v], all, given).value.groups)
  }

  /** A plan whose values were ready is ready whenever it is built: it never fails with
      `NotGivenYet`. */
  lemma ReadyPlanBuilds(names: map<nat, Slot>, all: set<Slot>, given: map<Slot, Amount>, later: map<Slot, Amount>, plan: RunSpec)
    requires Closed(all) && names.Values <= all && Grows(given, later) && Made(plan)
    ensures KnownFrom(names, all, given).Before(KnownFrom(names, all, later))
    ensures TensorsReady(KnownFrom(names, all, given), plan.tensors).Passed? ==>
              TensorsReady(KnownFrom(names, all, later), plan.tensors).Passed?
    ensures CallsReady(KnownFrom(names, all, given), plan.calls).Passed? ==>
              CallsReady(KnownFrom(names, all, later), plan.calls).Passed?
  {
    forall v | v in names
      ensures Eval(names[v], all, given).Some? ==> Eval(names[v], all, later) == Eval(names[v], all, given)
    {
      EvalStays(names[v], all, given, later);
    }
    ReadyStays(KnownFrom(names, all, given), KnownFrom(names, all, later), plan);
  }
}
