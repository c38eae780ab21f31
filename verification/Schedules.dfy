/** Every schedule of a race-free grid gives the same result.

    `At` is a reference semantics with no interleaving at all: in a phase, each thread
    runs alone on the memory as it was when the phase began, and what the threads
    wrote is merged. `EverySchedule` proves that any run of the machine of `Simt`
    agrees with it, so a kernel's proof may follow `At`. */
module Schedules {
  import opened Simt

  /** No cell is written by one thread and touched by another that may run at the same
      time: in the same phase of one workgroup, or at any time in another workgroup. */
  ghost predicate RaceFree<T>(p: Program<T>) {
    && (forall w: nat, i: nat, j: nat, ph: nat, c: Cell ::
          w < p.groups && i < p.size && j < p.size && i != j && ph < p.phases && WritesIn(p.code(w, i, ph), c)
          ==> !TouchesIn(p.code(w, j, ph), c))
    && (forall w: nat, v: nat, i: nat, j: nat, ph: nat, q: nat, c: Cell ::
          w < p.groups && v < p.groups && w != v && i < p.size && j < p.size && ph < p.phases && q < p.phases
          && WritesIn(p.code(w, i, ph), c)
          ==> !TouchesIn(p.code(v, j, q), c))
  }

  ghost predicate StaysInside<T>(p: Program<T>, keys: set<Cell>) {
    forall w: nat, i: nat, ph: nat | w < p.groups && i < p.size && ph < p.phases ::
      InBounds(p.code(w, i, ph), keys)
  }

  ghost predicate WellFormed<T>(p: Program<T>, keys: set<Cell>) {
    && p.phases > 0 && p.size > 0
    && StaysInside(p, keys) && RaceFree(p)
  }

  /** One workgroup between two phases: its threads' registers, and the memory it sees. */
  datatype GroupView<T> = GroupView(regs: seq<Regs<T>>, mem: Memory<T>)

  ghost predicate Fits<T>(p: Program<T>, g: GroupView<T>, keys: set<Cell>) {
    |g.regs| == p.size && g.mem.Keys == keys
  }

  /** Thread `i` of workgroup `w` after its first `n` instructions of phase `ph`, run
      alone from `g`. */
  ghost function Progress<T>(p: Program<T>, g: GroupView<T>, w: nat, i: nat, ph: nat, n: nat): (r: View<T>)
    requires w < p.groups && i < p.size && ph < p.phases && n <= |p.code(w, i, ph)|
    requires i < |g.regs| && InBounds(p.code(w, i, ph), g.mem.Keys)
    ensures r.mem.Keys == g.mem.Keys
  {
    Alone(p.arith, p.code(w, i, ph)[..n], View(g.regs[i], g.mem))
  }

  ghost function AfterPhase<T>(p: Program<T>, g: GroupView<T>, w: nat, i: nat, ph: nat): (r: View<T>)
    requires w < p.groups && i < p.size && ph < p.phases
    requires i < |g.regs| && InBounds(p.code(w, i, ph), g.mem.Keys)
    ensures r.mem.Keys == g.mem.Keys
  {
    Progress(p, g, w, i, ph, |p.code(w, i, ph)|)
  }

  /** What phase `ph` leaves in `c`: what its writer wrote, if it has one. */
  ghost function Merged<T>(p: Program<T>, g: GroupView<T>, w: nat, ph: nat, c: Cell): T
    requires w < p.groups && ph < p.phases && c in g.mem
    requires Fits(p, g, g.mem.Keys) && StaysInside(p, g.mem.Keys)
  {
    if exists i: nat :: i < p.size && WritesIn(p.code(w, i, ph), c) then
      var i: nat :| i < p.size && WritesIn(p.code(w, i, ph), c);
      AfterPhase(p, g, w, i, ph).mem[c]
    else g.mem[c]
  }

  ghost function NextPhase<T>(p: Program<T>, g: GroupView<T>, w: nat, ph: nat): (r: GroupView<T>)
    requires w < p.groups && ph < p.phases
    requires Fits(p, g, g.mem.Keys) && StaysInside(p, g.mem.Keys)
    ensures Fits(p, r, g.mem.Keys)
  {
    GroupView(
      seq(p.size, i requires 0 <= i < p.size => AfterPhase(p, g, w, i, ph).regs),
      map c | c in g.mem.Keys :: Merged(p, g, w, ph, c))
  }

  /** Workgroup `w` after its first `ph` phases, on its own. */
  ghost function At<T>(p: Program<T>, mem: Memory<T>, w: nat, ph: nat): (r: GroupView<T>)
    requires w < p.groups && ph <= p.phases && StaysInside(p, mem.Keys)
    ensures Fits(p, r, mem.Keys)
  {
    if ph == 0 then GroupView(seq(p.size, _ => p.init), mem)
    else NextPhase(p, At(p, mem, w, ph - 1), w, ph - 1)
  }

  lemma AtNext<T>(p: Program<T>, mem: Memory<T>, w: nat, ph: nat)
    requires w < p.groups && ph < p.phases && StaysInside(p, mem.Keys)
    ensures At(p, mem, w, ph + 1) == NextPhase(p, At(p, mem, w, ph), w, ph)
  {
  }

  /** A written cell holds what its one writer left in it. */
  lemma WriterDecides<T>(p: Program<T>, g: GroupView<T>, w: nat, ph: nat, i: nat, c: Cell)
    requires w < p.groups && ph < p.phases && i < p.size && c in g.mem
    requires Fits(p, g, g.mem.Keys) && WellFormed(p, g.mem.Keys)
    requires WritesIn(p.code(w, i, ph), c)
    ensures NextPhase(p, g, w, ph).mem[c] == AfterPhase(p, g, w, i, ph).mem[c]
  {
    WritesAreTouches(p.code(w, i, ph), c);
  }

  lemma WritesAreTouches<T>(code: seq<Instr<T>>, c: Cell)
    requires WritesIn(code, c)
    ensures TouchesIn(code, c)
  {
    var k :| 0 <= k < |code| && code[k].Writes(c);
    assert code[k].Touches(c);
  }

  /** What a phase makes of thread `i`, which runs `code` in it. */
  lemma ThreadInPhase<T>(p: Program<T>, g: GroupView<T>, w: nat, ph: nat, i: nat, code: seq<Instr<T>>)
    requires w < p.groups && ph < p.phases && i < p.size && p.code(w, i, ph) == code
    requires Fits(p, g, g.mem.Keys) && WellFormed(p, g.mem.Keys)
    ensures InBounds(code, g.mem.Keys)
    ensures NextPhase(p, g, w, ph).regs[i] == Alone(p.arith, code, View(g.regs[i], g.mem)).regs
    ensures forall c | c in g.mem && WritesIn(code, c) ::
              NextPhase(p, g, w, ph).mem[c] == Alone(p.arith, code, View(g.regs[i], g.mem)).mem[c]
  {
    assert InBounds(p.code(w, i, ph), g.mem.Keys);
    assert code[..|code|] == code;
    forall c | c in g.mem && WritesIn(code, c)
      ensures NextPhase(p, g, w, ph).mem[c] == Alone(p.arith, code, View(g.regs[i], g.mem)).mem[c]
    {
      WriterDecides(p, g, w, ph, i, c);
    }
  }

  /** A cell no thread of the workgroup writes in a phase keeps its value. */
  lemma UnwrittenStays<T>(p: Program<T>, g: GroupView<T>, w: nat, ph: nat, c: Cell)
    requires w < p.groups && ph < p.phases && c in g.mem
    requires Fits(p, g, g.mem.Keys) && StaysInside(p, g.mem.Keys)
    requires forall i: nat | i < p.size :: !WritesIn(p.code(w, i, ph), c)
    ensures NextPhase(p, g, w, ph).mem[c] == g.mem[c]
  {
  }

  // ----------------------------------------------------------------------------
  // The invariant of every run
  // ----------------------------------------------------------------------------

  ghost predicate GroupTouches<T>(p: Program<T>, w: nat, c: Cell) {
    exists i: nat, ph: nat :: i < p.size && ph < p.phases && TouchesIn(p.code(w, i, ph), c)
  }

  ghost predicate GroupWrites<T>(p: Program<T>, w: nat, c: Cell) {
    exists i: nat, ph: nat :: i < p.size && ph < p.phases && WritesIn(p.code(w, i, ph), c)
  }

  /** Each thread is as far as it got alone, from `g`. */
  ghost predicate ThreadsAgree<T>(p: Program<T>, g: GroupView<T>, s: State<T>, w: nat)
    requires Shaped(p, s) && w < p.groups && Fits(p, g, g.mem.Keys) && StaysInside(p, g.mem.Keys)
  {
    var ph := s.groups[w].phase;
    forall i: nat | i < p.size ::
      && s.groups[w].threads[i].pc <= |p.code(w, i, ph)|
      && s.groups[w].threads[i].regs == Progress(p, g, w, i, ph, s.groups[w].threads[i].pc).regs
  }

  /** Each cell the workgroup uses holds what its writer left so far in this phase, or
      what it held when the phase began. */
  ghost predicate CellsAgree<T>(p: Program<T>, g: GroupView<T>, s: State<T>, w: nat)
    requires Shaped(p, s) && w < p.groups && Fits(p, g, s.mem.Keys) && StaysInside(p, g.mem.Keys)
    requires ThreadsAgree(p, g, s, w)
  {
    var ph := s.groups[w].phase;
    && (forall i: nat, c: Cell | i < p.size && c in s.mem && WritesIn(p.code(w, i, ph), c) ::
          s.mem[c] == Progress(p, g, w, i, ph, s.groups[w].threads[i].pc).mem[c])
    && (forall c: Cell | c in s.mem && GroupTouches(p, w, c)
          && (forall i: nat | i < p.size :: !WritesIn(p.code(w, i, ph), c)) ::
          s.mem[c] == g.mem[c])
  }

  /** Workgroup `w` is where it would be alone, if its phase began as `g`. */
  ghost predicate GroupAgrees<T>(p: Program<T>, g: GroupView<T>, s: State<T>, w: nat)
    requires Shaped(p, s) && w < p.groups
  {
    && Fits(p, g, s.mem.Keys) && StaysInside(p, g.mem.Keys)
    && ThreadsAgree(p, g, s, w) && CellsAgree(p, g, s, w)
  }

  ghost predicate Untouched<T>(p: Program<T>, c: Cell) {
    forall w: nat | w < p.groups :: !GroupWrites(p, w, c)
  }

  ghost predicate Inv<T>(p: Program<T>, mem: Memory<T>, s: State<T>)
    requires WellFormed(p, mem.Keys)
  {
    && Shaped(p, s) && s.mem.Keys == mem.Keys
    && (forall w: nat | w < p.groups :: GroupAgrees(p, At(p, mem, w, s.groups[w].phase), s, w))
    && (forall c: Cell | c in mem && Untouched(p, c) :: s.mem[c] == mem[c])
  }

  lemma InitialHasInv<T>(p: Program<T>, mem: Memory<T>)
    requires WellFormed(p, mem.Keys)
    ensures Inv(p, mem, Initial(p, mem))
  {
    var s := Initial(p, mem);
    forall w: nat | w < p.groups
      ensures GroupAgrees(p, At(p, mem, w, 0), s, w)
    {
      forall i: nat | i < p.size
        ensures Progress(p, At(p, mem, w, 0), w, i, 0, 0) == View(p.init, mem)
      {
        assert p.code(w, i, 0)[..0] == [];
      }
      assert ThreadsAgree(p, At(p, mem, w, 0), s, w);
    }
  }

  /** One more instruction of a thread alone. */
  lemma ProgressStep<T>(p: Program<T>, g: GroupView<T>, w: nat, i: nat, ph: nat, n: nat)
    requires w < p.groups && i < p.size && ph < p.phases && n < |p.code(w, i, ph)|
    requires i < |g.regs| && InBounds(p.code(w, i, ph), g.mem.Keys)
    ensures Progress(p, g, w, i, ph, n + 1)
         == Exec(p.arith, p.code(w, i, ph)[n], Progress(p, g, w, i, ph, n))
  {
    assert p.code(w, i, ph)[..n + 1][..n] == p.code(w, i, ph)[..n];
  }

  /** A cell one thread of a phase touches, no other thread of that phase writes. */
  lemma OnlyTheTouchingThreadWrites<T>(p: Program<T>, keys: set<Cell>, w: nat, i: nat, ph: nat, c: Cell)
    requires WellFormed(p, keys)
    requires w < p.groups && i < p.size && ph < p.phases && TouchesIn(p.code(w, i, ph), c)
    ensures forall j: nat | j < p.size && j != i :: !WritesIn(p.code(w, j, ph), c)
  {
  }

  /** What a thread finds in the cell it loads next is what it would find alone. */
  lemma NextCellAgrees<T>(p: Program<T>, g: GroupView<T>, s: State<T>, w: nat, i: nat)
    requires WellFormed(p, s.mem.Keys) && Shaped(p, s)
    requires w < p.groups && GroupAgrees(p, g, s, w)
    requires Ready(p, s, w, i) && NextInstr(p, s, w, i).Load?
    ensures NextInstr(p, s, w, i).cell in s.mem
    ensures s.mem[NextInstr(p, s, w, i).cell]
         == Progress(p, g, w, i, s.groups[w].phase, s.groups[w].threads[i].pc).mem[NextInstr(p, s, w, i).cell]
  {
    var ph, pc := s.groups[w].phase, s.groups[w].threads[i].pc;
    var code, c := p.code(w, i, ph), NextInstr(p, s, w, i).cell;
    assert code[pc].Touches(c);
    assert TouchesIn(code, c);
    if !WritesIn(code, c) {
      OnlyTheTouchingThreadWrites(p, s.mem.Keys, w, i, ph, c);
      assert GroupTouches(p, w, c);
      assert forall k :: 0 <= k < pc ==> code[..pc][k] == code[k];
      AloneFrame(p.arith, code[..pc], View(g.regs[i], g.mem), c);
    }
  }

  /** The thread that took a step is one instruction further alone. */
  lemma OwnThreadsStep<T>(p: Program<T>, g: GroupView<T>, s: State<T>, s': State<T>, w: nat, i: nat)
    requires WellFormed(p, s.mem.Keys) && ThreadStep(p, s, s', w, i)
    requires GroupAgrees(p, g, s, w)
    ensures Shaped(p, s') && s'.mem.Keys == s.mem.Keys && ThreadsAgree(p, g, s', w)
  {
    hide RaceFree;
    var ph, pc := s.groups[w].phase, s.groups[w].threads[i].pc;
    ProgressStep(p, g, w, i, ph, pc);
    if NextInstr(p, s, w, i).Load? {
      NextCellAgrees(p, g, s, w, i);
    }
    assert s'.groups[w].threads[i].regs == Progress(p, g, w, i, ph, pc + 1).regs;
  }

  /** A step changes only the cell it stores. */
  lemma StepFrame<T>(p: Program<T>, s: State<T>, s': State<T>, w: nat, i: nat, c: Cell)
    requires ThreadStep(p, s, s', w, i) && c in s.mem
    requires !NextInstr(p, s, w, i).Writes(c)
    ensures c in s'.mem && s'.mem[c] == s.mem[c]
  {
  }

  /** What thread `j` wrote so far is still there after a step of thread `i`. */
  lemma WrittenCellStep<T>(p: Program<T>, g: GroupView<T>, s: State<T>, s': State<T>, w: nat, i: nat, j: nat, c: Cell)
    requires WellFormed(p, s.mem.Keys) && ThreadStep(p, s, s', w, i)
    requires GroupAgrees(p, g, s, w) && Shaped(p, s') && s'.mem.Keys == s.mem.Keys && ThreadsAgree(p, g, s', w)
    requires j < p.size && c in s.mem && WritesIn(p.code(w, j, s.groups[w].phase), c)
    ensures s'.mem[c] == Progress(p, g, w, j, s.groups[w].phase, s'.groups[w].threads[j].pc).mem[c]
  {
    hide *;
    if j == i {
      OwnCellStep(p, g, s, s', w, i, c);
    } else {
      OtherCellStep(p, g, s, s', w, i, j, c);
    }
  }

  lemma OwnCellStep<T>(p: Program<T>, g: GroupView<T>, s: State<T>, s': State<T>, w: nat, i: nat, c: Cell)
    requires WellFormed(p, s.mem.Keys) && ThreadStep(p, s, s', w, i)
    requires GroupAgrees(p, g, s, w) && Shaped(p, s') && s'.mem.Keys == s.mem.Keys && ThreadsAgree(p, g, s', w)
    requires i < p.size && c in s.mem && WritesIn(p.code(w, i, s.groups[w].phase), c)
    ensures s'.mem[c] == Progress(p, g, w, i, s.groups[w].phase, s'.groups[w].threads[i].pc).mem[c]
  {
    hide RaceFree, GroupTouches;
    var ph, pc := s.groups[w].phase, s.groups[w].threads[i].pc;
    ProgressStep(p, g, w, i, ph, pc);
    hide Progress, TouchesIn, WritesIn;
    assert s'.groups[w].threads[i].pc == pc + 1;
  }

  lemma OtherCellStep<T>(p: Program<T>, g: GroupView<T>, s: State<T>, s': State<T>, w: nat, i: nat, j: nat, c: Cell)
    requires WellFormed(p, s.mem.Keys) && ThreadStep(p, s, s', w, i) && j != i
    requires GroupAgrees(p, g, s, w) && Shaped(p, s') && s'.mem.Keys == s.mem.Keys && ThreadsAgree(p, g, s', w)
    requires j < p.size && c in s.mem && WritesIn(p.code(w, j, s.groups[w].phase), c)
    ensures s'.mem[c] == Progress(p, g, w, j, s.groups[w].phase, s'.groups[w].threads[j].pc).mem[c]
  {
    hide RaceFree, GroupTouches, Progress, Exec;
    var ph, pc := s.groups[w].phase, s.groups[w].threads[i].pc;
    if NextInstr(p, s, w, i).Writes(c) {
      assert p.code(w, i, ph)[pc].Writes(c);
      WritesAreTouches(p.code(w, i, ph), c);
      OnlyTheTouchingThreadWrites(p, s.mem.Keys, w, i, ph, c);
    }
    StepFrame(p, s, s', w, i, c);
  }

  /** So is its workgroup. */
  lemma OwnGroupStep<T>(p: Program<T>, g: GroupView<T>, s: State<T>, s': State<T>, w: nat, i: nat)
    requires WellFormed(p, s.mem.Keys) && ThreadStep(p, s, s', w, i)
    requires GroupAgrees(p, g, s, w)
    ensures Shaped(p, s') && GroupAgrees(p, g, s', w)
  {
    OwnThreadsStep(p, g, s, s', w, i);
    var ph, pc := s.groups[w].phase, s.groups[w].threads[i].pc;
    forall j: nat, c: Cell | j < p.size && c in s.mem && WritesIn(p.code(w, j, ph), c)
      ensures s'.mem[c] == Progress(p, g, w, j, ph, s'.groups[w].threads[j].pc).mem[c]
    {
      WrittenCellStep(p, g, s, s', w, i, j, c);
    }
    forall c: Cell | c in s.mem && GroupTouches(p, w, c)
      && (forall j: nat | j < p.size :: !WritesIn(p.code(w, j, ph), c))
      ensures s'.mem[c] == g.mem[c]
    {
      assert !p.code(w, i, ph)[pc].Writes(c);
      StepFrame(p, s, s', w, i, c);
    }
  }

  /** A workgroup that didn't move doesn't see another's step. */
  lemma OtherGroupFrame<T>(p: Program<T>, g: GroupView<T>, s: State<T>, s': State<T>, v: nat)
    requires Shaped(p, s) && Shaped(p, s') && v < p.groups
    requires GroupAgrees(p, g, s, v) && s'.groups[v] == s.groups[v] && s'.mem.Keys == s.mem.Keys
    requires forall c | c in s.mem && GroupTouches(p, v, c) :: s'.mem[c] == s.mem[c]
    ensures GroupAgrees(p, g, s', v)
  {
    assert ThreadsAgree(p, g, s', v);
    forall i: nat, c: Cell | i < p.size && WritesIn(p.code(v, i, s.groups[v].phase), c)
      ensures GroupTouches(p, v, c)
    {
      WritesAreTouches(p.code(v, i, s.groups[v].phase), c);
    }
  }

  /** What a step stores, no other workgroup uses. */
  lemma StepIsPrivate<T>(p: Program<T>, s: State<T>, s': State<T>, w: nat, i: nat, c: Cell)
    requires WellFormed(p, s.mem.Keys) && ThreadStep(p, s, s', w, i)
    requires c in s.mem && s'.mem[c] != s.mem[c]
    ensures GroupWrites(p, w, c)
    ensures forall v: nat | v < p.groups && v != w :: !GroupTouches(p, v, c)
  {
    var ph := s.groups[w].phase;
    assert p.code(w, i, ph)[s.groups[w].threads[i].pc].Writes(c);
    assert WritesIn(p.code(w, i, ph), c);
  }

  lemma ThreadStepKeepsInv<T>(p: Program<T>, mem: Memory<T>, s: State<T>, s': State<T>, w: nat, i: nat)
    requires WellFormed(p, mem.Keys) && Inv(p, mem, s) && ThreadStep(p, s, s', w, i)
    ensures Inv(p, mem, s')
  {
    OwnGroupStep(p, At(p, mem, w, s.groups[w].phase), s, s', w, i);
    forall v: nat | v < p.groups
      ensures GroupAgrees(p, At(p, mem, v, s'.groups[v].phase), s', v)
    {
      if v != w {
        forall c | c in s.mem && GroupTouches(p, v, c) ensures s'.mem[c] == s.mem[c] {
          if s'.mem[c] != s.mem[c] {
            StepIsPrivate(p, s, s', w, i, c);
          }
        }
        OtherGroupFrame(p, At(p, mem, v, s.groups[v].phase), s, s', v);
      }
    }
    forall c | c in mem && Untouched(p, c) ensures s'.mem[c] == mem[c] {
      if s'.mem[c] != s.mem[c] {
        StepIsPrivate(p, s, s', w, i, c);
      }
    }
  }

  /** At a barrier, what the workgroup did together is the merge of what each did alone. */
  lemma OwnGroupBarrier<T>(p: Program<T>, g: GroupView<T>, s: State<T>, s': State<T>, w: nat)
    requires WellFormed(p, s.mem.Keys) && BarrierStep(p, s, s', w)
    requires GroupAgrees(p, g, s, w)
    ensures Shaped(p, s') && GroupAgrees(p, NextPhase(p, g, w, s.groups[w].phase), s', w)
  {
    var ph := s.groups[w].phase;
    var next := NextPhase(p, g, w, ph);
    forall i: nat | i < p.size
      ensures Progress(p, next, w, i, ph + 1, 0) == View(next.regs[i], next.mem)
      ensures next.regs[i] == s'.groups[w].threads[i].regs
    {
      assert p.code(w, i, ph + 1)[..0] == [];
      assert s.groups[w].threads[i].pc == |CodeOf(p, s, w, i)|;
    }
    assert ThreadsAgree(p, next, s', w);
    forall c: Cell | c in s.mem && GroupTouches(p, w, c)
      ensures s.mem[c] == next.mem[c]
    {
      CellAtBarrier(p, g, s, w, c);
    }
    forall i: nat, c: Cell {:trigger WritesIn(p.code(w, i, ph + 1), c)} | i < p.size && WritesIn(p.code(w, i, ph + 1), c)
      ensures GroupTouches(p, w, c)
    {
      WritesAreTouches(p.code(w, i, ph + 1), c);
    }
  }

  lemma CellAtBarrier<T>(p: Program<T>, g: GroupView<T>, s: State<T>, w: nat, c: Cell)
    requires WellFormed(p, s.mem.Keys) && Shaped(p, s) && w < p.groups && AtBarrier(p, s, w)
    requires GroupAgrees(p, g, s, w) && c in s.mem && GroupTouches(p, w, c)
    ensures s.mem[c] == NextPhase(p, g, w, s.groups[w].phase).mem[c]
  {
    var ph := s.groups[w].phase;
    if i: nat :| i < p.size && WritesIn(p.code(w, i, ph), c) {
      WriterDecides(p, g, w, ph, i, c);
      assert s.groups[w].threads[i].pc == |CodeOf(p, s, w, i)|;
    } else {
      UnwrittenStays(p, g, w, ph, c);
    }
  }

  lemma GroupAfterBarrier<T>(p: Program<T>, mem: Memory<T>, s: State<T>, s': State<T>, w: nat, v: nat)
    requires WellFormed(p, mem.Keys) && Inv(p, mem, s) && BarrierStep(p, s, s', w) && v < p.groups
    ensures Shaped(p, s') && s'.mem == s.mem
    ensures GroupAgrees(p, At(p, mem, v, s'.groups[v].phase), s', v)
  {
    hide GroupAgrees, NextPhase, RaceFree, StaysInside, Untouched, GroupTouches;
    OwnGroupBarrier(p, At(p, mem, w, s.groups[w].phase), s, s', w);
    if v == w {
      AtNext(p, mem, w, s.groups[w].phase);
    } else {
      OtherGroupFrame(p, At(p, mem, v, s.groups[v].phase), s, s', v);
    }
  }

  lemma BarrierStepKeepsInv<T>(p: Program<T>, mem: Memory<T>, s: State<T>, s': State<T>, w: nat)
    requires WellFormed(p, mem.Keys) && Inv(p, mem, s) && BarrierStep(p, s, s', w)
    ensures Inv(p, mem, s')
  {
    hide GroupAgrees, NextPhase, RaceFree, Untouched, At;
    GroupAfterBarrier(p, mem, s, s', w, w);
    forall v: nat | v < p.groups
      ensures GroupAgrees(p, At(p, mem, v, s'.groups[v].phase), s', v)
    {
      GroupAfterBarrier(p, mem, s, s', w, v);
    }
  }

  /** Every state of every run satisfies the invariant. */
  lemma {:induction false} EveryRunKeepsInv<T>(p: Program<T>, mem: Memory<T>, run: seq<State<T>>, k: nat)
    requires WellFormed(p, mem.Keys) && IsRun(p, mem, run) && k < |run|
    ensures Inv(p, mem, run[k])
  {
    if k == 0 {
      InitialHasInv(p, mem);
    } else {
      EveryRunKeepsInv(p, mem, run, k - 1);
      var s, s' := run[k - 1], run[k - 1 + 1];
      assert Step(p, s, s');
      if w: nat, i: nat :| ThreadStep(p, s, s', w, i) {
        ThreadStepKeepsInv(p, mem, s, s', w, i);
      } else {
        var w: nat :| BarrierStep(p, s, s', w);
        BarrierStepKeepsInv(p, mem, s, s', w);
      }
    }
  }

  // ----------------------------------------------------------------------------
  // The results
  // ----------------------------------------------------------------------------

  /** `final` holds in each cell a workgroup uses what that workgroup leaves there on its
      own, and in every other cell what `mem` held. */
  ghost predicate Settled<T>(p: Program<T>, mem: Memory<T>, final: Memory<T>)
    requires StaysInside(p, mem.Keys)
  {
    && final.Keys == mem.Keys
    && (forall w: nat, c: Cell | w < p.groups && c in mem && GroupTouches(p, w, c) ::
          final[c] == At(p, mem, w, p.phases).mem[c])
    && (forall c: Cell | c in mem && Untouched(p, c) :: final[c] == mem[c])
  }

  /** Main result: whatever the schedule, a finished run has the same outcome. */
  lemma EverySchedule<T>(p: Program<T>, mem: Memory<T>, run: seq<State<T>>)
    requires WellFormed(p, mem.Keys) && IsRun(p, mem, run) && Finished(p, run[|run| - 1])
    ensures Settled(p, mem, run[|run| - 1].mem)
  {
    var s := run[|run| - 1];
    EveryRunKeepsInv(p, mem, run, |run| - 1);
    forall w: nat, c: Cell | w < p.groups && c in mem && GroupTouches(p, w, c)
      ensures s.mem[c] == At(p, mem, w, p.phases).mem[c]
    {
      assert s.groups[w].phase == p.phases - 1;
      hide At, NextPhase, RaceFree, StaysInside, ThreadsAgree, CellsAgree, GroupTouches;
      CellAtBarrier(p, At(p, mem, w, p.phases - 1), s, w, c);
      AtNext(p, mem, w, p.phases - 1);
    }
  }

  /** No schedule brings two threads to conflicting accesses at the same time. */
  lemma NoScheduleRaces<T>(p: Program<T>, mem: Memory<T>, run: seq<State<T>>, k: nat, w: nat, i: nat, v: nat, j: nat)
    requires WellFormed(p, mem.Keys) && IsRun(p, mem, run) && k < |run|
    requires Shaped(p, run[k]) && Ready(p, run[k], w, i) && Ready(p, run[k], v, j) && (w, i) != (v, j)
    requires NextInstr(p, run[k], w, i).Store?
    ensures !NextInstr(p, run[k], v, j).Touches(NextInstr(p, run[k], w, i).cell)
  {
    var s := run[k];
    var c, ins := NextInstr(p, s, w, i).cell, NextInstr(p, s, v, j);
    assert CodeOf(p, s, w, i)[s.groups[w].threads[i].pc].Writes(c);
    if ins.Touches(c) {
      assert CodeOf(p, s, v, j)[s.groups[v].threads[j].pc].Touches(c);
      assert WritesIn(CodeOf(p, s, w, i), c) && TouchesIn(CodeOf(p, s, v, j), c);
      assert false;
    }
  }

  ghost predicate CanStep<T(!new)>(p: Program<T>, s: State<T>) {
    exists next :: Step(p, s, next)
  }

  /** No schedule gets stuck: a run that isn't finished can go on, so no thread waits
      for ever and no access is out of bounds. */
  lemma NoScheduleIsStuck<T(!new)>(p: Program<T>, mem: Memory<T>, run: seq<State<T>>)
    requires WellFormed(p, mem.Keys) && IsRun(p, mem, run) && !Finished(p, run[|run| - 1])
    ensures CanStep(p, run[|run| - 1])
  {
    EveryRunKeepsInv(p, mem, run, |run| - 1);
    SomethingCanStep(p, run[|run| - 1]);
  }

  lemma SomethingCanStep<T(!new)>(p: Program<T>, s: State<T>)
    requires Shaped(p, s) && StaysInside(p, s.mem.Keys) && !Finished(p, s)
    requires forall w: nat, i: nat | w < p.groups && i < p.size :: s.groups[w].threads[i].pc <= |CodeOf(p, s, w, i)|
    ensures CanStep(p, s)
  {
    var w: nat :| w < p.groups && !(s.groups[w].phase + 1 == p.phases && AtBarrier(p, s, w));
    if AtBarrier(p, s, w) {
      var next := s.(groups := s.groups[w := Group(
        s.groups[w].phase + 1,
        seq(p.size, i requires 0 <= i < p.size => s.groups[w].threads[i].(pc := 0)))]);
      assert BarrierStep(p, s, next, w);
      assert Step(p, s, next);
    } else {
      var i: nat :| i < p.size && s.groups[w].threads[i].pc != |CodeOf(p, s, w, i)|;
      var t, ins := s.groups[w].threads[i], NextInstr(p, s, w, i);
      assert InBounds(p.code(w, i, s.groups[w].phase), s.mem.Keys);
      var v := Exec(p.arith, ins, View(t.regs, s.mem));
      var next := State(
        s.groups[w := s.groups[w].(threads := s.groups[w].threads[i := Thread(t.pc + 1, v.regs)])], v.mem);
      assert ThreadStep(p, s, next, w, i);
      assert Step(p, s, next);
    }
  }

  /** Instructions and barriers left to thread `i` of workgroup `w` from phase `ph` on. */
  function Rest<T>(p: Program<T>, w: nat, i: nat, ph: nat): (r: nat)
    decreases p.phases - ph
  {
    if ph >= p.phases then 0 else |p.code(w, i, ph)| + 1 + Rest(p, w, i, ph + 1)
  }

  function GroupWork<T>(p: Program<T>, g: Group<T>, w: nat, n: nat): int
    requires n <= |g.threads|
  {
    if n == 0 then 0 else GroupWork(p, g, w, n - 1) + Rest(p, w, n - 1, g.phase) - g.threads[n - 1].pc
  }

  function Work<T>(p: Program<T>, s: State<T>, n: nat): int
    requires n <= |s.groups|
  {
    if n == 0 then 0 else Work(p, s, n - 1) + GroupWork(p, s.groups[n - 1], n - 1, |s.groups[n - 1].threads|)
  }

  lemma {:induction false} ThreadStepWork<T>(p: Program<T>, g: Group<T>, g': Group<T>, w: nat, i: nat, n: nat)
    requires n <= |g.threads| == |g'.threads| && i < |g.threads| && g'.phase == g.phase
    requires g'.threads[i].pc == g.threads[i].pc + 1
    requires forall j | 0 <= j < |g.threads| && j != i :: g'.threads[j] == g.threads[j]
    ensures GroupWork(p, g', w, n) == GroupWork(p, g, w, n) - (if i < n then 1 else 0)
  {
    if n > 0 {
      ThreadStepWork(p, g, g', w, i, n - 1);
    }
  }

  lemma {:induction false} BarrierWork<T>(p: Program<T>, g: Group<T>, g': Group<T>, w: nat, n: nat)
    requires n <= |g.threads| == |g'.threads| && g'.phase == g.phase + 1 < p.phases
    requires forall i: nat | i < |g.threads| :: g.threads[i].pc == |p.code(w, i, g.phase)| && g'.threads[i].pc == 0
    ensures GroupWork(p, g', w, n) == GroupWork(p, g, w, n) - n
  {
    if n > 0 {
      BarrierWork(p, g, g', w, n - 1);
    }
  }

  lemma {:induction false} OneGroupMoves<T>(p: Program<T>, s: State<T>, s': State<T>, w: nat, n: nat)
    requires n <= |s.groups| == |s'.groups| && w < |s.groups|
    requires forall v | 0 <= v < |s.groups| && v != w :: s'.groups[v] == s.groups[v]
    requires GroupWork(p, s'.groups[w], w, |s'.groups[w].threads|) < GroupWork(p, s.groups[w], w, |s.groups[w].threads|)
    ensures Work(p, s', n) <= Work(p, s, n) - (if w < n then 1 else 0)
  {
    if n > 0 {
      OneGroupMoves(p, s, s', w, n - 1);
    }
  }

  lemma StepWorks<T>(p: Program<T>, s: State<T>, s': State<T>)
    requires p.size > 0 && Step(p, s, s')
    ensures |s.groups| == |s'.groups| == p.groups && Work(p, s', p.groups) < Work(p, s, p.groups)
  {
    if w: nat, i: nat :| ThreadStep(p, s, s', w, i) {
      ThreadStepWork(p, s.groups[w], s'.groups[w], w, i, p.size);
      OneGroupMoves(p, s, s', w, p.groups);
    } else {
      var w: nat :| BarrierStep(p, s, s', w);
      BarrierWork(p, s.groups[w], s'.groups[w], w, p.size);
      OneGroupMoves(p, s, s', w, p.groups);
    }
  }

  lemma {:induction false} WorkIsLeft<T>(p: Program<T>, s: State<T>, w: nat, n: nat)
    requires Shaped(p, s) && w < p.groups && n <= p.size
    requires forall i: nat | i < p.size :: s.groups[w].threads[i].pc <= |CodeOf(p, s, w, i)|
    ensures GroupWork(p, s.groups[w], w, n) >= 0
  {
    if n > 0 {
      WorkIsLeft(p, s, w, n - 1);
    }
  }

  lemma {:induction false} AllWorkIsLeft<T>(p: Program<T>, s: State<T>, n: nat)
    requires Shaped(p, s) && n <= p.groups
    requires forall w: nat, i: nat | w < p.groups && i < p.size :: s.groups[w].threads[i].pc <= |CodeOf(p, s, w, i)|
    ensures Work(p, s, n) >= 0
  {
    if n > 0 {
      AllWorkIsLeft(p, s, n - 1);
      WorkIsLeft(p, s, n - 1, p.size);
    }
  }

  /** No schedule goes on for ever: its length is bounded by the work there was at the start. */
  lemma {:induction false} EveryScheduleEnds<T>(p: Program<T>, mem: Memory<T>, run: seq<State<T>>, k: nat)
    requires WellFormed(p, mem.Keys) && IsRun(p, mem, run) && k < |run|
    ensures |run[k].groups| == p.groups
    ensures 0 <= Work(p, run[k], p.groups) <= Work(p, Initial(p, mem), p.groups) - k
  {
    EveryRunKeepsInv(p, mem, run, k);
    AllWorkIsLeft(p, run[k], p.groups);
    if k > 0 {
      EveryScheduleEnds(p, mem, run, k - 1);
      assert Step(p, run[k - 1], run[k - 1 + 1]);
      StepWorks(p, run[k - 1], run[k]);
    }
  }
}
