/**
 Monotone position cells and the gates that wait on them. The cell is a versioned
 watch value; a run interleaves any mutators with any number of waiters, each
 cut at its two await points (probe, park).
 */
module GateCell {
  import opened Basics

  const MAX: nat := 0xFFFF_FFFF_FFFF_FFFF
  type Pos = n: nat | n <= MAX

  datatype Cell = Cell(value: Pos, version: nat, closed: bool)

  /** `advance_to`: notify only on a real move. */
  function Advanced(c: Cell, v: Pos): Cell {
    if c.value < v then c.(value := v, version := c.version + 1) else c
  }

  /** `rebase`: any value, always notified. */
  function Rebased(c: Cell, v: Pos): Cell { c.(value := v, version := c.version + 1) }

  /** `bump`: a 64-bit increment, always notified. */
  function Bumped(c: Cell): Cell {
    c.(value := if c.value == MAX then 0 else c.value + 1, version := c.version + 1)
  }

  /** The cell as the object the mutators change. */
  class Monotone {
    var value: Pos
    var version: nat

    ghost function View(): Cell
      reads this
    {
      Cell(value, version, false)
    }

    constructor (init: Pos)
      ensures View() == Cell(init, 0, false)
    {
      value, version := init, 0;
    }

    method AdvanceTo(v: Pos) returns (now: Pos)
      modifies this
      ensures View() == Advanced(old(View()), v)
      ensures now == value == Max(old(value), v)
    {
      var prev := value;
      value := Max(prev, v);
      if prev < v {
        version := version + 1;
      }
      now := Max(prev, v);
    }

    method Rebase(v: Pos) returns (now: Pos)
      modifies this
      ensures View() == Rebased(old(View()), v) && now == v
    {
      value, version := v, version + 1;
      now := v;
    }

    method Bump()
      modifies this
      ensures View() == Bumped(old(View()))
    {
      value := if value == MAX then 0 else value + 1;
      version := version + 1;
    }
  }

  // ------------------------------------------------------------------
  // Waiters
  // ------------------------------------------------------------------

  /** One `Gate::wait`; `seen` is the version its receiver last read. */
  datatype Phase = Probing | Parked | Resolved(value: Pos) | GateClosed
  datatype Waiter = Waiter(target: Pos, seen: nat, phase: Phase)

  datatype State = State(cell: Cell, waiters: seq<Waiter>)

  datatype Step =
    | Join(v: Pos)
    | Publish(v: Pos)
    | Rebase(v: Pos)
    | Bump
    | DropCell
    | Wait(target: Pos)
    | Probe(i: nat)
    | Wake(i: nat)

  /** `borrow_and_update`, then the target test. */
  function Probed(c: Cell, w: Waiter): Waiter {
    w.(seen := c.version, phase := if c.value >= w.target then Resolved(c.value) else Parked)
  }

  predicate CanWake(c: Cell, w: Waiter) {
    w.phase.Parked? && (w.seen != c.version || c.closed)
  }

  /** `changed`: an unseen version wins over a closed cell. */
  function Woken(c: Cell, w: Waiter): Waiter {
    if w.seen != c.version then w.(seen := c.version, phase := Probing) else w.(phase := GateClosed)
  }

  function CellStep(c: Cell, step: Step): Cell {
    if c.closed then c
    else match step
      case Join(v) => Advanced(c, v)
      case Publish(v) => Advanced(c, v)
      case Rebase(v) => Rebased(c, v)
      case Bump => Bumped(c)
      case DropCell => c.(closed := true)
      case _ => c
  }

  function Next(s: State, step: Step): (t: State)
    ensures |t.waiters| >= |s.waiters|
  {
    match step
    case Wait(target) => s.(waiters := s.waiters + [Waiter(target, 0, Probing)])
    case Probe(i) =>
      if i < |s.waiters| && s.waiters[i].phase.Probing? then
        s.(waiters := s.waiters[i := Probed(s.cell, s.waiters[i])])
      else s
    case Wake(i) =>
      if i < |s.waiters| && CanWake(s.cell, s.waiters[i]) then
        s.(waiters := s.waiters[i := Woken(s.cell, s.waiters[i])])
      else s
    case _ => s.(cell := CellStep(s.cell, step))
  }

  function Exec(s: State, steps: seq<Step>): (t: State)
    ensures |t.waiters| >= |s.waiters|
    decreases |steps|
  {
    if steps == [] then s else Exec(Next(s, steps[0]), steps[1..])
  }

  /** What the code promises of one waiter against the cell as it stands. */
  predicate WaiterOk(c: Cell, w: Waiter) {
    && w.seen <= c.version
    && match w.phase
       case Probing => true
       case Parked => w.seen == c.version ==> c.value < w.target
       case Resolved(v) => v >= w.target
       case GateClosed => c.closed && c.value < w.target
  }

  predicate Inv(s: State) {
    forall i :: 0 <= i < |s.waiters| ==> WaiterOk(s.cell, s.waiters[i])
  }

  lemma CellStepKeepsWaiter(c: Cell, step: Step, w: Waiter)
    requires WaiterOk(c, w)
    ensures WaiterOk(CellStep(c, step), w)
  {
  }

  lemma NextKeepsInv(s: State, step: Step)
    requires Inv(s)
    ensures Inv(Next(s, step))
  {
    forall i | 0 <= i < |Next(s, step).waiters|
      ensures WaiterOk(Next(s, step).cell, Next(s, step).waiters[i])
    {
      if i < |s.waiters| {
        CellStepKeepsWaiter(s.cell, step, s.waiters[i]);
      }
    }
  }

  lemma {:induction false} ExecKeepsInv(s: State, steps: seq<Step>)
    requires Inv(s)
    ensures Inv(Exec(s, steps))
    decreases |steps|
  {
    if steps != [] {
      NextKeepsInv(s, steps[0]);
      ExecKeepsInv(Next(s, steps[0]), steps[1..]);
    }
  }

  function Fresh(init: Pos): State { State(Cell(init, 0, false), []) }

  /**
   In every run: a parked waiter whose target is covered has a change it has not
   seen, so it can run and its next probe resolves; values handed out cover the
   target; and a closed gate means the cell's last value fell short.
   */
  lemma NoLostWakeup(init: Pos, steps: seq<Step>, i: nat)
    requires i < |Exec(Fresh(init), steps).waiters|
    ensures var s := Exec(Fresh(init), steps); var w := s.waiters[i];
            && (w.phase.Parked? && s.cell.value >= w.target ==>
                  && w.seen < s.cell.version
                  && Exec(s, [Wake(i), Probe(i)]).waiters[i].phase == Resolved(s.cell.value))
            && (w.phase.Resolved? ==> w.phase.value >= w.target)
            && (w.phase.GateClosed? ==> s.cell.closed && s.cell.value < w.target)
  {
    ExecKeepsInv(Fresh(init), steps);
    var s := Exec(Fresh(init), steps);
    var w := s.waiters[i];
    if w.phase.Parked? && s.cell.value >= w.target {
      assert [Wake(i), Probe(i)][1..] == [Probe(i)];
      var woken := Next(s, Wake(i));
      assert woken.waiters[i].phase == Probing;
      assert Exec(woken, [Probe(i)]) == Next(woken, Probe(i));
    }
  }

  /** A waiter that parks has seen the cell as it is: until the next signal or the end, nothing wakes it. */
  lemma ParksOnWhatItSaw(s: State, i: nat)
    requires i < |s.waiters| && s.waiters[i].phase.Probing? && !s.cell.closed
    ensures var t := Next(s, Probe(i)); t.waiters[i].phase.Parked? ==> !CanWake(t.cell, t.waiters[i]) && Next(t, Wake(i)) == t
  {
  }

  /** Dropping the cell leaves no waiter parked for good. */
  lemma ClosedCellFreesEveryWaiter(init: Pos, steps: seq<Step>, i: nat)
    requires i < |Exec(Fresh(init), steps).waiters| && Exec(Fresh(init), steps).cell.closed
    ensures var s := Exec(Fresh(init), steps); var w := s.waiters[i];
            var t := Exec(s, [Wake(i), Probe(i), Wake(i)]).waiters[i];
            w.phase.Parked? ==>
              t.phase == if s.cell.value >= w.target then Resolved(s.cell.value) else GateClosed
  {
    ExecKeepsInv(Fresh(init), steps);
    var s := Exec(Fresh(init), steps);
    var w := s.waiters[i];
    var script := [Wake(i), Probe(i), Wake(i)];
    assert script[1..] == [Probe(i), Wake(i)] && script[1..][1..] == [Wake(i)];
    if w.phase.Parked? {
      var a := Next(s, Wake(i));
      var b := Next(a, Probe(i));
      var c := Next(b, Wake(i));
      assert Exec(b, [Wake(i)]) == c;
      assert Exec(a, [Probe(i), Wake(i)]) == c;
      assert Exec(s, script) == c;
    }
  }

  // ------------------------------------------------------------------
  // What the cell holds
  // ------------------------------------------------------------------

  /** Everything offered while the cell was open. */
  function Offered(c: Cell, steps: seq<Step>): seq<Pos>
    decreases |steps|
  {
    if steps == [] then []
    else
      var here := if !c.closed && (steps[0].Join? || steps[0].Publish?) then [steps[0].v] else [];
      here + Offered(CellStep(c, steps[0]), steps[1..])
  }

  predicate OnlyForward(steps: seq<Step>) {
    forall step :: step in steps ==> !step.Rebase? && !step.Bump?
  }

  predicate IsMaximum(m: Pos, init: Pos, offered: seq<Pos>) {
    && (m == init || m in offered)
    && init <= m
    && forall v :: v in offered ==> v <= m
  }

  /** Without rebase or bump the cell is the maximum of everything it was given. */
  lemma {:induction false} CellIsMaximum(s: State, steps: seq<Step>)
    requires OnlyForward(steps)
    ensures IsMaximum(Exec(s, steps).cell.value, s.cell.value, Offered(s.cell, steps))
    decreases |steps|
  {
    if steps != [] {
      assert steps[0] in steps;
      var t := Next(s, steps[0]);
      assert t.cell == CellStep(s.cell, steps[0]);
      assert forall step :: step in steps[1..] ==> step in steps;
      CellIsMaximum(t, steps[1..]);
    }
  }

  /** A cell step lowers the value only by a rebase below it or by the 64-bit wrap of a count. */
  lemma OnlyRebaseOrWrapLowers(c: Cell, step: Step)
    ensures CellStep(c, step).value < c.value <==>
            !c.closed && ((step.Rebase? && step.v < c.value) || (step.Bump? && c.value == MAX))
  {
  }

  // ------------------------------------------------------------------
  // `Gate::advance`
  // ------------------------------------------------------------------

  function PastSeen(seen: Pos): Pos { if seen == MAX then MAX else seen + 1 }

  /** Resolving `advance` means the cell moved past `seen`, except at the top of the range. */
  lemma AdvanceMovesPastSeen(init: Pos, steps: seq<Step>, i: nat, seen: Pos)
    requires i < |Exec(Fresh(init), steps).waiters|
    requires Exec(Fresh(init), steps).waiters[i].target == PastSeen(seen)
    requires Exec(Fresh(init), steps).waiters[i].phase.Resolved?
    ensures Exec(Fresh(init), steps).waiters[i].phase.value > seen <==> seen < MAX
  {
    ExecKeepsInv(Fresh(init), steps);
  }
}
