/**
 One leg of the gap replay as it runs: push a segment, record by record, through the
 buffer; now and then prove the inserts and save the resume point; finish. Every leg is
 a run of GapReplay.
 */
module ReplayLeg {
  import opened Basics
  import opened GapReplay
  import S = Segments

  lemma {:induction false} ExecConcat(wal: seq<Record>, p: Plan, s: State, a: seq<Step>, b: seq<Step>)
    ensures Exec(wal, p, s, a + b) == Exec(wal, p, Exec(wal, p, s, a), b)
    decreases |a|
  {
    if a == [] {
      assert a + b == b;
    } else {
      assert (a + b)[1..] == a[1..] + b;
      ExecConcat(wal, p, Next(wal, p, s, a[0]), a[1..], b);
    }
  }

  lemma ExecSnoc(wal: seq<Record>, p: Plan, s: State, a: seq<Step>, step: Step)
    ensures Exec(wal, p, s, a + [step]) == Next(wal, p, Exec(wal, p, s, a), step)
  {
    ExecConcat(wal, p, s, a, [step]);
    assert [step][1..] == [];
  }

  class Leg {
    const wal: seq<Record>
    const plan: Plan
    const from: nat
    const legs: set<nat>
    const landed: set<nat>
    var pos: nat
    var next: nat
    var buffer: set<nat>
    var sent: set<nat>
    var proved: set<nat>
    var saved: nat

    function View(): State
      reads this
    {
      State(from, pos, next, buffer, sent, proved, landed, saved, legs)
    }

    /** Start, or start over, at a saved resume point. */
    constructor (wal: seq<Record>, plan: Plan, from: nat, proved: set<nat>, landed: set<nat>, legs: set<nat>)
      ensures this.wal == wal && this.plan == plan && View() == Start(wal, from, proved, landed, legs)
    {
      this.wal, this.plan, this.from, this.legs, this.landed := wal, plan, from, legs + {from}, landed;
      this.pos, this.next := Floor(from), FirstAt(wal, Floor(from));
      this.buffer, this.sent, this.proved, this.saved := {}, {}, proved, from;
    }

    /** Buffer a write; drain on commit, shipping what the leg does not filter out; forget on abort. */
    method DecodeNext()
      requires next < |wal|
      modifies this
      ensures View() == Decoded(wal, plan, old(View()))
    {
      var r := wal[next];
      match r.kind
      case Write =>
        buffer := buffer + {next};
        next := next + 1;
      case Abort(_) =>
        buffer := buffer - OfXids(wal, buffer, r.Members());
        next := next + 1;
      case Commit(_) =>
        var drained := OfXids(wal, buffer, r.Members());
        buffer := buffer - drained;
        if from < r.start <= plan.through {
          sent := sent + drained;
        }
        next := next + 1;
    }

    /** Between segments: nothing past the last pushed one has been decoded. */
    ghost predicate AtRest()
      reads this
    {
      && Floor(from) <= pos <= CoverEnd(plan) && pos % SEG == 0 && BufferBehind(wal, View())
      && (next <= FirstAt(wal, Floor(from)) || wal[next - 1].end <= pos)
    }

    /** Push one whole segment. */
    method PushSegment() returns (ghost steps: seq<Step>)
      requires pos + SEG <= CoverEnd(plan) && AtRest()
      modifies this
      ensures View() == Exec(wal, plan, old(View()), steps) && pos == old(pos) + SEG && AtRest()
    {
      steps := [];
      while next < |wal| && wal[next].end <= pos + SEG
        invariant pos == old(pos) && BufferBehind(wal, View())
        invariant View() == Exec(wal, plan, old(View()), steps)
        invariant next <= FirstAt(wal, Floor(from)) || wal[next - 1].end <= pos + SEG
        decreases |wal| - next
      {
        ExecSnoc(wal, plan, old(View()), steps, Decode);
        DecodeNext();
        steps := steps + [Decode];
      }
      ExecSnoc(wal, plan, old(View()), steps, EndSegment);
      pos := pos + SEG;
      steps := steps + [EndSegment];
    }

    /** Lowest first record still buffered, capped at the segment's end. */
    method OldestInflight() returns (point: nat)
      requires BufferBehind(wal, View())
      ensures point == ResumePoint(wal, View())
    {
      var i := 0;
      while i < next && i !in buffer
        invariant 0 <= i <= next
        invariant Oldest(buffer, 0, next) == Oldest(buffer, i, next)
      {
        i := i + 1;
      }
      point := pos;
      if i < next && wal[i].start < pos {
        point := wal[i].start;
      }
    }

    /** The inserts are proved first, then the resume point is saved. */
    method SaveCheckpoint()
      requires Taken(wal, View())
      modifies this
      ensures View() == Next(wal, plan, old(View()), Checkpoint)
    {
      var point := OldestInflight();
      proved := proved + sent;
      sent := {};
      saved := point;
    }

    /** One turn of the loop: a segment, and a checkpoint if the ticker fires. */
    method Turn(fire: bool) returns (ghost steps: seq<Step>)
      requires AtRest() && pos + SEG <= CoverEnd(plan)
      modifies this
      ensures AtRest() && pos == old(pos) + SEG && View() == Exec(wal, plan, old(View()), steps)
    {
      steps := PushSegment();
      // The flush costs a round trip, so only some boundaries get one
      if fire {
        ExecSnoc(wal, plan, old(View()), steps, Checkpoint);
        SaveCheckpoint();
        steps := steps + [Checkpoint];
      }
    }

    method FinalFlush()
      requires pos == CoverEnd(plan)
      modifies this
      ensures View() == Next(wal, plan, old(View()), Finish)
    {
      proved := proved + sent;
      sent := {};
    }

    /**
     All remaining segments, with a checkpoint wherever the ticker fires, then the final
     flush: a run that, unless a checkpoint orphaned a write, proves all the rows owed.
     */
    method ReplayGap(fires: nat -> bool) returns (ghost steps: seq<Step>)
      requires AtRest()
      modifies this
      ensures pos == CoverEnd(plan) && View() == Exec(wal, plan, old(View()), steps)
      ensures Log(wal) && PlanOk(plan) && Inv(wal, plan, old(View())) && Clean(wal, plan, old(View()), steps) ==>
                forall w: nat, c: nat :: Owed(wal, plan, legs, w, c) ==> w in proved
    {
      steps := [];
      while pos + SEG <= CoverEnd(plan)
        invariant AtRest() && View() == Exec(wal, plan, old(View()), steps)
        decreases CoverEnd(plan) - pos
      {
        ghost var more := Turn(fires(pos));
        ExecConcat(wal, plan, old(View()), steps, more);
        steps := steps + more;
      }
      CoverReached(plan, pos);
      ExecSnoc(wal, plan, old(View()), steps, Finish);
      CleanFinishProves(wal, plan, old(View()), steps);
      FinalFlush();
      steps := steps + [Finish];
    }
  }

  lemma {:induction false} CleanPrefix(wal: seq<Record>, p: Plan, s: State, a: seq<Step>, b: seq<Step>)
    requires Clean(wal, p, s, a + b)
    ensures Clean(wal, p, s, a)
    decreases |a|
  {
    if a != [] {
      assert (a + b)[0] == a[0] && (a + b)[1..] == a[1..] + b;
      CleanPrefix(wal, p, Next(wal, p, s, a[0]), a[1..], b);
    }
  }

  lemma CleanFinishProves(wal: seq<Record>, p: Plan, s: State, steps: seq<Step>)
    requires Exec(wal, p, s, steps).pos == CoverEnd(p)
    ensures Log(wal) && PlanOk(p) && Inv(wal, p, s) && Clean(wal, p, s, steps + [Finish]) ==>
              var t := Exec(wal, p, s, steps);
              forall w: nat, c: nat :: Owed(wal, p, t.legs, w, c) ==> w in Next(wal, p, t, Finish).proved
  {
    if Log(wal) && PlanOk(p) && Inv(wal, p, s) && Clean(wal, p, s, steps + [Finish]) {
      CleanPrefix(wal, p, s, steps, [Finish]);
      ExecKeepsInv(wal, p, s, steps);
      FinishProves(wal, p, Exec(wal, p, s, steps));
    }
  }

  lemma FinishProves(wal: seq<Record>, p: Plan, s: State)
    requires Inv(wal, p, s) && s.pos == CoverEnd(p)
    ensures forall w: nat, c: nat :: Owed(wal, p, s.legs, w, c) ==> w in Next(wal, p, s, Finish).proved
  {
    forall w: nat, c: nat | Owed(wal, p, s.legs, w, c)
      ensures w in s.proved + s.sent
    {
      assert w in s.proved || InLeg(wal, w, c, s.from);
      assert c < s.next;
    }
  }

  lemma CoverReached(p: Plan, pos: nat)
    requires pos % SEG == 0 && pos <= CoverEnd(p) && CoverEnd(p) < pos + SEG
    ensures pos == CoverEnd(p)
  {
  }

  // ------------------------------------------------------------------
  // The plan's bounds are the fetched segments'
  // ------------------------------------------------------------------

  lemma FloorUnique(lsn: nat, f: nat)
    requires f % SEG == 0 && f <= lsn < f + SEG
    ensures Floor(lsn) == f
  {
  }

  lemma StartsAligned(out: seq<S.Segment>, i: nat)
    requires S.Consecutive(out) && i < |out|
    ensures out[i].Start() % SEG == 0
  {
    var n := out[i].log * S.PER_LOG + out[i].no;
    assert out[i].Start() == n * SEG;
  }

  /**
   The segments named for the range from redo through the highest opt-in start at the
   plan's first segment and end at its last, and those a resume keeps start at the
   segment of the resume point.
   */
  lemma SegmentsMatchPlan(p: Plan, out: seq<S.Segment>, from: nat)
    requires PlanOk(p) && S.Covers(out, p.redo, p.sMax + 1) && !S.HasTop(out) && p.sMax + 1 < S.TOP
    requires Floor(p.redo) <= from <= p.sMax
    ensures out[0].Start() == Floor(p.redo) && out[|out| - 1].Start() + SEG == CoverEnd(p)
    ensures S.Resumed(out, from) != [] && S.Resumed(out, from)[0].Start() == Floor(from)
  {
    StartsAligned(out, 0);
    StartsAligned(out, |out| - 1);
    FloorUnique(p.redo, out[0].Start());
    FloorUnique(p.sMax, out[|out| - 1].Start());
    assert S.Covers(out, Floor(p.redo), p.sMax + 1);
    S.ResumeKeepsSuffixIff(out, Floor(p.redo), p.sMax + 1, from);
    S.FirstPastHolds(out, Floor(p.redo), p.sMax + 1, from);
    var i := S.FirstPast(out, from);
    StartsAligned(out, i);
    FloorUnique(from, out[i].Start());
  }
}
