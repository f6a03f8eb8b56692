/**
 The gap replay is complete on a log exactly when no run of it can orphan a write: an
 orphaning checkpoint always extends to a finished run that misses the row.
 */
module ReplayExact {
  import opened GapReplay
  import opened ReplayLeg

  /** Every run that reaches the end of the cover has delivered every row it owes, at the latest when it finishes. */
  ghost predicate Complete(wal: seq<Record>, p: Plan) {
    forall steps: seq<Step> :: CompleteRun(wal, p, steps)
  }

  ghost predicate CompleteRun(wal: seq<Record>, p: Plan, steps: seq<Step>) {
    var s := Exec(wal, p, Init(wal, p), steps);
    var t := Next(wal, p, s, Finish);
    s.pos == CoverEnd(p) ==> forall w: nat, c: nat :: Owed(wal, p, t.legs, w, c) ==> w in t.proved + t.landed
  }

  ghost predicate NeverOrphans(wal: seq<Record>, p: Plan) {
    forall steps: seq<Step> :: Clean(wal, p, Init(wal, p), steps)
  }

  // ------------------------------------------------------------------
  // Any leg can be pushed to the end of the cover
  // ------------------------------------------------------------------

  lemma {:induction false} PushOne(wal: seq<Record>, p: Plan, s: State) returns (steps: seq<Step>)
    requires s.pos + SEG <= CoverEnd(p) && s.next <= |wal|
    ensures var t := Exec(wal, p, s, steps); t.pos == s.pos + SEG && t.next <= |wal|
    decreases |wal| - s.next
  {
    if s.next < |wal| && wal[s.next].end <= s.pos + SEG {
      var rest := PushOne(wal, p, Next(wal, p, s, Decode));
      steps := [Decode] + rest;
      assert steps[1..] == rest;
    } else {
      steps := [EndSegment];
      assert steps[1..] == [];
    }
  }

  lemma {:induction false} PushAll(wal: seq<Record>, p: Plan, s: State) returns (steps: seq<Step>)
    requires s.pos <= CoverEnd(p) && s.pos % SEG == 0 && s.next <= |wal|
    ensures Exec(wal, p, s, steps).pos == CoverEnd(p)
    decreases CoverEnd(p) - s.pos
  {
    if s.pos + SEG <= CoverEnd(p) {
      var one := PushOne(wal, p, s);
      var rest := PushAll(wal, p, Exec(wal, p, s, one));
      ExecConcat(wal, p, s, one, rest);
      steps := one + rest;
    } else {
      CoverReached(p, s.pos);
      steps := [];
    }
  }

  // ------------------------------------------------------------------
  // Rows a crash leaves behind do not steer the run
  // ------------------------------------------------------------------

  function Barren(step: Step): Step { if step.Crash? then Crash({}) else step }

  function AllBarren(steps: seq<Step>): seq<Step> {
    if steps == [] then [] else [Barren(steps[0])] + AllBarren(steps[1..])
  }

  lemma BarrenStep(wal: seq<Record>, p: Plan, s: State, step: Step)
    ensures Next(wal, p, s.(landed := {}), Barren(step)) == Next(wal, p, s, step).(landed := {})
  {
    if step.Crash? {
      var none: set<nat> := {};
      assert none + none * s.sent == none;
    }
  }

  lemma {:induction false} BarrenRun(wal: seq<Record>, p: Plan, s: State, steps: seq<Step>)
    ensures Exec(wal, p, s.(landed := {}), AllBarren(steps)) == Exec(wal, p, s, steps).(landed := {})
    decreases |steps|
  {
    if steps != [] {
      BarrenStep(wal, p, s, steps[0]);
      BarrenRun(wal, p, Next(wal, p, s, steps[0]), steps[1..]);
      assert AllBarren(steps)[1..] == AllBarren(steps[1..]);
    }
  }

  // ------------------------------------------------------------------
  // From an orphaning checkpoint to a finished run without the row
  // ------------------------------------------------------------------

  /** The first checkpoint of the run that orphans a write, and the run up to it. */
  lemma {:induction false} FirstOrphaning(wal: seq<Record>, p: Plan, s: State, steps: seq<Step>) returns (upTo: seq<Step>)
    requires !Clean(wal, p, s, steps)
    ensures Clean(wal, p, s, upTo)
    ensures Taken(wal, Exec(wal, p, s, upTo)) && Orphaning(wal, p, Exec(wal, p, s, upTo))
    decreases |steps|
  {
    if steps[0].Checkpoint? && Taken(wal, s) && Orphaning(wal, p, s) {
      upTo := [];
    } else {
      var rest := FirstOrphaning(wal, p, Next(wal, p, s, steps[0]), steps[1..]);
      upTo := [steps[0]] + rest;
      assert upTo[1..] == rest;
    }
  }

  lemma AfterCrashPlaced(wal: seq<Record>, p: Plan, s: State)
    requires Inv(wal, p, s) && Taken(wal, s)
    ensures var t := Next(wal, p, Next(wal, p, s, Checkpoint), Crash({}));
            t.pos <= CoverEnd(p) && t.pos % SEG == 0 && t.next <= |wal|
  {
  }

  /** Owing a row is for good. */
  lemma OwedStays(wal: seq<Record>, p: Plan, a: set<nat>, b: set<nat>, w: nat, c: nat)
    requires Owed(wal, p, a, w, c) && a <= b
    ensures Owed(wal, p, b, w, c)
  {
    var f :| f in a && InLeg(wal, w, c, f);
    assert f in b;
  }

  /** An orphaned write, a crash, and the rest of the cover: the run finishes without it. */
  lemma OrphanFinishesLost(wal: seq<Record>, p: Plan, s: State, w: nat, c: nat) returns (steps: seq<Step>)
    requires Log(wal) && PlanOk(p) && Inv(wal, p, s) && Taken(wal, s) && s.buffer == {}
    requires Owed(wal, p, s.legs, w, c) && w !in s.proved && w !in s.landed && Straddles(wal, w, s.pos)
    ensures var t := Exec(wal, p, s, steps);
            t.pos == CoverEnd(p) && w !in t.proved + t.sent + t.landed && Owed(wal, p, t.legs, w, c)
  {
    var crashed := Next(wal, p, Next(wal, p, s, Checkpoint), Crash({}));
    AfterCrashPlaced(wal, p, s);
    var rest := PushAll(wal, p, crashed);
    steps := [Checkpoint, Crash({})] + rest;
    assert steps[1..] == [Crash({})] + rest && ([Crash({})] + rest)[1..] == rest;
    assert Exec(wal, p, s, steps) == Exec(wal, p, crashed, rest);
    OrphanIsLostForever(wal, p, s, {}, rest, w, c);
    LegsGrow(wal, p, s, steps);
    OwedStays(wal, p, s.legs, Exec(wal, p, s, steps).legs, w, c);
  }

  lemma MissedRow(wal: seq<Record>, p: Plan, steps: seq<Step>, w: nat, c: nat)
    requires var s := Exec(wal, p, Init(wal, p), steps);
             s.pos == CoverEnd(p) && Owed(wal, p, s.legs, w, c) && w !in s.proved + s.sent + s.landed
    ensures !CompleteRun(wal, p, steps)
  {
    var s := Exec(wal, p, Init(wal, p), steps);
    var t := Next(wal, p, s, Finish);
    assert t.legs == s.legs && w !in t.proved + t.landed;
  }

  /** The orphaning state, reached without any row surviving a crash. */
  lemma BareOrphaning(wal: seq<Record>, p: Plan, upTo: seq<Step>)
    requires Log(wal) && PlanOk(p) && Clean(wal, p, Init(wal, p), upTo)
    requires Orphaning(wal, p, Exec(wal, p, Init(wal, p), upTo)) && Taken(wal, Exec(wal, p, Init(wal, p), upTo))
    ensures var s := Exec(wal, p, Init(wal, p), AllBarren(upTo));
            Inv(wal, p, s) && Orphaning(wal, p, s) && Taken(wal, s) && s.landed == {}
  {
    InitInv(wal, p);
    ExecKeepsInv(wal, p, Init(wal, p), upTo);
    BarrenRun(wal, p, Init(wal, p), upTo);
    var seen := Exec(wal, p, Init(wal, p), upTo);
    assert Init(wal, p).(landed := {}) == Init(wal, p);
    BareKeepsInv(wal, p, seen);
    var w: nat, c: nat :| Owed(wal, p, seen.legs, w, c) && w !in seen.proved && Straddles(wal, w, seen.pos);
    var bare := seen.(landed := {});
    assert Owed(wal, p, bare.legs, w, c) && w !in bare.proved && Straddles(wal, w, bare.pos);
  }

  /** A run with an orphaning checkpoint gives a finished run that misses a row it owes. */
  lemma UncleanRunLoses(wal: seq<Record>, p: Plan, steps: seq<Step>) returns (losing: seq<Step>)
    requires Log(wal) && PlanOk(p) && !Clean(wal, p, Init(wal, p), steps)
    ensures !CompleteRun(wal, p, losing)
  {
    var upTo := FirstOrphaning(wal, p, Init(wal, p), steps);
    BareOrphaning(wal, p, upTo);
    var bare := Exec(wal, p, Init(wal, p), AllBarren(upTo));
    var w: nat, c: nat :| Owed(wal, p, bare.legs, w, c) && w !in bare.proved && Straddles(wal, w, bare.pos);
    var rest := OrphanFinishesLost(wal, p, bare, w, c);
    losing := AllBarren(upTo) + rest;
    ExecConcat(wal, p, Init(wal, p), AllBarren(upTo), rest);
    MissedRow(wal, p, losing, w, c);
  }

  lemma BareKeepsInv(wal: seq<Record>, p: Plan, s: State)
    requires Inv(wal, p, s)
    ensures Inv(wal, p, s.(landed := {}))
  {
  }

  /** Completeness of the replay on a log, in both directions. */
  lemma CompleteIffNeverOrphans(wal: seq<Record>, p: Plan)
    requires Log(wal) && PlanOk(p)
    ensures Complete(wal, p) <==> NeverOrphans(wal, p)
  {
    if NeverOrphans(wal, p) {
      forall steps: seq<Step>
        ensures CompleteRun(wal, p, steps)
      {
        if Exec(wal, p, Init(wal, p), steps).pos == CoverEnd(p) {
          CleanRunDelivers(wal, p, steps);
          OwedIsDelivered(wal, p, Next(wal, p, Exec(wal, p, Init(wal, p), steps), Finish));
        }
      }
    } else {
      var steps: seq<Step> :| !Clean(wal, p, Init(wal, p), steps);
      var losing := UncleanRunLoses(wal, p, steps);
    }
  }

  lemma OwedIsDelivered(wal: seq<Record>, p: Plan, t: State)
    requires Delivers(wal, p, t)
    ensures forall w: nat, c: nat :: Owed(wal, p, t.legs, w, c) ==> w in t.proved
  {
    forall w: nat, c: nat | Owed(wal, p, t.legs, w, c)
      ensures w in t.proved
    {
      assert SomeCommitOwed(wal, p, t.legs, w);
    }
  }

  /** Logs whose straddling writes are accompanied are complete; the two-record log is not. */
  lemma AccompaniedIsComplete(wal: seq<Record>, p: Plan)
    requires Log(wal) && PlanOk(p) && StraddlersAccompanied(wal, p)
    ensures Complete(wal, p)
  {
    InitInv(wal, p);
    forall steps: seq<Step>
      ensures Clean(wal, p, Init(wal, p), steps)
    {
      AccompaniedRunsClean(wal, p, Init(wal, p), steps);
    }
    CompleteIffNeverOrphans(wal, p);
  }
}
