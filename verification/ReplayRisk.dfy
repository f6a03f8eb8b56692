/**
 Which logs the gap replay can lose a row of, read off the log alone: the resume point a
 checkpoint saves depends only on where the leg started, on the boundary, and on the
 writes open there, so a run amounts to the boundaries it crashed behind.
 */
module ReplayRisk {
  import opened Basics
  import opened GapReplay
  import opened ReplayLeg
  import opened ReplayExact

  // ------------------------------------------------------------------
  // Resume points, from the log
  // ------------------------------------------------------------------

  predicate EndedBy(wal: seq<Record>, i: nat, boundary: nat)
    requires i < |wal|
  {
    exists j :: i < j < |wal| && wal[j].end <= boundary && !wal[j].kind.Write? && wal[i].xid in wal[j].Members()
  }

  /** A write at or past `floor`, complete at the boundary, whose transaction has not ended by then. */
  predicate OpenAt(wal: seq<Record>, floor: nat, boundary: nat, i: nat)
    requires i < |wal|
  {
    wal[i].kind.Write? && floor <= wal[i].start && wal[i].end <= boundary && !EndedBy(wal, i, boundary)
  }

  function FirstOpen(wal: seq<Record>, floor: nat, boundary: nat, i: nat := 0): (o: Option<nat>)
    requires i <= |wal|
    ensures o.Some? ==> i <= o.value < |wal| && OpenAt(wal, floor, boundary, o.value)
    ensures o.Some? ==> forall k :: i <= k < o.value ==> !OpenAt(wal, floor, boundary, k)
    ensures o.None? ==> forall k :: i <= k < |wal| ==> !OpenAt(wal, floor, boundary, k)
    decreases |wal| - i
  {
    if i == |wal| then None
    else if OpenAt(wal, floor, boundary, i) then Some(i)
    else FirstOpen(wal, floor, boundary, i + 1)
  }

  /** Where a leg that started at `from` resumes after a checkpoint at the boundary. */
  function ResumeFrom(wal: seq<Record>, from: nat, boundary: nat): nat {
    match FirstOpen(wal, Floor(from), boundary)
    case None => boundary
    case Some(o) => wal[o].start
  }

  /** Where the replay resumes after crashing behind a checkpoint at each of the boundaries in turn. */
  function Resumed(wal: seq<Record>, p: Plan, trail: seq<nat>): nat
    decreases |trail|
  {
    if trail == [] then p.redo
    else ResumeFrom(wal, Resumed(wal, p, trail[..|trail| - 1]), trail[|trail| - 1])
  }

  /** Each boundary lies past the leg it is reached in. */
  predicate Trail(wal: seq<Record>, p: Plan, trail: seq<nat>)
    decreases |trail|
  {
    || trail == []
    || (var init, last := trail[..|trail| - 1], trail[|trail| - 1];
        && Trail(wal, p, init)
        && last % SEG == 0 && Floor(Resumed(wal, p, init)) < last <= CoverEnd(p))
  }

  /** A row of the gap: written in the cover, committed past redo and through the opt-in. */
  predicate Due(wal: seq<Record>, p: Plan, w: nat, c: nat) {
    && CommittedBy(wal, w, c) && Floor(p.redo) <= wal[w].start
    && p.redo < wal[c].start <= p.through && wal[c].end <= CoverEnd(p)
  }

  /**
   After the trail the next boundary finds nothing open while a due write straddles it,
   and no boundary of the trail came after the write's commit.
   */
  predicate Loses(wal: seq<Record>, p: Plan, trail: seq<nat>, boundary: nat, w: nat, c: nat) {
    && Trail(wal, p, trail + [boundary])
    && FirstOpen(wal, Floor(Resumed(wal, p, trail)), boundary).None?
    && Due(wal, p, w, c) && Straddles(wal, w, boundary)
    && forall b :: b in trail ==> b < wal[c].end
  }

  ghost predicate Risky(wal: seq<Record>, p: Plan) {
    exists trail: seq<nat>, boundary: nat, w: nat, c: nat :: Loses(wal, p, trail, boundary, w, c)
  }

  lemma TrailSnoc(wal: seq<Record>, p: Plan, trail: seq<nat>, b: nat)
    ensures Trail(wal, p, trail + [b]) <==>
              Trail(wal, p, trail) && b % SEG == 0 && Floor(Resumed(wal, p, trail)) < b <= CoverEnd(p)
    ensures Resumed(wal, p, trail + [b]) == ResumeFrom(wal, Resumed(wal, p, trail), b)
  {
    assert (trail + [b])[..|trail|] == trail;
  }

  // ------------------------------------------------------------------
  // A leg at a boundary is what the log says
  // ------------------------------------------------------------------

  lemma DecodedIsEnded(wal: seq<Record>, p: Plan, s: State, i: nat)
    requires Log(wal) && Placed(wal, p, s) && AtBoundary(wal, s) && i < |wal| && Floor(s.from) <= wal[i].start
    ensures i < s.next <==> wal[i].end <= s.pos
  {
  }

  lemma EndedMatches(wal: seq<Record>, p: Plan, s: State, i: nat)
    requires Log(wal) && Placed(wal, p, s) && AtBoundary(wal, s) && i < s.next && Floor(s.from) <= wal[i].start
    ensures EndedWithin(wal, i, s.next) <==> EndedBy(wal, i, s.pos)
  {
    forall j | i < j < |wal|
      ensures j < s.next <==> wal[j].end <= s.pos
    {
      DecodedIsEnded(wal, p, s, j);
    }
  }

  lemma BufferIsOpen(wal: seq<Record>, p: Plan, s: State)
    requires Log(wal) && Steady(wal, p, s) && AtBoundary(wal, s)
    ensures forall i: nat :: i in s.buffer <==> i < |wal| && OpenAt(wal, Floor(s.from), s.pos, i)
  {
    forall i: nat | i < |wal| && Floor(s.from) <= wal[i].start
      ensures i in s.buffer <==> OpenAt(wal, Floor(s.from), s.pos, i)
    {
      DecodedIsEnded(wal, p, s, i);
      if i < s.next {
        EndedMatches(wal, p, s, i);
      }
    }
  }

  lemma ResumeMatches(wal: seq<Record>, p: Plan, s: State)
    requires Log(wal) && Steady(wal, p, s) && Taken(wal, s)
    ensures ResumePoint(wal, s) == ResumeFrom(wal, s.from, s.pos)
    ensures s.buffer == {} <==> FirstOpen(wal, Floor(s.from), s.pos).None?
  {
    BufferIsOpen(wal, p, s);
    var f := FirstOpen(wal, Floor(s.from), s.pos);
    var o := Oldest(s.buffer, 0, s.next);
    if f.Some? {
      assert f.value in s.buffer;
      assert o.Some? && o.value <= f.value;
      assert OpenAt(wal, Floor(s.from), s.pos, o.value);
    } else {
      assert forall i :: i in s.buffer ==> false;
    }
  }

  // ------------------------------------------------------------------
  // From a run to its trail
  // ------------------------------------------------------------------

  /** `done`: the boundaries this leg came by. `kept`: those a crash now would have come by. */
  ghost predicate Tracked(wal: seq<Record>, p: Plan, s: State, done: seq<nat>, kept: seq<nat>) {
    && Trail(wal, p, done) && s.from == Resumed(wal, p, done)
    && Trail(wal, p, kept) && s.saved == Resumed(wal, p, kept)
    && forall w: nat, c: nat, b :: Due(wal, p, w, c) && w !in s.proved && (b in done || b in kept) ==> b < wal[c].end
  }

  lemma DueIsOwed(wal: seq<Record>, p: Plan, s: State, w: nat, c: nat)
    requires Placed(wal, p, s) && Due(wal, p, w, c)
    ensures Owed(wal, p, s.legs, w, c)
  {
    assert p.redo in s.legs && InLeg(wal, w, c, p.redo);
  }

  lemma OwedStraddlerIsDue(wal: seq<Record>, p: Plan, s: State, w: nat, c: nat)
    requires Log(wal) && Steady(wal, p, s) && AtBoundary(wal, s)
    requires Owed(wal, p, s.legs, w, c) && Straddles(wal, w, s.pos)
    ensures Due(wal, p, w, c)
  {
    PastRedo(wal, p, s, w, c);
    var f :| f in s.legs && InLeg(wal, w, c, f);
    assert Floor(p.redo) <= Floor(f);
  }

  /** A due commit decoded by the leg is proved by its checkpoint. */
  lemma CheckpointProves(wal: seq<Record>, p: Plan, s: State, w: nat, c: nat)
    requires Log(wal) && PlanOk(p) && Inv(wal, p, s) && Taken(wal, s) && Due(wal, p, w, c) && wal[c].end <= s.pos
    ensures w in Next(wal, p, s, Checkpoint).proved
  {
    DueIsOwed(wal, p, s, w, c);
    if w !in s.proved {
      assert InLeg(wal, w, c, s.from);
      assert c < s.next;
    }
  }

  /** What is still unproved after the checkpoint commits past it. */
  lemma UnprovedCommitLater(wal: seq<Record>, p: Plan, s: State, w: nat, c: nat)
    requires Log(wal) && PlanOk(p) && Inv(wal, p, s) && Taken(wal, s) && Due(wal, p, w, c)
    requires w !in Next(wal, p, s, Checkpoint).proved
    ensures s.pos < wal[c].end && w !in s.proved
  {
    if wal[c].end <= s.pos {
      CheckpointProves(wal, p, s, w, c);
    }
  }

  lemma TrackedTrail(wal: seq<Record>, p: Plan, s: State, done: seq<nat>)
    requires Log(wal) && Steady(wal, p, s) && Taken(wal, s)
    requires Trail(wal, p, done) && s.from == Resumed(wal, p, done)
    ensures Trail(wal, p, done + [s.pos]) && ResumePoint(wal, s) == Resumed(wal, p, done + [s.pos])
  {
    TrailSnoc(wal, p, done, s.pos);
    ResumeMatches(wal, p, s);
  }

  lemma UnprovedPastAll(wal: seq<Record>, p: Plan, s: State, done: seq<nat>, kept: seq<nat>, w: nat, c: nat, b: nat)
    requires Log(wal) && PlanOk(p) && Inv(wal, p, s) && Taken(wal, s) && Tracked(wal, p, s, done, kept)
    requires Due(wal, p, w, c) && w !in Next(wal, p, s, Checkpoint).proved && b in done + [s.pos]
    ensures b < wal[c].end
  {
    UnprovedCommitLater(wal, p, s, w, c);
    UnprovedNow(wal, p, s, done, kept, w, c);
  }

  lemma TrackedFrom(wal: seq<Record>, p: Plan, t: State, done: seq<nat>, b: nat)
    requires Trail(wal, p, done) && t.from == Resumed(wal, p, done)
    requires Trail(wal, p, done + [b]) && t.saved == Resumed(wal, p, done + [b])
    requires forall w: nat, c: nat, x: nat :: Due(wal, p, w, c) && w !in t.proved && x in done + [b] ==> x < wal[c].end
    ensures Tracked(wal, p, t, done, done + [b])
  {
    assert forall x :: x in done ==> x in done + [b];
  }

  lemma TrackedCheckpoint(wal: seq<Record>, p: Plan, s: State, done: seq<nat>, kept: seq<nat>)
    requires Log(wal) && PlanOk(p) && Inv(wal, p, s) && Steady(wal, p, s) && Taken(wal, s)
    requires Tracked(wal, p, s, done, kept)
    ensures Tracked(wal, p, Next(wal, p, s, Checkpoint), done, done + [s.pos])
  {
    var t := Next(wal, p, s, Checkpoint);
    TrackedTrail(wal, p, s, done);
    forall w: nat, c: nat, b: nat | Due(wal, p, w, c) && w !in t.proved && b in done + [s.pos]
      ensures b < wal[c].end
    {
      UnprovedPastAll(wal, p, s, done, kept, w, c, b);
    }
    TrackedFrom(wal, p, t, done, s.pos);
  }

  lemma TrackedStill(wal: seq<Record>, p: Plan, s: State, t: State, done: seq<nat>, kept: seq<nat>)
    requires Tracked(wal, p, s, done, kept) && s.proved <= t.proved
    ensures t.from == s.from && t.saved == s.saved ==> Tracked(wal, p, t, done, kept)
    ensures t.from == s.saved && t.saved == s.saved ==> Tracked(wal, p, t, kept, kept)
  {
  }

  lemma TrackedNext(wal: seq<Record>, p: Plan, s: State, step: Step, done: seq<nat>, kept: seq<nat>)
    returns (done': seq<nat>, kept': seq<nat>)
    requires Log(wal) && PlanOk(p) && Inv(wal, p, s) && Steady(wal, p, s) && Tracked(wal, p, s, done, kept)
    ensures Tracked(wal, p, Next(wal, p, s, step), done', kept')
  {
    done', kept' := done, kept;
    if step.Checkpoint? && Taken(wal, s) {
      TrackedCheckpoint(wal, p, s, done, kept);
      kept' := done + [s.pos];
    } else {
      TrackedStill(wal, p, s, Next(wal, p, s, step), done, kept);
      if step.Crash? {
        done' := kept;
      }
    }
  }

  lemma {:induction false} TrackedRun(wal: seq<Record>, p: Plan, s: State, steps: seq<Step>, done: seq<nat>,
                                      kept: seq<nat>) returns (done': seq<nat>, kept': seq<nat>)
    requires Log(wal) && PlanOk(p) && Inv(wal, p, s) && Steady(wal, p, s) && Clean(wal, p, s, steps)
    requires Tracked(wal, p, s, done, kept)
    ensures Tracked(wal, p, Exec(wal, p, s, steps), done', kept')
    decreases |steps|
  {
    if steps == [] {
      done', kept' := done, kept;
    } else {
      var d, k := TrackedNext(wal, p, s, steps[0], done, kept);
      NextKeepsInv(wal, p, s, steps[0]);
      NextSteady(wal, p, s, steps[0]);
      done', kept' := TrackedRun(wal, p, Next(wal, p, s, steps[0]), steps[1..], d, k);
    }
  }

  /** A run that orphans a write has a trail that loses it. */
  lemma OrphaningIsRisky(wal: seq<Record>, p: Plan, steps: seq<Step>)
    requires Log(wal) && PlanOk(p) && !Clean(wal, p, Init(wal, p), steps)
    ensures Risky(wal, p)
  {
    var upTo := FirstOrphaning(wal, p, Init(wal, p), steps);
    InitInv(wal, p);
    InitSteady(wal, p);
    ExecKeepsInv(wal, p, Init(wal, p), upTo);
    ExecSteady(wal, p, Init(wal, p), upTo);
    var done, kept := TrackedRun(wal, p, Init(wal, p), upTo, [], []);
    OrphanLoses(wal, p, Exec(wal, p, Init(wal, p), upTo), done, kept);
  }

  lemma IdleAt(wal: seq<Record>, p: Plan, s: State, done: seq<nat>)
    requires Log(wal) && Steady(wal, p, s) && Taken(wal, s) && s.buffer == {}
    requires Trail(wal, p, done) && s.from == Resumed(wal, p, done)
    ensures Trail(wal, p, done + [s.pos]) && FirstOpen(wal, Floor(Resumed(wal, p, done)), s.pos).None?
  {
    TrackedTrail(wal, p, s, done);
    ResumeMatches(wal, p, s);
  }

  lemma UnprovedNow(wal: seq<Record>, p: Plan, s: State, done: seq<nat>, kept: seq<nat>, w: nat, c: nat)
    requires Tracked(wal, p, s, done, kept) && Due(wal, p, w, c) && w !in s.proved
    ensures forall b :: b in done ==> b < wal[c].end
  {
  }

  lemma OrphanLoses(wal: seq<Record>, p: Plan, s: State, done: seq<nat>, kept: seq<nat>)
    requires Log(wal) && PlanOk(p) && Steady(wal, p, s) && Tracked(wal, p, s, done, kept)
    requires Taken(wal, s) && Orphaning(wal, p, s)
    ensures Risky(wal, p)
  {
    IdleAt(wal, p, s, done);
    var w: nat, c: nat :| Owed(wal, p, s.legs, w, c) && w !in s.proved && Straddles(wal, w, s.pos);
    OwedStraddlerIsDue(wal, p, s, w, c);
    UnprovedNow(wal, p, s, done, kept, w, c);
    LosesFrom(wal, p, done, s.pos, w, c);
  }

  lemma LosesFrom(wal: seq<Record>, p: Plan, trail: seq<nat>, boundary: nat, w: nat, c: nat)
    requires Trail(wal, p, trail + [boundary]) && FirstOpen(wal, Floor(Resumed(wal, p, trail)), boundary).None?
    requires Due(wal, p, w, c) && Straddles(wal, w, boundary) && forall b :: b in trail ==> b < wal[c].end
    ensures Risky(wal, p)
  {
    assert Loses(wal, p, trail, boundary, w, c);
  }

  // ------------------------------------------------------------------
  // From a trail to a run
  // ------------------------------------------------------------------

  /** Nothing the leg has decoded ends past `limit`. */
  predicate DecodedTo(wal: seq<Record>, s: State, limit: nat) {
    s.next <= |wal| && (s.next <= FirstAt(wal, Floor(s.from)) || wal[s.next - 1].end <= limit)
  }

  /** Pushed through the leg without a checkpoint. */
  predicate Pushed(wal: seq<Record>, s: State, t: State, boundary: nat) {
    && t.pos == boundary && DecodedTo(wal, t, boundary)
    && t.from == s.from && t.saved == s.saved && t.proved == s.proved
  }

  lemma {:induction false} PushSegment(wal: seq<Record>, p: Plan, s: State) returns (steps: seq<Step>)
    requires s.pos + SEG <= CoverEnd(p) && DecodedTo(wal, s, s.pos + SEG)
    ensures Pushed(wal, s, Exec(wal, p, s, steps), s.pos + SEG)
    decreases |wal| - s.next
  {
    if s.next < |wal| && wal[s.next].end <= s.pos + SEG {
      var rest := PushSegment(wal, p, Next(wal, p, s, Decode));
      steps := [Decode] + rest;
      assert steps[1..] == rest;
    } else {
      steps := [EndSegment];
      assert steps[1..] == [];
    }
  }

  /** A leg pushes on to any boundary of the cover. */
  lemma {:induction false} PushTo(wal: seq<Record>, p: Plan, s: State, boundary: nat) returns (steps: seq<Step>)
    requires s.pos <= boundary <= CoverEnd(p) && boundary % SEG == 0 && s.pos % SEG == 0
    requires DecodedTo(wal, s, s.pos)
    ensures Pushed(wal, s, Exec(wal, p, s, steps), boundary)
    decreases boundary - s.pos
  {
    if s.pos == boundary {
      steps := [];
    } else {
      assert s.pos + SEG <= boundary;
      var one := PushSegment(wal, p, s);
      var rest := PushTo(wal, p, Exec(wal, p, s, one), boundary);
      ExecConcat(wal, p, s, one, rest);
      steps := one + rest;
    }
  }

  /** A shipped row's commit has been decoded by this leg. */
  ghost predicate Honest(wal: seq<Record>, s: State) {
    forall w: nat, c: nat :: w in s.sent && CommittedBy(wal, w, c) ==> c < s.next && Floor(s.from) <= wal[c].start
  }

  lemma HonestDecode(wal: seq<Record>, p: Plan, s: State)
    requires Log(wal) && BufferIs(wal, s) && Honest(wal, s) && s.next < |wal|
    ensures Honest(wal, Decoded(wal, p, s))
  {
    if wal[s.next].kind.Commit? {
      DrainedAre(wal, p, s);
      var drained := OfXids(wal, s.buffer, wal[s.next].Members());
      forall w: nat, c: nat | w in drained && CommittedBy(wal, w, c)
        ensures c == s.next && Floor(s.from) <= wal[c].start
      {
        CommitUnique(wal, w, c, s.next);
      }
    }
  }

  lemma HonestNext(wal: seq<Record>, p: Plan, s: State, step: Step)
    requires Log(wal) && BufferIs(wal, s) && Honest(wal, s)
    ensures Honest(wal, Next(wal, p, s, step))
  {
    if step.Decode? && s.next < |wal| {
      HonestDecode(wal, p, s);
    }
  }

  lemma {:induction false} HonestRun(wal: seq<Record>, p: Plan, s: State, steps: seq<Step>)
    requires Log(wal) && PlanOk(p) && Steady(wal, p, s) && Honest(wal, s)
    ensures Honest(wal, Exec(wal, p, s, steps))
    decreases |steps|
  {
    if steps != [] {
      HonestNext(wal, p, s, steps[0]);
      NextSteady(wal, p, s, steps[0]);
      HonestRun(wal, p, Next(wal, p, s, steps[0]), steps[1..]);
    }
  }

  /** Whatever is proved committed at or below some boundary of the trail. */
  ghost predicate ProvedWithin(wal: seq<Record>, proved: set<nat>, trail: seq<nat>) {
    forall w: nat, c: nat :: w in proved && CommittedBy(wal, w, c) ==> exists b :: b in trail && wal[c].end <= b
  }

  /** A leg that has just started. */
  predicate Fresh(wal: seq<Record>, s: State) { s.pos == Floor(s.from) && s.next == FirstAt(wal, Floor(s.from)) }

  /** Checkpoint at the boundary, and a crash. */
  lemma CrashBehind(wal: seq<Record>, p: Plan, s: State, trail: seq<nat>)
    requires Log(wal) && PlanOk(p) && Steady(wal, p, s) && Honest(wal, s)
    requires Trail(wal, p, trail) && s.from == Resumed(wal, p, trail)
    requires Floor(s.from) < s.pos && DecodedTo(wal, s, s.pos) && ProvedWithin(wal, s.proved, trail)
    ensures var t := Next(wal, p, Next(wal, p, s, Checkpoint), Crash({}));
            && Fresh(wal, t) && t.from == Resumed(wal, p, trail + [s.pos])
            && ProvedWithin(wal, t.proved, trail + [s.pos])
  {
    assert Taken(wal, s);
    TrackedTrail(wal, p, s, trail);
    var t := Next(wal, p, Next(wal, p, s, Checkpoint), Crash({}));
    forall w: nat, c: nat | w in t.proved && CommittedBy(wal, w, c)
      ensures exists b :: b in trail + [s.pos] && wal[c].end <= b
    {
      if w in s.proved {
        var b :| b in trail && wal[c].end <= b;
        assert b in trail + [s.pos];
      } else {
        DecodedIsEnded(wal, p, s, c);
        assert s.pos in trail + [s.pos];
      }
    }
  }

  /** Every trail is the trail of a run. */
  lemma {:induction false} RunOfTrail(wal: seq<Record>, p: Plan, trail: seq<nat>) returns (steps: seq<Step>)
    requires Log(wal) && PlanOk(p) && Trail(wal, p, trail)
    ensures var t := Exec(wal, p, Init(wal, p), steps);
            Fresh(wal, t) && t.from == Resumed(wal, p, trail) && ProvedWithin(wal, t.proved, trail)
    decreases |trail|
  {
    if trail == [] {
      steps := [];
    } else {
      var init, last := trail[..|trail| - 1], trail[|trail| - 1];
      assert trail == init + [last];
      var before := RunOfTrail(wal, p, init);
      var leg := ReachBoundary(wal, p, before, last);
      var upTo := before + leg;
      ExecConcat(wal, p, Init(wal, p), before, leg);
      var s := Exec(wal, p, Init(wal, p), upTo);
      CrashBehind(wal, p, s, init);
      ExecConcat(wal, p, Init(wal, p), upTo, [Checkpoint, Crash({})]);
      steps := upTo + [Checkpoint, Crash({})];
      assert [Checkpoint, Crash({})][1..] == [Crash({})];
    }
  }

  /** From a fresh leg on to the boundary. */
  lemma ReachBoundary(wal: seq<Record>, p: Plan, before: seq<Step>, boundary: nat) returns (leg: seq<Step>)
    requires Log(wal) && PlanOk(p) && Fresh(wal, Exec(wal, p, Init(wal, p), before))
    requires var s := Exec(wal, p, Init(wal, p), before);
             Floor(s.from) < boundary <= CoverEnd(p) && boundary % SEG == 0
    ensures var s := Exec(wal, p, Init(wal, p), before);
            var t := Exec(wal, p, s, leg);
            Pushed(wal, s, t, boundary) && Steady(wal, p, t) && Honest(wal, t)
  {
    var s := Exec(wal, p, Init(wal, p), before);
    InitSteady(wal, p);
    ExecSteady(wal, p, Init(wal, p), before);
    HonestRun(wal, p, Init(wal, p), before);
    leg := PushTo(wal, p, s, boundary);
    ExecSteady(wal, p, s, leg);
    HonestRun(wal, p, s, leg);
  }

  lemma {:induction false} CleanSplits(wal: seq<Record>, p: Plan, s: State, a: seq<Step>, b: seq<Step>)
    requires Clean(wal, p, s, a + b)
    ensures Clean(wal, p, Exec(wal, p, s, a), b)
    decreases |a|
  {
    if a == [] {
      assert a + b == b;
    } else {
      assert (a + b)[1..] == a[1..] + b;
      CleanSplits(wal, p, Next(wal, p, s, a[0]), a[1..], b);
    }
  }

  /** At the boundary the trail leads to, the write is orphaned. */
  lemma LosesOrphans(wal: seq<Record>, p: Plan, s: State, trail: seq<nat>, boundary: nat, w: nat, c: nat)
    requires Log(wal) && Steady(wal, p, s) && Loses(wal, p, trail, boundary, w, c)
    requires s.from == Resumed(wal, p, trail) && s.pos == boundary && DecodedTo(wal, s, boundary)
    requires Floor(s.from) < boundary && ProvedWithin(wal, s.proved, trail)
    ensures Taken(wal, s) && Orphaning(wal, p, s)
  {
    assert Taken(wal, s);
    ResumeMatches(wal, p, s);
    DueIsOwed(wal, p, s, w, c);
    assert w !in s.proved;
  }

  lemma TrailOrphans(wal: seq<Record>, p: Plan, trail: seq<nat>, boundary: nat, w: nat, c: nat) returns (steps: seq<Step>)
    requires Log(wal) && PlanOk(p) && Loses(wal, p, trail, boundary, w, c)
    ensures !Clean(wal, p, Init(wal, p), steps)
  {
    TrailSnoc(wal, p, trail, boundary);
    var before := RunOfTrail(wal, p, trail);
    var leg := ReachBoundary(wal, p, before, boundary);
    var upTo := before + leg;
    ExecConcat(wal, p, Init(wal, p), before, leg);
    var s := Exec(wal, p, Init(wal, p), upTo);
    LosesOrphans(wal, p, s, trail, boundary, w, c);
    steps := upTo + [Checkpoint];
    if Clean(wal, p, Init(wal, p), steps) {
      CleanSplits(wal, p, Init(wal, p), upTo, [Checkpoint]);
    }
  }

  // ------------------------------------------------------------------
  // Exactly the logs a replay can lose a row of
  // ------------------------------------------------------------------

  lemma RiskyIffOrphans(wal: seq<Record>, p: Plan)
    requires Log(wal) && PlanOk(p)
    ensures NeverOrphans(wal, p) <==> !Risky(wal, p)
  {
    if Risky(wal, p) {
      var trail: seq<nat>, boundary: nat, w: nat, c: nat :| Loses(wal, p, trail, boundary, w, c);
      var steps := TrailOrphans(wal, p, trail, boundary, w, c);
    } else {
      forall steps: seq<Step>
        ensures Clean(wal, p, Init(wal, p), steps)
      {
        if !Clean(wal, p, Init(wal, p), steps) {
          OrphaningIsRisky(wal, p, steps);
        }
      }
    }
  }

  /** The replay of a log is complete, over all crashes and checkpoints, if and only if the log holds no such trail. */
  lemma CompleteIffNoRisk(wal: seq<Record>, p: Plan)
    requires Log(wal) && PlanOk(p)
    ensures Complete(wal, p) <==> !Risky(wal, p)
  {
    CompleteIffNeverOrphans(wal, p);
    RiskyIffOrphans(wal, p);
  }

  /** In particular a log is without risk when its straddling writes are accompanied. */
  lemma AccompaniedIsSafe(wal: seq<Record>, p: Plan)
    requires Log(wal) && PlanOk(p) && StraddlersAccompanied(wal, p)
    ensures !Risky(wal, p)
  {
    AccompaniedIsComplete(wal, p);
    CompleteIffNoRisk(wal, p);
  }

  /** And at risk when some due write straddles the first boundary with nothing complete before it. */
  lemma FirstSegmentRisk(wal: seq<Record>, p: Plan, w: nat, c: nat)
    requires Log(wal) && PlanOk(p) && Due(wal, p, w, c)
    requires var b := Floor(p.redo) + SEG; b <= CoverEnd(p) && Straddles(wal, w, b)
    requires forall i :: 0 <= i < w ==> wal[i].start < Floor(p.redo)
    ensures Risky(wal, p)
  {
    var b := Floor(p.redo) + SEG;
    TrailSnoc(wal, p, [], b);
    forall i: nat | i < |wal|
      ensures !OpenAt(wal, Floor(p.redo), b, i)
    {
    }
    assert Loses(wal, p, [], b, w, c);
  }

  const DETOUR: seq<Record> := [
    Record(200, 300, 1, Write), Record(2 * SEG - 50, 2 * SEG + 5, 2, Write),
    Record(2 * SEG + 10, 2 * SEG + 20, 1, Commit({})), Record(3 * SEG + 10, 3 * SEG + 20, 2, Commit({}))]
  const DETOUR_PLAN: Plan := Plan(100, 3 * SEG + 1000, 3 * SEG + 1000)

  /** In the first leg something is open at each of the first three boundaries. */
  lemma DetourIsBusy()
    ensures ResumeFrom(DETOUR, 100, SEG) == 200 && ResumeFrom(DETOUR, 100, 2 * SEG) == 200
    ensures ResumeFrom(DETOUR, 100, 3 * SEG) == 2 * SEG - 50
  {
    assert Floor(100) == 0;
    assert OpenAt(DETOUR, 0, SEG, 0) && OpenAt(DETOUR, 0, 2 * SEG, 0);
    assert EndedBy(DETOUR, 0, 3 * SEG) by {
      assert DETOUR[2].end <= 3 * SEG && DETOUR[0].xid in DETOUR[2].Members();
    }
    assert !OpenAt(DETOUR, 0, 3 * SEG, 0) && OpenAt(DETOUR, 0, 3 * SEG, 1);
    assert FirstOpen(DETOUR, 0, 3 * SEG) == FirstOpen(DETOUR, 0, 3 * SEG, 1) == Some(1);
  }

  lemma DetourTrail()
    ensures Trail(DETOUR, DETOUR_PLAN, [3 * SEG] + [2 * SEG])
    ensures Resumed(DETOUR, DETOUR_PLAN, [3 * SEG]) == 2 * SEG - 50
  {
    DetourIsBusy();
    assert CoverEnd(DETOUR_PLAN) == 4 * SEG && Floor(100) == 0 && Floor(2 * SEG - 50) == SEG;
    TrailSnoc(DETOUR, DETOUR_PLAN, [], 3 * SEG);
    assert [] + [3 * SEG] == [3 * SEG];
    TrailSnoc(DETOUR, DETOUR_PLAN, [3 * SEG], 2 * SEG);
  }

  lemma DetourIdles()
    ensures FirstOpen(DETOUR, SEG, 2 * SEG).None?
  {
    forall i | 0 <= i < |DETOUR|
      ensures !OpenAt(DETOUR, SEG, 2 * SEG, i)
    {
    }
  }

  lemma DetourIsDue()
    ensures Log(DETOUR) && PlanOk(DETOUR_PLAN)
    ensures Due(DETOUR, DETOUR_PLAN, 1, 3) && Straddles(DETOUR, 1, 2 * SEG)
  {
    assert CoverEnd(DETOUR_PLAN) == 4 * SEG && Floor(100) == 0;
    assert DETOUR[1].xid in DETOUR[3].Members();
  }

  /**
   Yet the log is at risk: resuming behind the third boundary leaves the first write out of
   the next leg, which finds the second boundary idle with a due write across it.
   */
  lemma DetourLoses()
    ensures Log(DETOUR) && PlanOk(DETOUR_PLAN) && Loses(DETOUR, DETOUR_PLAN, [3 * SEG], 2 * SEG, 1, 3)
  {
    DetourTrail();
    DetourIdles();
    DetourIsDue();
    assert Floor(2 * SEG - 50) == SEG;
  }
}
