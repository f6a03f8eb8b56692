/**
 Replay of archived WAL between a backup and the opt-in boundary, with crashes.
 Segments are pushed in order through a transaction buffer; at some segment
 boundaries the leg proves its inserts and saves a resume point; a crash drops the
 buffer and starts over at the saved point, skipping the continuation of a record
 whose start it no longer sees.
 */
module GapReplay {
  import opened Basics
  import Segments

  const SEG := Segments.SEG

  /** Commit and abort records list the subtransactions they end. */
  datatype Kind = Write | Commit(subs: set<nat>) | Abort(subs: set<nat>)

  /** One heap or transaction record of the replayed relations, `[start, end)` in the log. */
  datatype Record = Record(start: nat, end: nat, xid: nat, kind: Kind) {
    function Members(): set<nat> {
      {xid} + (if kind.Write? then {} else kind.subs)
    }
  }

  /** `redo`: backup redo. `through`: the relation's opt-in LSN. `sMax`: the pass's highest opt-in. */
  datatype Plan = Plan(redo: nat, through: nat, sMax: nat)

  function Floor(lsn: nat): (f: nat)
    ensures f <= lsn < f + SEG && f % SEG == 0
  {
    lsn - lsn % SEG
  }

  function CoverEnd(p: Plan): nat { Floor(p.sMax) + SEG }

  predicate PlanOk(p: Plan) { p.redo < p.sMax && p.through <= p.sMax }

  predicate Log(wal: seq<Record>) {
    && (forall i :: 0 <= i < |wal| ==> wal[i].start < wal[i].end)
    && (forall i, j :: 0 <= i < j < |wal| ==> wal[i].end <= wal[j].start)
    && (forall i, j :: 0 <= i < j < |wal| && !wal[i].kind.Write? ==> wal[i].Members() !! wal[j].Members())
  }

  /** Record `c` commits the transaction that wrote record `w`. */
  predicate CommittedBy(wal: seq<Record>, w: nat, c: nat) {
    w < c < |wal| && wal[w].kind.Write? && wal[c].kind.Commit? && wal[w].xid in wal[c].Members()
  }

  // ------------------------------------------------------------------
  // The leg
  // ------------------------------------------------------------------

  /**
   `from`: resume point this leg started at. `pos`: end of the last pushed segment.
   `next`: next record to decode. `buffer`, `sent`: undecided writes, and writes shipped
   but not proven. `proved`, `landed`: rows behind a checkpoint, and rows a crash left behind.
   `saved`: persisted resume point. `legs`: every resume point used so far.
   */
  datatype State = State(from: nat, pos: nat, next: nat, buffer: set<nat>, sent: set<nat>,
                         proved: set<nat>, landed: set<nat>, saved: nat, legs: set<nat>)

  datatype Step = Decode | EndSegment | Checkpoint | Crash(survivors: set<nat>) | Finish

  /** First record starting at or after `lsn`; an earlier record's continuation is skipped. */
  function FirstAt(wal: seq<Record>, lsn: nat, i: nat := 0): (n: nat)
    requires i <= |wal|
    ensures i <= n <= |wal|
    ensures forall k :: i <= k < n ==> wal[k].start < lsn
    ensures n < |wal| ==> lsn <= wal[n].start
    decreases |wal| - i
  {
    if i == |wal| || lsn <= wal[i].start then i else FirstAt(wal, lsn, i + 1)
  }

  /** Segments already wholly below the resume point are dropped, so a leg starts on its segment. */
  function Start(wal: seq<Record>, from: nat, proved: set<nat>, landed: set<nat>, legs: set<nat>): State {
    State(from, Floor(from), FirstAt(wal, Floor(from)), {}, {}, proved, landed, from, legs + {from})
  }

  function Init(wal: seq<Record>, p: Plan): State {
    Start(wal, p.redo, {}, {}, {})
  }

  function OfXids(wal: seq<Record>, b: set<nat>, xids: set<nat>): set<nat> {
    set i | i in b && i < |wal| && wal[i].xid in xids
  }

  /** Buffer a write; drain it on commit, shipping only commits past the leg's start and through the target. */
  function Decoded(wal: seq<Record>, p: Plan, s: State): State
    requires s.next < |wal|
  {
    var r := wal[s.next];
    match r.kind
    case Write => s.(buffer := s.buffer + {s.next}, next := s.next + 1)
    case Abort(_) => s.(buffer := s.buffer - OfXids(wal, s.buffer, r.Members()), next := s.next + 1)
    case Commit(_) =>
      var drained := OfXids(wal, s.buffer, r.Members());
      s.(buffer := s.buffer - drained,
         sent := if s.from < r.start <= p.through then s.sent + drained else s.sent,
         next := s.next + 1)
  }

  /** Lowest buffered record. */
  function Oldest(buffer: set<nat>, i: nat, n: nat): (o: Option<nat>)
    requires i <= n && forall k :: k in buffer ==> k < n
    ensures o.Some? ==> i <= o.value < n && o.value in buffer && forall k :: k in buffer && i <= k ==> o.value <= k
    ensures o.None? ==> forall k :: k in buffer ==> k < i
    decreases n - i
  {
    if i == n then None
    else if i in buffer then Some(i)
    else Oldest(buffer, i + 1, n)
  }

  /** A segment has just been pushed and nothing past its end has been decoded. */
  predicate AtBoundary(wal: seq<Record>, s: State) {
    && Floor(s.from) < s.pos && s.next <= |wal|
    && (s.next <= FirstAt(wal, Floor(s.from)) || wal[s.next - 1].end <= s.pos)
  }

  function ResumePoint(wal: seq<Record>, s: State): nat
    requires s.next <= |wal| && forall k :: k in s.buffer ==> k < s.next
  {
    match Oldest(s.buffer, 0, s.next)
    case None => s.pos
    case Some(o) => if wal[o].start < s.pos then wal[o].start else s.pos
  }

  predicate BufferBehind(wal: seq<Record>, s: State) {
    s.next <= |wal| && forall k :: k in s.buffer ==> k < s.next
  }

  function Next(wal: seq<Record>, p: Plan, s: State, step: Step): State {
    match step
    case Decode =>
      if s.pos + SEG <= CoverEnd(p) && s.next < |wal| && wal[s.next].end <= s.pos + SEG then Decoded(wal, p, s) else s
    case EndSegment =>
      if s.pos + SEG <= CoverEnd(p) && (s.next < |wal| ==> s.pos + SEG < wal[s.next].end) then s.(pos := s.pos + SEG)
      else s
    case Checkpoint =>
      if AtBoundary(wal, s) && BufferBehind(wal, s)
      then s.(proved := s.proved + s.sent, sent := {}, saved := ResumePoint(wal, s)) else s
    case Crash(survivors) =>
      Start(wal, s.saved, s.proved, s.landed + (survivors * s.sent), s.legs)
    case Finish =>
      if s.pos == CoverEnd(p) then s.(proved := s.proved + s.sent, sent := {}) else s
  }

  function Exec(wal: seq<Record>, p: Plan, s: State, steps: seq<Step>): State
    decreases |steps|
  {
    if steps == [] then s else Exec(wal, p, Next(wal, p, s, steps[0]), steps[1..])
  }

  // ------------------------------------------------------------------
  // What a run owes
  // ------------------------------------------------------------------

  /** Some leg decoded the write and did not filter its commit out. */
  predicate InLeg(wal: seq<Record>, w: nat, c: nat, from: nat)
    requires CommittedBy(wal, w, c)
  {
    Floor(from) <= wal[w].start && from < wal[c].start
  }

  ghost predicate Owed(wal: seq<Record>, p: Plan, legs: set<nat>, w: nat, c: nat) {
    && CommittedBy(wal, w, c)
    && wal[c].start <= p.through && wal[c].end <= CoverEnd(p)
    && exists f :: f in legs && InLeg(wal, w, c, f)
  }

  ghost predicate Placed(wal: seq<Record>, p: Plan, s: State) {
    && s.from in s.legs && p.redo in s.legs
    && Floor(p.redo) <= Floor(s.from) <= s.pos <= CoverEnd(p) && s.pos % SEG == 0
    && Floor(p.redo) <= s.saved <= CoverEnd(p)
    && FirstAt(wal, Floor(s.from)) <= s.next <= |wal|
    && (forall i :: s.next <= i < |wal| ==> s.pos < wal[i].end)
    && (forall w :: w in s.sent ==> w < s.next)
  }

  predicate EndedWithin(wal: seq<Record>, i: nat, n: nat)
    requires i < n <= |wal|
  {
    exists j :: i < j < n && !wal[j].kind.Write? && wal[i].xid in wal[j].Members()
  }

  ghost predicate BufferIs(wal: seq<Record>, s: State) {
    && s.next <= |wal|
    && forall i :: i in s.buffer <==>
         0 <= i < s.next && wal[i].kind.Write? && Floor(s.from) <= wal[i].start && !EndedWithin(wal, i, s.next)
  }

  /** Every commit decoded by this leg has been shipped whole. */
  ghost predicate Shipped(wal: seq<Record>, p: Plan, s: State) {
    forall w: nat, c: nat :: Owed(wal, p, s.legs, w, c) && c < s.next && InLeg(wal, w, c, s.from)
      ==> w in s.sent || w in s.proved
  }

  ghost predicate SomeCommitOwed(wal: seq<Record>, p: Plan, legs: set<nat>, w: nat) {
    exists c: nat :: Owed(wal, p, legs, w, c)
  }

  ghost predicate AllOwed(wal: seq<Record>, p: Plan, legs: set<nat>, rows: set<nat>) {
    forall w: nat :: w in rows ==> SomeCommitOwed(wal, p, legs, w)
  }

  ghost predicate OnlyOwed(wal: seq<Record>, p: Plan, s: State) {
    AllOwed(wal, p, s.legs, s.sent) && AllOwed(wal, p, s.legs, s.proved) && AllOwed(wal, p, s.legs, s.landed)
  }

  /** Every owed write is proven or will be decoded again from `point`. */
  ghost predicate Covered(wal: seq<Record>, p: Plan, s: State, point: nat) {
    forall w: nat, c: nat :: Owed(wal, p, s.legs, w, c) ==> w in s.proved || InLeg(wal, w, c, point)
  }

  /** Checkpoints prove a transaction's later writes with its earlier ones. */
  ghost predicate Whole(wal: seq<Record>, s: State) {
    && (forall v: nat, w: nat, c: nat :: v < w && CommittedBy(wal, v, c) && CommittedBy(wal, w, c) && v in s.proved ==>
        w in s.proved)
    && (forall v: nat, w: nat, c: nat :: v < w && CommittedBy(wal, v, c) && CommittedBy(wal, w, c) && v in s.sent
                          ==> w in s.sent || w in s.proved)
  }

  ghost predicate Inv(wal: seq<Record>, p: Plan, s: State) {
    && Placed(wal, p, s)
    && BufferIs(wal, s)
    && Shipped(wal, p, s)
    && OnlyOwed(wal, p, s)
    && Covered(wal, p, s, s.from)
    && Covered(wal, p, s, s.saved)
    && Whole(wal, s)
  }

  lemma InitInv(wal: seq<Record>, p: Plan)
    requires Log(wal) && PlanOk(p)
    ensures Inv(wal, p, Init(wal, p))
  {
    StartKeepsInv(wal, p, p.redo, {}, {}, {});
  }

  lemma OwedGrows(wal: seq<Record>, p: Plan, legs: set<nat>, from: nat, w: nat, c: nat)
    ensures Owed(wal, p, legs, w, c) ==> Owed(wal, p, legs + {from}, w, c)
    ensures Owed(wal, p, legs + {from}, w, c) ==> Owed(wal, p, legs, w, c) || InLeg(wal, w, c, from)
  {
    if Owed(wal, p, legs, w, c) {
      var f :| f in legs && InLeg(wal, w, c, f);
      assert f in legs + {from};
    }
  }

  lemma AllOwedGrows(wal: seq<Record>, p: Plan, legs: set<nat>, from: nat, rows: set<nat>)
    requires AllOwed(wal, p, legs, rows)
    ensures AllOwed(wal, p, legs + {from}, rows)
  {
    forall w: nat | w in rows
      ensures SomeCommitOwed(wal, p, legs + {from}, w)
    {
      assert SomeCommitOwed(wal, p, legs, w);
      var c: nat :| Owed(wal, p, legs, w, c);
      OwedGrows(wal, p, legs, from, w, c);
    }
  }

  lemma StartPlaced(wal: seq<Record>, p: Plan, from: nat, proved: set<nat>, landed: set<nat>, legs: set<nat>)
    requires Log(wal) && PlanOk(p) && Floor(p.redo) <= from <= CoverEnd(p) && p.redo in legs + {from}
    ensures var t := Start(wal, from, proved, landed, legs);
            Placed(wal, p, t) && BufferIs(wal, t) && Shipped(wal, p, t)
  {
    var t := Start(wal, from, proved, landed, legs);
    forall w: nat, c: nat | Owed(wal, p, t.legs, w, c) && c < t.next
      ensures !InLeg(wal, w, c, from)
    {
    }
  }

  lemma StartKeepsInv(wal: seq<Record>, p: Plan, from: nat, proved: set<nat>, landed: set<nat>, legs: set<nat>)
    requires Log(wal) && PlanOk(p) && Floor(p.redo) <= from <= CoverEnd(p) && p.redo in legs + {from}
    requires forall w: nat, c: nat :: Owed(wal, p, legs, w, c) ==> w in proved || InLeg(wal, w, c, from)
    requires AllOwed(wal, p, legs, proved) && AllOwed(wal, p, legs, landed)
    requires forall v: nat, w: nat, c: nat ::
               v < w && CommittedBy(wal, v, c) && CommittedBy(wal, w, c) && v in proved ==> w in proved
    ensures Inv(wal, p, Start(wal, from, proved, landed, legs))
  {
    StartPlaced(wal, p, from, proved, landed, legs);
    AllOwedGrows(wal, p, legs, from, proved);
    AllOwedGrows(wal, p, legs, from, landed);
    forall w: nat, c: nat | Owed(wal, p, legs + {from}, w, c)
      ensures w in proved || InLeg(wal, w, c, from)
    {
      OwedGrows(wal, p, legs, from, w, c);
    }
    assert Covered(wal, p, Start(wal, from, proved, landed, legs), from);
  }

  lemma CrashKeepsInv(wal: seq<Record>, p: Plan, s: State, survivors: set<nat>)
    requires Log(wal) && PlanOk(p) && Inv(wal, p, s)
    ensures Inv(wal, p, Next(wal, p, s, Crash(survivors)))
  {
    StartKeepsInv(wal, p, s.saved, s.proved, s.landed + (survivors * s.sent), s.legs);
  }

  lemma EndSegmentKeepsInv(wal: seq<Record>, p: Plan, s: State)
    requires Log(wal) && PlanOk(p) && Inv(wal, p, s)
    ensures Inv(wal, p, Next(wal, p, s, EndSegment))
  {
    forall i | s.next <= i < |wal|
      ensures wal[s.next].end <= wal[i].end
    {
    }
  }

  lemma FinishKeepsInv(wal: seq<Record>, p: Plan, s: State)
    requires Log(wal) && PlanOk(p) && Inv(wal, p, s)
    ensures Inv(wal, p, Next(wal, p, s, Finish))
  {
  }

  // ------------------------------------------------------------------
  // Decoding
  // ------------------------------------------------------------------

  lemma DecodePlaced(wal: seq<Record>, p: Plan, s: State)
    requires Log(wal) && Placed(wal, p, s) && BufferIs(wal, s) && s.next < |wal|
    ensures Placed(wal, p, Decoded(wal, p, s))
  {
  }

  lemma EndedExtends(wal: seq<Record>, i: nat, n: nat)
    requires i < n < |wal|
    ensures EndedWithin(wal, i, n + 1) <==>
            EndedWithin(wal, i, n) || (!wal[n].kind.Write? && wal[i].xid in wal[n].Members())
  {
    if EndedWithin(wal, i, n) {
      var j :| i < j < n && !wal[j].kind.Write? && wal[i].xid in wal[j].Members();
      assert i < j < n + 1;
    }
  }

  lemma DecodeBuffers(wal: seq<Record>, p: Plan, s: State)
    requires Log(wal) && Placed(wal, p, s) && BufferIs(wal, s) && s.next < |wal|
    ensures BufferIs(wal, Decoded(wal, p, s))
  {
    var t := Decoded(wal, p, s);
    forall i | 0 <= i < s.next
      ensures EndedWithin(wal, i, t.next) <==>
              EndedWithin(wal, i, s.next) || (!wal[s.next].kind.Write? && wal[i].xid in wal[s.next].Members())
    {
      EndedExtends(wal, i, s.next);
    }
    assert !EndedWithin(wal, s.next, t.next);
    assert Floor(s.from) <= wal[s.next].start;
  }

  /** The drained writes are exactly the transaction's writes this leg decoded. */
  lemma DrainedAre(wal: seq<Record>, p: Plan, s: State)
    requires Log(wal) && BufferIs(wal, s) && s.next < |wal| && wal[s.next].kind.Commit?
    ensures forall w: nat :: w in OfXids(wal, s.buffer, wal[s.next].Members()) <==>
                             CommittedBy(wal, w, s.next) && Floor(s.from) <= wal[w].start
  {
    forall w: nat | CommittedBy(wal, w, s.next)
      ensures !EndedWithin(wal, w, s.next)
    {
    }
  }

  lemma CommitIsOwed(wal: seq<Record>, p: Plan, s: State)
    requires Log(wal) && BufferIs(wal, s) && s.from in s.legs && s.next < |wal| && wal[s.next].kind.Commit?
    requires wal[s.next].end <= CoverEnd(p) && s.from < wal[s.next].start <= p.through
    ensures forall w: nat :: w in OfXids(wal, s.buffer, wal[s.next].Members()) ==> Owed(wal, p, s.legs, w, s.next)
  {
    DrainedAre(wal, p, s);
    forall w: nat | w in OfXids(wal, s.buffer, wal[s.next].Members())
      ensures Owed(wal, p, s.legs, w, s.next)
    {
      assert s.from in s.legs && InLeg(wal, w, s.next, s.from);
    }
  }

  lemma CommitUnique(wal: seq<Record>, w: nat, c: nat, d: nat)
    requires Log(wal) && CommittedBy(wal, w, c) && CommittedBy(wal, w, d)
    ensures c == d
  {
  }

  lemma CommitStaysWhole(wal: seq<Record>, p: Plan, s: State)
    requires Log(wal) && Inv(wal, p, s) && s.next < |wal| && wal[s.next].kind.Commit?
    ensures Whole(wal, Decoded(wal, p, s))
  {
    var t := Decoded(wal, p, s);
    DrainedAre(wal, p, s);
    forall v: nat, w: nat, c: nat | v < w && CommittedBy(wal, v, c) && CommittedBy(wal, w, c) && v in t.sent
        && v !in s.sent
      ensures w in t.sent
    {
      CommitUnique(wal, v, c, s.next);
    }
  }

  lemma CommitShips(wal: seq<Record>, p: Plan, s: State)
    requires Log(wal) && Inv(wal, p, s) && s.next < |wal| && wal[s.next].kind.Commit?
    requires wal[s.next].end <= CoverEnd(p)
    ensures var t := Decoded(wal, p, s); Shipped(wal, p, t) && OnlyOwed(wal, p, t)
  {
    DrainedAre(wal, p, s);
    if s.from < wal[s.next].start <= p.through {
      CommitIsOwed(wal, p, s);
    }
  }

  lemma NonCommitShips(wal: seq<Record>, p: Plan, s: State)
    requires Log(wal) && Inv(wal, p, s) && s.next < |wal| && !wal[s.next].kind.Commit?
    ensures var t := Decoded(wal, p, s);
            Shipped(wal, p, t) && OnlyOwed(wal, p, t) && Whole(wal, t)
  {
    var t := Decoded(wal, p, s);
    assert t.sent == s.sent && t.proved == s.proved && t.landed == s.landed && t.legs == s.legs;
  }

  lemma DecodeKeepsInv(wal: seq<Record>, p: Plan, s: State)
    requires Log(wal) && PlanOk(p) && Inv(wal, p, s)
    ensures Inv(wal, p, Next(wal, p, s, Decode))
  {
    if s.pos + SEG <= CoverEnd(p) && s.next < |wal| && wal[s.next].end <= s.pos + SEG {
      DecodePlaced(wal, p, s);
      DecodeBuffers(wal, p, s);
      if wal[s.next].kind.Commit? {
        CommitShips(wal, p, s);
        CommitStaysWhole(wal, p, s);
      } else {
        NonCommitShips(wal, p, s);
      }
      DecodeKeepsCover(wal, p, s);
    }
  }

  lemma DecodeKeepsCover(wal: seq<Record>, p: Plan, s: State)
    requires Inv(wal, p, s) && s.next < |wal|
    ensures var t := Decoded(wal, p, s); Covered(wal, p, t, t.from) && Covered(wal, p, t, t.saved)
  {
  }

  // ------------------------------------------------------------------
  // Checkpoints
  // ------------------------------------------------------------------

  /** Record `w` begins before the boundary and ends past it. */
  predicate Straddles(wal: seq<Record>, w: nat, boundary: nat)
    requires w < |wal|
  {
    wal[w].start < boundary < wal[w].end
  }

  /**
   Nothing is buffered, so the resume point is the boundary itself, and an owed write
   begins before it.
   */
  ghost predicate Orphaning(wal: seq<Record>, p: Plan, s: State) {
    && s.buffer == {}
    && exists w: nat, c: nat :: Owed(wal, p, s.legs, w, c) && w !in s.proved && Straddles(wal, w, s.pos)
  }

  ghost predicate Taken(wal: seq<Record>, s: State) { AtBoundary(wal, s) && BufferBehind(wal, s) }

  lemma UnprovenAhead(wal: seq<Record>, p: Plan, s: State, w: nat, c: nat)
    requires Log(wal) && Inv(wal, p, s) && Taken(wal, s)
    requires Owed(wal, p, s.legs, w, c) && w !in s.proved && w !in s.sent
    ensures c >= s.next && InLeg(wal, w, c, s.from)
    ensures w < s.next ==> w in s.buffer
  {
    assert w < s.next ==> !EndedWithin(wal, w, s.next);
  }

  lemma CheckpointCovers(wal: seq<Record>, p: Plan, s: State, w: nat, c: nat)
    requires Log(wal) && Inv(wal, p, s) && Taken(wal, s)
    requires Owed(wal, p, s.legs, w, c) && w !in s.proved && w !in s.sent
    ensures InLeg(wal, w, c, ResumePoint(wal, s)) <==> !(s.buffer == {} && Straddles(wal, w, s.pos))
  {
    UnprovenAhead(wal, p, s, w, c);
    var point := ResumePoint(wal, s);
    assert wal[w].start < wal[c].start;
    if w < s.next {
      assert point <= wal[w].start by {
        var o := Oldest(s.buffer, 0, s.next).value;
        assert o <= w;
      }
    } else if s.pos <= wal[w].start {
      assert point <= s.pos;
    } else if s.buffer == {} {
      assert point == s.pos;
    } else {
      var b :| b in s.buffer;
      assert Oldest(s.buffer, 0, s.next).Some?;
      var o := Oldest(s.buffer, 0, s.next).value;
      assert wal[o].end <= wal[w].start;
    }
  }

  lemma CheckpointKeepsInv(wal: seq<Record>, p: Plan, s: State)
    requires Log(wal) && PlanOk(p) && Inv(wal, p, s) && Taken(wal, s) && !Orphaning(wal, p, s)
    ensures Inv(wal, p, Next(wal, p, s, Checkpoint))
  {
    var t := Next(wal, p, s, Checkpoint);
    forall w: nat, c: nat | Owed(wal, p, s.legs, w, c) && w !in t.proved
      ensures InLeg(wal, w, c, t.saved)
    {
      CheckpointCovers(wal, p, s, w, c);
    }
    assert Covered(wal, p, t, t.saved);
    assert AllOwed(wal, p, t.legs, t.proved);
    assert Whole(wal, t);
  }

  lemma OrphaningLoses(wal: seq<Record>, p: Plan, s: State, w: nat, c: nat)
    requires Log(wal) && Inv(wal, p, s) && Taken(wal, s) && s.buffer == {}
    requires Owed(wal, p, s.legs, w, c) && w !in s.proved && Straddles(wal, w, s.pos)
    ensures var t := Next(wal, p, s, Checkpoint);
            Owed(wal, p, t.legs, w, c) && w !in t.proved && !InLeg(wal, w, c, t.saved)
  {
    StraddlerUnsent(wal, p, s, w, c);
    CheckpointCovers(wal, p, s, w, c);
  }

  /** A checkpoint keeps every owed row recoverable exactly when it does not orphan one. */
  lemma CheckpointSafeIff(wal: seq<Record>, p: Plan, s: State)
    requires Log(wal) && PlanOk(p) && Inv(wal, p, s) && Taken(wal, s)
    ensures Inv(wal, p, Next(wal, p, s, Checkpoint)) <==> !Orphaning(wal, p, s)
  {
    if Orphaning(wal, p, s) {
      var w: nat, c: nat :| Owed(wal, p, s.legs, w, c) && w !in s.proved && Straddles(wal, w, s.pos);
      OrphaningLoses(wal, p, s, w, c);
    } else {
      CheckpointKeepsInv(wal, p, s);
    }
  }

  lemma StraddlerUnsent(wal: seq<Record>, p: Plan, s: State, w: nat, c: nat)
    requires Log(wal) && Inv(wal, p, s) && AtBoundary(wal, s)
    requires Owed(wal, p, s.legs, w, c) && w !in s.proved && Straddles(wal, w, s.pos)
    ensures w >= s.next && w !in s.sent
  {
    assert InLeg(wal, w, c, s.from);
  }

  // ------------------------------------------------------------------
  // Runs
  // ------------------------------------------------------------------

  /** No checkpoint of the run orphans a write. */
  ghost predicate Clean(wal: seq<Record>, p: Plan, s: State, steps: seq<Step>)
    decreases |steps|
  {
    steps == []
    || (&& (steps[0].Checkpoint? && Taken(wal, s) ==> !Orphaning(wal, p, s))
        && Clean(wal, p, Next(wal, p, s, steps[0]), steps[1..]))
  }

  lemma NextKeepsInv(wal: seq<Record>, p: Plan, s: State, step: Step)
    requires Log(wal) && PlanOk(p) && Inv(wal, p, s)
    requires step.Checkpoint? && Taken(wal, s) ==> !Orphaning(wal, p, s)
    ensures Inv(wal, p, Next(wal, p, s, step))
  {
    match step
    case Decode => DecodeKeepsInv(wal, p, s);
    case EndSegment => EndSegmentKeepsInv(wal, p, s);
    case Checkpoint => if Taken(wal, s) { CheckpointKeepsInv(wal, p, s); }
    case Crash(survivors) => CrashKeepsInv(wal, p, s, survivors);
    case Finish => FinishKeepsInv(wal, p, s);
  }

  lemma {:induction false} ExecKeepsInv(wal: seq<Record>, p: Plan, s: State, steps: seq<Step>)
    requires Log(wal) && PlanOk(p) && Inv(wal, p, s) && Clean(wal, p, s, steps)
    ensures Inv(wal, p, Exec(wal, p, s, steps))
    decreases |steps|
  {
    if steps != [] {
      NextKeepsInv(wal, p, s, steps[0]);
      ExecKeepsInv(wal, p, Next(wal, p, s, steps[0]), steps[1..]);
    }
  }

  /** Rows the destination holds for good once a run has pushed the whole cover and finished. */
  ghost predicate Delivers(wal: seq<Record>, p: Plan, t: State) {
    forall w: nat :: w in t.proved <==> SomeCommitOwed(wal, p, t.legs, w)
  }

  /**
   Every run that reaches the end of the cover, whatever its crashes and checkpoints,
   has delivered exactly the rows its legs owe, provided no checkpoint orphaned one.
   */
  lemma CleanRunDelivers(wal: seq<Record>, p: Plan, steps: seq<Step>)
    requires Log(wal) && PlanOk(p) && Clean(wal, p, Init(wal, p), steps)
    requires Exec(wal, p, Init(wal, p), steps).pos == CoverEnd(p)
    ensures var t := Next(wal, p, Exec(wal, p, Init(wal, p), steps), Finish);
            Inv(wal, p, t) && Delivers(wal, p, t)
  {
    InitInv(wal, p);
    ExecKeepsInv(wal, p, Init(wal, p), steps);
    var s := Exec(wal, p, Init(wal, p), steps);
    FinishKeepsInv(wal, p, s);
    var t := Next(wal, p, s, Finish);
    forall w: nat, c: nat | Owed(wal, p, t.legs, w, c)
      ensures w in t.proved
    {
      assert w in s.proved || InLeg(wal, w, c, s.from);
      assert c < s.next;
    }
  }

  lemma {:induction false} LegsGrow(wal: seq<Record>, p: Plan, s: State, steps: seq<Step>)
    ensures s.legs <= Exec(wal, p, s, steps).legs
    decreases |steps|
  {
    if steps != [] {
      LegsGrow(wal, p, Next(wal, p, s, steps[0]), steps[1..]);
    }
  }

  /** In particular every row of the gap: committed past redo and through the opt-in, written in the cover. */
  lemma GapDelivered(wal: seq<Record>, p: Plan, steps: seq<Step>, w: nat, c: nat)
    requires Log(wal) && PlanOk(p) && Clean(wal, p, Init(wal, p), steps)
    requires Exec(wal, p, Init(wal, p), steps).pos == CoverEnd(p)
    requires CommittedBy(wal, w, c) && Floor(p.redo) <= wal[w].start
    requires p.redo < wal[c].start <= p.through && wal[c].end <= CoverEnd(p)
    ensures w in Next(wal, p, Exec(wal, p, Init(wal, p), steps), Finish).proved
  {
    CleanRunDelivers(wal, p, steps);
    LegsGrow(wal, p, Init(wal, p), steps);
    var t := Next(wal, p, Exec(wal, p, Init(wal, p), steps), Finish);
    assert p.redo in t.legs && InLeg(wal, w, c, p.redo);
    assert Owed(wal, p, t.legs, w, c);
  }

  /** Delivery is closed upward: a later committed write of any transaction ending no earlier is delivered too. */
  lemma DeliveredUpward(wal: seq<Record>, p: Plan, t: State, v: nat, b: nat, w: nat, c: nat)
    requires Log(wal) && Delivers(wal, p, t) && v in t.proved
    requires CommittedBy(wal, v, b) && CommittedBy(wal, w, c) && v < w && b <= c
    requires wal[c].start <= p.through && wal[c].end <= CoverEnd(p)
    ensures w in t.proved
  {
    var d: nat :| Owed(wal, p, t.legs, v, d);
    CommitUnique(wal, v, b, d);
    var f :| f in t.legs && InLeg(wal, v, b, f);
    assert InLeg(wal, w, c, f);
    assert Owed(wal, p, t.legs, w, c);
  }

  // ------------------------------------------------------------------
  // When every run is clean, and what an orphaning one loses
  // ------------------------------------------------------------------

  /**
   Every write of the gap that straddles a segment boundary has an earlier write of
   its transaction inside the cover.
   */
  ghost predicate StraddlersAccompanied(wal: seq<Record>, p: Plan) {
    forall w: nat, c: nat, boundary: nat ::
      CommittedBy(wal, w, c) && p.redo < wal[c].start <= p.through && boundary % SEG == 0 && Straddles(wal, w, boundary)
      ==> exists v: nat :: v < w && CommittedBy(wal, v, c) && Floor(p.redo) <= wal[v].start
  }

  lemma PastRedo(wal: seq<Record>, p: Plan, s: State, w: nat, c: nat)
    requires Log(wal) && Placed(wal, p, s) && AtBoundary(wal, s)
    requires CommittedBy(wal, w, c) && Straddles(wal, w, s.pos)
    ensures p.redo < wal[c].start
  {
    assert p.redo < s.pos;
  }

  lemma CompanionBuffered(wal: seq<Record>, p: Plan, s: State, v: nat, w: nat, c: nat)
    requires Log(wal) && PlanOk(p) && Inv(wal, p, s) && Taken(wal, s)
    requires Owed(wal, p, s.legs, w, c) && w !in s.proved && Straddles(wal, w, s.pos)
    requires v < w && CommittedBy(wal, v, c) && Floor(p.redo) <= wal[v].start
    ensures v in s.buffer
  {
    PastRedo(wal, p, s, w, c);
    assert InLeg(wal, v, c, p.redo) && Owed(wal, p, s.legs, v, c);
    StraddlerUnsent(wal, p, s, w, c);
    UnprovenAhead(wal, p, s, v, c);
  }

  lemma AccompaniedNeverOrphans(wal: seq<Record>, p: Plan, s: State)
    requires Log(wal) && PlanOk(p) && Inv(wal, p, s) && Taken(wal, s) && StraddlersAccompanied(wal, p)
    ensures !Orphaning(wal, p, s)
  {
    forall w: nat, c: nat | Owed(wal, p, s.legs, w, c) && w !in s.proved && Straddles(wal, w, s.pos)
      ensures s.buffer != {}
    {
      PastRedo(wal, p, s, w, c);
      assert exists v: nat :: v < w && CommittedBy(wal, v, c) && Floor(p.redo) <= wal[v].start;
      var v: nat :| v < w && CommittedBy(wal, v, c) && Floor(p.redo) <= wal[v].start;
      CompanionBuffered(wal, p, s, v, w, c);
    }
  }

  /** On such a log no run orphans anything: every finished run delivers what it owes. */
  lemma {:induction false} AccompaniedRunsClean(wal: seq<Record>, p: Plan, s: State, steps: seq<Step>)
    requires Log(wal) && PlanOk(p) && Inv(wal, p, s) && StraddlersAccompanied(wal, p)
    ensures Clean(wal, p, s, steps)
    decreases |steps|
  {
    if steps != [] {
      if steps[0].Checkpoint? && Taken(wal, s) {
        AccompaniedNeverOrphans(wal, p, s);
      }
      NextKeepsInv(wal, p, s, steps[0]);
      AccompaniedRunsClean(wal, p, Next(wal, p, s, steps[0]), steps[1..]);
    }
  }

  /** Write `w` lies below every resume point the run can still use. */
  ghost predicate Beyond(wal: seq<Record>, s: State, w: nat, boundary: nat) {
    && w < |wal| && wal[w].start < boundary && boundary % SEG == 0
    && boundary <= Floor(s.from) && boundary <= s.saved && Floor(s.from) <= s.pos
    && w !in s.proved && w !in s.sent
    && (forall i :: i in s.buffer ==> i < |wal| && Floor(s.from) <= wal[i].start)
    && FirstAt(wal, Floor(s.from)) <= s.next
  }

  lemma BoundaryBelowFloor(boundary: nat, lsn: nat)
    requires boundary % SEG == 0 && boundary <= lsn
    ensures boundary <= Floor(lsn)
  {
  }

  lemma BeyondDecode(wal: seq<Record>, p: Plan, s: State, w: nat, boundary: nat)
    requires Log(wal) && Beyond(wal, s, w, boundary) && s.next < |wal|
    ensures Beyond(wal, Decoded(wal, p, s), w, boundary)
  {
    assert Floor(s.from) <= wal[s.next].start;
  }

  lemma BeyondNext(wal: seq<Record>, p: Plan, s: State, step: Step, w: nat, boundary: nat)
    requires Log(wal) && Beyond(wal, s, w, boundary)
    ensures Beyond(wal, Next(wal, p, s, step), w, boundary)
    ensures w in Next(wal, p, s, step).landed ==> w in s.landed
  {
    match step
    case Decode => if s.next < |wal| { BeyondDecode(wal, p, s, w, boundary); }
    case EndSegment =>
    case Checkpoint =>
    case Crash(survivors) => BoundaryBelowFloor(boundary, s.saved);
    case Finish =>
  }

  lemma {:induction false} NeverDeliveredAgain(wal: seq<Record>, p: Plan, s: State, steps: seq<Step>, w: nat,
      boundary: nat)
    requires Log(wal) && Beyond(wal, s, w, boundary)
    ensures var t := Exec(wal, p, s, steps);
            w !in t.proved && w !in t.sent && (w in t.landed ==> w in s.landed)
    decreases |steps|
  {
    if steps != [] {
      BeyondNext(wal, p, s, steps[0], w, boundary);
      NeverDeliveredAgain(wal, p, Next(wal, p, s, steps[0]), steps[1..], w, boundary);
    }
  }

  /**
   An orphaning checkpoint followed by a crash loses the row for good: no continuation
   of the run, however long, ever ships it.
   */
  lemma OrphanIsLostForever(wal: seq<Record>, p: Plan, s: State, survivors: set<nat>, steps: seq<Step>, w: nat, c: nat)
    requires Log(wal) && PlanOk(p) && Inv(wal, p, s) && Taken(wal, s) && s.buffer == {}
    requires Owed(wal, p, s.legs, w, c) && w !in s.proved && w !in s.landed && Straddles(wal, w, s.pos)
    ensures var crashed := Next(wal, p, Next(wal, p, s, Checkpoint), Crash(survivors));
            var t := Exec(wal, p, crashed, steps);
            w !in t.proved && w !in t.sent && w !in t.landed
  {
    StraddlerUnsent(wal, p, s, w, c);
    var k := Next(wal, p, s, Checkpoint);
    assert k.saved == s.pos && Floor(s.pos) == s.pos;
    var crashed := Next(wal, p, k, Crash(survivors));
    NeverDeliveredAgain(wal, p, crashed, steps, w, s.pos);
  }

  // ------------------------------------------------------------------
  // What every run keeps, orphaning or not
  // ------------------------------------------------------------------

  /** Legs lie in the plan, the buffer is what the leg has open, and only owed rows are ever shipped. */
  ghost predicate Steady(wal: seq<Record>, p: Plan, s: State) {
    && Placed(wal, p, s) && BufferIs(wal, s) && OnlyOwed(wal, p, s)
    && forall f :: f in s.legs ==> Floor(p.redo) <= Floor(f)
  }

  lemma InitSteady(wal: seq<Record>, p: Plan)
    requires Log(wal) && PlanOk(p)
    ensures Steady(wal, p, Init(wal, p))
  {
    InitInv(wal, p);
  }

  lemma DecodeSteady(wal: seq<Record>, p: Plan, s: State)
    requires Log(wal) && PlanOk(p) && Steady(wal, p, s)
    ensures Steady(wal, p, Next(wal, p, s, Decode))
  {
    if s.pos + SEG <= CoverEnd(p) && s.next < |wal| && wal[s.next].end <= s.pos + SEG {
      DecodePlaced(wal, p, s);
      DecodeBuffers(wal, p, s);
      if wal[s.next].kind.Commit? && s.from < wal[s.next].start <= p.through {
        CommitIsOwed(wal, p, s);
      }
    }
  }

  lemma CheckpointSteady(wal: seq<Record>, p: Plan, s: State)
    requires Log(wal) && PlanOk(p) && Steady(wal, p, s)
    ensures Steady(wal, p, Next(wal, p, s, Checkpoint))
  {
    if AtBoundary(wal, s) && BufferBehind(wal, s) {
      var o := Oldest(s.buffer, 0, s.next);
      if o.Some? {
        assert Floor(s.from) <= wal[o.value].start;
      }
    }
  }

  lemma CrashSteady(wal: seq<Record>, p: Plan, s: State, survivors: set<nat>)
    requires Log(wal) && PlanOk(p) && Steady(wal, p, s)
    ensures Steady(wal, p, Next(wal, p, s, Crash(survivors)))
  {
    StartPlaced(wal, p, s.saved, s.proved, s.landed + (survivors * s.sent), s.legs);
    AllOwedGrows(wal, p, s.legs, s.saved, s.proved);
    AllOwedGrows(wal, p, s.legs, s.saved, s.landed + (survivors * s.sent));
    BoundaryBelowFloor(Floor(p.redo), s.saved);
  }

  lemma EndSegmentSteady(wal: seq<Record>, p: Plan, s: State)
    requires Log(wal) && PlanOk(p) && Steady(wal, p, s)
    ensures Steady(wal, p, Next(wal, p, s, EndSegment))
  {
    forall i | s.next <= i < |wal|
      ensures wal[s.next].end <= wal[i].end
    {
    }
  }

  lemma FinishSteady(wal: seq<Record>, p: Plan, s: State)
    requires Steady(wal, p, s)
    ensures Steady(wal, p, Next(wal, p, s, Finish))
  {
  }

  lemma NextSteady(wal: seq<Record>, p: Plan, s: State, step: Step)
    requires Log(wal) && PlanOk(p) && Steady(wal, p, s)
    ensures Steady(wal, p, Next(wal, p, s, step))
  {
    match step
    case Decode => DecodeSteady(wal, p, s);
    case EndSegment => EndSegmentSteady(wal, p, s);
    case Checkpoint => CheckpointSteady(wal, p, s);
    case Crash(survivors) => CrashSteady(wal, p, s, survivors);
    case Finish => FinishSteady(wal, p, s);
  }

  lemma {:induction false} ExecSteady(wal: seq<Record>, p: Plan, s: State, steps: seq<Step>)
    requires Log(wal) && PlanOk(p) && Steady(wal, p, s)
    ensures Steady(wal, p, Exec(wal, p, s, steps))
    decreases |steps|
  {
    if steps != [] {
      NextSteady(wal, p, s, steps[0]);
      ExecSteady(wal, p, Next(wal, p, s, steps[0]), steps[1..]);
    }
  }

  /** A commit at or below the opt-in whose record runs past the last fetched segment is replayed by no run. */
  lemma TailCommitNeverReplayed(wal: seq<Record>, p: Plan, steps: seq<Step>, w: nat, c: nat)
    requires Log(wal) && PlanOk(p)
    requires CommittedBy(wal, w, c) && CoverEnd(p) < wal[c].end
    ensures var t := Exec(wal, p, Init(wal, p), steps); w !in t.sent + t.proved + t.landed
  {
    InitSteady(wal, p);
    ExecSteady(wal, p, Init(wal, p), steps);
    var t := Exec(wal, p, Init(wal, p), steps);
    forall d: nat | Owed(wal, p, t.legs, w, d)
      ensures d == c
    {
      CommitUnique(wal, w, c, d);
    }
    assert !SomeCommitOwed(wal, p, t.legs, w);
  }

  const TAIL: seq<Record> := [Record(200, 300, 7, Write), Record(2 * SEG - 10, 2 * SEG + 10, 7, Commit({}))]
  const TAIL_PLAN: Plan := Plan(100, 2 * SEG - 5, 2 * SEG - 5)

  lemma TailIsInTheGap()
    ensures Log(TAIL) && PlanOk(TAIL_PLAN) && CommittedBy(TAIL, 0, 1) && CoverEnd(TAIL_PLAN) == 2 * SEG
    ensures TAIL_PLAN.redo < TAIL[1].start <= TAIL_PLAN.through && Floor(TAIL_PLAN.redo) <= TAIL[0].start
  {
    assert Floor(2 * SEG - 5) == SEG && Floor(100) == 0;
    assert TAIL[0].xid in TAIL[1].Members();
  }

  /** A gap commit across the end of the cover: a run without a crash finishes, and no run ever has the row. */
  lemma TailRowMissing(steps: seq<Step>)
    ensures Exec(TAIL, TAIL_PLAN, Init(TAIL, TAIL_PLAN), [Decode, EndSegment, EndSegment]).pos == CoverEnd(TAIL_PLAN)
    ensures var t := Exec(TAIL, TAIL_PLAN, Init(TAIL, TAIL_PLAN), steps); 0 !in t.sent + t.proved + t.landed
  {
    var wal, p := TAIL, TAIL_PLAN;
    TailIsInTheGap();
    TailCommitNeverReplayed(wal, p, steps, 0, 1);
    assert Floor(100) == 0 && FirstAt(wal, 0) == 0;
    var a := Next(wal, p, Init(wal, p), Decode);
    assert a.next == 1 && a.pos == 0;
    var b := Next(wal, p, a, EndSegment);
    assert b.pos == SEG && b.next == 1;
    var run := [Decode, EndSegment, EndSegment];
    assert run[1..] == [EndSegment, EndSegment] && run[1..][1..] == [EndSegment];
    assert Exec(wal, p, Init(wal, p), run) == Exec(wal, p, b, [EndSegment]) == Next(wal, p, b, EndSegment);
  }

  const STRADDLE: seq<Record> := [Record(SEG - 100, SEG + 100, 7, Write), Record(SEG + 200, SEG + 300, 7, Commit({}))]
  const STRADDLE_PLAN: Plan := Plan(100, SEG + 5000, SEG + 5000)

  /** Up to the crash: the boundary is saved as the resume point although the write began before it. */
  lemma StraddleSavesBoundary()
    ensures var b := Next(STRADDLE, STRADDLE_PLAN, Init(STRADDLE, STRADDLE_PLAN), EndSegment);
            Next(STRADDLE, STRADDLE_PLAN, Next(STRADDLE, STRADDLE_PLAN, b, Checkpoint), Crash({}))
            == State(SEG, SEG, 1, {}, {}, {}, {}, SEG, {100, SEG})
  {
    var wal, p := STRADDLE, STRADDLE_PLAN;
    assert CoverEnd(p) == 2 * SEG && Floor(100) == 0 && Floor(SEG) == SEG;
    var b := Next(wal, p, Init(wal, p), EndSegment);
    assert b == State(100, SEG, 0, {}, {}, {}, {}, 100, {100});
    var c := Next(wal, p, b, Checkpoint);
    assert c.saved == SEG && c.proved == {} && c.sent == {};
    assert FirstAt(wal, SEG) == FirstAt(wal, SEG, 1) == 1;
  }

  /** One write across a segment boundary, a checkpoint there, a crash: the finished run misses the row. */
  lemma StraddledRowLost()
    ensures Log(STRADDLE) && PlanOk(STRADDLE_PLAN) && CommittedBy(STRADDLE, 0, 1)
    ensures STRADDLE_PLAN.redo < STRADDLE[1].start <= STRADDLE_PLAN.through
    ensures var t := Exec(STRADDLE, STRADDLE_PLAN, Init(STRADDLE, STRADDLE_PLAN),
              [EndSegment, Checkpoint, Crash({}), Decode, EndSegment, Finish]);
            t.pos == CoverEnd(STRADDLE_PLAN) && 0 !in t.proved + t.landed
  {
    var wal, p := STRADDLE, STRADDLE_PLAN;
    var steps := [EndSegment, Checkpoint, Crash({}), Decode, EndSegment, Finish];
    var d := State(SEG, SEG, 1, {}, {}, {}, {}, SEG, {100, SEG});
    StraddleSavesBoundary();
    assert steps[1..][1..][1..] == steps[3..];
    assert Exec(wal, p, Init(wal, p), steps) == Exec(wal, p, d, steps[3..]);
    assert CoverEnd(p) == 2 * SEG;
    var e := Next(wal, p, d, Decode);
    assert e.next == 2 && e.proved == {} && e.landed == {} && e.sent == {} && e.pos == SEG;
    var f := Next(wal, p, e, EndSegment);
    assert f.pos == CoverEnd(p);
    assert steps[3..] == [Decode, EndSegment, Finish] && steps[3..][1..] == [EndSegment, Finish]
             && steps[3..][1..][1..] == [Finish];
    assert Exec(wal, p, d, steps[3..]) == Exec(wal, p, f, [Finish]) == Next(wal, p, f, Finish);
  }
}
