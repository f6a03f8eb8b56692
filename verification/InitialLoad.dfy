/**
 An object-store initial load end to end: the page walk and the live stream of
 FuzzyBackup, with the gap delivered by whatever run of GapReplay actually happened.
 */
module InitialLoad {
  import F = FuzzyBackup
  import G = GapReplay
  import E = ReplayExact
  import R = ReplayRisk

  /** `at` lists the log records behind the key's history. */
  ghost predicate KeyOf(wal: seq<G.Record>, ops: seq<F.Op>, at: seq<nat>) {
    && |at| == |ops|
    && (forall i, j :: 0 <= i < j < |at| ==> at[i] < at[j])
    && (forall i :: 0 <= i < |at| ==> at[i] < |wal| && wal[at[i]].kind.Write? && wal[at[i]].start == ops[i].rec)
    && (forall i :: 0 <= i < |at| && ops[i].fate.Committed? ==>
        exists c: nat :: CommitsAt(wal, at[i], c, ops[i].fate.lsn))
    && (forall i, c: nat :: 0 <= i < |at| && G.CommittedBy(wal, at[i], c) ==> ops[i].fate.Committed?)
  }

  predicate CommitsAt(wal: seq<G.Record>, w: nat, c: nat, lsn: nat) {
    G.CommittedBy(wal, w, c) && wal[c].start == lsn
  }

  /** The live stream past the opt-in and the rows the gap replay proved. */
  function Arrived(ops: seq<F.Op>, at: seq<nat>, proved: set<nat>, s: nat): (a: seq<bool>)
    requires |at| == |ops|
    ensures |a| == |ops|
    ensures forall i :: 0 <= i < |ops| ==>
              a[i] == (ops[i].fate.Committed? && (ops[i].fate.lsn > s || at[i] in proved))
  {
    seq(|ops|, i requires 0 <= i < |ops| => ops[i].fate.Committed? && (ops[i].fate.lsn > s || at[i] in proved))
  }

  /** Commits the replay must show end within the fetched segments. */
  predicate CommitsWithinCover(wal: seq<G.Record>, p: G.Plan) {
    forall c :: 0 <= c < |wal| && wal[c].kind.Commit? && wal[c].start <= p.through ==> wal[c].end <= G.CoverEnd(p)
  }

  predicate Matches(l: F.Load, p: G.Plan) {
    l.mode.ObjectStore? && l.redo == p.redo && l.s == p.through && l.from == G.Floor(p.redo)
  }

  lemma LaterArrives(wal: seq<G.Record>, p: G.Plan, t: G.State, ops: seq<F.Op>, at: seq<nat>, i: nat, j: nat)
    requires G.Log(wal) && G.Delivers(wal, p, t) && CommitsWithinCover(wal, p)
    requires F.History(ops) && KeyOf(wal, ops, at) && i < j < |ops|
    requires ops[i].fate.Committed? && ops[j].fate.Committed? && ops[j].fate.lsn <= p.through
    requires at[i] in t.proved
    ensures at[j] in t.proved
  {
    var b: nat :| CommitsAt(wal, at[i], b, ops[i].fate.lsn);
    var c: nat :| CommitsAt(wal, at[j], c, ops[j].fate.lsn);
    assert F.Pair(ops[i], ops[j]);
    assert wal[b].start <= wal[c].start;
    assert b <= c;
    G.DeliveredUpward(wal, p, t, at[i], b, at[j], c);
  }

  lemma GapArrives(wal: seq<G.Record>, p: G.Plan, t: G.State, ops: seq<F.Op>, at: seq<nat>, i: nat)
    requires G.Log(wal) && G.Delivers(wal, p, t) && p.redo in t.legs && CommitsWithinCover(wal, p)
    requires KeyOf(wal, ops, at) && i < |ops| && ops[i].fate.Committed?
    requires p.redo < ops[i].fate.lsn <= p.through && G.Floor(p.redo) <= ops[i].rec
    ensures at[i] in t.proved
  {
    var c: nat :| CommitsAt(wal, at[i], c, ops[i].fate.lsn);
    assert G.InLeg(wal, at[i], c, p.redo);
    assert G.Owed(wal, p, t.legs, at[i], c);
    assert G.SomeCommitOwed(wal, p, t.legs, at[i]);
  }

  lemma ReplayFeedsLoad(wal: seq<G.Record>, p: G.Plan, t: G.State, l: F.Load, ops: seq<F.Op>, at: seq<nat>)
    requires G.Log(wal) && G.Delivers(wal, p, t) && p.redo in t.legs && CommitsWithinCover(wal, p)
    requires Matches(l, p) && F.History(ops) && KeyOf(wal, ops, at)
    ensures F.DeliveryOk(l, ops, Arrived(ops, at, t.proved, l.s))
  {
    var a := Arrived(ops, at, t.proved, l.s);
    forall i | 0 <= i < |ops| && F.MustDeliver(l, ops[i])
      ensures a[i]
    {
      if ops[i].fate.lsn <= l.s {
        GapArrives(wal, p, t, ops, at, i);
      }
    }
    forall i, j | 0 <= i < j < |ops| && a[i] && ops[j].fate.Committed?
      ensures a[j]
    {
      assert F.Pair(ops[i], ops[j]);
      if ops[j].fate.lsn <= l.s {
        LaterArrives(wal, p, t, ops, at, i, j);
      }
    }
  }

  /**
   Whatever crashes and resumes the gap replay went through, the finished load shows
   the source's committed row of the key, if and only if no undecided delete withholds it.
   */
  lemma ResumedLoadConverges(wal: seq<G.Record>, p: G.Plan, steps: seq<G.Step>,
                             l: F.Load, ops: seq<F.Op>, at: seq<nat>, pages: seq<F.Read>)
    requires G.Log(wal) && G.PlanOk(p) && CommitsWithinCover(wal, p)
    requires G.Clean(wal, p, G.Init(wal, p), steps)
    requires G.Exec(wal, p, G.Init(wal, p), steps).pos == G.CoverEnd(p)
    requires Matches(l, p) && F.History(ops) && KeyOf(wal, ops, at) && F.ReadsOk(l, ops, pages)
    ensures var t := G.Next(wal, p, G.Exec(wal, p, G.Init(wal, p), steps), G.Finish);
            var arrived := Arrived(ops, at, t.proved, l.s);
            (forall s :: F.Settles(l, ops, arrived, pages, s) <==> F.SourceState(ops, s))
            <==> !F.Stuck(l, ops, arrived, pages)
  {
    var t := G.Next(wal, p, G.Exec(wal, p, G.Init(wal, p), steps), G.Finish);
    G.CleanRunDelivers(wal, p, steps);
    ReplayFeedsLoad(wal, p, t, l, ops, at);
    F.LoadConverges(l, ops, Arrived(ops, at, t.proved, l.s), pages);
  }

  /** On a log no trail of checkpoints can lose a row of, that holds of every run. */
  lemma AnyRunConverges(wal: seq<G.Record>, p: G.Plan, steps: seq<G.Step>,
                        l: F.Load, ops: seq<F.Op>, at: seq<nat>, pages: seq<F.Read>)
    requires G.Log(wal) && G.PlanOk(p) && CommitsWithinCover(wal, p) && !R.Risky(wal, p)
    requires G.Exec(wal, p, G.Init(wal, p), steps).pos == G.CoverEnd(p)
    requires Matches(l, p) && F.History(ops) && KeyOf(wal, ops, at) && F.ReadsOk(l, ops, pages)
    requires forall i :: 0 <= i < |ops| ==> !ops[i].fate.Running?
    ensures var t := G.Next(wal, p, G.Exec(wal, p, G.Init(wal, p), steps), G.Finish);
            forall s :: F.Settles(l, ops, Arrived(ops, at, t.proved, l.s), pages, s) <==> F.SourceState(ops, s)
  {
    R.RiskyIffOrphans(wal, p);
    assert E.NeverOrphans(wal, p);
    ResumedLoadConverges(wal, p, steps, l, ops, at, pages);
  }
}
