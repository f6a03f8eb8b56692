/**
 The initial load to its end: walk, gap replay and live stream fill the staging table and the
 destination, publication swaps them under crashes and lost replies, and the destination
 then shows the source's committed row of every key.
 */
module PublishedLoad {
  import opened Basics
  import F = FuzzyBackup
  import G = GapReplay
  import L = InitialLoad
  import R = ReplayRisk
  import S = Staging

  /** What a destination row says: its key, its place among rows of equal version, and the row or its deletion. */
  datatype Content = Content(key: nat, order: nat, write: Option<F.Row>)

  predicate Says(r: S.Row, content: nat -> Content, key: nat, d: F.DestRow) {
    content(r.id).key == key && d == F.DestRow(r.lsn, content(r.id).order, content(r.id).write)
  }

  predicate Held(rows: set<S.Row>, content: nat -> Content, key: nat, d: F.DestRow) {
    exists r :: r in rows && Says(r, content, key, d)
  }

  ghost predicate Top(rows: set<S.Row>, content: nat -> Content, key: nat, d: F.DestRow) {
    && Held(rows, content, key, d)
    && forall e :: Held(rows, content, key, e) ==> e.lsn < d.lsn || (e.lsn == d.lsn && e.order <= d.order)
  }

  /** A value the table may show for the key: the highest version, the later insert among equals. */
  ghost predicate Shown(rows: set<S.Row>, content: nat -> Content, key: nat, state: Option<F.Row>) {
    || (state.None? && forall d :: !Held(rows, content, key, d))
    || (exists d :: Top(rows, content, key, d) && state == d.write)
  }

  /** The key's rows, as the load shipped them: up to the opt-in into staging, past it by the live stream. */
  ghost predicate Fed(l: F.Load, ops: seq<F.Op>, arrived: seq<bool>, pages: seq<F.Read>, t: S.State,
                      content: nat -> Content, key: nat)
    requires |pages| == |ops| == |arrived|
  {
    && (forall d :: Held(t.load, content, key, d) <==> F.IsDestRow(l, ops, arrived, pages, d) && d.lsn <= l.s)
    && (forall d :: Held(t.acked, content, key, d) <==> F.IsDestRow(l, ops, arrived, pages, d) && d.lsn > l.s)
  }

  lemma HeldInEither(a: set<S.Row>, b: set<S.Row>, content: nat -> Content, key: nat, d: F.DestRow)
    ensures Held(a + b, content, key, d) <==> Held(a, content, key, d) || Held(b, content, key, d)
  {
    if Held(a, content, key, d) {
      var r :| r in a && Says(r, content, key, d);
      assert r in a + b;
    }
    if Held(b, content, key, d) {
      var r :| r in b && Says(r, content, key, d);
      assert r in a + b;
    }
  }

  /** The published table settles the key as the load does. */
  lemma ShownAsSettled(l: F.Load, ops: seq<F.Op>, arrived: seq<bool>, pages: seq<F.Read>, t: S.State,
                       content: nat -> Content, key: nat, state: Option<F.Row>)
    requires |pages| == |ops| == |arrived| && Fed(l, ops, arrived, pages, t, content, key)
    requires t.dest.rows == t.load + t.acked
    ensures Shown(t.dest.rows, content, key, state) <==> F.Settles(l, ops, arrived, pages, state)
  {
    forall d
      ensures Held(t.dest.rows, content, key, d) <==> F.IsDestRow(l, ops, arrived, pages, d)
    {
      HeldInEither(t.load, t.acked, content, key, d);
    }
    assert forall d :: Top(t.dest.rows, content, key, d) <==> F.Highest(l, ops, arrived, pages, d);
  }

  /**
   After a publication of harmless steps that the ledger calls done, whatever crashed, was
   lost or was resumed on the way, the destination shows the source's committed row of the
   key, if and only if no undecided delete withholds it.
   */
  lemma PublishedLoadConverges(wal: seq<G.Record>, p: G.Plan, replay: seq<G.Step>, l: F.Load, ops: seq<F.Op>,
                               at: seq<nat>, pages: seq<F.Read>, dest: S.Table, steps: seq<S.Step>,
                               content: nat -> Content, key: nat)
    requires G.Log(wal) && G.PlanOk(p) && L.CommitsWithinCover(wal, p) && G.Clean(wal, p, G.Init(wal, p), replay)
    requires G.Exec(wal, p, G.Init(wal, p), replay).pos == G.CoverEnd(p)
    requires L.Matches(l, p) && F.History(ops) && L.KeyOf(wal, ops, at) && F.ReadsOk(l, ops, pages)
    requires forall r :: r in dest.rows ==> r.lsn <= l.s
    requires S.Regular(S.Init(l.s, dest), steps) && S.Exec(S.Init(l.s, dest), steps).disk.Done?
    requires var proved := G.Next(wal, p, G.Exec(wal, p, G.Init(wal, p), replay), G.Finish).proved;
             Fed(l, ops, L.Arrived(ops, at, proved, l.s), pages, S.Exec(S.Init(l.s, dest), steps), content, key)
    ensures var proved := G.Next(wal, p, G.Exec(wal, p, G.Init(wal, p), replay), G.Finish).proved;
            var t := S.Exec(S.Init(l.s, dest), steps);
            (forall state :: Shown(t.dest.rows, content, key, state) <==> F.SourceState(ops, state))
            <==> !F.Stuck(l, ops, L.Arrived(ops, at, proved, l.s), pages)
  {
    var arrived := L.Arrived(ops, at, G.Next(wal, p, G.Exec(wal, p, G.Init(wal, p), replay), G.Finish).proved, l.s);
    var t := S.Exec(S.Init(l.s, dest), steps);
    S.DoneIsLoadPlusLive(l.s, dest, steps);
    L.ResumedLoadConverges(wal, p, replay, l, ops, at, pages);
    forall state
      ensures Shown(t.dest.rows, content, key, state) <==> F.Settles(l, ops, arrived, pages, state)
    {
      ShownAsSettled(l, ops, arrived, pages, t, content, key, state);
    }
  }

  /** With every writer of the key ended, on a log without a losing trail: whatever the replay's run. */
  lemma AnyPublishedLoadConverges(wal: seq<G.Record>, p: G.Plan, replay: seq<G.Step>, l: F.Load, ops: seq<F.Op>,
                                  at: seq<nat>, pages: seq<F.Read>, dest: S.Table, steps: seq<S.Step>,
                                  content: nat -> Content, key: nat, state: Option<F.Row>)
    requires G.Log(wal) && G.PlanOk(p) && L.CommitsWithinCover(wal, p) && !R.Risky(wal, p)
    requires G.Exec(wal, p, G.Init(wal, p), replay).pos == G.CoverEnd(p)
    requires L.Matches(l, p) && F.History(ops) && L.KeyOf(wal, ops, at) && F.ReadsOk(l, ops, pages)
    requires forall i :: 0 <= i < |ops| ==> !ops[i].fate.Running?
    requires forall r :: r in dest.rows ==> r.lsn <= l.s
    requires S.Regular(S.Init(l.s, dest), steps) && S.Exec(S.Init(l.s, dest), steps).disk.Done?
    requires var proved := G.Next(wal, p, G.Exec(wal, p, G.Init(wal, p), replay), G.Finish).proved;
             Fed(l, ops, L.Arrived(ops, at, proved, l.s), pages, S.Exec(S.Init(l.s, dest), steps), content, key)
    ensures Shown(S.Exec(S.Init(l.s, dest), steps).dest.rows, content, key, state) <==> F.SourceState(ops, state)
  {
    var arrived := L.Arrived(ops, at, G.Next(wal, p, G.Exec(wal, p, G.Init(wal, p), replay), G.Finish).proved, l.s);
    S.DoneIsLoadPlusLive(l.s, dest, steps);
    L.AnyRunConverges(wal, p, replay, l, ops, at, pages);
    ShownAsSettled(l, ops, arrived, pages, S.Exec(S.Init(l.s, dest), steps), content, key, state);
  }
}
