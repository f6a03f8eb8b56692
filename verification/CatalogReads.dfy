/**
 A catalog scan over a heap of many rows, each with its versions: what comes back for a
 transaction tree is exactly the rows that tree sees.
 */
module CatalogReads {
  import opened Basics
  import V = CatalogVisibility
  import C = CatalogScan

  /** Where a row's value holds its key and its attribute number. */
  datatype Layout = Layout(key: V.Value -> Option<C.Oid>, attnum: V.Value -> int)

  function TupleOf(y: Layout, v: V.Version): C.Tuple { C.Tuple((y.key)(v.value), (y.attnum)(v.value), v) }

  function Tuples(y: Layout, versions: seq<V.Version>): seq<C.Tuple> {
    if versions == [] then [] else Tuples(y, versions[..|versions| - 1]) + [TupleOf(y, versions[|versions| - 1])]
  }

  /** The heap, row after row. */
  function HeapOf(y: Layout, rows: seq<V.State>): seq<C.Tuple> {
    if rows == [] then [] else HeapOf(y, rows[..|rows| - 1]) + Tuples(y, rows[|rows| - 1].versions)
  }

  /** A read: on behalf of `top`'s tree, with the parentage on record. */
  datatype Request = Request(p: C.Plan, want: C.Want, top: Option<V.Xid>, scoped: bool, parents: map<V.Xid, V.Xid>)

  /** The extension's verdict, from the tuple and the state of all transactions. */
  function JudgeOf(w: V.State, top: Option<V.Xid>, parents: map<V.Xid, V.Xid>): C.Judge {
    (t: C.Tuple, scoped: bool) => V.TupleVisible(w, t.version, top, scoped, parents)
  }

  function Scanned(heap: seq<C.Tuple>, w: V.State, q: Request): C.Tally {
    C.TallyOf(heap, q.p, q.want, JudgeOf(w, q.top, q.parents), q.scoped)
  }

  /** One state of all transactions, of which each row knows its own writers. */
  ghost predicate Agrees(w: V.State, s: V.State) {
    forall x :: x in s.status ==>
      && (V.IsLive(w, x) <==> V.IsLive(s, x))
      && (s.status[x].Committed? <==> x in w.status && w.status[x].Committed?)
  }

  predicate AsksFor(y: Layout, q: Request, s: V.State) {
    exists v :: v in s.versions && C.Wanted(q.p, q.want, TupleOf(y, v))
  }

  /** What the caller answers for, row by row: sound parentage, and the lock of a scoped read on the rows it asks for. */
  ghost predicate RowOk(y: Layout, w: V.State, q: Request, s: V.State) {
    && V.Inv(s) && Agrees(w, s) && V.SoundParents(s, q.parents) && V.TopsDistinct(s, q.top)
    && (q.scoped && AsksFor(y, q, s) ==> s.holder.None? || q.top == s.holder || q.top.None?)
  }

  /** The row the tree must see, if the request asks for it. */
  function Seen(y: Layout, q: Request, s: V.State): seq<V.Value>
    requires 0 <= V.Cut(s, q.top) < |s.view|
  {
    var row := s.view[V.Cut(s, q.top)];
    if row.Some? && C.Wanted(q.p, q.want, TupleOf(y, V.Version(0, None, row.value, V.NO_HINTS))) then [row.value] else []
  }

  lemma CutInRange(y: Layout, w: V.State, q: Request, s: V.State)
    requires RowOk(y, w, q, s)
    ensures 0 <= V.Cut(s, q.top) < |s.view|
  {
    assert V.Levels(s);
  }

  ghost function AllSeen(y: Layout, w: V.State, q: Request, rows: seq<V.State>): seq<V.Value>
    requires forall s :: s in rows ==> RowOk(y, w, q, s)
  {
    if rows == [] then []
    else
      assert rows[|rows| - 1] in rows;
      CutInRange(y, w, q, rows[|rows| - 1]);
      AllSeen(y, w, q, rows[..|rows| - 1]) + Seen(y, q, rows[|rows| - 1])
  }

  // ------------------------------------------------------------------
  // One row
  // ------------------------------------------------------------------

  lemma SameVerdict(w: V.State, s: V.State, v: V.Version, q: Request)
    requires Agrees(w, s) && V.Known(s) && v in s.versions
    ensures V.TupleVisible(w, v, q.top, q.scoped, q.parents) == V.TupleVisible(s, v, q.top, q.scoped, q.parents)
  {
  }

  /** A wanted version is judged as the tree sees it. */
  lemma WantedJudged(y: Layout, w: V.State, q: Request, s: V.State, v: V.Version)
    requires RowOk(y, w, q, s) && v in s.versions && C.Wanted(q.p, q.want, TupleOf(y, v))
    ensures var r := V.TupleVisible(w, v, q.top, q.scoped, q.parents);
            r.Verdict? ==> (r.visible <==> V.VisibleAt(s.status, v, V.Cut(s, q.top)))
  {
    SameVerdict(w, s, v, q);
    V.VerdictRight(s, v, q.top, q.scoped, q.parents);
  }

  /** Every wanted version is visible exactly when it is the one at `i`, or refused. */
  ghost predicate Picks(y: Layout, judge: C.Judge, q: Request, versions: seq<V.Version>, i: Option<nat>) {
    forall j :: 0 <= j < |versions| && C.Wanted(q.p, q.want, TupleOf(y, versions[j])) ==>
      var r := judge(TupleOf(y, versions[j]), q.scoped);
      r.Verdict? ==> (r.visible <==> i == Some(j))
  }

  function Picked(y: Layout, q: Request, versions: seq<V.Version>, i: Option<nat>): seq<C.Tuple> {
    if i.Some? && i.value < |versions| && C.Wanted(q.p, q.want, TupleOf(y, versions[i.value]))
    then [TupleOf(y, versions[i.value])] else []
  }

  lemma TallySnoc(heap: seq<C.Tuple>, t: C.Tuple, judge: C.Judge, q: Request)
    ensures C.TallyOf(heap + [t], q.p, q.want, judge, q.scoped)
         == var rest := C.TallyOf(heap, q.p, q.want, judge, q.scoped);
            if C.Wanted(q.p, q.want, t) then C.Plus(rest, C.One(t, judge, q.scoped)) else rest
  {
    assert (heap + [t])[..|heap|] == heap;
  }

  lemma PickedSnoc(y: Layout, q: Request, init: seq<V.Version>, last: V.Version, i: Option<nat>)
    ensures Picked(y, q, init + [last], i)
         == if i != Some(|init|) then Picked(y, q, init, i)
            else if C.Wanted(q.p, q.want, TupleOf(y, last)) then [TupleOf(y, last)] else []
  {
  }

  lemma PicksInit(y: Layout, judge: C.Judge, q: Request, init: seq<V.Version>, last: V.Version, i: Option<nat>)
    requires Picks(y, judge, q, init + [last], i)
    ensures Picks(y, judge, q, init, i)
    ensures C.Wanted(q.p, q.want, TupleOf(y, last)) && judge(TupleOf(y, last), q.scoped).Verdict? ==>
              (judge(TupleOf(y, last), q.scoped).visible <==> i == Some(|init|))
  {
    var versions := init + [last];
    assert versions[|init|] == last && forall j :: 0 <= j < |init| ==> versions[j] == init[j];
  }

  /** The last version: it joins what the others left if it is the one, and changes nothing otherwise. */
  lemma PickStep(y: Layout, judge: C.Judge, q: Request, init: seq<V.Version>, last: V.Version, i: Option<nat>,
                 rest: C.Tally)
    requires Picks(y, judge, q, init + [last], i)
    requires rest.Tally? ==> rest.rows == multiset(Picked(y, q, init, i))
    ensures var t := TupleOf(y, last);
            var r := if C.Wanted(q.p, q.want, t) then C.Plus(rest, C.One(t, judge, q.scoped)) else rest;
            r.Tally? ==> r.rows == multiset(Picked(y, q, init + [last], i))
  {
    PicksInit(y, judge, q, init, last, i);
    PickedSnoc(y, q, init, last, i);
    assert i == Some(|init|) ==> Picked(y, q, init, i) == [];
  }

  lemma {:induction false} ScanPicks(y: Layout, judge: C.Judge, q: Request, versions: seq<V.Version>, i: Option<nat>)
    requires Picks(y, judge, q, versions, i)
    ensures var r := C.TallyOf(Tuples(y, versions), q.p, q.want, judge, q.scoped);
            r.Tally? ==> r.rows == multiset(Picked(y, q, versions, i))
    decreases |versions|
  {
    if versions != [] {
      var init, last := versions[..|versions| - 1], versions[|versions| - 1];
      assert versions == init + [last];
      PicksInit(y, judge, q, init, last, i);
      ScanPicks(y, judge, q, init, i);
      TallySnoc(Tuples(y, init), TupleOf(y, last), judge, q);
      PickStep(y, judge, q, init, last, i, C.TallyOf(Tuples(y, init), q.p, q.want, judge, q.scoped));
    }
  }

  lemma RowPicks(y: Layout, w: V.State, q: Request, s: V.State) returns (i: Option<nat>)
    requires RowOk(y, w, q, s)
    ensures 0 <= V.Cut(s, q.top) < |s.view| && Picks(y, JudgeOf(w, q.top, q.parents), q, s.versions, i)
    ensures i.Some? ==> i.value < |s.versions|
    ensures s.view[V.Cut(s, q.top)] == if i.Some? then Some(s.versions[i.value].value) else None
  {
    var k := V.Cut(s, q.top);
    CutInRange(y, w, q, s);
    assert V.Shows(s.versions, s.status, k, s.view[k]);
    i := None;
    if s.view[k].Some? {
      var n: nat :| V.OnlyAt(s.versions, s.status, n, k) && s.versions[n].value == s.view[k].value;
      i := Some(n);
    }
    forall j | 0 <= j < |s.versions| && C.Wanted(q.p, q.want, TupleOf(y, s.versions[j]))
      ensures var r := V.TupleVisible(w, s.versions[j], q.top, q.scoped, q.parents);
              r.Verdict? ==> (r.visible <==> i == Some(j))
    {
      WantedJudged(y, w, q, s, s.versions[j]);
    }
  }

  /** `emitted` are versions of exactly these values. */
  predicate Carry(y: Layout, emitted: seq<C.Tuple>, values: seq<V.Value>) {
    && |emitted| == |values|
    && forall i :: 0 <= i < |emitted| ==>
         emitted[i].version.value == values[i] && emitted[i] == TupleOf(y, emitted[i].version)
  }

  lemma RowScanned(y: Layout, w: V.State, q: Request, s: V.State) returns (emitted: seq<C.Tuple>)
    requires RowOk(y, w, q, s)
    ensures 0 <= V.Cut(s, q.top) < |s.view| && Carry(y, emitted, Seen(y, q, s))
    ensures var r := Scanned(Tuples(y, s.versions), w, q); r.Tally? ==> r.rows == multiset(emitted)
  {
    var i := RowPicks(y, w, q, s);
    ScanPicks(y, JudgeOf(w, q.top, q.parents), q, s.versions, i);
    emitted := Picked(y, q, s.versions, i);
  }

  // ------------------------------------------------------------------
  // The heap
  // ------------------------------------------------------------------

  lemma CarryJoins(y: Layout, a: seq<C.Tuple>, b: seq<C.Tuple>, x: seq<V.Value>, z: seq<V.Value>)
    requires Carry(y, a, x) && Carry(y, b, z)
    ensures Carry(y, a + b, x + z)
  {
  }

  lemma {:induction false} RowsScanned(y: Layout, w: V.State, q: Request, rows: seq<V.State>)
    returns (emitted: seq<C.Tuple>)
    requires forall s :: s in rows ==> RowOk(y, w, q, s)
    ensures Carry(y, emitted, AllSeen(y, w, q, rows))
    ensures var r := Scanned(HeapOf(y, rows), w, q); r.Tally? ==> r.rows == multiset(emitted)
    decreases |rows|
  {
    if rows == [] {
      emitted := [];
    } else {
      var init, s := rows[..|rows| - 1], rows[|rows| - 1];
      assert s in rows;
      var before := RowsScanned(y, w, q, init);
      var here := RowScanned(y, w, q, s);
      emitted := before + here;
      CarryJoins(y, before, here, AllSeen(y, w, q, init), Seen(y, q, s));
      C.TallyConcat(HeapOf(y, init), Tuples(y, s.versions), q.p, q.want, JudgeOf(w, q.top, q.parents), q.scoped);
    }
  }

  lemma {:induction false} ScanDecides(heap: seq<C.Tuple>, judge: C.Judge, q: Request)
    requires forall t :: judge(t, q.scoped).Verdict?
    ensures var r := C.TallyOf(heap, q.p, q.want, judge, q.scoped);
            r.Tally? && ((forall t :: judge(t, q.scoped).mismatches == 0) ==> r.mismatches == 0)
    decreases |heap|
  {
    if heap != [] {
      ScanDecides(heap[..|heap| - 1], judge, q);
    }
  }

  lemma VerdictGiven(w: V.State, v: V.Version, q: Request)
    requires q.top.None? || q.scoped
    ensures var r := V.TupleVisible(w, v, q.top, q.scoped, q.parents);
            r.Verdict? && (q.top.None? ==> r.mismatches == 0)
  {
  }

  /** A committed read refuses nothing and counts no mismatch; a scoped one refuses nothing. */
  lemma ScanSucceeds(heap: seq<C.Tuple>, w: V.State, q: Request)
    requires q.top.None? || q.scoped
    ensures Scanned(heap, w, q).Tally? && (q.top.None? ==> Scanned(heap, w, q).mismatches == 0)
  {
    var judge := JudgeOf(w, q.top, q.parents);
    forall t: C.Tuple
      ensures judge(t, q.scoped).Verdict? && (q.top.None? ==> judge(t, q.scoped).mismatches == 0)
    {
      VerdictGiven(w, t.version, q);
    }
    ScanDecides(heap, judge, q);
  }

  /**
   Over a heap of any number of rows, each with any history of writers, savepoints, hints
   and vacuums, and its versions anywhere in the heap: a scan for a transaction tree returns
   one version of each wanted row that tree sees, with the value it sees, and nothing else,
   or refuses; a committed or a scoped scan never refuses.
   */
  lemma ScanSeesTheTree(y: Layout, w: V.State, q: Request, histories: seq<seq<V.Step>>, rows: seq<V.State>,
                        heap: seq<C.Tuple>) returns (emitted: seq<C.Tuple>)
    requires |rows| == |histories| && forall i :: 0 <= i < |rows| ==> rows[i] == V.Exec(V.Init, histories[i])
    requires forall s :: s in rows ==> Agrees(w, s) && V.SoundParents(s, q.parents) && V.TopsDistinct(s, q.top)
    requires forall s :: s in rows && q.scoped && AsksFor(y, q, s) ==> s.holder.None? || q.top == s.holder || q.top.None?
    requires multiset(heap) == multiset(HeapOf(y, rows))
    ensures forall s :: s in rows ==> RowOk(y, w, q, s)
    ensures Carry(y, emitted, AllSeen(y, w, q, rows))
    ensures var r := Scanned(heap, w, q);
            && (r.Tally? ==> r.rows == multiset(emitted))
            && (q.top.None? ==> r.Tally? && r.mismatches == 0)
            && (q.scoped ==> r.Tally?)
  {
    forall s | s in rows
      ensures RowOk(y, w, q, s)
    {
      var i :| 0 <= i < |rows| && rows[i] == s;
      V.ExecKeepsInv(V.Init, histories[i]);
    }
    emitted := RowsScanned(y, w, q, rows);
    C.TallyPermutes(heap, HeapOf(y, rows), q.p, q.want, JudgeOf(w, q.top, q.parents), q.scoped);
    if q.top.None? || q.scoped {
      ScanSucceeds(heap, w, q);
    }
  }

  /** The request a catalog scan of distinct oids amounts to. */
  function Asked(cat: C.Catalog, oids: seq<C.Oid>, top: Option<V.Xid>, parents: map<V.Xid, V.Xid>): Request {
    Request(C.CatalogPlan(cat), C.Asked(cat, oids), top, C.Asked(cat, oids).Among?, parents)
  }

  /** The whole read, whichever path the lock leaves open. */
  method ReadCatalog(cat: C.Catalog, heap: seq<C.Tuple>, index: C.Oid -> seq<C.Tuple>, oids: seq<C.Oid>, w: V.State,
                     top: Option<V.Xid>, parents: map<V.Xid, V.Xid>, lock: C.ScanLock, available: bool,
                     ghost y: Layout, ghost histories: seq<seq<V.Step>>, ghost rows: seq<V.State>)
    returns (o: C.Output, turnedAway: bool, ghost emitted: seq<C.Tuple>)
    requires C.IndexOk(heap, index)
    requires |rows| == |histories| && forall i :: 0 <= i < |rows| ==> rows[i] == V.Exec(V.Init, histories[i])
    requires forall s :: s in rows ==> Agrees(w, s) && V.SoundParents(s, parents) && V.TopsDistinct(s, top)
    requires var q := Asked(cat, oids, top, parents);
             forall s :: s in rows && q.scoped && AsksFor(y, q, s) ==> s.holder.None? || top == s.holder || top.None?
    requires multiset(heap) == multiset(HeapOf(y, rows))
    ensures o.Valid() && (turnedAway <==> lock.NoWait? && !available)
    ensures forall s :: s in rows ==> RowOk(y, w, Asked(cat, oids, top, parents), s)
    ensures Carry(y, emitted, AllSeen(y, w, Asked(cat, oids, top, parents), rows))
    ensures !turnedAway && Distinct(oids) && o.View().Tally? ==> o.View().rows == multiset(emitted)
    ensures !turnedAway && Distinct(oids) && (top.None? || Asked(cat, oids, top, parents).scoped) ==> o.View().Tally?
  {
    emitted := ScanSeesTheTree(y, w, Asked(cat, oids, top, parents), histories, rows, heap);
    o, turnedAway := C.OverlayScan(cat, heap, index, oids, JudgeOf(w, top, parents), lock, available);
  }
}
