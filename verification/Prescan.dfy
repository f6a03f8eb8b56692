/**
 The records-only sweep of the gap between a backup and the opt-in: harvest
 transaction outcomes, and find out whether the catalog changed under the relations
 being loaded.
 */
module Prescan {
  import opened Basics

  type Oid = nat
  type Xid = nat

  const PG_CLASS_RELNODE: Oid := 1259
  const PG_ATTRIBUTE_RELNODE: Oid := 1249

  /** Commit and abort payload: the prepared xid if there is one, and the subtransactions. */
  datatype Payload = Payload(twophase: Option<Xid>, subxacts: set<Xid>)

  datatype XactOp = CommitOp | AbortOp | OtherOp

  /** A pg_class row, or a pg_attribute row with the relation it belongs to in the same place. */
  datatype CatalogRow = CatalogRow(oid: Oid, filenode: Oid)

  /** Database and file node of the block a record writes. */
  datatype Block = Block(db: Oid, relnode: Oid)

  /**
   `Heap`: one tuple, which prefix compression may keep from being read. `MultiInsert`:
   many tuples in one record of the second heap resource manager.
   */
  datatype Body =
    | Xact(op: XactOp, xid: Xid, payload: Option<Payload>)
    | RelMap(dbid: Option<Oid>)
    | Truncate(truncate: Option<(Oid, seq<Oid>)>)
    | Heap(block: Option<Block>, newTuple: bool, row: CatalogRow, legible: bool)
    | MultiInsert(block: Option<Block>, rows: seq<CatalogRow>)
    | Other

  datatype Record = Record(lsn: nat, body: Body)

  datatype Reason =
    | MalformedCommit
    | MalformedAbort
    | MalformedRelMap
    | MappedCatalogRewrite
    | MalformedTruncate
    | Truncated(oid: Oid)
    | CatalogWrite(relnode: Oid, oid: Oid)
    | Undecodable(relnode: Oid)

  /** `db`: database of the requests. `oids`: filtered relations. `filenodes`: their current main forks. */
  datatype Scope = Scope(db: Oid, oids: set<Oid>, filenodes: map<Oid, Oid>, sMax: nat)

  datatype State = State(committed: set<Xid>, aborted: set<Xid>, skew: Option<Reason>)

  const Init := State({}, {}, None)

  // ------------------------------------------------------------------
  // One record
  // ------------------------------------------------------------------

  /** Keep the first reason. */
  function Fail(s: State, r: Reason): State { if s.skew.Some? then s else s.(skew := Some(r)) }

  function Ended(xid: Xid, p: Payload): set<Xid> { {if p.twophase.Some? then p.twophase.value else xid} + p.subxacts }

  /** First filtered relation a TRUNCATE names. */
  function FirstFiltered(sc: Scope, relids: seq<Oid>): (o: Option<Oid>)
    ensures o.Some? ==> o.value in relids && o.value in sc.oids
    ensures o.None? ==> forall x :: x in relids ==> x !in sc.oids
  {
    if relids == [] then None
    else if relids[0] in sc.oids then Some(relids[0])
    else FirstFiltered(sc, relids[1..])
  }

  predicate IsCatalog(relnode: Oid) { relnode == PG_CLASS_RELNODE || relnode == PG_ATTRIBUTE_RELNODE }

  /** A pg_class write that carries the filenode the relation has now. */
  predicate KeepsFilenode(sc: Scope, relnode: Oid, row: CatalogRow) {
    relnode == PG_CLASS_RELNODE && row.oid in sc.filenodes && sc.filenodes[row.oid] == row.filenode
  }

  function HeapSkew(sc: Scope, block: Option<Block>, newTuple: bool, row: CatalogRow, legible: bool): Option<Reason> {
    if block.None? || block.value.db != sc.db || !IsCatalog(block.value.relnode) || !newTuple then None
    else if !legible then Some(Undecodable(block.value.relnode))
    else if row.oid !in sc.oids || KeepsFilenode(sc, block.value.relnode, row) then None
    else Some(CatalogWrite(block.value.relnode, row.oid))
  }

  /** Why a record other than a transaction record, at or below the boundary, spoils the load. */
  function Skew(sc: Scope, b: Body): Option<Reason> {
    match b
    case Xact(_, _, _) => None
    case Other => None
    case MultiInsert(_, _) => None
    case RelMap(dbid) =>
      if dbid.None? then Some(MalformedRelMap)
      else if dbid.value == sc.db then Some(MappedCatalogRewrite) else None
    case Truncate(t) =>
      if t.None? then Some(MalformedTruncate)
      else if t.value.0 != sc.db then None
      else
        var hit := FirstFiltered(sc, t.value.1);
        if hit.Some? then Some(Truncated(hit.value)) else None
    case Heap(block, newTuple, row, legible) => HeapSkew(sc, block, newTuple, row, legible)
  }

  function ObserveXact(s: State, op: XactOp, xid: Xid, payload: Option<Payload>): State {
    match op
    case CommitOp =>
      if payload.None? then Fail(s, MalformedCommit) else s.(committed := s.committed + Ended(xid, payload.value))
    case AbortOp =>
      if payload.None? then Fail(s, MalformedAbort) else s.(aborted := s.aborted + Ended(xid, payload.value))
    case OtherOp => s
  }

  function Observe(sc: Scope, s: State, r: Record): State {
    if r.body.Xact? then ObserveXact(s, r.body.op, r.body.xid, r.body.payload)
    else if s.skew.Some? || r.lsn > sc.sMax then s
    else s.(skew := Skew(sc, r.body))
  }

  function Scan(sc: Scope, s: State, log: seq<Record>): State
    decreases |log|
  {
    if log == [] then s else Scan(sc, Observe(sc, s, log[0]), log[1..])
  }

  // ------------------------------------------------------------------
  // The sink
  // ------------------------------------------------------------------

  class PrescanSink {
    const scope: Scope
    var committed: set<Xid>
    var aborted: set<Xid>
    var skew: Option<Reason>

    function View(): State
      reads this
    {
      State(committed, aborted, skew)
    }

    constructor (scope: Scope)
      ensures this.scope == scope && View() == Init
    {
      this.scope := scope;
      committed, aborted, skew := {}, {}, None;
    }

    method FailClosed(r: Reason)
      modifies `skew
      ensures View() == Fail(old(View()), r)
    {
      if skew.None? {
        skew := Some(r);
      }
    }

    method ObserveTransaction(op: XactOp, xid: Xid, payload: Option<Payload>)
      modifies this
      ensures View() == ObserveXact(old(View()), op, xid, payload)
    {
      match op
      case CommitOp =>
        if payload.None? {
          FailClosed(MalformedCommit);
        } else {
          committed := committed + Ended(xid, payload.value);
        }
      case AbortOp =>
        if payload.None? {
          FailClosed(MalformedAbort);
        } else {
          aborted := aborted + Ended(xid, payload.value);
        }
      case OtherOp =>
    }

    method ObserveHeap(block: Option<Block>, newTuple: bool, row: CatalogRow, legible: bool)
      requires skew.None?
      modifies `skew
      ensures skew == HeapSkew(scope, block, newTuple, row, legible)
    {
      if block.None? { return; }
      var Block(db, relnode) := block.value;
      if db != scope.db { return; }
      if relnode != PG_CLASS_RELNODE && relnode != PG_ATTRIBUTE_RELNODE { return; }
      if !newTuple { return; }
      if !legible {
        skew := Some(Undecodable(relnode));
        return;
      }
      if row.oid in scope.oids {
        if relnode == PG_CLASS_RELNODE && row.oid in scope.filenodes && scope.filenodes[row.oid] == row.filenode {
          return;
        }
        skew := Some(CatalogWrite(relnode, row.oid));
      }
    }

    method ObserveRecord(r: Record)
      modifies this
      ensures View() == Observe(scope, old(View()), r)
    {
      match r.body
      case Xact(op, xid, payload) => ObserveTransaction(op, xid, payload);
      case Other =>
      case MultiInsert(_, _) =>
      case RelMap(dbid) =>
        if skew.Some? || r.lsn > scope.sMax { return; }
        if dbid.None? {
          skew := Some(MalformedRelMap);
        } else if dbid.value == scope.db {
          skew := Some(MappedCatalogRewrite);
        }
      case Truncate(t) =>
        if skew.Some? || r.lsn > scope.sMax { return; }
        if t.None? {
          skew := Some(MalformedTruncate);
          return;
        }
        if t.value.0 != scope.db { return; }
        var hit := FirstFiltered(scope, t.value.1);
        if hit.Some? {
          skew := Some(Truncated(hit.value));
        }
      case Heap(block, newTuple, row, legible) =>
        if skew.Some? || r.lsn > scope.sMax { return; }
        ObserveHeap(block, newTuple, row, legible);
    }
  }

  /** The whole sweep: the sealed patch, or why the load must not go ahead. */
  method PrescanGap(scope: Scope, log: seq<Record>) returns (committed: set<Xid>, aborted: set<Xid>,
      skew: Option<Reason>)
    ensures State(committed, aborted, skew) == Scan(scope, Init, log)
  {
    var sink := new PrescanSink(scope);
    for i := 0 to |log|
      invariant sink.scope == scope && Scan(scope, sink.View(), log[i..]) == Scan(scope, Init, log)
    {
      assert log[i..][1..] == log[i + 1..];
      sink.ObserveRecord(log[i]);
    }
    return sink.committed, sink.aborted, sink.skew;
  }

  // ------------------------------------------------------------------
  // What the gap does to a relation
  // ------------------------------------------------------------------

  /** A row version put into one of the two catalogs. */
  datatype Version = Version(relnode: Oid, row: CatalogRow)

  function InCatalog(relnode: Oid, rows: seq<CatalogRow>): (vs: seq<Version>)
    ensures |vs| == |rows| && forall i :: 0 <= i < |rows| ==> vs[i] == Version(relnode, rows[i])
  {
    seq(|rows|, i requires 0 <= i < |rows| => Version(relnode, rows[i]))
  }

  /** The catalog rows of the database a record writes, readable or not. */
  function Versions(db: Oid, b: Body): seq<Version> {
    match b
    case Heap(Some(Block(d, relnode)), true, row, _) =>
      if d == db && IsCatalog(relnode) then [Version(relnode, row)] else []
    case MultiInsert(Some(Block(d, relnode)), rows) =>
      if d == db && IsCatalog(relnode) then InCatalog(relnode, rows) else []
    case _ => []
  }

  /** A relation as its catalog rows describe it: main fork, and how often its storage or shape has changed. */
  datatype Relation = Relation(filenode: Oid, changes: nat)

  function AfterVersion(v: Version, o: Oid, rel: Relation): Relation {
    if v.row.oid != o then rel
    else if v.relnode == PG_ATTRIBUTE_RELNODE then rel.(changes := rel.changes + 1)
    else if v.row.filenode == rel.filenode then rel
    else Relation(v.row.filenode, rel.changes + 1)
  }

  function AfterVersions(vs: seq<Version>, o: Oid, rel: Relation): Relation {
    if vs == [] then rel else AfterVersions(vs[1..], o, AfterVersion(vs[0], o, rel))
  }

  predicate Truncates(db: Oid, b: Body, o: Oid) {
    b.Truncate? && b.truncate.Some? && b.truncate.value.0 == db && o in b.truncate.value.1
  }

  function AfterRecord(sc: Scope, r: Record, o: Oid, rel: Relation): Relation {
    if r.lsn > sc.sMax then rel
    else if Truncates(sc.db, r.body, o) then rel.(changes := rel.changes + 1)
    else AfterVersions(Versions(sc.db, r.body), o, rel)
  }

  function AfterGap(sc: Scope, log: seq<Record>, o: Oid, rel: Relation): Relation
    decreases |log|
  {
    if log == [] then rel else AfterGap(sc, log[1..], o, AfterRecord(sc, log[0], o, rel))
  }

  // ------------------------------------------------------------------
  // Verdict
  // ------------------------------------------------------------------

  /** A row that says something else of a relation than that it still has the filenode it has now. */
  predicate Alters(sc: Scope, v: Version) { !KeepsFilenode(sc, v.relnode, v.row) }

  /** The record truncates a relation or writes catalog rows of it that alter it. */
  predicate Touches(sc: Scope, r: Record, o: Oid) {
    && r.lsn <= sc.sMax
    && (Truncates(sc.db, r.body, o) || exists v :: v in Versions(sc.db, r.body) && v.row.oid == o && Alters(sc, v))
  }

  predicate TouchesAny(sc: Scope, r: Record) { exists o :: o in sc.oids && Touches(sc, r, o) }

  /** The mapped catalogs of the database move to other file nodes. */
  predicate Remaps(sc: Scope, r: Record) { r.lsn <= sc.sMax && r.body == RelMap(Some(sc.db)) }

  /** The record cannot be told from one that spoils the load. */
  predicate Unreadable(sc: Scope, r: Record) {
    match r.body
    case Xact(op, _, payload) => !op.OtherOp? && payload.None?
    case RelMap(dbid) => r.lsn <= sc.sMax && dbid.None?
    case Truncate(t) => r.lsn <= sc.sMax && t.None?
    case Heap(_, _, _, legible) => r.lsn <= sc.sMax && !legible && Versions(sc.db, r.body) != []
    case _ => false
  }

  /** The first reason is never replaced. */
  lemma {:induction false} FirstReasonKept(sc: Scope, s: State, log: seq<Record>)
    requires s.skew.Some?
    ensures Scan(sc, s, log).skew == s.skew
    decreases |log|
  {
    if log != [] {
      FirstReasonKept(sc, Observe(sc, s, log[0]), log[1..]);
    }
  }

  lemma HeapFlags(sc: Scope, s: State, r: Record)
    requires s.skew.None? && r.body.Heap?
    ensures Observe(sc, s, r).skew.Some? <==> Unreadable(sc, r) || TouchesAny(sc, r)
  {
    var vs := Versions(sc.db, r.body);
    if r.lsn <= sc.sMax && vs != [] {
      var v := vs[0];
      assert vs == [v] && v in vs;
      if v.row.oid in sc.oids && Alters(sc, v) {
        assert Touches(sc, r, v.row.oid);
      }
    }
  }

  lemma TruncateFlags(sc: Scope, s: State, r: Record)
    requires s.skew.None? && r.body.Truncate?
    ensures Observe(sc, s, r).skew.Some? <==> Unreadable(sc, r) || TouchesAny(sc, r)
  {
    if r.lsn <= sc.sMax && r.body.truncate.Some? {
      var hit := FirstFiltered(sc, r.body.truncate.value.1);
      if hit.Some? && r.body.truncate.value.0 == sc.db {
        assert Touches(sc, r, hit.value);
      }
    }
  }

  lemma ObserveFlags(sc: Scope, s: State, r: Record)
    requires s.skew.None?
    ensures Observe(sc, s, r).skew.Some?
       <==> Unreadable(sc, r) || Remaps(sc, r) || (TouchesAny(sc, r) && !r.body.MultiInsert?)
  {
    if r.body.Heap? {
      HeapFlags(sc, s, r);
    } else if r.body.Truncate? {
      TruncateFlags(sc, s, r);
    }
  }

  /** Clean exactly when nothing is unreadable or remapped and only multi-inserts touch a filtered relation. */
  lemma {:induction false} CleanIff(sc: Scope, s: State, log: seq<Record>)
    requires s.skew.None?
    ensures Scan(sc, s, log).skew.None?
       <==> forall r :: r in log ==>
              !Unreadable(sc, r) && !Remaps(sc, r) && (TouchesAny(sc, r) ==> r.body.MultiInsert?)
    decreases |log|
  {
    if log != [] {
      ObserveFlags(sc, s, log[0]);
      assert log == [log[0]] + log[1..];
      if Observe(sc, s, log[0]).skew.None? {
        CleanIff(sc, Observe(sc, s, log[0]), log[1..]);
      } else {
        FirstReasonKept(sc, Observe(sc, s, log[0]), log[1..]);
      }
    }
  }

  /** What a clean verdict promises, no touch of any filtered relation, holds exactly when no multi-insert makes one. */
  lemma CleanIsUntouchedIff(sc: Scope, log: seq<Record>)
    requires Scan(sc, Init, log).skew.None?
    ensures (forall r :: r in log ==> !TouchesAny(sc, r))
       <==> (forall r :: r in log && r.body.MultiInsert? ==> !TouchesAny(sc, r))
  {
    CleanIff(sc, Init, log);
  }

  // ------------------------------------------------------------------
  // What a clean verdict means for the relation
  // ------------------------------------------------------------------

  lemma {:induction false} VersionsGrow(vs: seq<Version>, o: Oid, rel: Relation)
    ensures AfterVersions(vs, o, rel) == rel || AfterVersions(vs, o, rel).changes > rel.changes
    decreases |vs|
  {
    if vs != [] {
      VersionsGrow(vs[1..], o, AfterVersion(vs[0], o, rel));
    }
  }

  lemma {:induction false} GapGrows(sc: Scope, log: seq<Record>, o: Oid, rel: Relation)
    ensures AfterGap(sc, log, o, rel) == rel || AfterGap(sc, log, o, rel).changes > rel.changes
    decreases |log|
  {
    if log != [] {
      VersionsGrow(Versions(sc.db, log[0].body), o, rel);
      GapGrows(sc, log[1..], o, AfterRecord(sc, log[0], o, rel));
    }
  }

  /** Rows leave a relation of the current filenode alone exactly when none of them alters it. */
  lemma {:induction false} VersionsKeepIff(sc: Scope, vs: seq<Version>, o: Oid, rel: Relation)
    requires o in sc.filenodes && rel.filenode == sc.filenodes[o]
    requires forall v :: v in vs ==> IsCatalog(v.relnode)
    ensures AfterVersions(vs, o, rel) == rel <==> forall v :: v in vs && v.row.oid == o ==> !Alters(sc, v)
    decreases |vs|
  {
    if vs != [] {
      assert vs == [vs[0]] + vs[1..];
      var next := AfterVersion(vs[0], o, rel);
      if next == rel {
        VersionsKeepIff(sc, vs[1..], o, rel);
      } else {
        VersionsGrow(vs[1..], o, next);
      }
    }
  }

  lemma RecordKeepsIff(sc: Scope, r: Record, o: Oid, rel: Relation)
    requires o in sc.filenodes && rel.filenode == sc.filenodes[o]
    ensures AfterRecord(sc, r, o, rel) == rel <==> !Touches(sc, r, o)
  {
    VersionsKeepIff(sc, Versions(sc.db, r.body), o, rel);
  }

  lemma {:induction false} GapKeepsIff(sc: Scope, log: seq<Record>, o: Oid, rel: Relation)
    requires o in sc.filenodes && rel.filenode == sc.filenodes[o]
    ensures AfterGap(sc, log, o, rel) == rel <==> forall r :: r in log ==> !Touches(sc, r, o)
    decreases |log|
  {
    if log != [] {
      assert log == [log[0]] + log[1..];
      RecordKeepsIff(sc, log[0], o, rel);
      var next := AfterRecord(sc, log[0], o, rel);
      if next == rel {
        GapKeepsIff(sc, log[1..], o, rel);
      } else {
        VersionsGrow(Versions(sc.db, log[0].body), o, rel);
        GapGrows(sc, log[1..], o, next);
      }
    }
  }

  /**
   Under a clean verdict a filtered relation reaches the boundary with the storage and the
   shape the backup has of it, if and only if the backup already has it under its current
   filenode and no multi-insert writes catalog rows that alter it.
   */
  lemma CleanKeepsRelationIff(sc: Scope, log: seq<Record>, o: Oid, backup: Relation)
    requires o in sc.oids && o in sc.filenodes && Scan(sc, Init, log).skew.None?
    requires AfterGap(sc, log, o, backup).filenode == sc.filenodes[o]
    ensures AfterGap(sc, log, o, backup) == backup
       <==> && backup.filenode == sc.filenodes[o]
            && forall r :: r in log && r.body.MultiInsert? ==> !Touches(sc, r, o)
  {
    CleanIff(sc, Init, log);
    if backup.filenode == sc.filenodes[o] {
      GapKeepsIff(sc, log, o, backup);
    }
  }

  /** A record of one row version that the sweep lets through. */
  lemma OneRow(sc: Scope, s: State, r: Record, v: Version, o: Oid, rel: Relation)
    requires r.lsn <= sc.sMax && Versions(sc.db, r.body) == [v]
    ensures AfterGap(sc, [r], o, rel) == AfterRecord(sc, r, o, rel) == AfterVersion(v, o, rel)
    ensures Scan(sc, s, [r]) == Observe(sc, s, r)
  {
    assert [v][1..] == [];
    assert AfterVersions([v], o, rel) == AfterVersions([], o, AfterVersion(v, o, rel));
    assert [r][1..] == [];
    assert Scan(sc, s, [r]) == Scan(sc, Observe(sc, s, r), []);
    assert AfterGap(sc, [r], o, rel) == AfterGap(sc, [], o, AfterRecord(sc, r, o, rel));
  }

  /** ADD COLUMN: the attribute row comes in a multi-insert, the pg_class row keeps its filenode. */
  lemma AddColumnPasses(sc: Scope, o: Oid, lsn: nat, changes: nat)
    requires o in sc.oids && o in sc.filenodes && lsn < sc.sMax
    ensures var row := CatalogRow(o, sc.filenodes[o]);
            var log := [Record(lsn, MultiInsert(Some(Block(sc.db, PG_ATTRIBUTE_RELNODE)), [row])),
                        Record(lsn + 1, Heap(Some(Block(sc.db, PG_CLASS_RELNODE)), true, row, true))];
            && Scan(sc, Init, log).skew.None?
            && AfterGap(sc, log, o, Relation(sc.filenodes[o], changes)).changes == changes + 1
  {
    var row := CatalogRow(o, sc.filenodes[o]);
    var attribute := Record(lsn, MultiInsert(Some(Block(sc.db, PG_ATTRIBUTE_RELNODE)), [row]));
    var relation := Record(lsn + 1, Heap(Some(Block(sc.db, PG_CLASS_RELNODE)), true, row, true));
    assert [attribute, relation][1..] == [relation];
    var rel := Relation(sc.filenodes[o], changes);
    OneRow(sc, Init, attribute, Version(PG_ATTRIBUTE_RELNODE, row), o, rel);
    OneRow(sc, Observe(sc, Init, attribute), relation, Version(PG_CLASS_RELNODE, row), o, rel.(changes := changes + 1));
  }

  /** One rewrite in the gap: its pg_class row already carries the filenode that is current at the opt-in. */
  lemma RewritePasses(sc: Scope, o: Oid, lsn: nat, was: Oid, changes: nat)
    requires o in sc.oids && o in sc.filenodes && was != sc.filenodes[o] && lsn <= sc.sMax
    ensures var log := [Record(lsn, Heap(Some(Block(sc.db, PG_CLASS_RELNODE)), true,
                                         CatalogRow(o, sc.filenodes[o]), true))];
            && Scan(sc, Init, log).skew.None?
            && AfterGap(sc, log, o, Relation(was, changes)) == Relation(sc.filenodes[o], changes + 1)
  {
    var row := CatalogRow(o, sc.filenodes[o]);
    var r := Record(lsn, Heap(Some(Block(sc.db, PG_CLASS_RELNODE)), true, row, true));
    OneRow(sc, Init, r, Version(PG_CLASS_RELNODE, row), o, Relation(was, changes));
  }

  // ------------------------------------------------------------------
  // Non-interference
  // ------------------------------------------------------------------

  /** Well-formed and about another database, or past the boundary, and not a transaction record. */
  predicate Foreign(sc: Scope, r: Record) {
    match r.body
    case Xact(_, _, _) => false
    case Other => true
    case RelMap(dbid) => r.lsn > sc.sMax || (dbid.Some? && dbid.value != sc.db)
    case Truncate(t) => r.lsn > sc.sMax || (t.Some? && t.value.0 != sc.db)
    case Heap(block, _, _, _) => r.lsn > sc.sMax || block.None? || block.value.db != sc.db
    case MultiInsert(block, _) => r.lsn > sc.sMax || block.None? || block.value.db != sc.db
  }

  /** The log without the foreign records `drop` picks. */
  function Pruned(sc: Scope, log: seq<Record>, drop: Record -> bool): seq<Record> {
    if log == [] then []
    else (if Foreign(sc, log[0]) && drop(log[0]) then [] else [log[0]]) + Pruned(sc, log[1..], drop)
  }

  /** Deleting any of them changes neither the patch nor the verdict nor its reason. */
  lemma {:induction false} ForeignRecordsDoNotInterfere(sc: Scope, s: State, log: seq<Record>, drop: Record -> bool)
    ensures Scan(sc, s, Pruned(sc, log, drop)) == Scan(sc, s, log)
    decreases |log|
  {
    if log != [] {
      var rest := Pruned(sc, log[1..], drop);
      if Foreign(sc, log[0]) && drop(log[0]) {
        assert Observe(sc, s, log[0]) == s;
        assert [] + rest == rest;
        ForeignRecordsDoNotInterfere(sc, s, log[1..], drop);
      } else {
        assert ([log[0]] + rest)[1..] == rest;
        ForeignRecordsDoNotInterfere(sc, Observe(sc, s, log[0]), log[1..], drop);
      }
    }
  }

  /** `xid` ended with the given outcome somewhere in the log. */
  predicate EndedIn(log: seq<Record>, xid: Xid, op: XactOp) {
    exists r :: r in log && r.body.Xact? && r.body.op == op && r.body.payload.Some?
        && xid in Ended(r.body.xid, r.body.payload.value)
  }

  lemma ObservePatches(sc: Scope, s: State, r: Record, xid: Xid)
    ensures xid in Observe(sc, s, r).committed <==> xid in s.committed || EndedIn([r], xid, CommitOp)
    ensures xid in Observe(sc, s, r).aborted <==> xid in s.aborted || EndedIn([r], xid, AbortOp)
  {
    assert r in [r];
  }

  /** The patch holds exactly the outcomes the log records, whatever else is in it and whatever the verdict. */
  lemma {:induction false} PatchIsExact(sc: Scope, s: State, log: seq<Record>, xid: Xid)
    ensures xid in Scan(sc, s, log).committed <==> xid in s.committed || EndedIn(log, xid, CommitOp)
    ensures xid in Scan(sc, s, log).aborted <==> xid in s.aborted || EndedIn(log, xid, AbortOp)
    decreases |log|
  {
    if log != [] {
      ObservePatches(sc, s, log[0], xid);
      PatchIsExact(sc, Observe(sc, s, log[0]), log[1..], xid);
      assert log == [log[0]] + log[1..];
      assert forall op :: EndedIn(log, xid, op) <==> EndedIn([log[0]], xid, op) || EndedIn(log[1..], xid, op);
    }
  }

  /** The prepared transaction owns the outcome: the finishing backend's own xid gets none from it. */
  lemma PreparedOwnsOutcome(sc: Scope, s: State, lsn: nat, header: Xid, prepared: Xid, subxacts: set<Xid>)
    ensures var c := Observe(sc, s, Record(lsn, Xact(CommitOp, header, Some(Payload(Some(prepared), subxacts)))));
            && prepared in c.committed && subxacts <= c.committed && c.aborted == s.aborted
            && (header != prepared && header !in subxacts ==> (header in c.committed <==> header in s.committed))
    ensures var a := Observe(sc, s, Record(lsn, Xact(AbortOp, header, Some(Payload(Some(prepared), subxacts)))));
            && prepared in a.aborted && subxacts <= a.aborted && a.committed == s.committed
            && (header != prepared && header !in subxacts ==> (header in a.aborted <==> header in s.aborted))
  {
  }
}
