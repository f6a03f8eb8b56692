/**
 The runtime config overlay: rows of the source's config tables, rebuilt from a boot
 SELECT and from the heap writes decoded out of WAL.
 */
module ConfigOverlay {
  import opened Basics

  datatype Kind = Global | Namespace | Table | Column

  datatype Value = Null | Text(s: string) | Bool(b: bool) | Int(i: int)

  /** A row as PostgreSQL holds it, key columns first. */
  type Row = seq<Value>

  /** An image in a heap record: absent columns were not logged. */
  type Image = seq<Option<Value>>

  datatype Key = Key(kind: Kind, parts: seq<string>)

  /** Entry as the resolver reads it; a NULL and a missing value are both unset. */
  type Entry = seq<Option<Value>>

  function KeyColumns(kind: Kind): nat {
    match kind
    case Global => 0
    case Namespace => 1
    case Table => 2
    case Column => 3
  }

  // ------------------------------------------------------------------
  // Interpreting one heap write
  // ------------------------------------------------------------------

  datatype Op = Insert | Update | Delete | Truncate

  datatype Heap = Heap(kind: Kind, op: Op, before: Option<Image>, after: Option<Image>)

  datatype Event = Upserted(key: Key, entry: Entry) | Removed(key: Key)

  /** An update's unlogged columns come from the old image. */
  function Filled(after: Image, before: Option<Image>): (r: Image)
    ensures |r| == |after|
    ensures forall i :: 0 <= i < |r| ==>
              r[i] == if after[i].Some? then after[i]
                      else if before.Some? && i < |before.value| then before.value[i] else None
  {
    seq(|after|, i requires 0 <= i < |after| =>
      if after[i].Some? then after[i] else if before.Some? && i < |before.value| then before.value[i] else None)
  }

  function FullImage(h: Heap): Option<Image> {
    match h.op
    case Insert => h.after
    case Update => if h.after.None? then None else Some(Filled(h.after.value, h.before))
    case Delete => h.before
    case Truncate => None
  }

  /** The key's text columns; a missing one leaves the write uninterpreted. */
  function KeyParts(cols: Image, n: nat): Option<seq<string>> {
    if n == 0 then Some([])
    else
      var rest := KeyParts(cols, n - 1);
      if rest.None? || n > |cols| || cols[n - 1].None? || !cols[n - 1].value.Text? then None
      else Some(rest.value + [cols[n - 1].value.s])
  }

  function EntryOf(cols: Image): Entry {
    seq(|cols|, i requires 0 <= i < |cols| => if cols[i].Some? && cols[i].value.Null? then None else cols[i])
  }

  function Interpret(h: Heap): Option<Event> {
    var cols := FullImage(h);
    if cols.None? then None
    else
      var parts := KeyParts(cols.value, KeyColumns(h.kind));
      if h.kind.Global? then
        Some(if h.op.Delete? then Removed(Key(Global, [])) else Upserted(Key(Global, []), EntryOf(cols.value)))
      else if parts.None? then None
      else Some(if h.op.Delete? then Removed(Key(h.kind, parts.value))
          else Upserted(Key(h.kind, parts.value), EntryOf(cols.value)))
  }

  // ------------------------------------------------------------------
  // The overlay
  // ------------------------------------------------------------------

  type Overlay = map<Key, Entry>

  function Applied(o: Overlay, e: Option<Event>): Overlay {
    match e
    case None => o
    case Some(Upserted(k, entry)) => o[k := entry]
    case Some(Removed(k)) => o - {k}
  }

  class ConfigOverlayStore {
    var globals: Option<Entry>
    var namespaces: map<seq<string>, Entry>
    var tables: map<seq<string>, Entry>
    var columns: map<seq<string>, Entry>

    /** All four kinds as one keyed map. */
    ghost predicate Holds(o: Overlay)
      reads this
    {
      && (forall p :: Key(Global, p) in o <==> p == [] && globals.Some?)
      && (globals.Some? ==> o[Key(Global, [])] == globals.value)
      && (forall p :: Key(Namespace, p) in o <==> p in namespaces)
      && (forall p :: p in namespaces ==> o[Key(Namespace, p)] == namespaces[p])
      && (forall p :: Key(Table, p) in o <==> p in tables)
      && (forall p :: p in tables ==> o[Key(Table, p)] == tables[p])
      && (forall p :: Key(Column, p) in o <==> p in columns)
      && (forall p :: p in columns ==> o[Key(Column, p)] == columns[p])
    }

    constructor ()
      ensures Holds(map[])
    {
      globals, namespaces, tables, columns := None, map[], map[], map[];
    }

    /** Full-row upserts replace; removes drop the entry. */
    method Apply(e: Event, ghost o: Overlay)
      requires Holds(o) && (e.key.kind.Global? ==> e.key.parts == [])
      modifies this
      ensures Holds(Applied(o, Some(e)))
    {
      match e
      case Upserted(k, entry) =>
        match k.kind {
          case Global => globals := Some(entry);
          case Namespace => namespaces := namespaces[k.parts := entry];
          case Table => tables := tables[k.parts := entry];
          case Column => columns := columns[k.parts := entry];
        }
      case Removed(k) =>
        match k.kind {
          case Global => globals := None;
          case Namespace => namespaces := namespaces - {k.parts};
          case Table => tables := tables - {k.parts};
          case Column => columns := columns - {k.parts};
        }
    }
  }

  // ------------------------------------------------------------------
  // The source's tables
  // ------------------------------------------------------------------

  /** What a statement did to a config table. */
  datatype Change =
    | Inserted(kind: Kind, now: Row)
    | Updated(kind: Kind, was: Row, now: Row)
    | Deleted(kind: Kind, was: Row)
    | Emptied(kind: Kind)

  predicate Shaped(kind: Kind, r: Row) {
    |r| >= KeyColumns(kind) && forall i :: 0 <= i < KeyColumns(kind) ==> r[i].Text?
  }

  function RowKey(kind: Kind, r: Row): Key
    requires Shaped(kind, r)
  {
    Key(kind, Texts(r, KeyColumns(kind)))
  }

  function Texts(r: Row, n: nat): seq<string>
    requires n <= |r| && forall i :: 0 <= i < n ==> r[i].Text?
  {
    if n == 0 then [] else Texts(r, n - 1) + [r[n - 1].s]
  }

  /** Namespace rows are told apart by namespace, table rows by relation too, column rows by attribute too. */
  lemma KeysTellRowsApart(kind: Kind, a: Row, b: Row)
    requires Shaped(kind, a) && Shaped(kind, b)
    ensures RowKey(kind, a) == RowKey(kind, b) <==>
            match kind
            case Global => true
            case Namespace => a[0] == b[0]
            case Table => a[0] == b[0] && a[1] == b[1]
            case Column => a[0] == b[0] && a[1] == b[1] && a[2] == b[2]
  {
    TextsTellApart(a, b, KeyColumns(kind));
  }

  lemma {:induction false} TextsTellApart(a: Row, b: Row, n: nat)
    requires n <= |a| && n <= |b| && forall i :: 0 <= i < n ==> a[i].Text? && b[i].Text?
    ensures |Texts(a, n)| == n && |Texts(b, n)| == n
    ensures Texts(a, n) == Texts(b, n) <==> forall i :: 0 <= i < n ==> a[i] == b[i]
  {
    if n > 0 {
      TextsTellApart(a, b, n - 1);
      var x, y := Texts(a, n), Texts(b, n);
      assert x[..n - 1] == Texts(a, n - 1) && y[..n - 1] == Texts(b, n - 1);
      assert x[n - 1] == a[n - 1].s && y[n - 1] == b[n - 1].s;
    }
  }

  function RowEntry(r: Row): Entry {
    seq(|r|, i requires 0 <= i < |r| => if r[i].Null? then None else Some(r[i]))
  }

  /** The change can happen to a source holding `t`: keys are primary keys. */
  predicate Possible(t: Overlay, c: Change) {
    match c
    case Inserted(kind, now) => Shaped(kind, now) && RowKey(kind, now) !in t
    case Updated(kind, was, now) =>
      && Shaped(kind, was) && Shaped(kind, now) && |was| == |now| && RowKey(kind, was) in t
      && (RowKey(kind, now) == RowKey(kind, was) || RowKey(kind, now) !in t)
    case Deleted(kind, was) => Shaped(kind, was) && RowKey(kind, was) in t
    case Emptied(_) => true
  }

  /** The source's rows after the change, each as the entry it would be read as. */
  function Source(t: Overlay, c: Change): Overlay
    requires Possible(t, c)
  {
    match c
    case Inserted(kind, now) => t[RowKey(kind, now) := RowEntry(now)]
    case Updated(kind, was, now) => (t - {RowKey(kind, was)})[RowKey(kind, now) := RowEntry(now)]
    case Deleted(kind, was) => t - {RowKey(kind, was)}
    case Emptied(kind) => map k | k in t && k.kind != kind :: t[k]
  }

  function Whole(r: Row): Image { seq(|r|, i requires 0 <= i < |r| => Some(r[i])) }

  /** How the change is logged: inserts and deletes whole, an update's unlogged columns unchanged. */
  predicate Logs(c: Change, h: Heap) {
    match c
    case Inserted(kind, now) => h.kind == kind && h.op.Insert? && h.after == Some(Whole(now))
    case Updated(kind, was, now) =>
      && h.kind == kind && h.op.Update? && h.before == Some(Whole(was)) && h.after.Some?
          && |h.after.value| == |now| == |was|
      && forall i :: 0 <= i < |now| ==> h.after.value[i] == Some(now[i]) || (h.after.value[i].None? && now[i] == was[i])
    case Deleted(kind, was) => h.kind == kind && h.op.Delete? && h.before == Some(Whole(was))
    case Emptied(kind) => h.kind == kind && h.op.Truncate?
  }

  // ------------------------------------------------------------------
  // Reading a write back
  // ------------------------------------------------------------------

  lemma {:induction false} KeyPartsOf(r: Row, kind: Kind, n: nat)
    requires Shaped(kind, r) && n <= KeyColumns(kind)
    ensures KeyParts(Whole(r), n) == Some(Texts(r, n))
  {
    if n > 0 {
      KeyPartsOf(r, kind, n - 1);
    }
  }

  lemma WholeReads(kind: Kind, r: Row)
    requires Shaped(kind, r)
    ensures KeyParts(Whole(r), KeyColumns(kind)) == Some(RowKey(kind, r).parts)
    ensures EntryOf(Whole(r)) == RowEntry(r)
  {
    KeyPartsOf(r, kind, KeyColumns(kind));
  }

  /** A logged change is read back as the upsert or removal of its row; a truncation as nothing. */
  lemma InterpretReads(c: Change, h: Heap, t: Overlay)
    requires Possible(t, c) && Logs(c, h)
    ensures Interpret(h) ==
            match c
            case Inserted(kind, now) => Some(Upserted(RowKey(kind, now), RowEntry(now)))
            case Updated(kind, was, now) => Some(Upserted(RowKey(kind, now), RowEntry(now)))
            case Deleted(kind, was) => Some(Removed(RowKey(kind, was)))
            case Emptied(_) => None
  {
    match c
    case Inserted(kind, now) => WholeReads(kind, now);
    case Updated(kind, was, now) =>
      assert Filled(h.after.value, h.before) == Whole(now);
      WholeReads(kind, now);
    case Deleted(kind, was) => WholeReads(kind, was);
    case Emptied(_) =>
  }

  /** What the overlay cannot follow: an update that moves the row, a truncation that takes one. */
  predicate Followed(t: Overlay, c: Change)
    requires Possible(t, c)
  {
    match c
    case Updated(kind, was, now) => RowKey(kind, now) == RowKey(kind, was)
    case Emptied(kind) => forall k :: k in t ==> k.kind != kind
    case _ => true
  }

  /** One write leaves the overlay equal to the source exactly when it is followed. */
  lemma StepEqualIff(t: Overlay, c: Change, h: Heap)
    requires Possible(t, c) && Logs(c, h)
    ensures Applied(t, Interpret(h)) == Source(t, c) <==> Followed(t, c)
  {
    InterpretReads(c, h, t);
    match c
    case Inserted(_, _) =>
    case Deleted(_, _) =>
    case Updated(kind, was, now) =>
      if RowKey(kind, now) == RowKey(kind, was) {
        assert Applied(t, Interpret(h)) == Source(t, c);
      } else {
        assert RowKey(kind, was) in Applied(t, Interpret(h)) && RowKey(kind, was) !in Source(t, c);
      }
    case Emptied(kind) =>
      if Followed(t, c) {
        assert Source(t, c) == t;
      } else {
        var k :| k in t && k.kind == kind;
        assert k !in Source(t, c);
      }
  }

  // ------------------------------------------------------------------
  // Logs
  // ------------------------------------------------------------------

  /** The log can happen from `t` and is logged as `heaps`. */
  ghost predicate Logged(t: Overlay, log: seq<Change>, heaps: seq<Heap>)
    decreases |log|
  {
    |heaps| == |log| &&
    (log == [] || (Possible(t, log[0]) && Logs(log[0], heaps[0]) && Logged(Source(t, log[0]), log[1..], heaps[1..])))
  }

  ghost function SourceAfter(t: Overlay, log: seq<Change>, heaps: seq<Heap>): Overlay
    requires Logged(t, log, heaps)
    decreases |log|
  {
    if log == [] then t else SourceAfter(Source(t, log[0]), log[1..], heaps[1..])
  }

  function Replay(o: Overlay, heaps: seq<Heap>): Overlay
    decreases |heaps|
  {
    if heaps == [] then o else Replay(Applied(o, Interpret(heaps[0])), heaps[1..])
  }

  predicate Touches(h: Heap, k: Key) { Interpret(h).Some? && Interpret(h).value.key == k }

  predicate TouchedBy(heaps: seq<Heap>, k: Key) { exists i :: 0 <= i < |heaps| && Touches(heaps[i], k) }

  function At(o: Overlay, k: Key): Option<Entry> { if k in o then Some(o[k]) else None }

  /** A key's final entry comes from the last write that touches it, whatever the start. */
  lemma {:induction false} LastWriteDecides(a: Overlay, b: Overlay, heaps: seq<Heap>, k: Key)
    requires At(a, k) == At(b, k) || TouchedBy(heaps, k)
    ensures At(Replay(a, heaps), k) == At(Replay(b, heaps), k)
    decreases |heaps|
  {
    if heaps != [] {
      var x, y := Applied(a, Interpret(heaps[0])), Applied(b, Interpret(heaps[0]));
      if Touches(heaps[0], k) {
        assert At(x, k) == At(y, k);
      } else if TouchedBy(heaps, k) {
        var i :| 0 <= i < |heaps| && Touches(heaps[i], k);
        assert heaps[1..][i - 1] == heaps[i];
      }
      LastWriteDecides(x, y, heaps[1..], k);
    }
  }

  lemma {:induction false} UntouchedStays(o: Overlay, heaps: seq<Heap>, k: Key)
    requires !TouchedBy(heaps, k)
    ensures At(Replay(o, heaps), k) == At(o, k)
    decreases |heaps|
  {
    if heaps != [] {
      assert !Touches(heaps[0], k);
      assert forall i :: 0 <= i < |heaps[1..]| ==> heaps[1..][i] == heaps[i + 1];
      UntouchedStays(Applied(o, Interpret(heaps[0])), heaps[1..], k);
    }
  }

  lemma {:induction false} ReplaySplits(o: Overlay, a: seq<Heap>, b: seq<Heap>)
    ensures Replay(o, a + b) == Replay(Replay(o, a), b)
    decreases |a|
  {
    if a == [] {
      assert a + b == b;
    } else {
      assert (a + b)[1..] == a[1..] + b;
      ReplaySplits(Applied(o, Interpret(a[0])), a[1..], b);
    }
  }

  /**
   Seed the overlay with the source as of any position, replay from any earlier one:
   the result is what one pass over the whole log gives.
   */
  lemma SeedThenOverlapConverges(t: Overlay, heaps: seq<Heap>, seed: nat, from: nat)
    requires from <= seed <= |heaps|
    ensures Replay(Replay(t, heaps[..seed]), heaps[from..]) == Replay(t, heaps)
  {
    assert heaps[..seed] == heaps[..from] + heaps[from..seed];
    assert heaps == heaps[..from] + heaps[from..];
    var early := Replay(t, heaps[..from]);
    ReplaySplits(t, heaps[..from], heaps[from..seed]);
    ReplaySplits(t, heaps[..from], heaps[from..]);
    var seeded := Replay(early, heaps[from..seed]);
    forall k
      ensures At(Replay(seeded, heaps[from..]), k) == At(Replay(early, heaps[from..]), k)
    {
      if !TouchedBy(heaps[from..], k) {
        assert forall i :: 0 <= i < |heaps[from..seed]| ==> heaps[from..seed][i] == heaps[from..][i];
        assert !TouchedBy(heaps[from..seed], k);
        UntouchedStays(early, heaps[from..seed], k);
      }
      LastWriteDecides(seeded, early, heaps[from..], k);
    }
    SameEntries(Replay(seeded, heaps[from..]), Replay(early, heaps[from..]));
  }

  lemma SameEntries(a: Overlay, b: Overlay)
    requires forall k :: At(a, k) == At(b, k)
    ensures a == b
  {
    forall k
      ensures k in a <==> k in b
      ensures k in a ==> a[k] == b[k]
    {
      assert At(a, k) == At(b, k);
    }
    assert a.Keys == b.Keys;
  }

  // ------------------------------------------------------------------
  // Stale keys
  // ------------------------------------------------------------------

  /** The change takes the row away without its write saying so. */
  predicate Vanishes(t: Overlay, c: Change, k: Key)
    requires Possible(t, c)
  {
    k in t && match c
              case Updated(kind, was, now) => k == RowKey(kind, was) && k != RowKey(kind, now)
              case Emptied(kind) => k.kind == kind
              case _ => false
  }

  /** The last thing that happens to the key is that it vanishes: no later write names it. */
  ghost predicate Stale(t: Overlay, log: seq<Change>, heaps: seq<Heap>, k: Key)
    requires Logged(t, log, heaps)
    decreases |log|
  {
    log != [] && ((Vanishes(t, log[0], k) && !TouchedBy(heaps[1..], k))
                  || Stale(Source(t, log[0]), log[1..], heaps[1..], k))
  }

  lemma TouchedRest(heaps: seq<Heap>, k: Key)
    requires heaps != []
    ensures TouchedBy(heaps, k) <==> Touches(heaps[0], k) || TouchedBy(heaps[1..], k)
  {
    assert forall i :: 0 <= i < |heaps[1..]| ==> heaps[1..][i] == heaps[i + 1];
    if TouchedBy(heaps, k) && !Touches(heaps[0], k) {
      var i :| 0 <= i < |heaps| && Touches(heaps[i], k);
      assert heaps[1..][i - 1] == heaps[i];
    }
  }

  /** What one change does to one key, in the source and in the overlay. */
  lemma StepAt(t: Overlay, o: Overlay, c: Change, h: Heap, k: Key)
    requires Possible(t, c) && Logs(c, h)
    ensures Touches(h, k) ==> At(Source(t, c), k) == At(Applied(o, Interpret(h)), k) && !Vanishes(t, c, k)
    ensures !Touches(h, k) ==> At(Applied(o, Interpret(h)), k) == At(o, k)
    ensures !Touches(h, k) ==> At(Source(t, c), k) == if Vanishes(t, c, k) then None else At(t, k)
  {
    InterpretReads(c, h, t);
  }

  /** A stale key is gone from the source. */
  lemma {:induction false} StaleIsGone(t: Overlay, log: seq<Change>, heaps: seq<Heap>, k: Key)
    requires Logged(t, log, heaps)
    ensures Stale(t, log, heaps, k) || (k !in t && !TouchedBy(heaps, k)) ==> k !in SourceAfter(t, log, heaps)
    decreases |log|
  {
    if log != [] {
      StepAt(t, t, log[0], heaps[0], k);
      TouchedRest(heaps, k);
      StaleIsGone(Source(t, log[0]), log[1..], heaps[1..], k);
    }
  }

  /** A key that is to vanish has to be there, or be written first. */
  lemma {:induction false} StaleWasThere(t: Overlay, log: seq<Change>, heaps: seq<Heap>, k: Key)
    requires Logged(t, log, heaps) && Stale(t, log, heaps, k)
    ensures k in t || TouchedBy(heaps, k)
    decreases |log|
  {
    TouchedRest(heaps, k);
    StepAt(t, t, log[0], heaps[0], k);
    if !(Vanishes(t, log[0], k) && !TouchedBy(heaps[1..], k)) {
      StaleWasThere(Source(t, log[0]), log[1..], heaps[1..], k);
    }
  }

  /** The overlay still holds a stale key if it was seeded with it or has read a write of it. */
  lemma {:induction false} StaleLingers(o: Overlay, t: Overlay, log: seq<Change>, heaps: seq<Heap>, k: Key)
    requires Logged(t, log, heaps) && Stale(t, log, heaps, k)
    ensures k in Replay(o, heaps) <==> k in o || TouchedBy(heaps, k)
    decreases |log|
  {
    TouchedRest(heaps, k);
    StepAt(t, o, log[0], heaps[0], k);
    var next := Applied(o, Interpret(heaps[0]));
    if Vanishes(t, log[0], k) && !TouchedBy(heaps[1..], k) {
      UntouchedStays(next, heaps[1..], k);
      assert k in next <==> At(next, k).Some?;
    } else {
      StaleLingers(next, Source(t, log[0]), log[1..], heaps[1..], k);
      StaleWasThere(Source(t, log[0]), log[1..], heaps[1..], k);
      assert k in next <==> At(next, k).Some?;
    }
  }

  /** Any other key agrees in the end, if it agreed to begin with or is written at all. */
  lemma {:induction false} OthersAgree(o: Overlay, t: Overlay, log: seq<Change>, heaps: seq<Heap>, k: Key)
    requires Logged(t, log, heaps) && !Stale(t, log, heaps, k) && (At(o, k) == At(t, k) || TouchedBy(heaps, k))
    ensures At(Replay(o, heaps), k) == At(SourceAfter(t, log, heaps), k)
    decreases |log|
  {
    if log != [] {
      TouchedRest(heaps, k);
      StepAt(t, o, log[0], heaps[0], k);
      OthersAgree(Applied(o, Interpret(heaps[0])), Source(t, log[0]), log[1..], heaps[1..], k);
    }
  }

  ghost predicate AnyStale(t: Overlay, log: seq<Change>, heaps: seq<Heap>)
    requires Logged(t, log, heaps)
  {
    exists k :: Stale(t, log, heaps, k)
  }

  /** Replaying a whole log gives the source's tables if and only if no key is stale at its end. */
  lemma ReplayEqualsSourceIff(t: Overlay, log: seq<Change>, heaps: seq<Heap>)
    requires Logged(t, log, heaps)
    ensures Replay(t, heaps) == SourceAfter(t, log, heaps) <==> !AnyStale(t, log, heaps)
  {
    if !AnyStale(t, log, heaps) {
      forall k
        ensures At(Replay(t, heaps), k) == At(SourceAfter(t, log, heaps), k)
      {
        OthersAgree(t, t, log, heaps, k);
      }
      SameEntries(Replay(t, heaps), SourceAfter(t, log, heaps));
    } else {
      var k :| Stale(t, log, heaps, k);
      StaleIsGone(t, log, heaps, k);
      StaleWasThere(t, log, heaps, k);
      StaleLingers(t, t, log, heaps, k);
      Differ(Replay(t, heaps), SourceAfter(t, log, heaps), k);
    }
  }

  lemma Differ(a: Overlay, b: Overlay, k: Key)
    requires k in a && k !in b
    ensures a != b
  {
  }

  // ------------------------------------------------------------------
  // Boot
  // ------------------------------------------------------------------

  lemma {:induction false} LoggedSplits(t: Overlay, log: seq<Change>, heaps: seq<Heap>, n: nat)
    requires Logged(t, log, heaps) && n <= |log|
    ensures Logged(t, log[..n], heaps[..n])
    ensures Logged(SourceAfter(t, log[..n], heaps[..n]), log[n..], heaps[n..])
    ensures SourceAfter(SourceAfter(t, log[..n], heaps[..n]), log[n..], heaps[n..]) == SourceAfter(t, log, heaps)
    decreases |log|
  {
    if n == 0 {
      assert log[0..] == log && heaps[0..] == heaps;
    } else {
      LoggedSplits(Source(t, log[0]), log[1..], heaps[1..], n - 1);
      assert log[..n][1..] == log[1..][..n - 1] && heaps[..n][1..] == heaps[1..][..n - 1];
      assert log[n..] == log[1..][n - 1..] && heaps[n..] == heaps[1..][n - 1..];
    }
  }

  /** A key no write names and that does not vanish stays as it is all along. */
  lemma {:induction false} QuietStays(t: Overlay, log: seq<Change>, heaps: seq<Heap>, n: nat, k: Key)
    requires Logged(t, log, heaps) && n <= |log| && !Stale(t, log, heaps, k) && !TouchedBy(heaps, k)
    requires Logged(t, log[..n], heaps[..n])
    ensures At(SourceAfter(t, log[..n], heaps[..n]), k) == At(t, k)
    decreases |log|
  {
    if n > 0 {
      TouchedRest(heaps, k);
      StepAt(t, t, log[0], heaps[0], k);
      assert log[..n][1..] == log[1..][..n - 1] && heaps[..n][1..] == heaps[1..][..n - 1];
      QuietStays(Source(t, log[0]), log[1..], heaps[1..], n - 1, k);
    }
  }

  /**
   Boot with a SELECT taken `seed` writes into a log and replay the whole of it: the overlay
   ends as the source if and only if every key stale at the end was neither selected nor
   named by a replayed write.
   */
  lemma BootEqualsSourceIff(t: Overlay, log: seq<Change>, heaps: seq<Heap>, seed: nat)
    requires Logged(t, log, heaps) && seed <= |log| && Logged(t, log[..seed], heaps[..seed])
    ensures var selected := SourceAfter(t, log[..seed], heaps[..seed]);
            Replay(selected, heaps) == SourceAfter(t, log, heaps)
            <==> forall k :: Stale(t, log, heaps, k) ==> k !in selected && !TouchedBy(heaps, k)
  {
    var selected := SourceAfter(t, log[..seed], heaps[..seed]);
    var end := SourceAfter(t, log, heaps);
    forall k
      ensures At(Replay(selected, heaps), k) == At(end, k)
         <==> (Stale(t, log, heaps, k) ==> k !in selected && !TouchedBy(heaps, k))
    {
      if Stale(t, log, heaps, k) {
        StaleIsGone(t, log, heaps, k);
        StaleLingers(selected, t, log, heaps, k);
      } else {
        if !TouchedBy(heaps, k) {
          QuietStays(t, log, heaps, seed, k);
        }
        OthersAgree(selected, t, log, heaps, k);
      }
    }
    if forall k :: At(Replay(selected, heaps), k) == At(end, k) {
      SameEntries(Replay(selected, heaps), end);
    }
  }

  /** The SELECT as seen from where replay starts. */
  lemma SelectedFrom(t: Overlay, log: seq<Change>, heaps: seq<Heap>, seed: nat, from: nat)
    requires Logged(t, log, heaps) && from <= seed <= |log|
    ensures Logged(t, log[..seed], heaps[..seed]) && Logged(t, log[..from], heaps[..from])
    ensures var begin := SourceAfter(t, log[..from], heaps[..from]);
            var n := seed - from;
            && Logged(begin, log[from..][..n], heaps[from..][..n])
            && SourceAfter(begin, log[from..][..n], heaps[from..][..n]) == SourceAfter(t, log[..seed], heaps[..seed])
  {
    LoggedSplits(t, log, heaps, seed);
    LoggedSplits(t, log[..seed], heaps[..seed], from);
    assert log[..seed][..from] == log[..from] && heaps[..seed][..from] == heaps[..from];
    assert log[..seed][from..] == log[from..][..seed - from] && heaps[..seed][from..] == heaps[from..][..seed - from];
  }

  /** The same with replay starting anywhere at or before the SELECT. */
  lemma BootConvergesIff(t: Overlay, log: seq<Change>, heaps: seq<Heap>, seed: nat, from: nat)
    requires Logged(t, log, heaps) && from <= seed <= |log|
    ensures Logged(t, log[..seed], heaps[..seed]) && Logged(t, log[..from], heaps[..from])
    ensures Logged(SourceAfter(t, log[..from], heaps[..from]), log[from..], heaps[from..])
    ensures var selected := SourceAfter(t, log[..seed], heaps[..seed]);
            var begin := SourceAfter(t, log[..from], heaps[..from]);
            Replay(selected, heaps[from..]) == SourceAfter(t, log, heaps)
            <==> forall k :: Stale(begin, log[from..], heaps[from..], k) ==>
                               k !in selected && !TouchedBy(heaps[from..], k)
  {
    SelectedFrom(t, log, heaps, seed, from);
    LoggedSplits(t, log, heaps, from);
    BootEqualsSourceIff(SourceAfter(t, log[..from], heaps[..from]), log[from..], heaps[from..], seed - from);
  }

  ghost predicate FollowedAll(t: Overlay, log: seq<Change>, heaps: seq<Heap>)
    requires Logged(t, log, heaps)
    decreases |log|
  {
    log == [] || (Followed(t, log[0]) && FollowedAll(Source(t, log[0]), log[1..], heaps[1..]))
  }

  /** A log whose every change is followed leaves no key stale. */
  lemma {:induction false} FollowedLeavesNoneStale(t: Overlay, log: seq<Change>, heaps: seq<Heap>, k: Key)
    requires Logged(t, log, heaps) && FollowedAll(t, log, heaps)
    ensures !Stale(t, log, heaps, k)
    decreases |log|
  {
    if log != [] {
      FollowedLeavesNoneStale(Source(t, log[0]), log[1..], heaps[1..], k);
    }
  }

  /** So replaying a log that moves no key and empties no table with rows gives the source's tables. */
  lemma FollowedReplayEqualsSource(t: Overlay, log: seq<Change>, heaps: seq<Heap>)
    requires Logged(t, log, heaps) && FollowedAll(t, log, heaps)
    ensures Replay(t, heaps) == SourceAfter(t, log, heaps)
  {
    forall k
      ensures !Stale(t, log, heaps, k)
    {
      FollowedLeavesNoneStale(t, log, heaps, k);
    }
    ReplayEqualsSourceIff(t, log, heaps);
  }

  /** A row whose key an UPDATE changes stays behind under its old key. */
  lemma MovedRowLingers()
    ensures var was, now := [Text("a"), Text("db1")], [Text("b"), Text("db1")];
            var t: Overlay := map[Key(Namespace, ["a"]) := RowEntry(was)];
            var c := Updated(Namespace, was, now);
            var h := Heap(Namespace, Update, Some(Whole(was)), Some(Whole(now)));
            Possible(t, c) && Logs(c, h) && Key(Namespace, ["a"]) in Applied(t, Interpret(h))
                && Key(Namespace, ["a"]) !in Source(t, c)
  {
    var was, now := [Text("a"), Text("db1")], [Text("b"), Text("db1")];
    var t: Overlay := map[Key(Namespace, ["a"]) := RowEntry(was)];
    var c := Updated(Namespace, was, now);
    var h := Heap(Namespace, Update, Some(Whole(was)), Some(Whole(now)));
    assert RowKey(Namespace, was).parts == ["a"] && RowKey(Namespace, now).parts == ["b"];
    assert "a"[0] != "b"[0];
    assert ["a"][0] != ["b"][0];
    assert Possible(t, c) && Logs(c, h);
    InterpretReads(c, h, t);
  }

  /** The rows a TRUNCATE takes stay behind, and no later write of theirs is to be expected. */
  lemma EmptiedRowLingers()
    ensures var was := [Text("a"), Text("db1")];
            var t: Overlay := map[Key(Namespace, ["a"]) := RowEntry(was)];
            var h := Heap(Namespace, Truncate, None, None);
            && Logged(t, [Emptied(Namespace)], [h]) && Stale(t, [Emptied(Namespace)], [h], Key(Namespace, ["a"]))
            && Key(Namespace, ["a"]) in Replay(t, [h])
            && SourceAfter(t, [Emptied(Namespace)], [h]) == map[]
  {
    var was := [Text("a"), Text("db1")];
    var k := Key(Namespace, ["a"]);
    var t: Overlay := map[k := RowEntry(was)];
    var h := Heap(Namespace, Truncate, None, None);
    var log := [Emptied(Namespace)];
    assert log[1..] == [] && [h][1..] == [];
    assert Logged(Source(t, log[0]), log[1..], [h][1..]);
    assert Vanishes(t, log[0], k);
    assert !TouchedBy([h][1..], k);
    assert SourceAfter(t, log, [h]) == SourceAfter(Source(t, log[0]), [], []) == Source(t, log[0]);
    assert Replay(t, [h]) == Replay(Applied(t, Interpret(h)), []);
  }
}
