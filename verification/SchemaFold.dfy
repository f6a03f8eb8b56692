/**
 A relation's column mapping kept up with ALTER TABLE by folding in the difference of
 two descriptors, against the mapping derived afresh from the new descriptor.
 */
module SchemaFold {
  import opened Basics

  type Attnum = int
  type TypeId = nat

  datatype Attr = Attr(attnum: Attnum, name: string, ty: TypeId, notNull: bool, dropped: bool)

  datatype Column = Column(attnum: Attnum, name: string, ty: string)

  /** `keys`: the replica identity's attribute numbers. */
  datatype Descriptor = Descriptor(attrs: seq<Attr>, keys: set<Attnum>)

  datatype Rename = Rename(attnum: Attnum, before: string, after: string)

  datatype Diff = Diff(added: seq<Attr>, dropped: seq<Attnum>, renamed: seq<Rename>, retyped: seq<(Attr, Attr)>)

  /** Destination type of a column, if PostgreSQL's type has one. */
  type Bridge = (Attr, bool) -> Option<string>

  /** Target name a column rule gives to an attribute name. */
  type Namer = string -> Option<string>

  function Target(names: Namer, n: string): string {
    if names(n).Some? then names(n).value else n
  }

  function MapColumn(a: Attr, key: bool, bridge: Bridge, names: Namer): Option<Column> {
    match bridge(a, key)
    case None => None
    case Some(ty) => Some(Column(a.attnum, Target(names, a.name), ty))
  }

  /** pg_attribute is unique on (attrelid, attnum). */
  predicate Unique(attrs: seq<Attr>) {
    forall i, j :: 0 <= i < j < |attrs| && !attrs[i].dropped && !attrs[j].dropped ==> attrs[i].attnum != attrs[j].attnum
  }

  predicate IsLive(attrs: seq<Attr>, a: Attr) { a in attrs && !a.dropped }

  predicate LiveNum(attrs: seq<Attr>, n: Attnum) { exists a :: a in attrs && !a.dropped && a.attnum == n }

  // ------------------------------------------------------------------
  // Derivation
  // ------------------------------------------------------------------

  function Derive(attrs: seq<Attr>, keys: set<Attnum>, bridge: Bridge, names: Namer): seq<Column> {
    if attrs == [] then []
    else
      var a := attrs[|attrs| - 1];
      var c := if a.dropped then None else MapColumn(a, a.attnum in keys, bridge, names);
      Derive(attrs[..|attrs| - 1], keys, bridge, names) + (if c.Some? then [c.value] else [])
  }

  /** `n` maps to target name `t`. */
  predicate Has(cols: seq<Column>, n: Attnum, t: string) { exists c :: c in cols && c.attnum == n && c.name == t }

  predicate HasNum(cols: seq<Column>, n: Attnum) { exists c :: c in cols && c.attnum == n }

  ghost predicate SameNames(a: seq<Column>, b: seq<Column>) { forall n, t :: Has(a, n, t) <==> Has(b, n, t) }

  lemma {:induction false} DeriveHas(attrs: seq<Attr>, keys: set<Attnum>, bridge: Bridge, names: Namer, c: Column)
    ensures c in Derive(attrs, keys, bridge, names) <==>
            exists a :: IsLive(attrs, a) && MapColumn(a, a.attnum in keys, bridge, names) == Some(c)
    decreases |attrs|
  {
    if attrs != [] {
      var init, last := attrs[..|attrs| - 1], attrs[|attrs| - 1];
      assert attrs == init + [last];
      DeriveHas(init, keys, bridge, names, c);
      assert forall a :: IsLive(attrs, a) <==> IsLive(init, a) || (a == last && !last.dropped);
    }
  }

  // ------------------------------------------------------------------
  // Difference
  // ------------------------------------------------------------------

  function Numbered(attrs: seq<Attr>): map<Attnum, Attr> {
    if attrs == [] then map[]
    else
      var a := attrs[|attrs| - 1];
      var m := Numbered(attrs[..|attrs| - 1]);
      if a.dropped then m else m[a.attnum := a]
  }

  lemma LiveSnoc(init: seq<Attr>, last: Attr)
    ensures forall a :: IsLive(init + [last], a) <==> IsLive(init, a) || (a == last && !last.dropped)
    ensures forall n :: LiveNum(init + [last], n) <==> LiveNum(init, n) || (!last.dropped && last.attnum == n)
  {
  }

  lemma NotMet(met: seq<Attr>, b: Attr)
    requires Unique(met + [b]) && !b.dropped
    ensures !LiveNum(met, b.attnum)
  {
    forall a | IsLive(met, a)
      ensures a.attnum != b.attnum
    {
      var i :| 0 <= i < |met| && met[i] == a;
      assert (met + [b])[i] == a && (met + [b])[|met|] == b;
    }
  }

  /** The live attributes by number. */
  ghost predicate NumbersLive(m: map<Attnum, Attr>, attrs: seq<Attr>) {
    && (forall n :: n in m <==> LiveNum(attrs, n))
    && (forall a :: IsLive(attrs, a) ==> a.attnum in m && m[a.attnum] == a)
    && (forall n :: n in m ==> IsLive(attrs, m[n]) && m[n].attnum == n)
  }

  lemma NumbersSnoc(m: map<Attnum, Attr>, init: seq<Attr>, last: Attr)
    requires NumbersLive(m, init) && Unique(init + [last])
    ensures NumbersLive(if last.dropped then m else m[last.attnum := last], init + [last])
  {
    LiveSnoc(init, last);
    if !last.dropped {
      NotMet(init, last);
      assert forall a :: IsLive(init, a) ==> a.attnum != last.attnum;
    }
  }

  lemma {:induction false} NumberedIs(attrs: seq<Attr>)
    requires Unique(attrs)
    ensures NumbersLive(Numbered(attrs), attrs)
    decreases |attrs|
  {
    if attrs != [] {
      var init, last := attrs[..|attrs| - 1], attrs[|attrs| - 1];
      assert attrs == init + [last];
      NumberedIs(init);
      NumbersSnoc(Numbered(init), init, last);
    }
  }

  predicate NumbersDiffer(attrs: seq<Attr>) {
    forall i, j :: 0 <= i < j < |attrs| ==> attrs[i].attnum != attrs[j].attnum
  }

  predicate Retyped(a: Attr, b: Attr) { a.ty != b.ty || a.notNull != b.notNull }

  ghost predicate RenameIn(r: Rename, was: seq<Attr>, met: seq<Attr>) {
    exists a, b :: IsLive(was, a) && IsLive(met, b) && a.attnum == b.attnum && a.name != b.name
                   && r == Rename(a.attnum, a.name, b.name)
  }

  predicate RetypeIn(p: (Attr, Attr), was: seq<Attr>, met: seq<Attr>) {
    IsLive(was, p.0) && IsLive(met, p.1) && p.0.attnum == p.1.attnum && Retyped(p.0, p.1)
  }

  /** A difference that says exactly how the live columns of two descriptors relate. */
  ghost predicate DiffOf(d: Diff, was: seq<Attr>, now: seq<Attr>) {
    && (forall a :: a in d.added <==> IsLive(now, a) && !LiveNum(was, a.attnum))
    && NumbersDiffer(d.added)
    && (forall n :: n in d.dropped <==> LiveNum(was, n) && !LiveNum(now, n))
    && (forall i, j :: 0 <= i < j < |d.dropped| ==> d.dropped[i] < d.dropped[j])
    && (forall r :: r in d.renamed <==> RenameIn(r, was, now))
    && (forall p :: p in d.retyped <==> RetypeIn(p, was, now))
  }

  /** The walk so far: `left` are the old columns not yet met. */
  ghost predicate Walked(d: Diff, left: map<Attnum, Attr>, was: seq<Attr>, met: seq<Attr>) {
    && (forall n :: n in left <==> LiveNum(was, n) && !LiveNum(met, n))
    && (forall n :: n in left ==> n in Numbered(was) && left[n] == Numbered(was)[n])
    && (forall a :: a in d.added <==> IsLive(met, a) && !LiveNum(was, a.attnum))
    && NumbersDiffer(d.added)
    && (forall r :: r in d.renamed <==> RenameIn(r, was, met))
    && (forall p :: p in d.retyped <==> RetypeIn(p, was, met))
  }

  function Record(d: Diff, left: map<Attnum, Attr>, b: Attr): Diff {
    if b.attnum !in left then d.(added := d.added + [b])
    else
      var a := left[b.attnum];
      d.(renamed := if a.name != b.name then d.renamed + [Rename(b.attnum, a.name, b.name)] else d.renamed,
         retyped := if Retyped(a, b) then d.retyped + [(a, b)] else d.retyped)
  }

  lemma RecordAdds(d: Diff, left: map<Attnum, Attr>, was: seq<Attr>, met: seq<Attr>, b: Attr)
    requires Unique(was) && Unique(met + [b]) && !b.dropped && Walked(d, left, was, met)
    ensures forall a :: a in Record(d, left, b).added <==> IsLive(met + [b], a) && !LiveNum(was, a.attnum)
    ensures forall n :: n in left - {b.attnum} <==> LiveNum(was, n) && !LiveNum(met + [b], n)
    ensures NumbersDiffer(Record(d, left, b).added)
  {
    forall i | 0 <= i < |d.added|
      ensures LiveNum(met, d.added[i].attnum)
    {
      assert d.added[i] in d.added;
    }
    NumberedIs(was);
    NotMet(met, b);
    LiveSnoc(met, b);
  }

  /** The old attribute met again under its number. */
  predicate Meets(left: map<Attnum, Attr>, b: Attr) { b.attnum in left && left[b.attnum].attnum == b.attnum }

  lemma LeftIsLive(d: Diff, left: map<Attnum, Attr>, was: seq<Attr>, met: seq<Attr>, b: Attr)
    requires Unique(was) && Unique(met + [b]) && !b.dropped && Walked(d, left, was, met)
    ensures forall a :: IsLive(was, a) && a.attnum == b.attnum <==> Meets(left, b) && a == left[b.attnum]
  {
    NumberedIs(was);
    NotMet(met, b);
  }

  lemma RecordRenames(d: Diff, left: map<Attnum, Attr>, was: seq<Attr>, met: seq<Attr>, b: Attr, r: Rename)
    requires Unique(was) && Unique(met + [b]) && !b.dropped && Walked(d, left, was, met)
    ensures RenameIn(r, was, met + [b]) <==>
              RenameIn(r, was, met) || (Meets(left, b) && left[b.attnum].name != b.name
                                        && r == Rename(b.attnum, left[b.attnum].name, b.name))
  {
    LeftIsLive(d, left, was, met, b);
    LiveSnoc(met, b);
    if RenameIn(r, was, met) {
      var x, y :| IsLive(was, x) && IsLive(met, y) && x.attnum == y.attnum && x.name != y.name
          && r == Rename(x.attnum, x.name, y.name);
      assert IsLive(met + [b], y);
    }
    if Meets(left, b) && left[b.attnum].name != b.name && r == Rename(b.attnum, left[b.attnum].name, b.name) {
      assert IsLive(was, left[b.attnum]) && IsLive(met + [b], b);
    }
  }

  lemma RecordRetypes(d: Diff, left: map<Attnum, Attr>, was: seq<Attr>, met: seq<Attr>, b: Attr, p: (Attr, Attr))
    requires Unique(was) && Unique(met + [b]) && !b.dropped && Walked(d, left, was, met)
    ensures RetypeIn(p, was, met + [b]) <==>
              RetypeIn(p, was, met) || (Meets(left, b) && Retyped(left[b.attnum], b) && p == (left[b.attnum], b))
  {
    LeftIsLive(d, left, was, met, b);
    LiveSnoc(met, b);
  }

  lemma RecordPairs(d: Diff, left: map<Attnum, Attr>, was: seq<Attr>, met: seq<Attr>, b: Attr)
    requires Unique(was) && Unique(met + [b]) && !b.dropped && Walked(d, left, was, met)
    ensures forall r :: r in Record(d, left, b).renamed <==> RenameIn(r, was, met + [b])
    ensures forall p :: p in Record(d, left, b).retyped <==> RetypeIn(p, was, met + [b])
  {
    LeftNumbered(d, left, was, met);
    forall r
      ensures r in Record(d, left, b).renamed <==> RenameIn(r, was, met + [b])
    {
      RecordRenames(d, left, was, met, b, r);
    }
    forall p
      ensures p in Record(d, left, b).retyped <==> RetypeIn(p, was, met + [b])
    {
      RecordRetypes(d, left, was, met, b, p);
    }
  }

  lemma LeftNumbered(d: Diff, left: map<Attnum, Attr>, was: seq<Attr>, met: seq<Attr>)
    requires Unique(was) && Walked(d, left, was, met)
    ensures forall n :: n in left ==> left[n].attnum == n
  {
    NumberedIs(was);
  }

  /** Keys in ascending order. */
  method SortedKeys(m: map<Attnum, Attr>) returns (s: seq<Attnum>)
    ensures forall n :: n in s <==> n in m
    ensures forall i, j :: 0 <= i < j < |s| ==> s[i] < s[j]
  {
    s := [];
    var rest := m.Keys;
    while rest != {}
      invariant rest <= m.Keys
      invariant forall n :: n in s <==> n in m && n !in rest
      invariant forall i, j :: 0 <= i < j < |s| ==> s[i] < s[j]
      invariant forall n, k :: n in s && k in rest ==> n < k
      decreases |rest|
    {
      var least := Least(rest);
      assert forall i :: 0 <= i < |s| ==> s[i] in s;
      s := s + [least];
      rest := rest - {least};
    }
  }

  method Least(s: set<Attnum>) returns (least: Attnum)
    requires s != {}
    ensures least in s && forall n :: n in s ==> least <= n
  {
    least := Pick(s);
    var rest := s - {least};
    while rest != {}
      invariant rest <= s && least in s
      invariant forall n :: n in s && n !in rest ==> least <= n
      decreases |rest|
    {
      var n := Pick(rest);
      rest := rest - {n};
      if n < least { least := n; }
    }
  }

  /** The old live columns by number. */
  method NumberLive(was: seq<Attr>) returns (left: map<Attnum, Attr>)
    ensures left == Numbered(was)
  {
    left := map[];
    for i := 0 to |was|
      invariant left == Numbered(was[..i])
    {
      assert was[..i + 1][..i] == was[..i];
      if !was[i].dropped {
        left := left[was[i].attnum := was[i]];
      }
    }
    assert was[..|was|] == was;
  }

  lemma WalkStarts(was: seq<Attr>)
    requires Unique(was)
    ensures Walked(Diff([], [], [], []), Numbered(was), was, [])
  {
    NumberedIs(was);
  }

  /** Meeting one more attribute. */
  lemma WalkMeets(d: Diff, left: map<Attnum, Attr>, was: seq<Attr>, met: seq<Attr>, b: Attr)
    requires Unique(was) && Unique(met + [b]) && Walked(d, left, was, met)
    ensures b.dropped ==> Walked(d, left, was, met + [b])
    ensures !b.dropped ==> Walked(Record(d, left, b), left - {b.attnum}, was, met + [b])
  {
    LiveSnoc(met, b);
    if b.dropped {
      SameWalk(d, left, was, met, met + [b]);
    } else {
      RecordAdds(d, left, was, met, b);
      RecordPairs(d, left, was, met, b);
    }
  }

  lemma UniquePrefix(attrs: seq<Attr>, i: nat)
    requires Unique(attrs) && i < |attrs|
    ensures Unique(attrs[..i] + [attrs[i]]) && attrs[..i + 1] == attrs[..i] + [attrs[i]]
  {
    assert attrs[..i + 1] == attrs[..i] + [attrs[i]];
  }

  lemma WalkEnds(d: Diff, left: map<Attnum, Attr>, was: seq<Attr>, now: seq<Attr>, dropped: seq<Attnum>)
    requires Walked(d, left, was, now) && forall n :: n in dropped <==> n in left
    requires forall i, j :: 0 <= i < j < |dropped| ==> dropped[i] < dropped[j]
    ensures DiffOf(d.(dropped := dropped), was, now)
  {
  }

  method ComputeDiff(was: seq<Attr>, now: seq<Attr>) returns (d: Diff)
    requires Unique(was) && Unique(now)
    ensures DiffOf(d, was, now)
  {
    d := Diff([], [], [], []);
    var left := NumberLive(was);
    WalkStarts(was);
    for i := 0 to |now|
      invariant Walked(d, left, was, now[..i])
    {
      UniquePrefix(now, i);
      WalkMeets(d, left, was, now[..i], now[i]);
      if !now[i].dropped {
        d := Record(d, left, now[i]);
        left := left - {now[i].attnum};
      }
    }
    assert now[..|now|] == now;
    var dropped := SortedKeys(left);
    WalkEnds(d, left, was, now, dropped);
    d := d.(dropped := dropped);
  }

  lemma SameWalk(d: Diff, left: map<Attnum, Attr>, was: seq<Attr>, met: seq<Attr>, next: seq<Attr>)
    requires Walked(d, left, was, met)
    requires forall a :: IsLive(next, a) <==> IsLive(met, a)
    requires forall n :: LiveNum(next, n) <==> LiveNum(met, n)
    ensures Walked(d, left, was, next)
  {
    assert forall r :: RenameIn(r, was, next) <==> RenameIn(r, was, met);
  }

  // ------------------------------------------------------------------
  // Folding
  // ------------------------------------------------------------------

  datatype Retype = Retype(attnum: Attnum, ty: string)

  function RetypeColumn(c: Column, r: Retype): Column { if c.attnum == r.attnum then c.(ty := r.ty) else c }

  /** A configured target name survives the rename: only a column still named after its source follows it. */
  function RenameColumn(c: Column, r: Rename, names: Namer): Column {
    if c.attnum == r.attnum && c.name == r.before then c.(name := Target(names, r.after)) else c
  }

  function RetypeAll(c: Column, rs: seq<Retype>): Column {
    if rs == [] then c else RetypeColumn(RetypeAll(c, rs[..|rs| - 1]), rs[|rs| - 1])
  }

  function RenameAll(c: Column, rs: seq<Rename>, names: Namer): Column {
    if rs == [] then c else RenameColumn(RenameAll(c, rs[..|rs| - 1], names), rs[|rs| - 1], names)
  }

  /** The last planned type for the column, or the one it had. */
  lemma {:induction false} RetypeTakesLast(c: Column, rs: seq<Retype>)
    ensures (forall r :: r in rs ==> r.attnum != c.attnum) ==> RetypeAll(c, rs) == c
    ensures forall i :: 0 <= i < |rs| && rs[i].attnum == c.attnum
              && (forall j :: i < j < |rs| ==> rs[j].attnum != c.attnum)
              ==> RetypeAll(c, rs) == c.(ty := rs[i].ty)
    decreases |rs|
  {
    if rs != [] {
      var init, last := rs[..|rs| - 1], rs[|rs| - 1];
      assert rs == init + [last];
      RetypeTakesLast(c, init);
      RetypeKeepsNumber(c, init);
    }
  }

  lemma {:induction false} RetypeKeepsNumber(c: Column, rs: seq<Retype>)
    ensures RetypeAll(c, rs) == c.(ty := RetypeAll(c, rs).ty)
    decreases |rs|
  {
    if rs != [] {
      RetypeKeepsNumber(c, rs[..|rs| - 1]);
    }
  }

  class TableMapping {
    var columns: seq<Column>

    constructor (columns: seq<Column>)
      ensures this.columns == columns
    {
      this.columns := columns;
    }

    method ApplyRetypes(retypes: seq<Retype>)
      modifies this
      ensures |columns| == |old(columns)|
      ensures forall i :: 0 <= i < |columns| ==> columns[i] == RetypeAll(old(columns)[i], retypes)
    {
      for k := 0 to |retypes|
        invariant |columns| == |old(columns)|
        invariant forall i :: 0 <= i < |columns| ==> columns[i] == RetypeAll(old(columns)[i], retypes[..k])
      {
        assert retypes[..k + 1][..k] == retypes[..k];
        ghost var before := columns;
        for i := 0 to |columns|
          invariant |columns| == |before|
          invariant forall j :: 0 <= j < i ==> columns[j] == RetypeColumn(before[j], retypes[k])
          invariant forall j :: i <= j < |columns| ==> columns[j] == before[j]
        {
          if columns[i].attnum == retypes[k].attnum {
            columns := columns[i := columns[i].(ty := retypes[k].ty)];
          }
        }
      }
      assert retypes[..|retypes|] == retypes;
    }

    method ApplyRenames(renames: seq<Rename>, names: Namer)
      modifies this
      ensures |columns| == |old(columns)|
      ensures forall i :: 0 <= i < |columns| ==> columns[i] == RenameAll(old(columns)[i], renames, names)
    {
      for k := 0 to |renames|
        invariant |columns| == |old(columns)|
        invariant forall i :: 0 <= i < |columns| ==> columns[i] == RenameAll(old(columns)[i], renames[..k], names)
      {
        assert renames[..k + 1][..k] == renames[..k];
        var to := Target(names, renames[k].after);
        ghost var before := columns;
        for i := 0 to |columns|
          invariant |columns| == |before|
          invariant forall j :: 0 <= j < i ==> columns[j] == RenameColumn(before[j], renames[k], names)
          invariant forall j :: i <= j < |columns| ==> columns[j] == before[j]
        {
          if columns[i].attnum == renames[k].attnum && columns[i].name == renames[k].before {
            columns := columns[i := columns[i].(name := to)];
          }
        }
      }
      assert renames[..|renames|] == renames;
    }

    method Retain(dropped: seq<Attnum>)
      modifies this
      ensures forall c :: c in columns <==> c in old(columns) && c.attnum !in dropped
    {
      var kept: seq<Column> := [];
      for i := 0 to |columns|
        invariant columns == old(columns)
        invariant forall c :: c in kept <==> c in columns[..i] && c.attnum !in dropped
      {
        assert columns[..i + 1] == columns[..i] + [columns[i]];
        if columns[i].attnum !in dropped {
          kept := kept + [columns[i]];
        }
      }
      assert columns[..|columns|] == columns;
      columns := kept;
    }

    method AppendAdded(added: seq<Attr>, keys: set<Attnum>, bridge: Bridge, names: Namer)
      requires NumbersDiffer(added)
      modifies this
      ensures forall c :: c in columns <==> c in old(columns) || AddedAs(c, old(columns), added, keys, bridge, names)
    {
      for k := 0 to |added|
        invariant forall c :: c in columns <==> c in old(columns) || AddedAs(c, old(columns), added[..k], keys,
                    bridge, names)
      {
        var a := added[k];
        assert added[..k + 1] == added[..k] + [a];
        var c := MapColumn(a, a.attnum in keys, bridge, names);
        var present := exists d :: d in columns && d.attnum == a.attnum;
        AddedSteps(old(columns), added, k, keys, bridge, names);
        assert present <==> HasNum(old(columns), a.attnum);
        if !present && c.Some? {
          columns := columns + [c.value];
        }
      }
      assert added[..|added|] == added;
    }
  }

  predicate AddedAs(c: Column, cols: seq<Column>, added: seq<Attr>, keys: set<Attnum>, bridge: Bridge, names: Namer) {
    exists a :: a in added && !HasNum(cols, a.attnum) && MapColumn(a, a.attnum in keys, bridge, names) == Some(c)
  }

  lemma AddedSteps(cols: seq<Column>, added: seq<Attr>, k: nat, keys: set<Attnum>, bridge: Bridge, names: Namer)
    requires k < |added| && NumbersDiffer(added)
    ensures forall c :: AddedAs(c, cols, added[..k + 1], keys, bridge, names) <==>
              || AddedAs(c, cols, added[..k], keys, bridge, names)
              || (!HasNum(cols, added[k].attnum)
                  && MapColumn(added[k], added[k].attnum in keys, bridge, names) == Some(c))
    ensures forall c :: AddedAs(c, cols, added[..k], keys, bridge, names) ==> c.attnum != added[k].attnum
  {
    assert added[..k + 1] == added[..k] + [added[k]];
    forall c | AddedAs(c, cols, added[..k], keys, bridge, names)
      ensures c.attnum != added[k].attnum
    {
      var a :| a in added[..k] && !HasNum(cols, a.attnum) && MapColumn(a, a.attnum in keys, bridge, names) == Some(c);
      var i :| 0 <= i < k && added[i] == a;
    }
  }

  /** How the mapping after a fold relates to the one before. */
  ghost predicate FoldOf(after: seq<Column>, before: seq<Column>, now: Descriptor, d: Diff, retypes: seq<Retype>,
                         bridge: Bridge, names: Namer) {
    forall c :: c in after <==> Survives(c, before, d, retypes, names) || Joins(c, before, now, d, bridge, names)
  }

  ghost predicate Survives(c: Column, before: seq<Column>, d: Diff, retypes: seq<Retype>, names: Namer) {
    c.attnum !in d.dropped && exists b :: b in before && c == RenameAll(RetypeAll(b, retypes), d.renamed, names)
  }

  ghost predicate Joins(c: Column, before: seq<Column>, now: Descriptor, d: Diff, bridge: Bridge, names: Namer) {
    exists a :: a in d.added && !(HasNum(before, a.attnum) && a.attnum !in d.dropped)
                && MapColumn(a, a.attnum in now.keys, bridge, names) == Some(c)
  }

  lemma {:induction false} EditsKeepNumber(c: Column, rs: seq<Retype>, ns: seq<Rename>, names: Namer)
    ensures RetypeAll(c, rs).attnum == c.attnum && RetypeAll(c, rs).name == c.name
    ensures RenameAll(c, ns, names).attnum == c.attnum
    decreases |rs| + |ns|
  {
    if rs != [] {
      EditsKeepNumber(c, rs[..|rs| - 1], ns, names);
    } else if ns != [] {
      EditsKeepNumber(c, rs, ns[..|ns| - 1], names);
    }
  }

  lemma EditsNumbered(before: seq<Column>, edited: seq<Column>, rs: seq<Retype>, ns: seq<Rename>, names: Namer)
    requires |edited| == |before|
    requires forall i :: 0 <= i < |before| ==> edited[i] == RenameAll(RetypeAll(before[i], rs), ns, names)
    ensures forall c :: c in edited <==> exists b :: b in before && c == RenameAll(RetypeAll(b, rs), ns, names)
    ensures forall n :: HasNum(edited, n) <==> HasNum(before, n)
  {
    forall i | 0 <= i < |before|
      ensures edited[i].attnum == before[i].attnum
    {
      EditsKeepNumber(before[i], rs, ns, names);
      EditsKeepNumber(RetypeAll(before[i], rs), rs, ns, names);
    }
    forall n
      ensures HasNum(edited, n) <==> HasNum(before, n)
    {
      if HasNum(edited, n) {
        var i :| 0 <= i < |edited| && edited[i].attnum == n;
        assert before[i] in before;
      }
      if HasNum(before, n) {
        var i :| 0 <= i < |before| && before[i].attnum == n;
        assert edited[i] in edited;
      }
    }
    forall c | c in edited
      ensures exists b :: b in before && c == RenameAll(RetypeAll(b, rs), ns, names)
    {
      var i :| 0 <= i < |edited| && edited[i] == c;
      assert before[i] in before && c == RenameAll(RetypeAll(before[i], rs), ns, names);
    }
    forall c | exists b :: b in before && c == RenameAll(RetypeAll(b, rs), ns, names)
      ensures c in edited
    {
      var i :| 0 <= i < |before| && c == RenameAll(RetypeAll(before[i], rs), ns, names);
      assert edited[i] == c;
    }
  }

  /** Retype, rename, drop, add, in that order. */
  method FoldDiff(m: TableMapping, now: Descriptor, d: Diff, retypes: seq<Retype>, bridge: Bridge, names: Namer)
    requires NumbersDiffer(d.added)
    modifies m
    ensures FoldOf(m.columns, old(m.columns), now, d, retypes, bridge, names)
  {
    ghost var before := m.columns;
    m.ApplyRetypes(retypes);
    m.ApplyRenames(d.renamed, names);
    ghost var edited := m.columns;
    EditsNumbered(before, edited, retypes, d.renamed, names);
    m.Retain(d.dropped);
    ghost var kept := m.columns;
    m.AppendAdded(d.added, now.keys, bridge, names);
    forall n
      ensures HasNum(kept, n) <==> HasNum(before, n) && n !in d.dropped
    {
      if HasNum(edited, n) && n !in d.dropped {
        var c :| c in edited && c.attnum == n;
        assert c in kept;
      }
    }
  }

  // ------------------------------------------------------------------
  // Folding against deriving
  // ------------------------------------------------------------------

  predicate OnePerNumber(rs: seq<Rename>) { forall r, q :: r in rs && q in rs && r.attnum == q.attnum ==> r == q }

  /** Where the renames take a column named `s`. */
  ghost predicate FollowsTo(n: Attnum, s: string, t: string, rs: seq<Rename>, names: Namer) {
    || (exists r :: r in rs && r.attnum == n && r.before == s && t == Target(names, r.after))
    || (t == s && forall r :: r in rs && r.attnum == n ==> r.before != s)
  }

  lemma {:induction false} RenameAllFollows(c: Column, rs: seq<Rename>, names: Namer)
    requires OnePerNumber(rs)
    ensures FollowsTo(c.attnum, c.name, RenameAll(c, rs, names).name, rs, names)
    decreases |rs|
  {
    if rs != [] {
      var init, last := rs[..|rs| - 1], rs[|rs| - 1];
      assert rs == init + [last];
      RenameAllFollows(c, init, names);
      EditsKeepNumber(c, [], init, names);
      var x := RenameAll(c, init, names);
      if q :| q in init && q.attnum == c.attnum && q.before == c.name && x.name == Target(names, q.after) {
        assert q in rs && last in rs;
        assert last.attnum == c.attnum ==> last == q;
      }
    }
  }

  /** The fold seen through names alone. */
  ghost predicate FoldHas(before: seq<Column>, now: Descriptor, d: Diff, bridge: Bridge, names: Namer, n: Attnum,
      t: string) {
    || (n !in d.dropped && exists s :: Has(before, n, s) && FollowsTo(n, s, t, d.renamed, names))
    || JoinsAs(before, now, d, bridge, names, n, t)
  }

  ghost predicate JoinsAs(before: seq<Column>, now: Descriptor, d: Diff, bridge: Bridge, names: Namer, n: Attnum,
      t: string) {
    !(HasNum(before, n) && n !in d.dropped)
    && exists a :: a in d.added && a.attnum == n && bridge(a, n in now.keys).Some? && t == Target(names, a.name)
  }

  lemma FollowsOnce(n: Attnum, s: string, t: string, u: string, rs: seq<Rename>, names: Namer)
    requires OnePerNumber(rs) && FollowsTo(n, s, t, rs, names) && FollowsTo(n, s, u, rs, names)
    ensures t == u
  {
  }

  lemma SurvivesNamed(before: seq<Column>, d: Diff, retypes: seq<Retype>, names: Namer, n: Attnum, t: string)
    requires OnePerNumber(d.renamed)
    ensures (exists c :: Survives(c, before, d, retypes, names) && c.attnum == n && c.name == t)
       <==> (n !in d.dropped && exists s :: Has(before, n, s) && FollowsTo(n, s, t, d.renamed, names))
  {
    forall b | b in before
      ensures var c := RenameAll(RetypeAll(b, retypes), d.renamed, names);
              c.attnum == b.attnum && FollowsTo(b.attnum, b.name, c.name, d.renamed, names)
    {
      EditsKeepNumber(b, retypes, d.renamed, names);
      EditsKeepNumber(RetypeAll(b, retypes), retypes, d.renamed, names);
      RenameAllFollows(RetypeAll(b, retypes), d.renamed, names);
    }
    if n !in d.dropped {
      if s :| Has(before, n, s) && FollowsTo(n, s, t, d.renamed, names) {
        var b :| b in before && b.attnum == n && b.name == s;
        var c := RenameAll(RetypeAll(b, retypes), d.renamed, names);
        FollowsOnce(n, s, t, c.name, d.renamed, names);
        assert Survives(c, before, d, retypes, names);
      }
    }
    if c :| Survives(c, before, d, retypes, names) && c.attnum == n && c.name == t {
      var b :| b in before && c == RenameAll(RetypeAll(b, retypes), d.renamed, names);
      assert Has(before, n, b.name);
    }
  }

  lemma JoinsNamed(before: seq<Column>, now: Descriptor, d: Diff, bridge: Bridge, names: Namer, n: Attnum, t: string)
    ensures (exists c :: Joins(c, before, now, d, bridge, names) && c.attnum == n && c.name == t)
       <==> JoinsAs(before, now, d, bridge, names, n, t)
  {
    if JoinsAs(before, now, d, bridge, names, n, t) {
      var a :| a in d.added && a.attnum == n && bridge(a, n in now.keys).Some? && t == Target(names, a.name);
      var c := MapColumn(a, n in now.keys, bridge, names).value;
      assert Joins(c, before, now, d, bridge, names) && c.attnum == n && c.name == t;
    }
    if c :| Joins(c, before, now, d, bridge, names) && c.attnum == n && c.name == t {
      var a :| a in d.added && !(HasNum(before, a.attnum) && a.attnum !in d.dropped)
               && MapColumn(a, a.attnum in now.keys, bridge, names) == Some(c);
      assert a.attnum == n;
    }
  }

  lemma FoldNames(after: seq<Column>, before: seq<Column>, now: Descriptor, d: Diff, retypes: seq<Retype>,
                  bridge: Bridge, names: Namer)
    requires FoldOf(after, before, now, d, retypes, bridge, names) && OnePerNumber(d.renamed)
    ensures forall n, t :: Has(after, n, t) <==> FoldHas(before, now, d, bridge, names, n, t)
  {
    forall n, t
      ensures Has(after, n, t) <==> FoldHas(before, now, d, bridge, names, n, t)
    {
      SurvivesNamed(before, d, retypes, names, n, t);
      JoinsNamed(before, now, d, bridge, names, n, t);
    }
  }

  // ------------------------------------------------------------------
  // Agreement
  // ------------------------------------------------------------------

  ghost predicate DerivesAs(x: Descriptor, bridge: Bridge, names: Namer, n: Attnum, t: string) {
    exists a :: IsLive(x.attrs, a) && a.attnum == n && bridge(a, n in x.keys).Some? && t == Target(names, a.name)
  }

  lemma DeriveNames(x: Descriptor, bridge: Bridge, names: Namer, n: Attnum, t: string)
    ensures Has(Derive(x.attrs, x.keys, bridge, names), n, t) <==> DerivesAs(x, bridge, names, n, t)
  {
    var cols := Derive(x.attrs, x.keys, bridge, names);
    if Has(cols, n, t) {
      var c :| c in cols && c.attnum == n && c.name == t;
      DeriveHas(x.attrs, x.keys, bridge, names, c);
      var a :| IsLive(x.attrs, a) && MapColumn(a, a.attnum in x.keys, bridge, names) == Some(c);
      assert a.attnum == n;
    }
    if DerivesAs(x, bridge, names, n, t) {
      var a :| IsLive(x.attrs, a) && a.attnum == n && bridge(a, n in x.keys).Some? && t == Target(names, a.name);
      var c := MapColumn(a, n in x.keys, bridge, names).value;
      DeriveHas(x.attrs, x.keys, bridge, names, c);
      assert c in cols;
    }
  }

  /**
   A column both descriptors have: the type bridge takes both or neither, and if the
   source renamed it, the old target name was the source's own, or does not change.
   */
  predicate PairAgrees(was: Descriptor, now: Descriptor, a: Attr, b: Attr, bridge: Bridge, names: Namer) {
    && (bridge(a, a.attnum in was.keys).Some? <==> bridge(b, b.attnum in now.keys).Some?)
    && (bridge(a, a.attnum in was.keys).Some? && a.name != b.name ==>
          Target(names, a.name) == a.name || Target(names, a.name) == Target(names, b.name))
  }

  ghost predicate Agrees(was: Descriptor, now: Descriptor, bridge: Bridge, names: Namer) {
    forall a, b :: IsLive(was.attrs, a) && IsLive(now.attrs, b) && a.attnum == b.attnum ==>
        PairAgrees(was, now, a, b, bridge, names)
  }

  lemma UniqueLive(attrs: seq<Attr>, a: Attr, b: Attr)
    requires Unique(attrs) && IsLive(attrs, a) && IsLive(attrs, b) && a.attnum == b.attnum
    ensures a == b
  {
    var i :| 0 <= i < |attrs| && attrs[i] == a;
    var j :| 0 <= j < |attrs| && attrs[j] == b;
  }

  lemma RenamesOnce(d: Diff, was: seq<Attr>, now: seq<Attr>)
    requires DiffOf(d, was, now) && Unique(was) && Unique(now)
    ensures OnePerNumber(d.renamed)
  {
    forall r, q | r in d.renamed && q in d.renamed && r.attnum == q.attnum
      ensures r == q
    {
      var a, b :| IsLive(was, a) && IsLive(now, b) && a.attnum == b.attnum && a.name != b.name
          && r == Rename(a.attnum, a.name, b.name);
      var x, y :| IsLive(was, x) && IsLive(now, y) && x.attnum == y.attnum && x.name != y.name
          && q == Rename(x.attnum, x.name, y.name);
      UniqueLive(was, a, x);
      UniqueLive(now, b, y);
    }
  }

  /** The one rename of a column both descriptors have, if its name changed. */
  lemma RenameOfPair(d: Diff, was: seq<Attr>, now: seq<Attr>, a: Attr, b: Attr)
    requires DiffOf(d, was, now) && Unique(was) && Unique(now)
    requires IsLive(was, a) && IsLive(now, b) && a.attnum == b.attnum
    ensures forall r :: r in d.renamed && r.attnum == a.attnum <==>
              a.name != b.name && r == Rename(a.attnum, a.name, b.name)
  {
    forall r | r in d.renamed && r.attnum == a.attnum
      ensures a.name != b.name && r == Rename(a.attnum, a.name, b.name)
    {
      var x, y :| IsLive(was, x) && IsLive(now, y) && x.attnum == y.attnum && x.name != y.name
          && r == Rename(x.attnum, x.name, y.name);
      UniqueLive(was, a, x);
      UniqueLive(now, b, y);
    }
  }

  lemma SharedColumn(was: Descriptor, now: Descriptor, d: Diff, bridge: Bridge, names: Namer, a: Attr, b: Attr)
    requires DiffOf(d, was.attrs, now.attrs) && Unique(was.attrs) && Unique(now.attrs)
    requires IsLive(was.attrs, a) && IsLive(now.attrs, b) && a.attnum == b.attnum
    ensures var before := Derive(was.attrs, was.keys, bridge, names);
            (forall t :: FoldHas(before, now, d, bridge, names, a.attnum, t) <==>
                DerivesAs(now, bridge, names, a.attnum, t))
            <==> PairAgrees(was, now, a, b, bridge, names)
  {
    var before := Derive(was.attrs, was.keys, bridge, names);
    var n := a.attnum;
    var s := Target(names, a.name);
    var okA, okB := bridge(a, n in was.keys).Some?, bridge(b, n in now.keys).Some?;
    RenameOfPair(d, was.attrs, now.attrs, a, b);
    assert LiveNum(was.attrs, n) && LiveNum(now.attrs, n) && n !in d.dropped;
    var folded := if a.name != b.name && s == a.name then Target(names, b.name) else s;
    forall t
      ensures FoldHas(before, now, d, bridge, names, n, t) <==> okA && t == folded
      ensures DerivesAs(now, bridge, names, n, t) <==> okB && t == Target(names, b.name)
    {
      SharedFolds(was, now, d, bridge, names, a, b, t);
      if DerivesAs(now, bridge, names, n, t) {
        var y :| IsLive(now.attrs, y) && y.attnum == n && bridge(y, n in now.keys).Some? && t == Target(names, y.name);
        UniqueLive(now.attrs, b, y);
      }
    }
    assert FoldHas(before, now, d, bridge, names, n, folded) <==> okA;
    assert DerivesAs(now, bridge, names, n, Target(names, b.name)) <==> okB;
  }

  lemma SharedFolds(was: Descriptor, now: Descriptor, d: Diff, bridge: Bridge, names: Namer, a: Attr, b: Attr,
      t: string)
    requires DiffOf(d, was.attrs, now.attrs) && Unique(was.attrs) && Unique(now.attrs)
    requires IsLive(was.attrs, a) && IsLive(now.attrs, b) && a.attnum == b.attnum
    ensures var before := Derive(was.attrs, was.keys, bridge, names);
            var s := Target(names, a.name);
            FoldHas(before, now, d, bridge, names, a.attnum, t)
            <==> bridge(a, a.attnum in was.keys).Some? && t == if a.name != b.name
                && s == a.name then Target(names, b.name) else s
  {
    var before := Derive(was.attrs, was.keys, bridge, names);
    var n, s := a.attnum, Target(names, a.name);
    RenameOfPair(d, was.attrs, now.attrs, a, b);
    assert LiveNum(was.attrs, n) && LiveNum(now.attrs, n) && n !in d.dropped;
    assert forall x :: x in d.added ==> x.attnum != n;
    forall u
      ensures Has(before, n, u) <==> bridge(a, n in was.keys).Some? && u == s
    {
      DeriveNames(was, bridge, names, n, u);
      if DerivesAs(was, bridge, names, n, u) {
        var x :| IsLive(was.attrs, x) && x.attnum == n && bridge(x, n in was.keys).Some? && u == Target(names, x.name);
        UniqueLive(was.attrs, a, x);
      }
    }
    assert a.name != b.name ==> Rename(n, a.name, b.name) in d.renamed;
    assert FollowsTo(n, s, t, d.renamed, names) <==>
             t == if a.name != b.name && s == a.name then Target(names, b.name) else s;
  }

  /** A column only one descriptor has is folded as derived. */
  lemma UnsharedColumn(was: Descriptor, now: Descriptor, d: Diff, bridge: Bridge, names: Namer, n: Attnum, t: string)
    requires DiffOf(d, was.attrs, now.attrs) && Unique(was.attrs) && Unique(now.attrs)
    requires !LiveNum(was.attrs, n) || !LiveNum(now.attrs, n)
    ensures var before := Derive(was.attrs, was.keys, bridge, names);
            FoldHas(before, now, d, bridge, names, n, t) <==> DerivesAs(now, bridge, names, n, t)
  {
    var before := Derive(was.attrs, was.keys, bridge, names);
    forall u
      ensures Has(before, n, u) ==> LiveNum(was.attrs, n)
    {
      DeriveNames(was, bridge, names, n, u);
    }
    assert HasNum(before, n) ==> exists u :: Has(before, n, u) by {
      if HasNum(before, n) {
        var c :| c in before && c.attnum == n;
        assert Has(before, n, c.name);
      }
    }
    assert LiveNum(was.attrs, n) ==> n in d.dropped;
    assert forall a :: a in d.added && a.attnum == n <==>
             IsLive(now.attrs, a) && a.attnum == n && !LiveNum(was.attrs, n);
  }

  lemma FoldCongruent(a: seq<Column>, b: seq<Column>, now: Descriptor, d: Diff, bridge: Bridge, names: Namer,
      n: Attnum, t: string)
    requires SameNames(a, b)
    ensures FoldHas(a, now, d, bridge, names, n, t) <==> FoldHas(b, now, d, bridge, names, n, t)
  {
    assert HasNum(a, n) ==> HasNum(b, n) by {
      if HasNum(a, n) {
        var c :| c in a && c.attnum == n;
        assert Has(a, n, c.name) && Has(b, n, c.name);
      }
    }
    assert HasNum(b, n) ==> HasNum(a, n) by {
      if HasNum(b, n) {
        var c :| c in b && c.attnum == n;
        assert Has(b, n, c.name) && Has(a, n, c.name);
      }
    }
  }

  /** Any mapping with the derived names folds as the derived one does. */
  lemma FoldAsDerived(was: Descriptor, now: Descriptor, d: Diff, retypes: seq<Retype>, before: seq<Column>,
                      after: seq<Column>, bridge: Bridge, names: Namer)
    requires Unique(was.attrs) && Unique(now.attrs) && DiffOf(d, was.attrs, now.attrs)
    requires SameNames(before, Derive(was.attrs, was.keys, bridge, names))
    requires FoldOf(after, before, now, d, retypes, bridge, names)
    ensures forall n, t :: Has(after, n, t) <==>
              FoldHas(Derive(was.attrs, was.keys, bridge, names), now, d, bridge, names, n, t)
  {
    RenamesOnce(d, was.attrs, now.attrs);
    FoldNames(after, before, now, d, retypes, bridge, names);
    forall n, t
      ensures Has(after, n, t) <==>
                FoldHas(Derive(was.attrs, was.keys, bridge, names), now, d, bridge, names, n, t)
    {
      FoldCongruent(before, Derive(was.attrs, was.keys, bridge, names), now, d, bridge, names, n, t);
    }
  }

  /** Folding the difference gives the names deriving afresh would, exactly when every shared column agrees. */
  lemma FoldEqualsDerivationIff(was: Descriptor, now: Descriptor, d: Diff, retypes: seq<Retype>, before: seq<Column>,
                                after: seq<Column>, bridge: Bridge, names: Namer)
    requires Unique(was.attrs) && Unique(now.attrs) && DiffOf(d, was.attrs, now.attrs)
    requires SameNames(before, Derive(was.attrs, was.keys, bridge, names))
    requires FoldOf(after, before, now, d, retypes, bridge, names)
    ensures SameNames(after, Derive(now.attrs, now.keys, bridge, names)) <==> Agrees(was, now, bridge, names)
  {
    var anew := Derive(now.attrs, now.keys, bridge, names);
    FoldAsDerived(was, now, d, retypes, before, after, bridge, names);
    forall n, t
      ensures Has(anew, n, t) <==> DerivesAs(now, bridge, names, n, t)
    {
      DeriveNames(now, bridge, names, n, t);
    }
    forall a, b | IsLive(was.attrs, a) && IsLive(now.attrs, b) && a.attnum == b.attnum
      ensures (forall t :: Has(after, a.attnum, t) <==> Has(anew, a.attnum, t)) <==>
                PairAgrees(was, now, a, b, bridge, names)
    {
      SharedColumn(was, now, d, bridge, names, a, b);
    }
    if Agrees(was, now, bridge, names) {
      forall n, t
        ensures Has(after, n, t) <==> Has(anew, n, t)
      {
        if LiveNum(was.attrs, n) && LiveNum(now.attrs, n) {
          var a :| a in was.attrs && !a.dropped && a.attnum == n;
          var b :| b in now.attrs && !b.dropped && b.attnum == n;
          assert PairAgrees(was, now, a, b, bridge, names);
        } else {
          UnsharedColumn(was, now, d, bridge, names, n, t);
        }
      }
    }
  }

  /** Two sets of column rules send every mapped column to the same name. */
  ghost predicate Alike(x: Descriptor, bridge: Bridge, n: Namer, m: Namer) {
    forall a :: IsLive(x.attrs, a) && bridge(a, a.attnum in x.keys).Some? ==> Target(n, a.name) == Target(m, a.name)
  }

  /** A change of column rules keeps the derived names exactly then. */
  lemma AlikeIff(x: Descriptor, bridge: Bridge, n: Namer, m: Namer)
    requires Unique(x.attrs)
    ensures SameNames(Derive(x.attrs, x.keys, bridge, n), Derive(x.attrs, x.keys, bridge, m)) <==> Alike(x, bridge, n, m)
  {
    forall k, t
      ensures Has(Derive(x.attrs, x.keys, bridge, n), k, t) <==> DerivesAs(x, bridge, n, k, t)
      ensures Has(Derive(x.attrs, x.keys, bridge, m), k, t) <==> DerivesAs(x, bridge, m, k, t)
    {
      DeriveNames(x, bridge, n, k, t);
      DeriveNames(x, bridge, m, k, t);
    }
    if SameNames(Derive(x.attrs, x.keys, bridge, n), Derive(x.attrs, x.keys, bridge, m)) {
      forall a | IsLive(x.attrs, a) && bridge(a, a.attnum in x.keys).Some?
        ensures Target(n, a.name) == Target(m, a.name)
      {
        assert DerivesAs(x, bridge, n, a.attnum, Target(n, a.name));
        assert DerivesAs(x, bridge, m, a.attnum, Target(n, a.name));
        var b :| IsLive(x.attrs, b) && b.attnum == a.attnum && Target(n, a.name) == Target(m, b.name);
        UniqueLive(x.attrs, a, b);
      }
    }
  }

  // ------------------------------------------------------------------
  // Chains of ALTERs
  // ------------------------------------------------------------------

  ghost predicate Chain(descs: seq<Descriptor>, maps: seq<seq<Column>>, diffs: seq<Diff>, retypes: seq<seq<Retype>>,
                        bridge: Bridge, names: Namer) {
    && |descs| == |maps| == |diffs| + 1 && |retypes| == |diffs|
    && maps[0] == Derive(descs[0].attrs, descs[0].keys, bridge, names)
    && (forall i :: 0 <= i < |descs| ==> Unique(descs[i].attrs))
    && (forall i :: 0 <= i < |diffs| ==> DiffOf(diffs[i], descs[i].attrs, descs[i + 1].attrs))
    && (forall i :: 0 <= i < |diffs| ==> FoldOf(maps[i + 1], maps[i], descs[i + 1], diffs[i], retypes[i], bridge,
        names))
  }

  lemma ChainStep(was: Descriptor, now: Descriptor, d: Diff, retypes: seq<Retype>, before: seq<Column>,
      after: seq<Column>,
                  bridge: Bridge, names: Namer)
    requires Unique(was.attrs) && Unique(now.attrs) && DiffOf(d, was.attrs, now.attrs)
    requires SameNames(before, Derive(was.attrs, was.keys, bridge, names))
    requires FoldOf(after, before, now, d, retypes, bridge, names) && Agrees(was, now, bridge, names)
    ensures SameNames(after, Derive(now.attrs, now.keys, bridge, names))
  {
    FoldEqualsDerivationIff(was, now, d, retypes, before, after, bridge, names);
  }

  /** Along any chain of ALTERs whose steps agree, the folded mapping never drifts from the derived one. */
  lemma {:induction false} ChainNeverDrifts(descs: seq<Descriptor>, maps: seq<seq<Column>>, diffs: seq<Diff>,
                                            retypes: seq<seq<Retype>>, bridge: Bridge, names: Namer, i: nat)
    requires Chain(descs, maps, diffs, retypes, bridge, names) && i < |descs|
    requires forall k :: 0 <= k < i ==> Agrees(descs[k], descs[k + 1], bridge, names)
    ensures SameNames(maps[i], Derive(descs[i].attrs, descs[i].keys, bridge, names))
  {
    if i > 0 {
      ChainNeverDrifts(descs, maps, diffs, retypes, bridge, names, i - 1);
      ChainStep(descs[i - 1], descs[i], diffs[i - 1], retypes[i - 1], maps[i - 1], maps[i], bridge, names);
    }
  }

  /** With a total bridge and no renaming rule every step agrees, name swaps included. */
  lemma PlainRulesAgree(was: Descriptor, now: Descriptor, bridge: Bridge, names: Namer)
    requires forall a, k :: bridge(a, k).Some?
    requires forall n :: names(n).None?
    ensures Agrees(was, now, bridge, names)
  {
  }

  // ------------------------------------------------------------------
  // The fold as a function of the mapping
  // ------------------------------------------------------------------

  function Survivors(before: seq<Column>, d: Diff, retypes: seq<Retype>, names: Namer): seq<Column> {
    if before == [] then []
    else
      var b := before[|before| - 1];
      Survivors(before[..|before| - 1], d, retypes, names)
      + (if b.attnum in d.dropped then [] else [RenameAll(RetypeAll(b, retypes), d.renamed, names)])
  }

  function Joiners(added: seq<Attr>, before: seq<Column>, now: Descriptor, d: Diff, bridge: Bridge,
                   names: Namer): seq<Column> {
    if added == [] then []
    else
      var a := added[|added| - 1];
      var c := MapColumn(a, a.attnum in now.keys, bridge, names);
      Joiners(added[..|added| - 1], before, now, d, bridge, names)
      + (if c.None? || (HasNum(before, a.attnum) && a.attnum !in d.dropped) then [] else [c.value])
  }

  function Fold(before: seq<Column>, now: Descriptor, d: Diff, retypes: seq<Retype>, bridge: Bridge,
                names: Namer): seq<Column> {
    Survivors(before, d, retypes, names) + Joiners(d.added, before, now, d, bridge, names)
  }

  lemma {:induction false} SurvivorsAre(before: seq<Column>, d: Diff, retypes: seq<Retype>, names: Namer, c: Column)
    ensures c in Survivors(before, d, retypes, names) <==> Survives(c, before, d, retypes, names)
    decreases |before|
  {
    if before != [] {
      var init, b := before[..|before| - 1], before[|before| - 1];
      assert before == init + [b];
      SurvivorsAre(init, d, retypes, names, c);
      EditsKeepNumber(b, retypes, d.renamed, names);
      EditsKeepNumber(RetypeAll(b, retypes), retypes, d.renamed, names);
    }
  }

  lemma {:induction false} JoinersAre(added: seq<Attr>, before: seq<Column>, now: Descriptor, d: Diff, bridge: Bridge,
                                      names: Namer, c: Column)
    ensures c in Joiners(added, before, now, d, bridge, names)
       <==> exists a :: a in added && !(HasNum(before, a.attnum) && a.attnum !in d.dropped)
                        && MapColumn(a, a.attnum in now.keys, bridge, names) == Some(c)
    decreases |added|
  {
    if added != [] {
      var init, a := added[..|added| - 1], added[|added| - 1];
      assert added == init + [a];
      JoinersAre(init, before, now, d, bridge, names, c);
    }
  }

  /** Every difference has a fold. */
  lemma FoldFolds(before: seq<Column>, now: Descriptor, d: Diff, retypes: seq<Retype>, bridge: Bridge, names: Namer)
    ensures FoldOf(Fold(before, now, d, retypes, bridge, names), before, now, d, retypes, bridge, names)
  {
    forall c
      ensures c in Fold(before, now, d, retypes, bridge, names)
         <==> Survives(c, before, d, retypes, names) || Joins(c, before, now, d, bridge, names)
    {
      SurvivorsAre(before, d, retypes, names, c);
      JoinersAre(d.added, before, now, d, bridge, names, c);
    }
  }

  // ------------------------------------------------------------------
  // Two inputs on which the fold falls behind
  // ------------------------------------------------------------------

  const WAS := Attr(1, "city", 25, false, false)
  const RENAMED := Attr(1, "town", 25, false, false)
  const RETYPED := Attr(1, "city", 600, false, false)

  /** Every type maps. */
  function AnyType(): Bridge { (_, _) => Some("String") }

  /** Type 600 maps to nothing. */
  function NoPoints(): Bridge { (a: Attr, _) => if a.ty == 600 then None else Some("String") }

  /** `city` goes to `location`; nothing is said of `town`. */
  function CityRule(): Namer { n => if n == "city" then Some("location") else None }

  function NoRule(): Namer { _ => None }

  lemma OneColumn(a: Attr, bridge: Bridge, names: Namer)
    requires !a.dropped
    ensures Unique([a]) && (forall x :: IsLive([a], x) <==> x == a) && (forall n :: LiveNum([a], n) <==> n == a.attnum)
    ensures Derive([a], {}, bridge, names)
         == if bridge(a, false).Some? then [Column(a.attnum, Target(names, a.name), bridge(a, false).value)] else []
  {
    assert [a][..0] == [];
    assert a in [a];
  }

  lemma RenamedDiffers()
    ensures DiffOf(Diff([], [], [Rename(1, "city", "town")], []), [WAS], [RENAMED])
  {
    OneColumn(WAS, AnyType(), NoRule());
    OneColumn(RENAMED, AnyType(), NoRule());
    assert "city"[0] != "town"[0];
    assert RenameIn(Rename(1, "city", "town"), [WAS], [RENAMED]);
    assert forall p :: !RetypeIn(p, [WAS], [RENAMED]);
  }

  /** A renaming rule and a later rename of the source column: the mapping keeps the rule's name for the old one. */
  lemma RenamedUnderRuleLags()
    ensures var was, now := Descriptor([WAS], {}), Descriptor([RENAMED], {});
            var d := Diff([], [], [Rename(1, "city", "town")], []);
            && DiffOf(d, was.attrs, now.attrs)
            && FoldOf([Column(1, "location", "String")], Derive(was.attrs, {}, AnyType(), CityRule()), now, d, [],
                      AnyType(), CityRule())
            && Derive(now.attrs, {}, AnyType(), CityRule()) == [Column(1, "town", "String")]
  {
    RenamedDiffers();
    OneColumn(WAS, AnyType(), CityRule());
    OneColumn(RENAMED, AnyType(), CityRule());
    assert "city"[0] != "town"[0] && |"location"| != |"city"|;
    var d := Diff([], [], [Rename(1, "city", "town")], []);
    var c := Column(1, "location", "String");
    assert d.renamed[..0] == [];
    assert RenameAll(RetypeAll(c, []), d.renamed, CityRule()) == c;
    assert forall x :: x in [c] <==> Survives(x, [c], d, [], CityRule());
  }

  /** A column whose type loses its counterpart stays mapped although a fresh derivation leaves it out. */
  lemma UnmappedTypeLags()
    ensures var was, now := Descriptor([WAS], {}), Descriptor([RETYPED], {});
            var d := Diff([], [], [], [(WAS, RETYPED)]);
            && DiffOf(d, was.attrs, now.attrs)
            && FoldOf([Column(1, "city", "String")], Derive(was.attrs, {}, NoPoints(), NoRule()), now, d, [],
                      NoPoints(), NoRule())
            && Derive(now.attrs, {}, NoPoints(), NoRule()) == []
  {
    OneColumn(WAS, NoPoints(), NoRule());
    OneColumn(RETYPED, NoPoints(), NoRule());
    var d := Diff([], [], [], [(WAS, RETYPED)]);
    assert forall p :: RetypeIn(p, [WAS], [RETYPED]) <==> p == (WAS, RETYPED);
    assert forall r :: !RenameIn(r, [WAS], [RETYPED]);
    var c := Column(1, "city", "String");
    assert Derive([WAS], {}, NoPoints(), NoRule()) == [c];
    assert RenameAll(RetypeAll(c, []), d.renamed, NoRule()) == c;
    assert forall x :: x in [c] <==> Survives(x, [c], d, [], NoRule());
  }

  /** And one that gains a counterpart is not picked up. */
  lemma MappedTypeLags()
    ensures var was, now := Descriptor([RETYPED], {}), Descriptor([WAS], {});
            var d := Diff([], [], [], [(RETYPED, WAS)]);
            && DiffOf(d, was.attrs, now.attrs)
            && FoldOf([], Derive(was.attrs, {}, NoPoints(), NoRule()), now, d, [], NoPoints(), NoRule())
            && Derive(now.attrs, {}, NoPoints(), NoRule()) == [Column(1, "city", "String")]
  {
    OneColumn(WAS, NoPoints(), NoRule());
    OneColumn(RETYPED, NoPoints(), NoRule());
    assert forall p :: RetypeIn(p, [RETYPED], [WAS]) <==> p == (RETYPED, WAS);
    assert forall r :: !RenameIn(r, [RETYPED], [WAS]);
  }
}
