/**
 The two ways a catalog scan reads its heap: one keyed scan per requested oid under
 the catalog's lock, or, when the lock is not to be had, a single pass over the heap
 that looks each row's key up in the sorted oid list. Whether a row is visible is here
 any function of it; CatalogReads puts the extension's own in its place.
 */
module CatalogScan {
  import opened Basics
  import opened Visibility = CatalogVisibility

  type Oid = nat

  datatype Catalog = ClassCat | AttributeCat | IndexCat | InheritsCat | NamespaceCat | TypeCat

  /** `keyed`: the catalog can be scoped by an oid list. `minAttnum`: 0 when rows carry none. */
  datatype Plan = Plan(keyed: bool, minAttnum: int)

  function CatalogPlan(cat: Catalog): Plan {
    match cat
    case ClassCat => Plan(true, 0)
    case AttributeCat => Plan(true, 1)
    case IndexCat => Plan(true, 0)
    case InheritsCat => Plan(true, 0)
    case NamespaceCat => Plan(false, 0)
    case TypeCat => Plan(false, 0)
  }

  /** A heap tuple: key attribute (null never matches), attribute number, the row version it is. */
  datatype Tuple = Tuple(key: Option<Oid>, attnum: int, version: Version)

  const BLANK := Version(0, None, [], NO_HINTS)

  type Judge = (Tuple, bool) -> Verdict

  /** Rows a scan is after. */
  datatype Want = Whole | Keyed(key: Oid) | Among(keys: set<Oid>)

  predicate Wanted(p: Plan, w: Want, t: Tuple) {
    && (p.minAttnum != 0 ==> t.attnum >= p.minAttnum)
    && match w
       case Whole => true
       case Keyed(k) => t.key == Some(k)
       case Among(ks) => t.key.Some? && t.key.value in ks
  }

  /** What a scan leaves behind; a failed one is discarded whole. */
  datatype Tally = Tally(rows: multiset<Tuple>, scanned: nat, mismatches: nat) | Failure

  function Plus(a: Tally, b: Tally): Tally {
    if a.Failure? || b.Failure? then Failure
    else Tally(a.rows + b.rows, a.scanned + b.scanned, a.mismatches + b.mismatches)
  }

  const Nothing := Tally(multiset{}, 0, 0)

  function One(t: Tuple, judge: Judge, scoped: bool): Tally {
    match judge(t, scoped)
    case Inconclusive => Failure
    case Verdict(visible, m) => Tally(if visible then multiset{t} else multiset{}, 1, m)
  }

  /** Reference: what the wanted rows of a heap amount to, whatever order they are met in. */
  function TallyOf(heap: seq<Tuple>, p: Plan, w: Want, judge: Judge, scoped: bool): Tally {
    if heap == [] then Nothing
    else
      var rest := TallyOf(heap[..|heap| - 1], p, w, judge, scoped);
      var t := heap[|heap| - 1];
      if Wanted(p, w, t) then Plus(rest, One(t, judge, scoped)) else rest
  }

  lemma {:induction false} TallyConcat(a: seq<Tuple>, b: seq<Tuple>, p: Plan, w: Want, judge: Judge, scoped: bool)
    ensures TallyOf(a + b, p, w, judge, scoped)
              == Plus(TallyOf(a, p, w, judge, scoped), TallyOf(b, p, w, judge, scoped))
    decreases |b|
  {
    if b == [] {
      assert a + b == a;
      TallyUnit(TallyOf(a, p, w, judge, scoped));
    } else {
      assert (a + b)[..|a + b| - 1] == a + b[..|b| - 1];
      TallyConcat(a, b[..|b| - 1], p, w, judge, scoped);
      if Wanted(p, w, b[|b| - 1]) {
        PlusAssociates(TallyOf(a, p, w, judge, scoped), TallyOf(b[..|b| - 1], p, w, judge, scoped),
            One(b[|b| - 1], judge, scoped));
      }
    }
  }

  lemma TallyUnit(a: Tally)
    ensures Plus(a, Nothing) == a && Plus(Nothing, a) == a
  {
    if a.Tally? {
      assert a.rows + multiset{} == a.rows;
      assert multiset{} + a.rows == a.rows;
    }
  }

  lemma PlusAssociates(a: Tally, b: Tally, c: Tally)
    ensures Plus(a, Plus(b, c)) == Plus(Plus(a, b), c)
  {
    if a.Tally? && b.Tally? && c.Tally? {
      assert a.rows + (b.rows + c.rows) == (a.rows + b.rows) + c.rows;
    }
  }

  lemma PlusCommutes(a: Tally, b: Tally)
    ensures Plus(a, b) == Plus(b, a)
  {
    if a.Tally? && b.Tally? {
      assert a.rows + b.rows == b.rows + a.rows;
    }
  }

  lemma TallyMove(before: seq<Tuple>, t: Tuple, after: seq<Tuple>, p: Plan, w: Want, judge: Judge, scoped: bool)
    ensures TallyOf(before + [t] + after, p, w, judge, scoped) == TallyOf(before + after + [t], p, w, judge, scoped)
  {
    var a, x, b := TallyOf(before, p, w, judge, scoped), TallyOf([t], p, w, judge, scoped),
        TallyOf(after, p, w, judge, scoped);
    TallyConcat(before + [t], after, p, w, judge, scoped);
    TallyConcat(before, [t], p, w, judge, scoped);
    TallyConcat(before + after, [t], p, w, judge, scoped);
    TallyConcat(before, after, p, w, judge, scoped);
    PlusAssociates(a, x, b);
    PlusAssociates(a, b, x);
    PlusCommutes(x, b);
  }

  /** The order rows are met in does not matter. */
  lemma {:induction false} TallyPermutes(a: seq<Tuple>, b: seq<Tuple>, p: Plan, w: Want, judge: Judge, scoped: bool)
    requires multiset(a) == multiset(b)
    ensures TallyOf(a, p, w, judge, scoped) == TallyOf(b, p, w, judge, scoped)
    decreases |a|
  {
    if a == [] {
      assert |multiset(b)| == 0;
    } else {
      var t, init := a[|a| - 1], a[..|a| - 1];
      assert a == init + [t];
      assert t in multiset(b);
      var i :| 0 <= i < |b| && b[i] == t;
      var rest := b[..i] + b[i + 1..];
      TakenOut(a, |a| - 1);
      assert a[..|a| - 1] + a[|a|..] == init;
      TakenOut(b, i);
      TallyPermutes(init, rest, p, w, judge, scoped);
      TallyMove(b[..i], t, b[i + 1..], p, w, judge, scoped);
      TallyConcat(init, [t], p, w, judge, scoped);
      TallyConcat(rest, [t], p, w, judge, scoped);
    }
  }

  /** The attribute catalog never yields a system column, whatever was asked. */
  lemma {:induction false} AttributeRowsAreUserColumns(heap: seq<Tuple>, w: Want, judge: Judge, scoped: bool)
    ensures var t := TallyOf(heap, CatalogPlan(AttributeCat), w, judge, scoped);
            t.Tally? ==> forall row :: row in t.rows ==> row.attnum >= 1
    decreases |heap|
  {
    if heap != [] {
      AttributeRowsAreUserColumns(heap[..|heap| - 1], w, judge, scoped);
    }
  }

  // ------------------------------------------------------------------
  // Per-oid scans add up to the set
  // ------------------------------------------------------------------

  function Elements(s: seq<Oid>): set<Oid> { set x | x in s }

  /** One scan per list entry, in list order. */
  function PerOid(heap: seq<Tuple>, p: Plan, oids: seq<Oid>, judge: Judge): Tally {
    if oids == [] then Nothing
    else Plus(PerOid(heap, p, oids[..|oids| - 1], judge), TallyOf(heap, p, Keyed(oids[|oids| - 1]), judge, true))
  }

  lemma {:induction false} AmongSplits(heap: seq<Tuple>, p: Plan, keys: set<Oid>, k: Oid, judge: Judge)
    requires k !in keys
    ensures TallyOf(heap, p, Among(keys + {k}), judge, true)
         == Plus(TallyOf(heap, p, Among(keys), judge, true), TallyOf(heap, p, Keyed(k), judge, true))
    decreases |heap|
  {
    if heap != [] {
      var init, t := heap[..|heap| - 1], heap[|heap| - 1];
      AmongSplits(init, p, keys, k, judge);
      var a, b := TallyOf(init, p, Among(keys), judge, true), TallyOf(init, p, Keyed(k), judge, true);
      var x := One(t, judge, true);
      if Wanted(p, Keyed(k), t) {
        PlusAssociates(a, b, x);
      } else if Wanted(p, Among(keys), t) {
        PlusAssociates(a, b, x);
        PlusCommutes(b, x);
        PlusAssociates(a, x, b);
      }
    } else {
      TallyUnit(Nothing);
    }
  }

  lemma {:induction false} NoneWanted(heap: seq<Tuple>, p: Plan, judge: Judge)
    ensures TallyOf(heap, p, Among({}), judge, true) == Nothing
    decreases |heap|
  {
    if heap != [] {
      NoneWanted(heap[..|heap| - 1], p, judge);
    }
  }

  lemma ElementsSnoc(init: seq<Oid>, k: Oid)
    ensures Elements(init + [k]) == Elements(init) + {k}
  {
  }

  lemma DistinctInit(init: seq<Oid>, k: Oid)
    requires Distinct(init + [k])
    ensures Distinct(init) && k !in Elements(init)
  {
    var s := init + [k];
    assert forall i :: 0 <= i < |init| ==> s[i] == init[i] && s[i] != s[|init|];
  }

  lemma PerOidSnoc(heap: seq<Tuple>, p: Plan, init: seq<Oid>, k: Oid, judge: Judge)
    ensures PerOid(heap, p, init + [k], judge)
              == Plus(PerOid(heap, p, init, judge), TallyOf(heap, p, Keyed(k), judge, true))
  {
    assert (init + [k])[..|init|] == init;
  }

  lemma {:induction false} DistinctScansAddUp(heap: seq<Tuple>, p: Plan, oids: seq<Oid>, judge: Judge)
    requires Distinct(oids)
    ensures PerOid(heap, p, oids, judge) == TallyOf(heap, p, Among(Elements(oids)), judge, true)
    decreases |oids|
  {
    if oids == [] {
      assert Elements(oids) == {};
      NoneWanted(heap, p, judge);
    } else {
      var init, k := oids[..|oids| - 1], oids[|oids| - 1];
      assert oids == init + [k];
      DistinctInit(init, k);
      DistinctScansAddUp(heap, p, init, judge);
      AmongSplits(heap, p, Elements(init), k, judge);
      ElementsSnoc(init, k);
      PerOidSnoc(heap, p, init, k, judge);
    }
  }

  lemma TallySingle(t: Tuple, p: Plan, w: Want, judge: Judge)
    ensures TallyOf([t], p, w, judge, true) == if Wanted(p, w, t) then One(t, judge, true) else Nothing
  {
    assert [t][..|[t]| - 1] == [];
    assert TallyOf([], p, w, judge, true) == Nothing;
    TallyUnit(One(t, judge, true));
  }

  lemma {:induction false} SingleRowCounted(t: Tuple, p: Plan, oids: seq<Oid>, judge: Judge)
    requires t.key.Some? && Wanted(p, Whole, t) && judge(t, true).Verdict?
    ensures PerOid([t], p, oids, judge).Tally?
    ensures PerOid([t], p, oids, judge).scanned == multiset(oids)[t.key.value]
    decreases |oids|
  {
    if oids != [] {
      var init, k := oids[..|oids| - 1], oids[|oids| - 1];
      assert oids == init + [k];
      SingleRowCounted(t, p, init, judge);
      TallySingle(t, p, Keyed(k), judge);
      PerOidSnoc([t], p, init, k, judge);
    }
  }

  /** A repeated oid is scanned once per mention on the keyed path, once on the other. */
  lemma RepeatedOidDiffers(p: Plan, oids: seq<Oid>, judge: Judge, i: nat, j: nat)
    requires i < j < |oids| && oids[i] == oids[j]
    requires forall t :: judge(t, true).Verdict?
    ensures var heap := [Tuple(Some(oids[i]), p.minAttnum, BLANK)];
            PerOid(heap, p, oids, judge) != TallyOf(heap, p, Among(Elements(oids)), judge, true)
  {
    var t := Tuple(Some(oids[i]), p.minAttnum, BLANK);
    SingleRowCounted(t, p, oids, judge);
    assert oids == oids[..j] + oids[j..] && oids[i] in oids[..j] && oids[j] in oids[j..];
    assert multiset(oids)[oids[i]] == multiset(oids[..j])[oids[i]] + multiset(oids[j..])[oids[i]];
    TallySingle(t, p, Among(Elements(oids)), judge);
  }

  /** The two paths agree on every heap exactly when the request names no oid twice. */
  lemma PathsAgreeIffDistinct(p: Plan, oids: seq<Oid>, judge: Judge)
    requires forall t :: judge(t, true).Verdict?
    ensures (forall heap :: PerOid(heap, p, oids, judge) == TallyOf(heap, p, Among(Elements(oids)), judge, true))
            <==> Distinct(oids)
  {
    if Distinct(oids) {
      forall heap
        ensures PerOid(heap, p, oids, judge) == TallyOf(heap, p, Among(Elements(oids)), judge, true)
      {
        DistinctScansAddUp(heap, p, oids, judge);
      }
    } else {
      var i, j :| 0 <= i < j < |oids| && oids[i] == oids[j];
      RepeatedOidDiffers(p, oids, judge, i, j);
    }
  }

  // ------------------------------------------------------------------
  // The scans
  // ------------------------------------------------------------------

  /** Rows and counters a request accumulates. */
  class Output {
    var rows: seq<Tuple>
    var scanned: nat
    var emitted: nat
    var mismatches: nat
    var failed: bool

    ghost predicate Valid()
      reads this
    {
      emitted == |rows|
    }

    ghost function View(): Tally
      reads this
    {
      if failed then Failure else Tally(multiset(rows), scanned, mismatches)
    }

    constructor ()
      ensures Valid() && View() == Nothing && !failed
    {
      rows, scanned, emitted, mismatches, failed := [], 0, 0, 0, false;
    }

    /** Count a scanned row, judge it, emit it if visible; an inconclusive one ends the request. */
    method Visit(t: Tuple, judge: Judge, scoped: bool)
      requires Valid() && !failed
      modifies this
      ensures Valid() && View() == Plus(old(View()), One(t, judge, scoped))
    {
      scanned := scanned + 1;
      match judge(t, scoped)
      case Inconclusive => failed := true;
      case Verdict(visible, m) =>
        mismatches := mismatches + m;
        ghost var before := multiset(rows);
        EmitIf(visible, t);
        assert multiset(rows) == before + (if visible then multiset{t} else multiset{});
    }

    method EmitIf(visible: bool, t: Tuple)
      requires Valid()
      modifies `rows, `emitted
      ensures Valid() && multiset(rows) == multiset(old(rows)) + (if visible then multiset{t} else multiset{})
    {
      if visible {
        emitted := emitted + 1;
        rows := rows + [t];
      }
    }

    /** Visit a row if it is wanted; `acc` is what the rows before it amount to. */
    method TakeIf(wanted: bool, t: Tuple, judge: Judge, scoped: bool, ghost start: Tally, ghost acc: Tally)
      requires Valid() && !failed && View() == Plus(start, acc)
      modifies this
      ensures Valid() && View() == Plus(start, if wanted then Plus(acc, One(t, judge, scoped)) else acc)
    {
      if wanted {
        PlusAssociates(start, acc, One(t, judge, scoped));
        Visit(t, judge, scoped);
      }
    }

    /** One scan, keyed or whole; `order` is the order the access method returns the heap in. */
    method ScanEmit(order: seq<Tuple>, p: Plan, w: Want, judge: Judge, scoped: bool)
      requires Valid() && !failed && !w.Among?
      modifies this
      ensures Valid() && View() == Plus(old(View()), TallyOf(order, p, w, judge, scoped))
    {
      ghost var start := View();
      TallyUnit(start);
      var i := 0;
      while i < |order| && !failed
        invariant 0 <= i <= |order| && Valid()
        invariant View() == Plus(start, TallyOf(order[..i], p, w, judge, scoped))
      {
        TallyStep(order, i, p, w, judge, scoped);
        TakeIf(Wanted(p, w, order[i]), order[i], judge, scoped, start, TallyOf(order[..i], p, w, judge, scoped));
        i := i + 1;
      }
      TallyStops(start, order, i, p, w, judge, scoped);
    }

    method TakeIfListed(sorted: array<Oid>, p: Plan, t: Tuple, judge: Judge, scoped: bool, ghost start: Tally,
        ghost acc: Tally)
      requires Valid() && !failed && View() == Plus(start, acc) && Ascending(sorted[..])
      modifies this
      ensures Valid() && View() == Plus(start, if Wanted(p, Listed(sorted[..]), t)
                then Plus(acc, One(t, judge, scoped)) else acc)
    {
      var wanted := Hit(sorted, p, t);
      TakeIf(wanted, t, judge, scoped, start, acc);
    }

    /** One heap pass, looking each row's key up in the sorted list; an empty list means every row. */
    method ScanEmitLockFree(heap: seq<Tuple>, p: Plan, sorted: array<Oid>, judge: Judge)
      requires Valid() && !failed && Ascending(sorted[..])
      modifies this
      ensures Valid() && View() == Plus(old(View()), TallyOf(heap, p, Listed(sorted[..]), judge, sorted.Length > 0))
    {
      ghost var list, start := sorted[..], View();
      ghost var w := Listed(list);
      var scoped := sorted.Length > 0;
      TallyUnit(start);
      var i := 0;
      while i < |heap| && !failed
        invariant 0 <= i <= |heap| && Valid() && sorted[..] == list
        invariant View() == Plus(start, TallyOf(heap[..i], p, w, judge, scoped))
      {
        TallyStep(heap, i, p, w, judge, scoped);
        TakeIfListed(sorted, p, heap[i], judge, scoped, start, TallyOf(heap[..i], p, w, judge, scoped));
        i := i + 1;
      }
      TallyStops(start, heap, i, p, w, judge, scoped);
    }
  }

  /** Rows a sorted list asks for; an empty one asks for all. */
  function Listed(sorted: seq<Oid>): Want { if sorted == [] then Whole else Among(Elements(sorted)) }

  method Hit(sorted: array<Oid>, p: Plan, t: Tuple) returns (wanted: bool)
    requires Ascending(sorted[..])
    ensures wanted <==> Wanted(p, Listed(sorted[..]), t)
  {
    if p.minAttnum != 0 && t.attnum < p.minAttnum { return false; }
    if sorted.Length == 0 { return true; }
    if t.key.None? { return false; }
    wanted := BinarySearch(sorted, t.key.value);
  }

  lemma TallyStep(order: seq<Tuple>, i: nat, p: Plan, w: Want, judge: Judge, scoped: bool)
    requires i < |order|
    ensures var acc := TallyOf(order[..i], p, w, judge, scoped);
            TallyOf(order[..i + 1], p, w, judge, scoped) == if Wanted(p, w, order[i])
                then Plus(acc, One(order[i], judge, scoped)) else acc
  {
    assert order[..i + 1][..i] == order[..i];
  }

  /** A scan that stopped at a failed row, or at the end, has the whole tally. */
  lemma TallyStops(start: Tally, order: seq<Tuple>, i: nat, p: Plan, w: Want, judge: Judge, scoped: bool)
    requires i <= |order|
    requires i == |order| || Plus(start, TallyOf(order[..i], p, w, judge, scoped)).Failure?
    ensures Plus(start, TallyOf(order[..i], p, w, judge, scoped)) == Plus(start, TallyOf(order, p, w, judge, scoped))
  {
    assert order == order[..i] + order[i..];
    TallyConcat(order[..i], order[i..], p, w, judge, scoped);
    assert i == |order| ==> order[..i] == order;
  }

  predicate Ascending(s: seq<Oid>) { forall i, j :: 0 <= i < j < |s| ==> s[i] <= s[j] }

  method BinarySearch(a: array<Oid>, k: Oid) returns (found: bool)
    requires Ascending(a[..])
    ensures found <==> k in a[..]
  {
    var lo, hi := 0, a.Length;
    while lo < hi
      invariant 0 <= lo <= hi <= a.Length
      invariant forall i :: 0 <= i < a.Length && !(lo <= i < hi) ==> a[..][i] != k
    {
      var mid := (lo + hi) / 2;
      assert a[..][mid] == a[mid];
      if a[mid] == k { return true; }
      if a[mid] < k { lo := mid + 1; } else { hi := mid; }
    }
    return false;
  }

  predicate SortedUpTo(s: seq<Oid>, n: nat)
    requires n <= |s|
  {
    forall i, j :: 0 <= i < n && i < j < |s| ==> s[i] <= s[j]
  }

  method IndexOfLeast(a: array<Oid>, from: nat) returns (m: nat)
    requires from < a.Length
    ensures from <= m < a.Length
    ensures forall j :: from <= j < a.Length ==> a[m] <= a[j]
  {
    m := from;
    for j := from to a.Length
      invariant from <= m < a.Length
      invariant forall k :: from <= k < j ==> a[m] <= a[k]
    {
      if a[j] < a[m] { m := j; }
    }
  }

  function Swapped(s: seq<Oid>, i: nat, m: nat): seq<Oid>
    requires i < |s| && m < |s|
  {
    s[i := s[m]][m := s[i]]
  }

  lemma SwappedPermutes(s: seq<Oid>, i: nat, m: nat)
    requires i <= m < |s|
    ensures multiset(Swapped(s, i, m)) == multiset(s)
  {
    if i < m {
      var a, b, c := s[..i], s[i + 1..m], s[m + 1..];
      assert s == a + [s[i]] + b + [s[m]] + c;
      assert Swapped(s, i, m) == a + [s[m]] + b + [s[i]] + c;
      FivePieces(a, s[i], b, s[m], c);
      FivePieces(a, s[m], b, s[i], c);
    } else {
      assert Swapped(s, i, m) == s;
    }
  }

  lemma FivePieces(a: seq<Oid>, x: Oid, b: seq<Oid>, y: Oid, c: seq<Oid>)
    ensures multiset(a + [x] + b + [y] + c) == multiset(a) + multiset(b) + multiset(c) + multiset{x, y}
  {
  }

  lemma SwappedSorts(s: seq<Oid>, i: nat, m: nat)
    requires i <= m < |s| && SortedUpTo(s, i) && forall j :: i <= j < |s| ==> s[m] <= s[j]
    ensures SortedUpTo(Swapped(s, i, m), i + 1)
  {
  }

  /** The oid list, copied and sorted in place. */
  method SortedCopy(oids: seq<Oid>) returns (a: array<Oid>)
    ensures fresh(a) && Ascending(a[..]) && multiset(a[..]) == multiset(oids)
  {
    a := new Oid[|oids|](i requires 0 <= i < |oids| => oids[i]);
    assert a[..] == oids;
    var i := 0;
    while i < a.Length
      invariant 0 <= i <= a.Length
      invariant SortedUpTo(a[..], i) && multiset(a[..]) == multiset(oids)
    {
      var m := IndexOfLeast(a, i);
      SwappedSorts(a[..], i, m);
      SwappedPermutes(a[..], i, m);
      ghost var next := Swapped(a[..], i, m);
      a[i], a[m] := a[m], a[i];
      assert a[..] == next;
      i := i + 1;
    }
  }

  datatype ScanLock = Wait | NoWait | Pinned

  ghost predicate IndexOk(heap: seq<Tuple>, index: Oid -> seq<Tuple>) {
    forall k :: multiset(index(k)) == multiset(heap)
  }

  /** What a request asks for: an empty oid list, or a catalog without a key, means the whole catalog. */
  function Asked(cat: Catalog, oids: seq<Oid>): Want {
    if CatalogPlan(cat).keyed && oids != [] then Among(Elements(oids)) else Whole
  }

  lemma PerOidStep(heap: seq<Tuple>, p: Plan, oids: seq<Oid>, i: nat, judge: Judge)
    requires i < |oids|
    ensures PerOid(heap, p, oids[..i + 1], judge)
         == Plus(PerOid(heap, p, oids[..i], judge), TallyOf(heap, p, Keyed(oids[i]), judge, true))
  {
    assert oids[..i + 1] == oids[..i] + [oids[i]];
    PerOidSnoc(heap, p, oids[..i], oids[i], judge);
  }

  lemma {:induction false} PerOidStops(heap: seq<Tuple>, p: Plan, oids: seq<Oid>, i: nat, judge: Judge)
    requires i <= |oids| && (i == |oids| || PerOid(heap, p, oids[..i], judge).Failure?)
    ensures PerOid(heap, p, oids[..i], judge) == PerOid(heap, p, oids, judge)
    decreases |oids|
  {
    if i < |oids| {
      assert oids[..|oids| - 1][..i] == oids[..i];
      PerOidStops(heap, p, oids[..|oids| - 1], i, judge);
    } else {
      assert oids[..i] == oids;
    }
  }

  /** The scan of one list entry, through the index. */
  method ScanKey(o: Output, order: seq<Tuple>, p: Plan, k: Oid, judge: Judge, ghost heap: seq<Tuple>, ghost acc: Tally)
    requires o.Valid() && !o.failed && o.View() == acc && multiset(order) == multiset(heap)
    modifies o
    ensures o.Valid() && o.View() == Plus(acc, TallyOf(heap, p, Keyed(k), judge, true))
  {
    TallyPermutes(order, heap, p, Keyed(k), judge, true);
    o.ScanEmit(order, p, Keyed(k), judge, true);
  }

  method KeyedScans(o: Output, heap: seq<Tuple>, index: Oid -> seq<Tuple>, p: Plan, oids: seq<Oid>, judge: Judge)
    requires o.Valid() && o.View() == Nothing && IndexOk(heap, index)
    modifies o
    ensures o.Valid() && o.View() == PerOid(heap, p, oids, judge)
  {
    var i := 0;
    while i < |oids| && !o.failed
      invariant 0 <= i <= |oids| && o.Valid()
      invariant o.View() == PerOid(heap, p, oids[..i], judge)
    {
      PerOidStep(heap, p, oids, i, judge);
      ScanKey(o, index(oids[i]), p, oids[i], judge, heap, PerOid(heap, p, oids[..i], judge));
      i := i + 1;
    }
    PerOidStops(heap, p, oids, i, judge);
  }

  lemma SortedNamesSame(sorted: seq<Oid>, oids: seq<Oid>)
    requires multiset(sorted) == multiset(oids)
    ensures |sorted| == |oids| && Elements(sorted) == Elements(oids)
  {
    assert |multiset(sorted)| == |sorted| && |multiset(oids)| == |oids|;
    assert forall k :: k in sorted <==> k in multiset(sorted);
    assert forall k :: k in oids <==> k in multiset(oids);
  }

  /** The path without the lock: copy and sort the list, one heap pass. */
  method PinnedScan(o: Output, heap: seq<Tuple>, p: Plan, oids: seq<Oid>, judge: Judge)
    requires o.Valid() && o.View() == Nothing
    modifies o
    ensures o.Valid() && o.View() == TallyOf(heap, p, Listed(oids), judge, oids != [])
  {
    var sorted := SortedCopy(oids);
    SortedNamesSame(sorted[..], oids);
    TallyUnit(TallyOf(heap, p, Listed(oids), judge, oids != []));
    o.ScanEmitLockFree(heap, p, sorted, judge);
  }

  method WholeScan(o: Output, heap: seq<Tuple>, p: Plan, judge: Judge)
    requires o.Valid() && o.View() == Nothing
    modifies o
    ensures o.Valid() && o.View() == TallyOf(heap, p, Whole, judge, false)
  {
    TallyUnit(TallyOf(heap, p, Whole, judge, false));
    o.ScanEmit(heap, p, Whole, judge, false);
  }

  /**
   A request without repeated oids gets the same rows and counters whether the lock was
   waited for, taken at once or not to be had; only a no-wait request is turned away.
   */
  method OverlayScan(cat: Catalog, heap: seq<Tuple>, index: Oid -> seq<Tuple>, oids: seq<Oid>, judge: Judge,
                     lock: ScanLock, available: bool) returns (o: Output, turnedAway: bool)
    requires IndexOk(heap, index)
    ensures o.Valid()
    ensures turnedAway <==> lock.NoWait? && !available
    ensures !turnedAway && Distinct(oids) ==>
              o.View() == TallyOf(heap, CatalogPlan(cat), Asked(cat, oids), judge, Asked(cat, oids).Among?)
    ensures !turnedAway && CatalogPlan(cat).keyed && oids != [] && (lock.Wait? || available) ==>
              o.View() == PerOid(heap, CatalogPlan(cat), oids, judge)
  {
    o := new Output();
    var p := CatalogPlan(cat);
    var scoped := p.keyed && oids != [];
    turnedAway := lock.NoWait? && !available;
    if turnedAway { return; }
    if !(lock.Wait? || available) {
      PinnedScan(o, heap, p, if scoped then oids else [], judge);
    } else if scoped {
      KeyedScans(o, heap, index, p, oids, judge);
      if Distinct(oids) { DistinctScansAddUp(heap, p, oids, judge); }
    } else {
      WholeScan(o, heap, p, judge);
    }
  }
}
