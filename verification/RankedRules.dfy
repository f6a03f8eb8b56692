/**
 Table and column rules: entries from the TOML file and from the runtime config
 tables, each stating some settings for the relations it matches, merged from the
 broadest entry to the narrowest.
 */
module RankedRules {
  import opened Basics

  type Field = string
  type Setting = string
  type Settings = map<Field, Setting>

  const REPLICATE: Field := "replicate"
  const ROUTE: Field := "route"
  const NO: Setting := "false"
  const SELF: Setting := "self"

  /**
   One entry: the names it was written with (namespace and relation, plus the
   attribute for a column rule), whether they are patterns, and the layer it came
   from (0 for the file, 1 for the runtime tables).
   */
  datatype Entry = Entry(names: seq<string>, pattern: bool, layer: nat, settings: Settings)

  function Width(names: seq<string>): nat {
    if names == [] then 0 else |names[0]| + Width(names[1..])
  }

  // ------------------------------------------------------------------
  // Rank: patterns before literals, short before long, then by name, then by layer
  // ------------------------------------------------------------------

  predicate StrLess(a: string, b: string) {
    if a == [] || b == [] then |a| < |b|
    else if a[0] != b[0] then a[0] < b[0]
    else StrLess(a[1..], b[1..])
  }

  predicate NamesLess(a: seq<string>, b: seq<string>) {
    if a == [] || b == [] then |a| < |b|
    else if a[0] != b[0] then StrLess(a[0], b[0])
    else NamesLess(a[1..], b[1..])
  }

  predicate RankLess(a: Entry, b: Entry) {
    if a.pattern != b.pattern then a.pattern
    else if Width(a.names) != Width(b.names) then Width(a.names) < Width(b.names)
    else NamesLess(a.names, b.names)
  }

  predicate SameRank(a: Entry, b: Entry) { a.pattern == b.pattern && a.names == b.names }

  predicate Before(a: Entry, b: Entry) { RankLess(a, b) || (SameRank(a, b) && a.layer < b.layer) }

  predicate SameKey(a: Entry, b: Entry) { SameRank(a, b) && a.layer == b.layer }

  lemma {:induction false} StrOrder(a: string, b: string)
    ensures a != b ==> (StrLess(a, b) <==> !StrLess(b, a))
    ensures !StrLess(a, a)
  {
    if a != [] {
      StrOrder(a[1..], a[1..]);
      if b != [] && a[0] == b[0] {
        assert a != b ==> a[1..] != b[1..] by {
          if a[1..] == b[1..] { assert a == [a[0]] + a[1..] && b == [b[0]] + b[1..]; }
        }
        StrOrder(a[1..], b[1..]);
      }
    }
  }

  lemma {:induction false} StrTransitive(a: string, b: string, c: string)
    requires StrLess(a, b) && StrLess(b, c)
    ensures StrLess(a, c)
  {
    if a != [] && b != [] && c != [] && a[0] == b[0] && b[0] == c[0] {
      StrTransitive(a[1..], b[1..], c[1..]);
    }
  }

  lemma {:induction false} NamesOrder(a: seq<string>, b: seq<string>)
    ensures a != b ==> (NamesLess(a, b) <==> !NamesLess(b, a))
    ensures !NamesLess(a, a)
  {
    if a != [] {
      NamesOrder(a[1..], a[1..]);
      if b != [] {
        StrOrder(a[0], b[0]);
        if a[0] == b[0] {
          assert a != b ==> a[1..] != b[1..] by {
            if a[1..] == b[1..] { assert a == [a[0]] + a[1..] && b == [b[0]] + b[1..]; }
          }
          NamesOrder(a[1..], b[1..]);
        }
      }
    }
  }

  lemma {:induction false} NamesTransitive(a: seq<string>, b: seq<string>, c: seq<string>)
    requires NamesLess(a, b) && NamesLess(b, c)
    ensures NamesLess(a, c)
  {
    if a != [] && b != [] && c != [] {
      if a[0] == b[0] && b[0] == c[0] {
        NamesTransitive(a[1..], b[1..], c[1..]);
      } else if a[0] != b[0] && b[0] != c[0] {
        StrTransitive(a[0], b[0], c[0]);
        StrOrder(a[0], b[0]);
      }
    }
  }

  /** Entries are totally ordered; two of them tie exactly when they share names, kind and layer. */
  lemma Trichotomy(a: Entry, b: Entry)
    ensures !(Before(a, b) && Before(b, a)) && !(Before(a, b) && SameKey(a, b))
    ensures Before(a, b) || SameKey(a, b) || Before(b, a)
  {
    NamesOrder(a.names, b.names);
  }

  lemma Transitive(a: Entry, b: Entry, c: Entry)
    requires !Before(b, a) && !Before(c, b)
    ensures !Before(c, a)
    ensures Before(a, b) || Before(b, c) ==> Before(a, c)
  {
    Trichotomy(a, b);
    Trichotomy(b, c);
    Trichotomy(a, c);
    if NamesLess(a.names, b.names) && NamesLess(b.names, c.names) {
      NamesTransitive(a.names, b.names, c.names);
    }
  }

  // ------------------------------------------------------------------
  // Ranking
  // ------------------------------------------------------------------

  predicate Ranked(s: seq<Entry>) { forall i, j :: 0 <= i < j < |s| ==> !Before(s[j], s[i]) }

  /** `x` after everything not ranked above it, so that ties keep their order. */
  function Place(s: seq<Entry>, x: Entry): seq<Entry> {
    if s == [] || !Before(x, s[|s| - 1]) then s + [x]
    else Place(s[..|s| - 1], x) + [s[|s| - 1]]
  }

  function PlaceAll(s: seq<Entry>, more: seq<Entry>): seq<Entry>
    decreases |more|
  {
    if more == [] then s else PlaceAll(Place(s, more[0]), more[1..])
  }

  lemma {:induction false} PlaceCounts(s: seq<Entry>, x: Entry)
    ensures multiset(Place(s, x)) == multiset(s) + multiset{x}
    decreases |s|
  {
    if s != [] && Before(x, s[|s| - 1]) {
      PlaceCounts(s[..|s| - 1], x);
      assert s == s[..|s| - 1] + [s[|s| - 1]];
    }
  }

  lemma PlaceMembers(s: seq<Entry>, x: Entry)
    ensures forall e :: e in Place(s, x) ==> e in s || e == x
  {
    PlaceCounts(s, x);
    forall e | e in Place(s, x)
      ensures e in s || e == x
    {
      assert e in multiset(Place(s, x));
    }
  }

  lemma RankedSnoc(init: seq<Entry>, last: Entry)
    requires Ranked(init) && forall e :: e in init ==> !Before(last, e)
    ensures Ranked(init + [last])
  {
  }

  lemma RankedInit(init: seq<Entry>, last: Entry)
    requires Ranked(init + [last])
    ensures Ranked(init) && forall e :: e in init ==> !Before(last, e)
  {
    var s := init + [last];
    assert forall i :: 0 <= i < |init| ==> s[i] == init[i] && !Before(s[|init|], s[i]);
  }

  lemma {:induction false} PlaceRanks(s: seq<Entry>, x: Entry)
    requires Ranked(s)
    ensures Ranked(Place(s, x))
    decreases |s|
  {
    if s != [] {
      var init, last := s[..|s| - 1], s[|s| - 1];
      assert s == init + [last];
      RankedInit(init, last);
      Trichotomy(x, last);
      if Before(x, last) {
        PlaceRanks(init, x);
        PlaceMembers(init, x);
        RankedSnoc(Place(init, x), last);
      } else {
        forall e | e in s
          ensures !Before(x, e)
        {
          if e in init { Transitive(e, last, x); }
        }
        RankedSnoc(s, x);
      }
    }
  }

  lemma PlaceKeeps(s: seq<Entry>, x: Entry)
    requires Ranked(s)
    ensures Ranked(Place(s, x)) && multiset(Place(s, x)) == multiset(s) + multiset{x}
  {
    PlaceCounts(s, x);
    PlaceRanks(s, x);
  }

  lemma {:induction false} PlaceCommutes(s: seq<Entry>, a: Entry, b: Entry)
    requires Ranked(s) && !SameKey(a, b)
    ensures Place(Place(s, a), b) == Place(Place(s, b), a)
    decreases |s|
  {
    Trichotomy(a, b);
    if s != [] {
      var init, last := s[..|s| - 1], s[|s| - 1];
      Trichotomy(a, last);
      Trichotomy(b, last);
      if Before(a, last) && Before(b, last) {
        PlaceCommutes(init, a, b);
        assert (Place(init, a) + [last])[..|Place(init, a)|] == Place(init, a);
        assert (Place(init, b) + [last])[..|Place(init, b)|] == Place(init, b);
      } else if Before(a, last) {
        Transitive(a, last, b);
        PlaceUnder(init, last, a, b);
      } else if Before(b, last) {
        Transitive(b, last, a);
        PlaceUnder(init, last, b, a);
      } else {
        PlacePair(s, a, b);
      }
    } else {
      PlacePair(s, a, b);
    }
  }

  /** `a` goes under `last`, `b` above it. */
  lemma PlaceUnder(init: seq<Entry>, last: Entry, a: Entry, b: Entry)
    requires Before(a, last) && !Before(b, last) && Before(a, b)
    ensures Place(Place(init + [last], a), b) == Place(Place(init + [last], b), a)
  {
    var s := init + [last];
    assert s[..|s| - 1] == init;
    assert Place(s, a) == Place(init, a) + [last];
    assert Place(s, b) == s + [b];
    assert (s + [b])[..|s|] == s;
    assert Place(s + [b], a) == Place(s, a) + [b];
    Trichotomy(a, b);
  }

  lemma PlacePair(s: seq<Entry>, a: Entry, b: Entry)
    requires s == [] || (!Before(a, s[|s| - 1]) && !Before(b, s[|s| - 1]))
    requires !SameKey(a, b)
    ensures Place(Place(s, a), b) == Place(Place(s, b), a)
  {
    Trichotomy(a, b);
    assert (s + [a])[..|s|] == s && (s + [b])[..|s|] == s;
  }

  lemma {:induction false} PlaceAllKeeps(s: seq<Entry>, more: seq<Entry>)
    requires Ranked(s)
    ensures Ranked(PlaceAll(s, more)) && multiset(PlaceAll(s, more)) == multiset(s) + multiset(more)
    decreases |more|
  {
    if more != [] {
      PlaceKeeps(s, more[0]);
      PlaceAllKeeps(Place(s, more[0]), more[1..]);
      assert more == [more[0]] + more[1..];
    }
  }

  predicate KeysDistinct(s: seq<Entry>) { forall i, j :: 0 <= i < j < |s| ==> !SameKey(s[i], s[j]) }

  lemma {:induction false} PlaceFirst(s: seq<Entry>, before: seq<Entry>, x: Entry, after: seq<Entry>)
    requires Ranked(s) && forall e :: e in before ==> !SameKey(e, x)
    ensures PlaceAll(s, before + [x] + after) == PlaceAll(Place(s, x), before + after)
    decreases |before|
  {
    if before == [] {
      assert before + [x] + after == [x] + after && before + after == after;
    } else {
      assert (before + [x] + after)[1..] == before[1..] + [x] + after;
      assert (before + after)[1..] == before[1..] + after;
      PlaceKeeps(s, before[0]);
      PlaceFirst(Place(s, before[0]), before[1..], x, after);
      PlaceCommutes(s, before[0], x);
    }
  }

  lemma RestDistinct(b: seq<Entry>, i: nat)
    requires i < |b| && KeysDistinct(b)
    ensures KeysDistinct(b[..i] + b[i + 1..])
    ensures forall e :: e in b[..i] ==> !SameKey(e, b[i])
  {
    var rest := b[..i] + b[i + 1..];
    assert forall k :: 0 <= k < |rest| ==> rest[k] == b[if k < i then k else k + 1];
  }

  lemma TailDistinct(a: seq<Entry>)
    requires a != [] && KeysDistinct(a)
    ensures KeysDistinct(a[1..])
  {
  }

  /** Entries with distinct keys rank the same whatever order they were added in. */
  lemma {:induction false} AnyOrderRanksAlike(s: seq<Entry>, a: seq<Entry>, b: seq<Entry>)
    requires Ranked(s) && multiset(a) == multiset(b) && KeysDistinct(a) && KeysDistinct(b)
    ensures PlaceAll(s, a) == PlaceAll(s, b)
    decreases |a|
  {
    if a == [] {
      assert |multiset(b)| == 0;
    } else {
      var i := FirstElsewhere(a, b);
      TailDistinct(a);
      RestDistinct(b, i);
      var before, after := b[..i], b[i + 1..];
      assert b == before + [a[0]] + after;
      PlaceFirst(s, before, a[0], after);
      PlaceKeeps(s, a[0]);
      AnyOrderRanksAlike(Place(s, a[0]), a[1..], before + after);
    }
  }

  // ------------------------------------------------------------------
  // Building
  // ------------------------------------------------------------------

  class Builder {
    var rules: seq<Entry>
    var layer: nat
    var rejections: nat

    constructor ()
      ensures rules == [] && layer == 0 && rejections == 0
    {
      rules, layer, rejections := [], 0, 0;
    }

    method NextLayer()
      modifies `layer
      ensures layer == old(layer) + 1
    {
      layer := layer + 1;
    }

    /** `compiles`: the patterns and system column names of the entry are well formed. */
    method Add(names: seq<string>, pattern: bool, settings: Settings, compiles: bool)
      modifies `rules, `rejections
      ensures compiles ==> rules == old(rules) + [Entry(names, pattern, layer, settings)]
      ensures compiles ==> rejections == old(rejections)
      ensures !compiles ==> rules == old(rules) && rejections == old(rejections) + 1
    {
      if compiles {
        rules := rules + [Entry(names, pattern, layer, settings)];
      } else {
        rejections := rejections + 1;
      }
    }

    /** Ranked broadest to narrowest, ties in the order added. */
    method Finish() returns (ranked: seq<Entry>)
      ensures ranked == PlaceAll([], rules)
      ensures Ranked(ranked) && multiset(ranked) == multiset(rules)
    {
      ranked := [];
      for i := 0 to |rules|
        invariant PlaceAll(ranked, rules[i..]) == PlaceAll([], rules)
      {
        assert rules[i..][1..] == rules[i + 1..];
        ranked := Placed(ranked, rules[i]);
      }
      PlaceAllKeeps([], rules);
    }
  }

  method Placed(s: seq<Entry>, x: Entry) returns (t: seq<Entry>)
    ensures t == Place(s, x)
  {
    var i := |s|;
    var above: seq<Entry> := [];
    assert s[..i] == s;
    while i > 0 && Before(x, s[i - 1])
      invariant 0 <= i <= |s|
      invariant above == s[i..]
      invariant Place(s, x) == Place(s[..i], x) + above
    {
      assert s[..i][..i - 1] == s[..i - 1];
      i := i - 1;
      above := [s[i]] + above;
    }
    t := s[..i] + [x] + above;
  }

  // ------------------------------------------------------------------
  // Merging
  // ------------------------------------------------------------------

  /** A pattern reaches a declarative partition only by routing it to itself. */
  predicate Applies(e: Entry, hits: Entry -> bool, partition: bool) {
    hits(e) && !(partition && e.pattern && !(ROUTE in e.settings && e.settings[ROUTE] == SELF))
  }

  predicate States(e: Entry, hits: Entry -> bool, partition: bool, f: Field) {
    Applies(e, hits, partition) && f in e.settings
  }

  /** The last entry that applies and states `f`. */
  function LastStating(rules: seq<Entry>, hits: Entry -> bool, partition: bool, f: Field): (w: Option<nat>)
    ensures w.Some? ==> w.value < |rules| && States(rules[w.value], hits, partition, f)
    ensures w.Some? ==> forall j :: w.value < j < |rules| ==> !States(rules[j], hits, partition, f)
    ensures w.None? ==> forall j :: 0 <= j < |rules| ==> !States(rules[j], hits, partition, f)
  {
    if rules == [] then None
    else if States(rules[|rules| - 1], hits, partition, f) then Some(|rules| - 1)
    else LastStating(rules[..|rules| - 1], hits, partition, f)
  }

  /** The setting the last applicable entry stating `f` gives it. */
  function Stated(rules: seq<Entry>, hits: Entry -> bool, partition: bool, f: Field): Option<Setting> {
    var w := LastStating(rules, hits, partition, f);
    if w.Some? then Some(rules[w.value].settings[f]) else None
  }

  function Get(m: Settings, f: Field): Option<Setting> { if f in m then Some(m[f]) else None }

  predicate Barred(rules: seq<Entry>, hits: Entry -> bool, partition: bool) {
    exists e :: e in rules && e.pattern && Applies(e, hits, partition) && Get(e.settings, REPLICATE) == Some(NO)
  }

  function Literals(rules: seq<Entry>): seq<Entry> {
    if rules == [] then []
    else Literals(rules[..|rules| - 1]) + (if rules[|rules| - 1].pattern then [] else [rules[|rules| - 1]])
  }

  /** Replication: an applicable pattern that excludes wins, unless a literal entry speaks. */
  function Replication(rules: seq<Entry>, hits: Entry -> bool, partition: bool): Option<Setting> {
    if Barred(rules, hits, partition) then
      var literal := Stated(Literals(rules), hits, partition, REPLICATE);
      if literal.Some? then literal else Some(NO)
    else Stated(rules, hits, partition, REPLICATE)
  }

  lemma StatedExtends(rules: seq<Entry>, i: nat, hits: Entry -> bool, partition: bool, f: Field)
    requires i < |rules|
    ensures Stated(rules[..i + 1], hits, partition, f)
         == if States(rules[i], hits, partition, f) then Some(rules[i].settings[f])
             else Stated(rules[..i], hits, partition, f)
  {
    assert rules[..i + 1][..i] == rules[..i];
  }

  lemma LiteralsExtend(rules: seq<Entry>, i: nat, hits: Entry -> bool, partition: bool)
    requires i < |rules|
    ensures Stated(Literals(rules[..i + 1]), hits, partition, REPLICATE)
         == if !rules[i].pattern && States(rules[i], hits, partition, REPLICATE) then Some(rules[i].settings[REPLICATE])
            else Stated(Literals(rules[..i]), hits, partition, REPLICATE)
  {
    assert rules[..i + 1][..i] == rules[..i];
    if !rules[i].pattern {
      var s := Literals(rules[..i]) + [rules[i]];
      assert s[..|s| - 1] == Literals(rules[..i]);
    }
  }

  predicate FromPattern(rules: seq<Entry>, hits: Entry -> bool, partition: bool) {
    exists e :: e in rules && e.pattern && Applies(e, hits, partition)
  }

  ghost predicate MergeOf(merged: Settings, rules: seq<Entry>, hits: Entry -> bool, partition: bool) {
    forall f :: Get(merged, f) == Stated(rules, hits, partition, f)
  }

  lemma MergeExtends(merged: Settings, rules: seq<Entry>, i: nat, hits: Entry -> bool, partition: bool)
    requires i < |rules| && MergeOf(merged, rules[..i], hits, partition)
    ensures MergeOf(if Applies(rules[i], hits, partition) then merged + rules[i].settings else merged,
                    rules[..i + 1], hits, partition)
  {
    var next := if Applies(rules[i], hits, partition) then merged + rules[i].settings else merged;
    forall f
      ensures Get(next, f) == Stated(rules[..i + 1], hits, partition, f)
    {
      StatedExtends(rules, i, hits, partition, f);
      assert Get(merged, f) == Stated(rules[..i], hits, partition, f);
    }
  }

  predicate Bars(e: Entry, hits: Entry -> bool, partition: bool) {
    e.pattern && Applies(e, hits, partition) && Get(e.settings, REPLICATE) == Some(NO)
  }

  lemma PatternsExtend(rules: seq<Entry>, i: nat, hits: Entry -> bool, partition: bool)
    requires i < |rules|
    ensures Barred(rules[..i + 1], hits, partition) <==>
              Barred(rules[..i], hits, partition) || Bars(rules[i], hits, partition)
    ensures FromPattern(rules[..i + 1], hits, partition)
       <==> FromPattern(rules[..i], hits, partition) || (rules[i].pattern && Applies(rules[i], hits, partition))
  {
    assert rules[..i + 1] == rules[..i] + [rules[i]];
  }

  /** Merge of a relation's rules: the settings and whether a pattern contributed. */
  method Merge(rules: seq<Entry>, hits: Entry -> bool, partition: bool) returns (merged: Settings, fromPattern: bool)
    ensures forall f :: f != REPLICATE ==> Get(merged, f) == Stated(rules, hits, partition, f)
    ensures Get(merged, REPLICATE) == Replication(rules, hits, partition)
    ensures fromPattern <==> FromPattern(rules, hits, partition)
  {
    merged, fromPattern := map[], false;
    var barred := false;
    var literal: Option<Setting> := None;
    for i := 0 to |rules|
      invariant MergeOf(merged, rules[..i], hits, partition)
      invariant barred <==> Barred(rules[..i], hits, partition)
      invariant literal == Stated(Literals(rules[..i]), hits, partition, REPLICATE)
      invariant fromPattern <==> FromPattern(rules[..i], hits, partition)
    {
      MergeExtends(merged, rules, i, hits, partition);
      LiteralsExtend(rules, i, hits, partition);
      PatternsExtend(rules, i, hits, partition);
      var e := rules[i];
      if Applies(e, hits, partition) {
        merged := merged + e.settings;
        if e.pattern {
          fromPattern := true;
          barred := barred || Get(e.settings, REPLICATE) == Some(NO);
        } else if REPLICATE in e.settings {
          literal := Some(e.settings[REPLICATE]);
        }
      }
    }
    assert rules[..|rules|] == rules;
    if barred {
      merged := merged[REPLICATE := if literal.Some? then literal.value else NO];
    }
  }

  /** Column settings: plain merge, no partition rule and no replication override. */
  method ColumnSettings(rules: seq<Entry>, hits: Entry -> bool) returns (merged: Settings)
    ensures MergeOf(merged, rules, hits, false)
  {
    merged := map[];
    for i := 0 to |rules|
      invariant MergeOf(merged, rules[..i], hits, false)
    {
      MergeExtends(merged, rules, i, hits, false);
      if hits(rules[i]) {
        merged := merged + rules[i].settings;
      }
    }
    assert rules[..|rules|] == rules;
  }

  // ------------------------------------------------------------------
  // What the merge means
  // ------------------------------------------------------------------

  /** The runtime tables are keyed by name, so no two of their entries share names. */
  predicate NamesDistinct(s: seq<Entry>) { forall i, j :: 0 <= i < j < |s| ==> s[i].names != s[j].names }

  /** The ranked rules depend on the file's entries and on the set of runtime rows, not on the order rows come in. */
  lemma RankingIsOrderFree(file: seq<Entry>, rows: seq<Entry>, shuffled: seq<Entry>)
    requires multiset(rows) == multiset(shuffled) && NamesDistinct(rows) && NamesDistinct(shuffled)
    ensures PlaceAll([], file + rows) == PlaceAll([], file + shuffled)
  {
    PlaceAllSplits([], file, rows);
    PlaceAllSplits([], file, shuffled);
    PlaceAllKeeps([], file);
    AnyOrderRanksAlike(PlaceAll([], file), rows, shuffled);
  }

  lemma {:induction false} PlaceAllSplits(s: seq<Entry>, a: seq<Entry>, b: seq<Entry>)
    ensures PlaceAll(s, a + b) == PlaceAll(PlaceAll(s, a), b)
    decreases |a|
  {
    if a == [] {
      assert a + b == b;
    } else {
      assert (a + b)[1..] == a[1..] + b;
      PlaceAllSplits(Place(s, a[0]), a[1..], b);
    }
  }

  /** A stated field comes from an applicable entry that no other applicable entry stating it outranks. */
  lemma WinnerIsHighestRanked(rules: seq<Entry>, hits: Entry -> bool, partition: bool, f: Field)
    requires Ranked(rules)
    ensures Stated(rules, hits, partition, f).Some? <==> exists e :: e in rules && States(e, hits, partition, f)
    ensures Stated(rules, hits, partition, f).Some? ==>
              exists w :: w in rules && States(w, hits, partition, f)
                  && Stated(rules, hits, partition, f) == Some(w.settings[f])
                          && forall e :: e in rules && States(e, hits, partition, f) ==> !Before(w, e)
  {
    var i := LastStating(rules, hits, partition, f);
    if i.Some? {
      var w := rules[i.value];
      forall e | e in rules && States(e, hits, partition, f)
        ensures !Before(w, e)
      {
        var j :| 0 <= j < |rules| && rules[j] == e;
        Trichotomy(w, w);
      }
      assert w in rules;
    }
  }

  /** A literal entry that states a field beats every pattern, whichever layer the pattern is in. */
  lemma LiteralBeatsPatterns(rules: seq<Entry>, hits: Entry -> bool, partition: bool, f: Field, e: Entry)
    requires Ranked(rules) && e in rules && !e.pattern && States(e, hits, partition, f)
    ensures exists w :: w in rules && !w.pattern && States(w, hits, partition, f)
                        && Stated(rules, hits, partition, f) == Some(w.settings[f]) && !Before(w, e)
  {
    WinnerIsHighestRanked(rules, hits, partition, f);
    var w :| w in rules && States(w, hits, partition, f) && Stated(rules, hits, partition, f) == Some(w.settings[f])
             && forall x :: x in rules && States(x, hits, partition, f) ==> !Before(w, x);
    Trichotomy(w, e);
  }

  /** Among entries of one kind the longest wins: nothing stating the field is longer than the winner. */
  lemma NarrowestWins(rules: seq<Entry>, hits: Entry -> bool, partition: bool, f: Field, e: Entry)
    requires Ranked(rules) && e in rules && States(e, hits, partition, f)
    ensures exists w :: w in rules && States(w, hits, partition, f)
              && Stated(rules, hits, partition, f) == Some(w.settings[f])
                        && (w.pattern ==> e.pattern) && (w.pattern == e.pattern ==> Width(e.names) <= Width(w.names))
  {
    WinnerIsHighestRanked(rules, hits, partition, f);
    var w :| w in rules && States(w, hits, partition, f) && Stated(rules, hits, partition, f) == Some(w.settings[f])
             && forall x :: x in rules && States(x, hits, partition, f) ==> !Before(w, x);
    assert !Before(w, e);
  }

  /** Entries that can reach a declarative partition: literals, and patterns that route it to itself. */
  function Reaching(rules: seq<Entry>): seq<Entry> {
    if rules == [] then []
    else
      var e := rules[|rules| - 1];
      Reaching(rules[..|rules| - 1]) + (if e.pattern && Get(e.settings, ROUTE) != Some(SELF) then [] else [e])
  }

  /** A partition's settings are a plain table's under the entries that reach it. */
  lemma {:induction false} PartitionMergesReaching(rules: seq<Entry>, hits: Entry -> bool, f: Field)
    ensures Stated(rules, hits, true, f) == Stated(Reaching(rules), hits, false, f)
    decreases |rules|
  {
    if rules != [] {
      var init, e := rules[..|rules| - 1], rules[|rules| - 1];
      assert rules == init + [e];
      PartitionMergesReaching(init, hits, f);
      StatedSnoc(init, e, hits, true, f);
      StatedSnoc(Reaching(init), e, hits, false, f);
      assert Reaching(init) + [] == Reaching(init);
    }
  }

  lemma {:induction false} ReachingAre(rules: seq<Entry>)
    ensures forall e :: e in Reaching(rules) <==> e in rules && !(e.pattern && Get(e.settings, ROUTE) != Some(SELF))
    ensures Literals(Reaching(rules)) == Literals(rules)
    decreases |rules|
  {
    if rules != [] {
      var init, e := rules[..|rules| - 1], rules[|rules| - 1];
      assert rules == init + [e];
      ReachingAre(init);
      assert (Reaching(init) + [e])[..|Reaching(init)|] == Reaching(init);
      assert Reaching(init) + [] == Reaching(init) && Literals(init) + [] == Literals(init);
    }
  }

  lemma {:induction false} LiteralsReachPartitions(s: seq<Entry>, hits: Entry -> bool, f: Field)
    requires forall e :: e in s ==> !e.pattern
    ensures Stated(s, hits, true, f) == Stated(s, hits, false, f)
    decreases |s|
  {
    if s != [] {
      var init, e := s[..|s| - 1], s[|s| - 1];
      assert s == init + [e];
      LiteralsReachPartitions(init, hits, f);
      StatedSnoc(init, e, hits, true, f);
      StatedSnoc(init, e, hits, false, f);
    }
  }

  /** Replication follows the same rule, excluding patterns included. */
  lemma PartitionReplicatesReaching(rules: seq<Entry>, hits: Entry -> bool)
    ensures Replication(rules, hits, true) == Replication(Reaching(rules), hits, false)
  {
    ReachingAre(rules);
    LiteralsAre(rules);
    LiteralsReachPartitions(Literals(rules), hits, REPLICATE);
    PartitionMergesReaching(rules, hits, REPLICATE);
    assert Barred(rules, hits, true) <==> Barred(Reaching(rules), hits, false);
  }

  /** At equal specificity the runtime row beats the file. */
  lemma RuntimeBeatsFile(rules: seq<Entry>, hits: Entry -> bool, partition: bool, f: Field, file: Entry, row: Entry)
    requires Ranked(rules) && file in rules && row in rules && SameRank(file, row) && file.layer < row.layer
    requires States(file, hits, partition, f) && States(row, hits, partition, f)
    ensures exists w :: w in rules && States(w, hits, partition, f)
              && Stated(rules, hits, partition, f) == Some(w.settings[f])
                        && Before(file, w)
  {
    WinnerIsHighestRanked(rules, hits, partition, f);
    var w :| w in rules && States(w, hits, partition, f) && Stated(rules, hits, partition, f) == Some(w.settings[f])
             && forall x :: x in rules && States(x, hits, partition, f) ==> !Before(w, x);
    assert !Before(w, row) && Before(file, row);
    Trichotomy(w, row);
    Transitive(file, row, w);
  }

  /**
   An applicable excluding pattern bars the relation unless a literal entry states `replicate`; that entry then
   decides.
   */
  lemma ExclusionWins(rules: seq<Entry>, hits: Entry -> bool, partition: bool, e: Entry)
    requires Ranked(rules) && e in rules && Bars(e, hits, partition)
    ensures (forall l :: l in rules && !l.pattern ==> !States(l, hits, partition, REPLICATE))
            ==> Replication(rules, hits, partition) == Some(NO)
    ensures (exists l :: l in rules && !l.pattern && States(l, hits, partition, REPLICATE))
            ==> Replication(rules, hits, partition) == Stated(rules, hits, partition, REPLICATE)
  {
    LiteralsAre(rules);
    if l :| l in rules && !l.pattern && States(l, hits, partition, REPLICATE) {
      LiteralDecides(rules, hits, partition, REPLICATE, l);
    }
  }

  lemma {:induction false} LiteralsAre(rules: seq<Entry>)
    ensures forall e :: e in Literals(rules) <==> e in rules && !e.pattern
    decreases |rules|
  {
    if rules != [] {
      assert rules == rules[..|rules| - 1] + [rules[|rules| - 1]];
      LiteralsAre(rules[..|rules| - 1]);
    }
  }

  lemma StatedSnoc(s: seq<Entry>, e: Entry, hits: Entry -> bool, partition: bool, f: Field)
    ensures Stated(s + [e], hits, partition, f)
         == if States(e, hits, partition, f) then Some(e.settings[f]) else Stated(s, hits, partition, f)
  {
    assert (s + [e])[..|s|] == s;
  }

  lemma LastIsLiteral(init: seq<Entry>, last: Entry, l: Entry)
    requires Ranked(init + [last]) && l in init + [last] && !l.pattern
    ensures !last.pattern
  {
    var rules := init + [last];
    var j :| 0 <= j < |rules| && rules[j] == l;
    assert j < |init| ==> !Before(rules[|init|], rules[j]);
  }

  /** Literals rank last, so once one of them states a field the last statement is theirs. */
  lemma {:induction false} LiteralDecides(rules: seq<Entry>, hits: Entry -> bool, partition: bool, f: Field, l: Entry)
    requires Ranked(rules) && l in rules && !l.pattern && States(l, hits, partition, f)
    ensures Stated(Literals(rules), hits, partition, f) == Stated(rules, hits, partition, f)
    decreases |rules|
  {
    var init, last := rules[..|rules| - 1], rules[|rules| - 1];
    assert rules == init + [last];
    LastIsLiteral(init, last, l);
    StatedSnoc(init, last, hits, partition, f);
    StatedSnoc(Literals(init), last, hits, partition, f);
    if !States(last, hits, partition, f) {
      LiteralDecides(init, hits, partition, f, l);
    }
  }
}
