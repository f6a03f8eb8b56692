/**
 Where the ranked table rules come from when routing is resolved: the file's entries
 first, then the rows of the runtime config table, which is a hash map and yields its
 rows in no particular order.
 */
module RoutingRules {
  import opened Basics
  import Rules = RankedRules

  datatype Rel = Rel(namespace: string, name: string)

  /** What a file entry states about the relations it matches. */
  datatype Rule = Rule(pattern: bool, settings: Rules.Settings)

  /** A runtime row; `pattern` is missing when its match kind does not parse. */
  datatype Row = Row(pattern: Option<bool>, database: Option<string>, table: Option<string>, replicate: Option<bool>,
                     route: Option<string>)

  /**
   The file's entries in the order written. `compiles`: an entry's patterns and column
   names are well formed. `matches`: glob and regex matching.
   */
  datatype Book = Book(entries: seq<(Rel, Rule)>, compiles: (Rel, Rule) -> bool, matches: (seq<string>, Rel) -> bool)

  const INSTANCE: Rules.Field := "target_instance"
  const DATABASE: Rules.Field := "target_database"
  const TABLE: Rules.Field := "target_table"
  const TEE: Rules.Field := "tee"
  const YES: Rules.Setting := "true"
  const ROOT: Rules.Setting := "root"

  function Names(rel: Rel): seq<string> { [rel.namespace, rel.name] }

  function Put(m: Rules.Settings, f: Rules.Field, v: Option<string>): Rules.Settings {
    if v.Some? then m[f := v.value] else m
  }

  function Spelled(b: Option<bool>): Option<string> {
    if b.None? then None else Some(if b.value then YES else Rules.NO)
  }

  /** A route other than the two known ones is dropped. */
  function Routed(route: Option<string>): Option<string> {
    if route == Some(Rules.SELF) || route == Some(ROOT) then route else None
  }

  /** A row states neither an instance nor tees. */
  function RowSettings(row: Row): Rules.Settings {
    Put(Put(Put(Put(map[], DATABASE, row.database), TABLE, row.table), Rules.REPLICATE, Spelled(row.replicate)),
        Rules.ROUTE, Routed(row.route))
  }

  lemma RowStates(row: Row)
    ensures Rules.Get(RowSettings(row), DATABASE) == row.database && Rules.Get(RowSettings(row), TABLE) == row.table
    ensures Rules.Get(RowSettings(row), Rules.REPLICATE) == Spelled(row.replicate)
    ensures Rules.Get(RowSettings(row), INSTANCE) == None && Rules.Get(RowSettings(row), TEE) == None
  {
    assert DATABASE[0] == 't' && Rules.REPLICATE[0] == 'r' && |DATABASE| != |TABLE| && |INSTANCE| != |TABLE|;
    assert DATABASE[7] == 'd' && INSTANCE[7] == 'i' && |Rules.ROUTE| == 5 && |Rules.REPLICATE| == 9 && |TEE| == 3;
  }

  function RowRule(row: Row): Option<Rule> {
    if row.pattern.Some? then Some(Rule(row.pattern.value, RowSettings(row))) else None
  }

  function EntryOf(rel: Rel, rule: Rule, layer: nat): Rules.Entry {
    Rules.Entry(Names(rel), rule.pattern, layer, rule.settings)
  }

  predicate Joins(book: Book, rel: Rel, row: Row) {
    RowRule(row).Some? && (book.compiles)(rel, RowRule(row).value)
  }

  function FileEntries(book: Book, entries: seq<(Rel, Rule)>): seq<Rules.Entry> {
    if entries == [] then []
    else
      var (rel, rule) := entries[|entries| - 1];
      FileEntries(book, entries[..|entries| - 1]) + (if (book.compiles)(rel, rule) then [EntryOf(rel, rule, 0)] else [])
  }

  function RowEntry(book: Book, rows: map<Rel, Row>, rel: Rel): seq<Rules.Entry> {
    if rel in rows && Joins(book, rel, rows[rel]) then [EntryOf(rel, RowRule(rows[rel]).value, 1)] else []
  }

  function RowEntries(book: Book, rows: map<Rel, Row>, order: seq<Rel>): seq<Rules.Entry> {
    if order == [] then []
    else RowEntries(book, rows, order[..|order| - 1]) + RowEntry(book, rows, order[|order| - 1])
  }

  /** One way of going through the rows. */
  predicate Lists(order: seq<Rel>, rows: map<Rel, Row>) { multiset(order) == multiset(rows.Keys) }

  function RankedIn(book: Book, rows: map<Rel, Row>, order: seq<Rel>): seq<Rules.Entry> {
    Rules.PlaceAll([], FileEntries(book, book.entries) + RowEntries(book, rows, order))
  }

  // ------------------------------------------------------------------
  // The order of the rows does not matter
  // ------------------------------------------------------------------

  lemma {:induction false} RowEntriesSplit(book: Book, rows: map<Rel, Row>, a: seq<Rel>, b: seq<Rel>)
    ensures RowEntries(book, rows, a + b) == RowEntries(book, rows, a) + RowEntries(book, rows, b)
    decreases |b|
  {
    if b == [] {
      assert a + b == a;
    } else {
      assert (a + b)[..|a + b| - 1] == a + b[..|b| - 1];
      RowEntriesSplit(book, rows, a, b[..|b| - 1]);
    }
  }

  lemma RowEntriesTaken(book: Book, rows: map<Rel, Row>, order: seq<Rel>, i: nat)
    requires i < |order|
    ensures multiset(RowEntries(book, rows, order))
         == multiset(RowEntries(book, rows, order[..i] + order[i + 1..])) + multiset(RowEntry(book, rows, order[i]))
  {
    assert order == order[..i] + ([order[i]] + order[i + 1..]);
    RowEntriesSplit(book, rows, order[..i], [order[i]] + order[i + 1..]);
    RowEntriesSplit(book, rows, [order[i]], order[i + 1..]);
    RowEntriesSplit(book, rows, order[..i], order[i + 1..]);
    assert [order[i]][..0] == [];
    assert RowEntries(book, rows, [order[i]]) == RowEntry(book, rows, order[i]);
  }

  lemma {:induction false} SameRowsSameEntries(book: Book, rows: map<Rel, Row>, a: seq<Rel>, b: seq<Rel>)
    requires multiset(a) == multiset(b)
    ensures multiset(RowEntries(book, rows, a)) == multiset(RowEntries(book, rows, b))
    decreases |a|
  {
    if a == [] {
      assert |multiset(b)| == 0;
    } else {
      var i := FirstElsewhere(a, b);
      RowEntriesTaken(book, rows, a, 0);
      assert a[..0] + a[1..] == a[1..];
      RowEntriesTaken(book, rows, b, i);
      SameRowsSameEntries(book, rows, a[1..], b[..i] + b[i + 1..]);
    }
  }

  lemma {:induction false} EntriesComeFromRows(book: Book, rows: map<Rel, Row>, order: seq<Rel>, e: Rules.Entry)
    ensures e in RowEntries(book, rows, order) <==> exists rel :: rel in order && e in RowEntry(book, rows, rel)
    decreases |order|
  {
    if order != [] {
      var init, last := order[..|order| - 1], order[|order| - 1];
      assert order == init + [last];
      EntriesComeFromRows(book, rows, init, e);
    }
  }

  /** A relation is listed once, and two relations never share their names. */
  lemma {:induction false} EntriesDistinct(book: Book, rows: map<Rel, Row>, order: seq<Rel>)
    requires forall i, j :: 0 <= i < j < |order| ==> order[i] != order[j]
    ensures Rules.NamesDistinct(RowEntries(book, rows, order))
    decreases |order|
  {
    if order != [] {
      var init, last := order[..|order| - 1], order[|order| - 1];
      EntriesDistinct(book, rows, init);
      forall e | e in RowEntries(book, rows, init)
        ensures e.names != Names(last)
      {
        EntriesComeFromRows(book, rows, init, e);
        var rel :| rel in init && e in RowEntry(book, rows, rel);
        assert Names(rel)[0] == rel.namespace && Names(rel)[1] == rel.name;
        assert Names(last)[0] == last.namespace && Names(last)[1] == last.name;
      }
    }
  }

  lemma CountedTwice(order: seq<Rel>, i: nat, j: nat)
    requires i < j < |order| && order[i] == order[j]
    ensures multiset(order)[order[j]] >= 2
  {
    assert order == order[..j] + [order[j]] + order[j + 1..];
    assert order[i] in order[..j];
  }

  lemma ListedOnce(order: seq<Rel>, rows: map<Rel, Row>)
    requires Lists(order, rows)
    ensures forall i, j :: 0 <= i < j < |order| ==> order[i] != order[j]
    ensures forall rel :: rel in order <==> rel in rows
  {
    forall i, j | 0 <= i < j < |order|
      ensures order[i] != order[j]
    {
      assert multiset(rows.Keys)[order[j]] <= 1;
      if order[i] == order[j] {
        CountedTwice(order, i, j);
      }
    }
    assert forall rel :: rel in order <==> rel in multiset(order);
  }

  /** Two passes over the runtime rows rank to the same rules. */
  lemma RankedAnyOrder(book: Book, rows: map<Rel, Row>, a: seq<Rel>, b: seq<Rel>)
    requires Lists(a, rows) && Lists(b, rows)
    ensures RankedIn(book, rows, a) == RankedIn(book, rows, b)
  {
    ListedOnce(a, rows);
    ListedOnce(b, rows);
    EntriesDistinct(book, rows, a);
    EntriesDistinct(book, rows, b);
    SameRowsSameEntries(book, rows, a, b);
    Rules.RankingIsOrderFree(FileEntries(book, book.entries), RowEntries(book, rows, a), RowEntries(book, rows, b));
  }

  lemma {:induction false} SomeOrder(rels: set<Rel>) returns (order: seq<Rel>)
    ensures multiset(order) == multiset(rels)
    decreases |rels|
  {
    if rels == {} {
      order := [];
    } else {
      Inhabited(rels);
      var rel :| rel in rels;
      var rest := SomeOrder(rels - {rel});
      order := rest + [rel];
      assert rels == (rels - {rel}) + {rel};
    }
  }

  lemma SomeListing(rows: map<Rel, Row>)
    ensures exists order :: Lists(order, rows)
  {
    var order := SomeOrder(rows.Keys);
    assert Lists(order, rows);
  }

  /** The rules in force. */
  ghost function RulesOf(book: Book, rows: map<Rel, Row>): seq<Rules.Entry> {
    SomeListing(rows);
    var order :| Lists(order, rows);
    RankedIn(book, rows, order)
  }

  /** An entry the file or a runtime row contributes. */
  ghost predicate Contributed(book: Book, rows: map<Rel, Row>, e: Rules.Entry) {
    e in FileEntries(book, book.entries) || exists rel :: rel in rows && e in RowEntry(book, rows, rel)
  }

  lemma RankedHas(book: Book, rows: map<Rel, Row>, order: seq<Rel>, e: Rules.Entry)
    requires Lists(order, rows)
    ensures e in RankedIn(book, rows, order) <==> Contributed(book, rows, e)
  {
    var file, added := FileEntries(book, book.entries), RowEntries(book, rows, order);
    Rules.PlaceAllKeeps([], file + added);
    assert e in RankedIn(book, rows, order) <==> e in multiset(RankedIn(book, rows, order));
    assert e in file + added <==> e in multiset(file + added);
    ListedOnce(order, rows);
    EntriesComeFromRows(book, rows, order, e);
  }

  lemma RankedInOrder(book: Book, rows: map<Rel, Row>, order: seq<Rel>)
    ensures Rules.Ranked(RankedIn(book, rows, order))
  {
    Rules.PlaceAllKeeps([], FileEntries(book, book.entries) + RowEntries(book, rows, order));
  }

  lemma RulesAre(book: Book, rows: map<Rel, Row>)
    ensures Rules.Ranked(RulesOf(book, rows))
    ensures forall e :: e in RulesOf(book, rows) <==> Contributed(book, rows, e)
  {
    SomeListing(rows);
    var order :| Lists(order, rows) && RulesOf(book, rows) == RankedIn(book, rows, order);
    var rules := RankedIn(book, rows, order);
    RankedInOrder(book, rows, order);
    assert Rules.Ranked(rules) && rules == RulesOf(book, rows);
    forall e
      ensures e in rules <==> Contributed(book, rows, e)
    {
      RankedHas(book, rows, order, e);
    }
  }

  // ------------------------------------------------------------------
  // Building the rules
  // ------------------------------------------------------------------

  method AddFile(b: Rules.Builder, book: Book)
    requires b.rules == [] && b.layer == 0
    modifies b
    ensures b.rules == FileEntries(book, book.entries) && b.layer == 0
  {
    for i := 0 to |book.entries|
      invariant b.rules == FileEntries(book, book.entries[..i]) && b.layer == 0
    {
      var (rel, rule) := book.entries[i];
      assert book.entries[..i + 1][..i] == book.entries[..i];
      b.Add(Names(rel), rule.pattern, rule.settings, (book.compiles)(rel, rule));
    }
    assert book.entries[..|book.entries|] == book.entries;
  }

  /** An unparseable match kind rejects the row, as a pattern that does not compile does. */
  method AddRow(b: Rules.Builder, book: Book, rows: map<Rel, Row>, rel: Rel)
    requires b.layer == 1 && rel in rows
    modifies b
    ensures b.rules == old(b.rules) + RowEntry(book, rows, rel) && b.layer == 1
  {
    var rule := RowRule(rows[rel]);
    if rule.None? { return; }
    b.Add(Names(rel), rule.value.pattern, rule.value.settings, (book.compiles)(rel, rule.value));
  }

  lemma RowEntriesSnoc(book: Book, rows: map<Rel, Row>, order: seq<Rel>, rel: Rel)
    ensures RowEntries(book, rows, order + [rel]) == RowEntries(book, rows, order) + RowEntry(book, rows, rel)
  {
    assert (order + [rel])[..|order|] == order;
  }

  lemma VisitedSnoc(all: set<Rel>, todo: set<Rel>, order: seq<Rel>, rel: Rel)
    requires rel in todo && todo <= all && multiset(order) == multiset(all - todo)
    ensures multiset(order + [rel]) == multiset(all - (todo - {rel}))
  {
    assert all - (todo - {rel}) == (all - todo) + {rel};
  }

  /** Rows are taken in whatever order the map yields them. */
  method AddRows(b: Rules.Builder, book: Book, rows: map<Rel, Row>) returns (ghost order: seq<Rel>)
    requires b.layer == 1
    modifies b
    ensures Lists(order, rows) && b.rules == old(b.rules) + RowEntries(book, rows, order)
  {
    order := [];
    var todo := rows.Keys;
    while todo != {}
      invariant todo <= rows.Keys && b.layer == 1
      invariant multiset(order) == multiset(rows.Keys - todo)
      invariant b.rules == old(b.rules) + RowEntries(book, rows, order)
      decreases |todo|
    {
      var rel := Pick(todo);
      AddRow(b, book, rows, rel);
      RowEntriesSnoc(book, rows, order, rel);
      VisitedSnoc(rows.Keys, todo, order, rel);
      order := order + [rel];
      todo := todo - {rel};
    }
    assert rows.Keys - todo == rows.Keys;
  }

  method BuildRules(book: Book, rows: map<Rel, Row>) returns (rules: seq<Rules.Entry>)
    ensures rules == RulesOf(book, rows)
  {
    var b := new Rules.Builder();
    AddFile(b, book);
    b.NextLayer();
    ghost var order := AddRows(b, book, rows);
    rules := b.Finish();
    RankedIsRules(book, rows, order);
  }

  lemma RankedIsRules(book: Book, rows: map<Rel, Row>, order: seq<Rel>)
    requires Lists(order, rows)
    ensures RankedIn(book, rows, order) == RulesOf(book, rows)
  {
    SomeListing(rows);
    var other :| Lists(other, rows) && RulesOf(book, rows) == RankedIn(book, rows, other);
    RankedAnyOrder(book, rows, order, other);
  }

  // ------------------------------------------------------------------
  // What a runtime row decides
  // ------------------------------------------------------------------

  /** Literal entries match their own relation alone. */
  predicate Hits(book: Book, e: Rules.Entry, rel: Rel) {
    if e.pattern then (book.matches)(e.names, rel) else e.names == Names(rel)
  }

  function HitsOf(book: Book, rel: Rel): Rules.Entry -> bool { e => Hits(book, e, rel) }

  /** The file's entries are all in the lower layer. */
  lemma {:induction false} FileLayer(book: Book, entries: seq<(Rel, Rule)>)
    ensures forall e :: e in FileEntries(book, entries) ==> e.layer == 0
    decreases |entries|
  {
    if entries != [] {
      FileLayer(book, entries[..|entries| - 1]);
    }
  }

  /** The literal row of a relation is the highest ranked entry that matches it. */
  lemma OwnRowOnTop(book: Book, rows: map<Rel, Row>, rel: Rel, e: Rules.Entry)
    requires rel in rows && Joins(book, rel, rows[rel]) && rows[rel].pattern == Some(false)
    requires e in RulesOf(book, rows) && Hits(book, e, rel)
    ensures var own := EntryOf(rel, RowRule(rows[rel]).value, 1); e == own || Rules.Before(e, own)
  {
    var own := EntryOf(rel, RowRule(rows[rel]).value, 1);
    RulesAre(book, rows);
    FileLayer(book, book.entries);
    if !e.pattern && e.layer == 1 {
      var other :| other in rows && e in RowEntry(book, rows, other);
      assert Names(other)[0] == other.namespace && Names(other)[1] == other.name;
      assert Names(rel)[0] == rel.namespace && Names(rel)[1] == rel.name;
      assert other == rel;
    }
  }

  /** What the literal runtime row of a relation states is in force, whatever the file and the patterns say. */
  lemma OwnRowDecides(book: Book, rows: map<Rel, Row>, rel: Rel, partition: bool, f: Rules.Field)
    requires rel in rows && Joins(book, rel, rows[rel]) && rows[rel].pattern == Some(false)
    requires f in RowSettings(rows[rel])
    ensures Rules.Stated(RulesOf(book, rows), HitsOf(book, rel), partition, f) == Some(RowSettings(rows[rel])[f])
  {
    var own := EntryOf(rel, RowRule(rows[rel]).value, 1);
    var rules, hits := RulesOf(book, rows), HitsOf(book, rel);
    RulesAre(book, rows);
    assert own in RowEntry(book, rows, rel);
    assert Rules.States(own, hits, partition, f);
    Rules.WinnerIsHighestRanked(rules, hits, partition, f);
    var w :| w in rules && Rules.States(w, hits, partition, f)
             && Rules.Stated(rules, hits, partition, f) == Some(w.settings[f])
             && forall e :: e in rules && Rules.States(e, hits, partition, f) ==> !Rules.Before(w, e);
    OwnRowOnTop(book, rows, rel, w);
    assert !Rules.Before(w, own);
  }

  /** Replication included: the row outweighs every excluding pattern. */
  lemma OwnRowReplicates(book: Book, rows: map<Rel, Row>, rel: Rel, partition: bool)
    requires rel in rows && Joins(book, rel, rows[rel]) && rows[rel].pattern == Some(false)
    requires rows[rel].replicate.Some?
    ensures Rules.Replication(RulesOf(book, rows), HitsOf(book, rel), partition) == Spelled(rows[rel].replicate)
  {
    var own := EntryOf(rel, RowRule(rows[rel]).value, 1);
    var rules, hits := RulesOf(book, rows), HitsOf(book, rel);
    RulesAre(book, rows);
    RowStates(rows[rel]);
    assert own in RowEntry(book, rows, rel);
    assert Rules.States(own, hits, partition, Rules.REPLICATE);
    OwnRowDecides(book, rows, rel, partition, Rules.REPLICATE);
    Rules.LiteralDecides(rules, hits, partition, Rules.REPLICATE, own);
  }
}
