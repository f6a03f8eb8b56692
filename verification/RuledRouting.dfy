/**
 Routing with the ranked rules in place: what the rules built from the file and the
 runtime rows say of a relation, and what that makes of the published tables.
 */
module RuledRouting {
  import opened Basics
  import opened RoutingRules
  import opened Routing
  import Rules = RankedRules

  /** The file's rules, and the tees a rule spells out. */
  datatype Rulebook = Rulebook(book: Book, tees: string -> seq<Tee>)

  function SettingsFrom(b: Rulebook, instance: Option<string>, database: Option<string>, table: Option<string>,
                        replicate: Option<string>, tee: Option<string>): Settings {
    Settings(instance, database, table,
             if replicate.None? then None else Some(replicate.value != Rules.NO),
             if tee.None? then None else Some((b.tees)(tee.value)))
  }

  /** A relation's settings under given rules. */
  function SettingsIn(b: Rulebook, rules: seq<Rules.Entry>, rel: Rel, partition: bool): Settings {
    var hits := HitsOf(b.book, rel);
    SettingsFrom(b, Rules.Stated(rules, hits, partition, INSTANCE), Rules.Stated(rules, hits, partition, DATABASE),
        Rules.Stated(rules, hits, partition, TABLE), Rules.Replication(rules, hits, partition),
        Rules.Stated(rules, hits, partition, TEE))
  }

  /** The base takes its settings from the rulebook and the runtime rows. */
  ghost predicate Follows(base: Base, b: Rulebook) {
    forall rows, rel, partition ::
      (base.rules)(rows, rel, partition) == SettingsIn(b, RulesOf(b.book, rows), rel, partition)
  }

  lemma FollowsAt(base: Base, b: Rulebook, rows: map<Rel, Row>, rel: Rel, partition: bool)
    requires Follows(base, b)
    ensures (base.rules)(rows, rel, partition) == SettingsIn(b, RulesOf(b.book, rows), rel, partition)
  {
  }

  // ------------------------------------------------------------------
  // The order of the runtime rows
  // ------------------------------------------------------------------

  /** A base that ranks the runtime rows as one particular pass over them yields them. */
  ghost predicate FollowsPass(base: Base, b: Rulebook, rows: map<Rel, Row>, order: seq<Rel>) {
    forall rel, partition ::
      (base.rules)(rows, rel, partition) == SettingsIn(b, RankedIn(b.book, rows, order), rel, partition)
  }

  lemma PassesAgree(base: Base, b: Rulebook, rows: map<Rel, Row>, order: seq<Rel>)
    requires Lists(order, rows) && FollowsPass(base, b, rows, order)
    ensures forall rel, partition ::
              (base.rules)(rows, rel, partition) == SettingsIn(b, RulesOf(b.book, rows), rel, partition)
  {
    RankedIsRules(b.book, rows, order);
  }

  lemma SettingsDecide(i: Inputs, j: Inputs)
    requires i.overlay == j.overlay && i.optIn == j.optIn
    requires i.base.(rules := j.base.rules) == j.base
    requires forall rel, partition :: (i.base.rules)(i.overlay.tables, rel, partition)
                                   == (j.base.rules)(i.overlay.tables, rel, partition)
    ensures Resolve(i) == Resolve(j)
  {
    forall rel
      ensures SettingsOf(i, rel) == SettingsOf(j, rel)
    {
    }
    forall rel, m
      ensures Retarget(i, rel, m) == Retarget(j, rel, m)
    {
      assert SettingsOf(i, rel) == SettingsOf(j, rel);
    }
    assert Resolve(i).tables == Resolve(j).tables;
  }

  /**
   What is published does not depend on the order in which the runtime rows come: any two
   passes over them resolve to the same tables.
   */
  lemma PublishedInAnyOrder(i: Inputs, j: Inputs, b: Rulebook, order: seq<Rel>, other: seq<Rel>)
    requires i.overlay == j.overlay && i.optIn == j.optIn && i.base.(rules := j.base.rules) == j.base
    requires Lists(order, i.overlay.tables) && Lists(other, i.overlay.tables)
    requires FollowsPass(i.base, b, i.overlay.tables, order) && FollowsPass(j.base, b, i.overlay.tables, other)
    ensures Resolve(i) == Resolve(j)
  {
    PassesAgree(i.base, b, i.overlay.tables, order);
    PassesAgree(j.base, b, i.overlay.tables, other);
    SettingsDecide(i, j);
  }

  // ------------------------------------------------------------------
  // What the rules make of the tables
  // ------------------------------------------------------------------

  /** A runtime row that names its relation and joins the rules. */
  predicate OwnRow(b: Rulebook, i: Inputs, rel: Rel) {
    && rel in i.overlay.tables && i.overlay.tables[rel].pattern == Some(false)
    && Joins(b.book, rel, i.overlay.tables[rel])
  }

  lemma OwnRowSettings(b: Rulebook, i: Inputs, rel: Rel, partition: bool)
    requires OwnRow(b, i, rel)
    ensures var row := i.overlay.tables[rel];
            var s := SettingsIn(b, RulesOf(b.book, i.overlay.tables), rel, partition);
            && (row.replicate.Some? ==> s.replicate == row.replicate)
            && (row.table.Some? ==> s.table == row.table) && (row.database.Some? ==> s.database == row.database)
  {
    var rows := i.overlay.tables;
    RowStates(rows[rel]);
    if rows[rel].replicate.Some? {
      OwnRowReplicates(b.book, rows, rel, partition);
      assert YES[0] != Rules.NO[0];
    }
    if rows[rel].table.Some? {
      OwnRowDecides(b.book, rows, rel, partition, TABLE);
    }
    if rows[rel].database.Some? {
      OwnRowDecides(b.book, rows, rel, partition, DATABASE);
    }
  }

  /**
   A literal runtime row rules its relation: the database and table it names are where the
   relation goes, `replicate = false` keeps it out and `replicate = true` lets it in,
   whatever the file, the patterns and the layers say.
   */
  lemma OwnRowRoutes(b: Rulebook, i: Inputs, rel: Rel)
    requires Follows(i.base, b) && OwnRow(b, i, rel)
    ensures var row, tables := i.overlay.tables[rel], Resolve(i).tables;
            && (row.replicate == Some(false) ==> rel !in tables)
            && (row.replicate == Some(true) && rel in Layered(i) && rel !in i.optIn.excluded ==> rel in tables)
            && (rel in tables && row.table.Some? ==> tables[rel].target.table == row.table.value)
            && (rel in tables && row.database.Some? ==> tables[rel].target.database == row.database.value)
  {
    OwnRowSettings(b, i, rel, rel in i.optIn.partitions);
    FollowsAt(i.base, b, i.overlay.tables, rel, rel in i.optIn.partitions);
  }

  /** An excluding pattern keeps a relation unrouted, whichever layer maps it, unless a literal entry speaks. */
  lemma ExcludingPatternUnroutes(b: Rulebook, i: Inputs, rel: Rel, e: Rules.Entry)
    requires Follows(i.base, b) && Contributed(b.book, i.overlay.tables, e)
    requires Rules.Bars(e, HitsOf(b.book, rel), rel in i.optIn.partitions)
    requires forall l :: Contributed(b.book, i.overlay.tables, l) && !l.pattern ==>
                           !Rules.States(l, HitsOf(b.book, rel), rel in i.optIn.partitions, Rules.REPLICATE)
    ensures rel !in Resolve(i).tables
  {
    RulesAre(b.book, i.overlay.tables);
    Rules.ExclusionWins(RulesOf(b.book, i.overlay.tables), HitsOf(b.book, rel), rel in i.optIn.partitions, e);
    FollowsAt(i.base, b, i.overlay.tables, rel, rel in i.optIn.partitions);
  }

  // ------------------------------------------------------------------
  // Resolving
  // ------------------------------------------------------------------

  /** One merge of the rules for one relation. */
  method SettingsFor(b: Rulebook, rules: seq<Rules.Entry>, rel: Rel, partition: bool) returns (s: Settings)
    ensures s == SettingsIn(b, rules, rel, partition)
  {
    var merged, _ := Rules.Merge(rules, HitsOf(b.book, rel), partition);
    assert |INSTANCE| != |Rules.REPLICATE| && |DATABASE| != |Rules.REPLICATE| && |TABLE| != |Rules.REPLICATE|;
    assert |TEE| != |Rules.REPLICATE|;
    s := SettingsFrom(b, Rules.Get(merged, INSTANCE), Rules.Get(merged, DATABASE), Rules.Get(merged, TABLE),
        Rules.Get(merged, Rules.REPLICATE), Rules.Get(merged, TEE));
  }

  /** A relation's settings, from rules ranked as the map yielded its rows. */
  method RuledSettings(b: Rulebook, i: Inputs, rules: seq<Rules.Entry>, rel: Rel) returns (s: Settings)
    requires Follows(i.base, b) && rules == RulesOf(b.book, i.overlay.tables)
    ensures s == SettingsOf(i, rel)
  {
    s := SettingsFor(b, rules, rel, rel in i.optIn.partitions);
    FollowsAt(i.base, b, i.overlay.tables, rel, rel in i.optIn.partitions);
  }
}
