/**
 The resolver object: merge inputs held under one lock, both published views, and the
 methods that mutate the inputs and republish. Each is tied to a step of Routing.
 */
module RoutingResolver {
  import opened Basics
  import opened RoutingRules
  import opened Routing
  import opened RuledRouting
  import Rules = RankedRules

  /** The rules' say on every mapped relation. */
  method SettingsOfAll(i: Inputs, b: Rulebook, rules: seq<Rules.Entry>, rels: set<Rel>)
    returns (settings: map<Rel, Settings>)
    requires Follows(i.base, b) && rules == RulesOf(b.book, i.overlay.tables)
    ensures settings.Keys == rels && forall rel :: rel in rels ==> settings[rel] == SettingsOf(i, rel)
  {
    settings := map[];
    var todo := rels;
    while todo != {}
      invariant todo <= rels && settings.Keys == rels - todo
      invariant forall rel :: rel in settings ==> settings[rel] == SettingsOf(i, rel)
      decreases |todo|
    {
      var rel := Pick(todo);
      var s := RuledSettings(b, i, rules, rel);
      settings := settings[rel := s];
      todo := todo - {rel};
    }
  }

  /** Rewrite every entry of a map. */
  method RewriteAll(all: map<Rel, Mapping>, f: (Rel, Mapping) -> Mapping) returns (tables: map<Rel, Mapping>)
    ensures tables.Keys == all.Keys
    ensures forall rel :: rel in all ==> tables[rel] == f(rel, all[rel])
  {
    tables := all;
    var todo := all.Keys;
    while todo != {}
      invariant todo <= all.Keys && tables.Keys == all.Keys
      invariant forall rel :: rel in todo ==> tables[rel] == all[rel]
      invariant forall rel :: rel in all && rel !in todo ==> tables[rel] == f(rel, all[rel])
      decreases |todo|
    {
      var rel := Pick(todo);
      tables := tables[rel := f(rel, tables[rel])];
      todo := todo - {rel};
    }
  }

  /** Rewrite the target of every layered mapping. */
  method RetargetAll(i: Inputs, b: Rulebook, rules: seq<Rules.Entry>) returns (tables: map<Rel, Mapping>)
    requires Follows(i.base, b) && rules == RulesOf(b.book, i.overlay.tables)
    ensures tables.Keys == Layered(i).Keys
    ensures forall rel :: rel in tables ==> tables[rel] == Retarget(i, rel, Layered(i)[rel])
  {
    var all := i.base.tables + i.optIn.derived + i.optIn.mappings;
    var settings := SettingsOfAll(i, b, rules, all.Keys);
    tables := RewriteAll(all, (rel, m) => if rel in settings then RetargetBy(i, rel, m, settings[rel]) else m);
  }

  method RetainReplicated(i: Inputs, b: Rulebook, rules: seq<Rules.Entry>, all: map<Rel, Mapping>)
    returns (tables: map<Rel, Mapping>)
    requires Follows(i.base, b) && rules == RulesOf(b.book, i.overlay.tables)
    ensures forall rel :: rel in tables <==> rel in all && Kept(i, rel)
    ensures forall rel :: rel in tables ==> tables[rel] == all[rel]
  {
    tables := all - i.optIn.excluded;
    var todo := tables.Keys;
    while todo != {}
      invariant todo <= tables.Keys
      invariant forall rel :: rel in tables <==> rel in all && rel !in i.optIn.excluded && (rel in todo || Kept(i, rel))
      invariant forall rel :: rel in tables ==> tables[rel] == all[rel]
      decreases |todo|
    {
      var rel := Pick(todo);
      var s := RuledSettings(b, i, rules, rel);
      if s.replicate == Some(false) {
        tables := tables - {rel};
      }
      todo := todo - {rel};
    }
  }

  /**
   Rank the rules, going through the runtime rows as the map yields them; rewrite every
   layered mapping's target; drop what is excluded or not replicated.
   */
  method ResolveTables(i: Inputs, b: Rulebook) returns (tables: map<Rel, Mapping>)
    requires Follows(i.base, b)
    ensures tables == Resolve(i).tables
  {
    var rules := BuildRules(b.book, i.overlay.tables);
    var all := RetargetAll(i, b, rules);
    tables := RetainReplicated(i, b, rules, all);
    ResolvedIs(i, all, tables);
  }

  lemma ResolvedIs(i: Inputs, all: map<Rel, Mapping>, tables: map<Rel, Mapping>)
    requires all.Keys == Layered(i).Keys
    requires forall rel :: rel in all ==> all[rel] == Retarget(i, rel, Layered(i)[rel])
    requires forall rel :: rel in tables <==> rel in all && Kept(i, rel)
    requires forall rel :: rel in tables ==> tables[rel] == all[rel]
    ensures tables == Resolve(i).tables
  {
    assert tables.Keys == Resolve(i).tables.Keys;
  }

  method CheckTargets(r: Resolved, scopes: set<Scope>, m: Mapping) returns (ok: bool)
    ensures ok <==> MappingOk(r, scopes, m)
  {
    var targets := Targets(m);
    for k := 0 to |targets|
      invariant forall j :: 0 <= j < k ==> TargetOk(r, scopes, targets[j])
    {
      if !TargetOk(r, scopes, targets[k]) {
        assert targets[k] in targets;
        return false;
      }
    }
    return true;
  }

  method CheckConns(r: Resolved, scopes: set<Scope>) returns (ok: bool)
    ensures ok <==> ConnsOk(r, scopes)
  {
    if ScopeOf(r.conn, r.conn.database) !in scopes { return false; }
    var todo := r.instances.Keys;
    while todo != {}
      invariant todo <= r.instances.Keys
      invariant forall n :: n in r.instances && n !in todo ==>
                  ScopeOf(r.instances[n], r.instances[n].database) in scopes
      decreases |todo|
    {
      var n := Pick(todo);
      if ScopeOf(r.instances[n], r.instances[n].database) !in scopes { return false; }
      todo := todo - {n};
    }
    return true;
  }

  method CheckDestinations(r: Resolved, reserved: Option<set<Scope>>) returns (ok: bool)
    ensures ok <==> DestinationsOk(r, reserved)
  {
    if reserved.None? { return true; }
    var conns := CheckConns(r, reserved.value);
    if !conns { return false; }
    var todo := r.tables.Keys;
    while todo != {}
      invariant todo <= r.tables.Keys
      invariant forall rel :: rel in r.tables && rel !in todo ==> MappingOk(r, reserved.value, r.tables[rel])
      decreases |todo|
    {
      var rel := Pick(todo);
      var one := CheckTargets(r, reserved.value, r.tables[rel]);
      if !one { return false; }
      todo := todo - {rel};
    }
    return true;
  }

  class ConfigResolver {
    var base: Base
    var rulebook: Rulebook
    var overlay: Overlay
    var mappings: map<Rel, Mapping>
    var derived: map<Rel, Mapping>
    var excluded: set<Rel>
    var pending: set<Rel>
    var partitions: set<Rel>
    var watch: Resolved
    var routing: map<Rel, Mapping>
    var reserved: Option<set<Scope>>
    var listening: bool

    /** The settings in force are those of the file's rules and the runtime rows. */
    ghost predicate Valid()
      reads this
    {
      Follows(base, rulebook)
    }

    function Merge(): Inputs
      reads this
    {
      Inputs(base, overlay, OptIn(mappings, derived, excluded, pending, partitions))
    }

    function View(): State
      reads this
    {
      State(Merge(), watch, routing, reserved, listening)
    }

    constructor (base: Base, rulebook: Rulebook, overlay: Overlay)
      requires Follows(base, rulebook)
      ensures Valid() && View() == Init(Inputs(base, overlay, OptIn(map[], map[], {}, {}, {})))
    {
      this.base, this.rulebook, this.overlay := base, rulebook, overlay;
      mappings, derived, excluded, pending, partitions := map[], map[], {}, {}, {};
      reserved, listening := None, true;
      var i := Inputs(base, overlay, OptIn(map[], map[], {}, {}, {}));
      var tables := ResolveTables(i, rulebook);
      watch := Resolved(tables, base.conn, base.instances);
      routing := tables;
    }

    method RepublishInputs()
      requires Valid()
      modifies `watch, `routing
      ensures View() == Republish(old(View()), Merge()) && Merge() == old(Merge())
    {
      var tables := ResolveTables(Merge(), rulebook);
      var r := Resolved(tables, base.conn, base.instances);
      var ok := CheckDestinations(r, reserved);
      if !ok { return; }
      routing := tables;
      if listening {
        watch := r;
      }
    }

    method ApplyConfigEvent(overlay: Overlay)
      requires Valid()
      modifies this
      ensures Valid() && View() == Next(old(View()), Event(overlay))
    {
      this.overlay := overlay;
      RepublishInputs();
    }

    method NotePartitionOf(rel: Rel, partition: bool)
      modifies `partitions
      ensures partitions == if partition then old(partitions) + {rel} else old(partitions) - {rel}
    {
      if partition {
        partitions := partitions + {rel};
      } else {
        partitions := partitions - {rel};
      }
    }

    method MaterializeOptIn(rel: Rel, mapping: Mapping, partition: bool)
      requires Valid()
      modifies this
      ensures Valid() && View() == Next(old(View()), Materialize(rel, mapping, partition))
    {
      OptInStepIs(View(), Materialize(rel, mapping, partition));
      TakeIn(rel, mapping, partition);
      RepublishInputs();
    }

    method TakeIn(rel: Rel, mapping: Mapping, partition: bool)
      modifies `mappings, `derived, `excluded, `pending, `partitions
      ensures Merge().optIn == OptInAfter(old(Merge()), Materialize(rel, mapping, partition)).value
    {
      mappings := mappings[rel := mapping];
      derived := derived - {rel};
      excluded := excluded - {rel};
      pending := pending - {rel};
      NotePartitionOf(rel, partition);
    }

    method ExcludeTable(rel: Rel)
      requires Valid()
      modifies this
      ensures Valid() && View() == Next(old(View()), Exclude(rel))
    {
      OptInStepIs(View(), Exclude(rel));
      TakeOut(rel);
      RepublishInputs();
    }

    method TakeOut(rel: Rel)
      modifies `mappings, `derived, `excluded, `pending, `partitions
      ensures Merge().optIn == OptInAfter(old(Merge()), Exclude(rel)).value
    {
      mappings := mappings - {rel};
      derived := derived - {rel};
      pending := pending - {rel};
      partitions := partitions - {rel};
      excluded := excluded + {rel};
    }

    method RegisterDerivedMapping(rel: Rel, mapping: Mapping, partition: bool)
      requires Valid()
      modifies this
      ensures Valid() && View() == Next(old(View()), Register(rel, mapping, partition))
    {
      OptInStepIs(View(), Register(rel, mapping, partition));
      Derive(rel, mapping, partition);
      RepublishInputs();
    }

    method Derive(rel: Rel, mapping: Mapping, partition: bool)
      modifies `derived, `partitions
      ensures Merge().optIn == OptInAfter(old(Merge()), Register(rel, mapping, partition)).value
    {
      derived := derived[rel := mapping];
      NotePartitionOf(rel, partition);
    }

    method ForgetDerivedMapping(rel: Rel)
      requires Valid()
      modifies this
      ensures Valid() && View() == Next(old(View()), Forget(rel))
    {
      OptInStepIs(View(), Forget(rel));
      ForgetLayers(rel);
      RepublishInputs();
    }

    /** A runtime opt-in row waits for the relation to come back. */
    method ForgetLayers(rel: Rel)
      modifies `mappings, `derived, `pending, `partitions
      ensures Merge().optIn == OptInAfter(old(Merge()), Forget(rel)).value
    {
      derived := derived - {rel};
      mappings := mappings - {rel};
      partitions := partitions - {rel};
      if rel in overlay.tables && overlay.tables[rel].replicate == Some(true) {
        pending := pending + {rel};
      }
    }

    /** Fold into the layer that owns the mapping; the file's is copied into `derived`. */
    method FoldColumns(rel: Rel, fold: Columns -> Columns) returns (folded: bool)
      modifies `mappings, `derived
      ensures folded <==> Altered(old(Merge()), rel, fold).Some?
      ensures folded ==> Merge().optIn == Altered(old(Merge()), rel, fold).value
      ensures !folded ==> Merge() == old(Merge())
    {
      if rel in excluded { return false; }
      folded := true;
      if rel in mappings {
        mappings := mappings[rel := Folded(mappings[rel], fold)];
      } else if rel in derived {
        derived := derived[rel := Folded(derived[rel], fold)];
      } else if rel in base.tables {
        derived := derived[rel := Folded(base.tables[rel], fold)];
      } else {
        folded := false;
      }
    }

    method FoldInto(rel: Rel, fold: Columns -> Columns, partition: bool) returns (folded: bool)
      modifies `mappings, `derived, `partitions
      ensures folded <==> OptInAfter(old(Merge()), Alter(rel, fold, partition)).Some?
      ensures folded ==> Merge().optIn == OptInAfter(old(Merge()), Alter(rel, fold, partition)).value
      ensures !folded ==> Merge() == old(Merge())
    {
      folded := FoldColumns(rel, fold);
      if folded {
        NotePartitionOf(rel, partition);
      }
    }

    method ApplySchemaDiff(rel: Rel, fold: Columns -> Columns, partition: bool)
      requires Valid()
      modifies this
      ensures Valid() && View() == Next(old(View()), Alter(rel, fold, partition))
    {
      var folded := FoldInto(rel, fold, partition);
      if folded {
        OptInStepIs(old(View()), Alter(rel, fold, partition));
        RepublishInputs();
      }
    }

    method ReloadBase(base: Base, rulebook: Rulebook) returns (ok: bool)
      requires Valid() && Follows(base, rulebook)
      modifies this
      ensures Valid() && View() == Next(old(View()), Reload(base))
      ensures ok <==> DestinationsOk(Resolve(old(Merge()).(base := base)), old(reserved))
    {
      var i := Merge().(base := base);
      var tables := ResolveTables(i, rulebook);
      ok := CheckDestinations(Resolved(tables, base.conn, base.instances), reserved);
      if !ok { return; }
      this.base, this.rulebook := base, rulebook;
      RepublishInputs();
    }

    /** The last receiver of the watch goes away. */
    method ReceiversGone()
      modifies `listening
      ensures View() == Next(old(View()), LoseReceivers)
    {
      listening := false;
    }

    /** A receiver starts from whatever was last sent. */
    method NewReceiver() returns (seen: Resolved)
      modifies `listening
      ensures View() == Next(old(View()), Subscribe) && seen == watch
    {
      listening := true;
      seen := watch;
    }

    method ReserveDestinations(scopes: set<Scope>) returns (ok: bool)
      modifies `reserved
      ensures View() == Next(old(View()), Reserve(scopes))
      ensures ok <==> DestinationsOk(watch, reserved)
    {
      if reserved.None? {
        reserved := Some(scopes);
      }
      ok := CheckDestinations(watch, reserved);
    }
  }
}
