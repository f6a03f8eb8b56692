/**
 The live routing of relations to ClickHouse: layered inputs (TOML base, runtime
 overlay, opt-ins, exclusions, derived mappings) resolved into one table map that is
 published twice, on a watch channel and in the fenced routing map, provided every
 destination lies in the scopes reserved for the tenant.
 */
module Routing {
  import opened Basics
  import opened RoutingRules
  import SchemaFold

  type Columns = seq<SchemaFold.Column>

  datatype Target = Target(instance: Option<string>, database: string, table: string)

  datatype Tee = Tee(instance: Option<string>, database: Option<string>, table: string)

  datatype Mapping = Mapping(target: Target, columns: Columns, tees: seq<Tee>)

  datatype Conn = Conn(host: string, port: nat, database: string)

  /** A reserved place: server and database. */
  datatype Scope = Scope(host: string, port: nat, database: string)

  /** What the merged rules say of one relation (see RuledRouting). */
  datatype Settings = Settings(instance: Option<string>, database: Option<string>, table: Option<string>,
                               replicate: Option<bool>, tee: Option<seq<Tee>>)

  /** Runtime rows, keyed by relation, and namespace databases. */
  datatype Overlay = Overlay(tables: map<Rel, Row>, namespaces: map<string, string>)

  /**
   `rules`: the file's rules merged with given runtime rows, for a relation that is or is not
   a partition. `names`: the file's column rules, the only ones that rename.
   */
  datatype Base = Base(tables: map<Rel, Mapping>, conn: Conn, instances: map<string, Conn>,
                       namespaces: map<string, string>, rules: (map<Rel, Row>, Rel, bool) -> Settings,
                       names: Rel -> SchemaFold.Namer)

  datatype OptIn = OptIn(mappings: map<Rel, Mapping>, derived: map<Rel, Mapping>, excluded: set<Rel>,
                         pending: set<Rel>, partitions: set<Rel>)

  datatype Inputs = Inputs(base: Base, overlay: Overlay, optIn: OptIn)

  datatype Resolved = Resolved(tables: map<Rel, Mapping>, conn: Conn, instances: map<string, Conn>)

  // ------------------------------------------------------------------
  // Resolution
  // ------------------------------------------------------------------

  function NamedInstance(name: string): Option<string> { if name == "default" then None else Some(name) }

  function InstanceDatabase(instances: map<string, Conn>, conn: Conn, instance: Option<string>): Option<string> {
    if instance.None? || instance.value == "default" then Some(conn.database)
    else if instance.value in instances then Some(instances[instance.value].database)
    else None
  }

  function DefaultDatabase(namespaces: map<string, string>, instances: map<string, Conn>, conn: Conn,
                           ns: string, instance: Option<string>): string {
    if ns in namespaces then namespaces[ns]
    else
      var db := InstanceDatabase(instances, conn, instance);
      if db.Some? then db.value else conn.database
  }

  function SettingsOf(i: Inputs, rel: Rel): Settings {
    (i.base.rules)(i.overlay.tables, rel, rel in i.optIn.partitions)
  }

  /** Derived mappings shadow the file's, opt-ins shadow both. */
  function Layered(i: Inputs): map<Rel, Mapping> { i.base.tables + i.optIn.derived + i.optIn.mappings }

  function InstanceOf(i: Inputs, rel: Rel, s: Settings): Option<string> {
    if s.instance.Some? then NamedInstance(s.instance.value)
    else if rel in i.base.tables then i.base.tables[rel].target.instance
    else None
  }

  /** Rules rewrite the target: instance, then database, then table; tees are the rules' alone. */
  function RetargetBy(i: Inputs, rel: Rel, m: Mapping, s: Settings): Mapping {
    var instance := InstanceOf(i, rel, s);
    var database :=
      if s.database.Some? then s.database.value
      else if m.target.instance != instance then
        DefaultDatabase(i.base.namespaces + i.overlay.namespaces, i.base.instances, i.base.conn, rel.namespace,
            instance)
      else m.target.database;
    var table := if s.table.Some? then s.table.value else m.target.table;
    Mapping(Target(instance, database, table), m.columns, if s.tee.Some? then s.tee.value else [])
  }

  function Retarget(i: Inputs, rel: Rel, m: Mapping): Mapping { RetargetBy(i, rel, m, SettingsOf(i, rel)) }

  predicate Kept(i: Inputs, rel: Rel) { rel !in i.optIn.excluded && SettingsOf(i, rel).replicate != Some(false) }

  function Resolve(i: Inputs): Resolved {
    var all := Layered(i);
    Resolved(map rel | rel in all && Kept(i, rel) :: Retarget(i, rel, all[rel]), i.base.conn, i.base.instances)
  }

  /** The highest layer that has the relation. */
  predicate Owns(i: Inputs, rel: Rel, m: Mapping) {
    if rel in i.optIn.mappings then m == i.optIn.mappings[rel]
    else if rel in i.optIn.derived then m == i.optIn.derived[rel]
    else rel in i.base.tables && m == i.base.tables[rel]
  }

  /** A relation is routed when a layer has it, it is not excluded and its rules do not say otherwise. */
  lemma RoutedIff(i: Inputs, rel: Rel)
    ensures rel in Resolve(i).tables <==>
            && (rel in i.optIn.mappings || rel in i.optIn.derived || rel in i.base.tables)
            && rel !in i.optIn.excluded && SettingsOf(i, rel).replicate != Some(false)
  {
    assert Layered(i).Keys == i.base.tables.Keys + i.optIn.derived.Keys + i.optIn.mappings.Keys;
  }

  /**
   Where it goes: columns from the highest layer; a pinned database or table as written,
   else the layer's; the instance from the rules or the file, never from the layer; tees
   from the rules alone.
   */
  lemma ResolvedAsLayered(i: Inputs, rel: Rel, m: Mapping)
    requires rel in Resolve(i).tables && Owns(i, rel, m)
    ensures var s, t := SettingsOf(i, rel), Resolve(i).tables[rel];
            && t.columns == m.columns && t.tees == (if s.tee.Some? then s.tee.value else [])
            && (s.table.Some? ==> t.target.table == s.table.value) && (s.table.None? ==> t.target.table == m.target.table)
            && (s.database.Some? ==> t.target.database == s.database.value)
            && (s.database.None? && t.target.instance == m.target.instance ==> t.target.database == m.target.database)
            && (s.instance == Some("default") ==> t.target.instance == None)
            && (s.instance.Some? && s.instance.value != "default" ==> t.target.instance == s.instance)
            && (s.instance.None? && rel in i.base.tables ==> t.target.instance == i.base.tables[rel].target.instance)
            && (s.instance.None? && rel !in i.base.tables ==> t.target.instance == None)
  {
    assert Layered(i)[rel] == m;
  }

  // ------------------------------------------------------------------
  // Reservations
  // ------------------------------------------------------------------

  function TeeTarget(t: Tee, primary: Target): Target {
    Target(if t.instance.Some? then NamedInstance(t.instance.value) else primary.instance,
           if t.database.Some? then t.database.value else primary.database,
           t.table)
  }

  function Targets(m: Mapping): seq<Target> {
    [m.target] + seq(|m.tees|, k requires 0 <= k < |m.tees| => TeeTarget(m.tees[k], m.target))
  }

  function ScopeOf(c: Conn, database: string): Scope { Scope(c.host, c.port, database) }

  predicate TargetOk(r: Resolved, scopes: set<Scope>, t: Target) {
    match t.instance
    case Some(name) => name in r.instances && ScopeOf(r.instances[name], t.database) in scopes
    case None => ScopeOf(r.conn, t.database) in scopes
  }

  predicate MappingOk(r: Resolved, scopes: set<Scope>, m: Mapping) {
    forall t :: t in Targets(m) ==> TargetOk(r, scopes, t)
  }

  predicate ConnsOk(r: Resolved, scopes: set<Scope>) {
    && ScopeOf(r.conn, r.conn.database) in scopes
    && forall n :: n in r.instances ==> ScopeOf(r.instances[n], r.instances[n].database) in scopes
  }

  predicate DestinationsOk(r: Resolved, reserved: Option<set<Scope>>) {
    reserved.Some? ==>
      && ConnsOk(r, reserved.value)
      && forall rel :: rel in r.tables ==> MappingOk(r, reserved.value, r.tables[rel])
  }

  // ------------------------------------------------------------------
  // Steps
  // ------------------------------------------------------------------

  /** `watch`: last value sent. `routing`: the map rows are routed by. `listening`: some watch receiver lives. */
  datatype State = State(inputs: Inputs, watch: Resolved, routing: map<Rel, Mapping>,
                         reserved: Option<set<Scope>>, listening: bool)

  datatype Step =
    | Event(overlay: Overlay)
    | Materialize(rel: Rel, mapping: Mapping, partition: bool)
    | Exclude(rel: Rel)
    | Park(rel: Rel)
    | TakePending(rel: Rel)
    | Register(rel: Rel, mapping: Mapping, partition: bool)
    | Rename(before: Rel, after: Rel, mapping: Mapping)
    | Forget(rel: Rel)
    | Alter(rel: Rel, fold: Columns -> Columns, partition: bool)
    | Reload(base: Base)
    | Reserve(scopes: set<Scope>)
    | LoseReceivers
    | Subscribe

  function NotePartition(o: OptIn, rel: Rel, partition: bool): OptIn {
    o.(partitions := if partition then o.partitions + {rel} else o.partitions - {rel})
  }

  /** A send without receivers leaves the channel's value alone. */
  function Publish(s: State, r: Resolved): State {
    s.(routing := r.tables, watch := if s.listening then r else s.watch)
  }

  /** Inputs change whatever happens; the views only if every destination is reserved. */
  function Republish(s: State, inputs: Inputs): State {
    var r := Resolve(inputs);
    var t := s.(inputs := inputs);
    if DestinationsOk(r, s.reserved) then Publish(t, r) else t
  }

  function Forgotten(i: Inputs, rel: Rel): OptIn {
    var o := i.optIn;
    var repark := rel in i.overlay.tables && i.overlay.tables[rel].replicate == Some(true);
    o.(derived := o.derived - {rel}, mappings := o.mappings - {rel}, partitions := o.partitions - {rel},
       pending := if repark then o.pending + {rel} else o.pending)
  }

  /** The layer that owns the mapping folds the change in; the file's mapping is copied into `derived`. */
  function Altered(i: Inputs, rel: Rel, fold: Columns -> Columns): Option<OptIn> {
    var o := i.optIn;
    if rel in o.excluded then None
    else if rel in o.mappings then Some(o.(mappings := o.mappings[rel := Folded(o.mappings[rel], fold)]))
    else if rel in o.derived then Some(o.(derived := o.derived[rel := Folded(o.derived[rel], fold)]))
    else if rel in i.base.tables then Some(o.(derived := o.derived[rel := Folded(i.base.tables[rel], fold)]))
    else None
  }

  function Folded(m: Mapping, fold: Columns -> Columns): Mapping { m.(columns := fold(m.columns)) }

  /** The opt-in layer after a step that touches it; none when there is nothing to republish. */
  function OptInAfter(i: Inputs, step: Step): Option<OptIn> {
    var o := i.optIn;
    match step
    case Materialize(rel, m, partition) =>
      Some(NotePartition(o.(mappings := o.mappings[rel := m], derived := o.derived - {rel},
                            excluded := o.excluded - {rel}, pending := o.pending - {rel}), rel, partition))
    case Exclude(rel) =>
      Some(o.(mappings := o.mappings - {rel}, derived := o.derived - {rel}, pending := o.pending - {rel},
              partitions := o.partitions - {rel}, excluded := o.excluded + {rel}))
    case Register(rel, m, partition) => Some(NotePartition(o.(derived := o.derived[rel := m]), rel, partition))
    case Rename(before, after, m) =>
      Some(o.(mappings := o.mappings - {before}, derived := (o.derived - {before})[after := m],
              pending := o.pending - {before}, excluded := (o.excluded + {before}) - {after}))
    case Forget(rel) => Some(Forgotten(i, rel))
    case Alter(rel, fold, partition) =>
      var altered := Altered(i, rel, fold);
      if altered.Some? then Some(NotePartition(altered.value, rel, partition)) else None
    case _ => None
  }

  function Next(s: State, step: Step): State {
    var o := s.inputs.optIn;
    match step
    case Event(overlay) => Republish(s, s.inputs.(overlay := overlay))
    case Park(rel) => s.(inputs := s.inputs.(optIn := o.(pending := o.pending + {rel})))
    case TakePending(rel) => s.(inputs := s.inputs.(optIn := o.(pending := o.pending - {rel})))
    // A reload is checked before its base is taken on
    case Reload(base) =>
      if DestinationsOk(Resolve(s.inputs.(base := base)), s.reserved) then Republish(s, s.inputs.(base := base)) else s
    case Reserve(scopes) => if s.reserved.None? then s.(reserved := Some(scopes)) else s
    case LoseReceivers => s.(listening := false)
    // A new receiver finds the last value sent
    case Subscribe => s.(listening := true)
    case _ =>
      var after := OptInAfter(s.inputs, step);
      if after.Some? then Republish(s, s.inputs.(optIn := after.value)) else s
  }

  function Exec(s: State, steps: seq<Step>): State
    decreases |steps|
  {
    if steps == [] then s else Exec(Next(s, steps[0]), steps[1..])
  }

  // ------------------------------------------------------------------
  // Safety over runs
  // ------------------------------------------------------------------

  /** Both views show what the current inputs resolve to. */
  predicate InSync(s: State) { s.watch == Resolve(s.inputs) && s.routing == s.watch.tables }

  predicate Rejected(s: State) { !DestinationsOk(Resolve(s.inputs), s.reserved) }

  predicate Agree(s: State) { s.routing == s.watch.tables }

  /** What was last sent is reserved; the routing map shows the inputs, unless they are being refused. */
  ghost predicate Inv(s: State) {
    && DestinationsOk(s.watch, s.reserved)
    && s.inputs.optIn.mappings.Keys !! s.inputs.optIn.excluded
    && (Rejected(s) || s.routing == Resolve(s.inputs).tables)
  }

  /** With a receiver at every update the two views are one. */
  ghost predicate Tuned(s: State) { s.listening && Agree(s) && (InSync(s) || Rejected(s)) }

  /** Reserving may be refused; what is refused is found out before anything else happens. */
  predicate Accepted(s: State, step: Step) {
    step.Reserve? && s.reserved.None? ==> DestinationsOk(s.watch, Some(step.scopes))
  }

  lemma RepublishKeepsInv(s: State, inputs: Inputs)
    requires Inv(s) && inputs.optIn.mappings.Keys !! inputs.optIn.excluded
    ensures Inv(Republish(s, inputs))
    ensures Tuned(s) ==> Tuned(Republish(s, inputs))
  {
  }

  lemma ParkedIsUnresolved(i: Inputs, pending: set<Rel>)
    ensures Resolve(i.(optIn := i.optIn.(pending := pending))) == Resolve(i)
  {
    var j := i.(optIn := i.optIn.(pending := pending));
    assert Layered(j) == Layered(i);
    assert forall rel :: SettingsOf(j, rel) == SettingsOf(i, rel);
    assert forall rel :: Kept(j, rel) <==> Kept(i, rel);
    assert forall rel, m :: Retarget(j, rel, m) == Retarget(i, rel, m);
    assert Resolve(j).tables == Resolve(i).tables;
  }

  lemma ParkKeepsInv(s: State, pending: set<Rel>)
    requires Inv(s)
    ensures var t := s.(inputs := s.inputs.(optIn := s.inputs.optIn.(pending := pending)));
            Inv(t) && (Tuned(s) ==> Tuned(t))
  {
    ParkedIsUnresolved(s.inputs, pending);
  }

  predicate Apart(o: OptIn) { o.mappings.Keys !! o.excluded }

  lemma OptInStaysApart(i: Inputs, step: Step)
    requires Apart(i.optIn) && OptInAfter(i, step).Some?
    ensures Apart(OptInAfter(i, step).value)
  {
  }

  /** A step on the opt-in layers is a republish of what it leaves there. */
  lemma OptInStepIs(s: State, step: Step)
    requires OptInAfter(s.inputs, step).Some?
    ensures Next(s, step) == Republish(s, s.inputs.(optIn := OptInAfter(s.inputs, step).value))
  {
  }

  lemma OptInKeepsInv(s: State, step: Step)
    requires Inv(s) && OptInAfter(s.inputs, step).Some?
    ensures Inv(Next(s, step)) && (Tuned(s) ==> Tuned(Next(s, step)))
  {
    OptInStepIs(s, step);
    OptInStaysApart(s.inputs, step);
    RepublishKeepsInv(s, s.inputs.(optIn := OptInAfter(s.inputs, step).value));
  }

  lemma ReserveKeepsInv(s: State, scopes: set<Scope>)
    requires Inv(s) && Accepted(s, Reserve(scopes))
    ensures Inv(Next(s, Reserve(scopes))) && (Tuned(s) ==> Tuned(Next(s, Reserve(scopes))))
  {
  }

  lemma NextKeepsInv(s: State, step: Step)
    requires Inv(s) && Accepted(s, step)
    ensures Inv(Next(s, step)) && (Tuned(s) && !step.LoseReceivers? ==> Tuned(Next(s, step)))
  {
    match step
    case Event(overlay) => RepublishKeepsInv(s, s.inputs.(overlay := overlay));
    case Park(rel) => ParkKeepsInv(s, s.inputs.optIn.pending + {rel});
    case TakePending(rel) => ParkKeepsInv(s, s.inputs.optIn.pending - {rel});
    case Reload(base) => RepublishKeepsInv(s, s.inputs.(base := base));
    case Reserve(scopes) => ReserveKeepsInv(s, scopes);
    case LoseReceivers =>
    case Subscribe =>
    case _ => if OptInAfter(s.inputs, step).Some? { OptInKeepsInv(s, step); }
  }

  ghost predicate AllAccepted(s: State, steps: seq<Step>)
    decreases |steps|
  {
    steps == [] || (Accepted(s, steps[0]) && AllAccepted(Next(s, steps[0]), steps[1..]))
  }

  lemma {:induction false} ExecKeepsInv(s: State, steps: seq<Step>)
    requires Inv(s) && AllAccepted(s, steps)
    ensures Inv(Exec(s, steps))
    ensures Tuned(s) && LoseReceivers !in steps ==> Tuned(Exec(s, steps))
    decreases |steps|
  {
    if steps != [] {
      NextKeepsInv(s, steps[0]);
      ExecKeepsInv(Next(s, steps[0]), steps[1..]);
    }
  }

  function Init(i: Inputs): State { State(i, Resolve(i), Resolve(i).tables, None, true) }

  /**
   Over every run: what was last sent lies in the reserved destinations, tees included;
   opt-ins and exclusions never overlap; and either rows are routed by the current inputs,
   with no excluded relation among them, or those inputs are being refused. While a receiver
   lives both views are the same, so every destination routed to is reserved.
   */
  lemma RunsStaySafe(i: Inputs, steps: seq<Step>)
    requires i.optIn.mappings.Keys !! i.optIn.excluded && AllAccepted(Init(i), steps)
    ensures var t := Exec(Init(i), steps);
            && DestinationsOk(t.watch, t.reserved)
            && t.inputs.optIn.mappings.Keys !! t.inputs.optIn.excluded
            && (Rejected(t) || (&& t.routing == Resolve(t.inputs).tables
                                && forall rel :: rel in t.inputs.optIn.excluded ==> rel !in t.routing))
            && (LoseReceivers !in steps ==> t.routing == t.watch.tables && (Rejected(t) || InSync(t)))
  {
    ExecKeepsInv(Init(i), steps);
  }

  /** After an ALTER the owning mapping is the folded one, whichever layer it was in. */
  lemma AlteredOwns(i: Inputs, rel: Rel, fold: Columns -> Columns, partition: bool, m: Mapping)
    requires Owns(i, rel, m) && rel !in i.optIn.excluded
    ensures OptInAfter(i, Alter(rel, fold, partition)).Some?
    ensures Owns(i.(optIn := OptInAfter(i, Alter(rel, fold, partition)).value), rel, Folded(m, fold))
  {
  }

  /** An accepted ALTER of a routed relation shows its folded columns in both views. */
  lemma AlterShows(s: State, rel: Rel, fold: Columns -> Columns, partition: bool)
    requires Inv(s) && !Rejected(s) && rel in s.routing
    ensures var t := Next(s, Alter(rel, fold, partition));
            !Rejected(t) && rel in t.routing ==>
              && t.routing[rel].columns == fold(s.routing[rel].columns)
              && (s.listening ==> t.watch.tables == t.routing)
  {
    RoutedIff(s.inputs, rel);
    var m := Layered(s.inputs)[rel];
    AlteredOwns(s.inputs, rel, fold, partition, m);
    NextKeepsInv(s, Alter(rel, fold, partition));
    var t := Next(s, Alter(rel, fold, partition));
    if !Rejected(t) && rel in t.routing {
      ResolvedAsLayered(s.inputs, rel, m);
      ResolvedAsLayered(t.inputs, rel, Folded(m, fold));
    }
  }

  // ------------------------------------------------------------------
  // When the two views agree
  // ------------------------------------------------------------------

  /** The inputs a step resolves anew. */
  function Updates(s: State, step: Step): Option<Inputs> {
    match step
    case Event(overlay) => Some(s.inputs.(overlay := overlay))
    case Reload(base) => Some(s.inputs.(base := base))
    case _ =>
      var after := OptInAfter(s.inputs, step);
      if after.Some? then Some(s.inputs.(optIn := after.value)) else None
  }

  predicate Publishes(s: State, step: Step) {
    Updates(s, step).Some? && DestinationsOk(Resolve(Updates(s, step).value), s.reserved)
  }

  /** The last step of a run that is accepted. */
  function LastPublished(s: State, steps: seq<Step>): (k: Option<nat>)
    ensures k.Some? ==> k.value < |steps| && Publishes(Exec(s, steps[..k.value]), steps[k.value])
    decreases |steps|
  {
    if steps == [] then None
    else
      var rest := LastPublished(Next(s, steps[0]), steps[1..]);
      if rest.Some? then
        assert steps[..rest.value + 1][1..] == steps[1..][..rest.value];
        Some(rest.value + 1)
      else if Publishes(s, steps[0]) then Some(0)
      else None
  }

  /** An accepted update is heard, or brings the tables back to what was last sent. */
  predicate Heard(s: State, step: Step)
    requires Publishes(s, step)
  {
    s.listening || Resolve(Updates(s, step).value).tables == s.watch.tables
  }

  lemma StepAgrees(s: State, step: Step)
    ensures Publishes(s, step) ==> (Agree(Next(s, step)) <==> Heard(s, step))
    ensures !Publishes(s, step) ==> (Agree(Next(s, step)) <==> Agree(s))
  {
  }

  /** At the end of any run the views agree if and only if its last accepted update was heard. */
  lemma {:induction false} ViewsAgreeIff(s: State, steps: seq<Step>)
    ensures var k := LastPublished(s, steps);
            Agree(Exec(s, steps))
            <==> if k.Some? then Heard(Exec(s, steps[..k.value]), steps[k.value]) else Agree(s)
    decreases |steps|
  {
    if steps != [] {
      StepAgrees(s, steps[0]);
      ViewsAgreeIff(Next(s, steps[0]), steps[1..]);
      var rest := LastPublished(Next(s, steps[0]), steps[1..]);
      if rest.Some? {
        assert steps[..rest.value + 1][1..] == steps[1..][..rest.value];
      }
    }
  }

  /** A relation whose resolved mapping leaves the reservation. */
  predicate Offends(s: State, rel: Rel) {
    var r := Resolve(s.inputs);
    s.reserved.Some? && rel in r.tables && !MappingOk(r, s.reserved.value, r.tables[rel])
  }

  lemma ResolvesAlike(i: Inputs, j: Inputs, rel: Rel)
    requires i.base == j.base && i.overlay == j.overlay
    requires rel in i.optIn.partitions <==> rel in j.optIn.partitions
    requires rel in i.optIn.excluded <==> rel in j.optIn.excluded
    requires rel in Layered(i) && rel in Layered(j) && Layered(i)[rel] == Layered(j)[rel]
    ensures rel in Resolve(i).tables <==> rel in Resolve(j).tables
    ensures rel in Resolve(i).tables ==> Resolve(i).tables[rel] == Resolve(j).tables[rel]
  {
    assert SettingsOf(i, rel) == SettingsOf(j, rel);
    assert Retarget(i, rel, Layered(i)[rel]) == Retarget(j, rel, Layered(j)[rel]);
  }

  lemma StillOffends(s: State, t: State, rel: Rel)
    requires Offends(s, rel) && s.reserved == t.reserved && s.inputs.base == t.inputs.base
    requires rel in Resolve(t.inputs).tables && Resolve(t.inputs).tables[rel] == Resolve(s.inputs).tables[rel]
    ensures Offends(t, rel) && Rejected(t)
  {
    var r, q := Resolve(s.inputs), Resolve(t.inputs);
    var target :| target in Targets(r.tables[rel]) && !TargetOk(r, s.reserved.value, target);
    assert !TargetOk(q, t.reserved.value, target);
  }

  lemma ExcludeLeavesOthers(i: Inputs, rel: Rel, other: Rel)
    requires other != rel && other in Resolve(i).tables
    ensures var j := i.(optIn := OptInAfter(i, Exclude(rel)).value);
            other in Resolve(j).tables && Resolve(j).tables[other] == Resolve(i).tables[other]
  {
    ResolvesAlike(i, i.(optIn := OptInAfter(i, Exclude(rel)).value), other);
  }

  /** An exclusion is refused exactly when something else already is: a connection default, or another relation. */
  ghost predicate Blocked(s: State, rel: Rel) {
    && s.reserved.Some?
    && (!ConnsOk(Resolve(s.inputs), s.reserved.value) || exists o :: o != rel && Offends(s, o))
  }

  lemma ExcludeAddsNothing(i: Inputs, rel: Rel, other: Rel)
    ensures var j := i.(optIn := OptInAfter(i, Exclude(rel)).value);
            other in Resolve(j).tables ==>
              && other != rel && other in Resolve(i).tables && Resolve(j).tables[other] == Resolve(i).tables[other]
  {
    var j := i.(optIn := OptInAfter(i, Exclude(rel)).value);
    if other in Resolve(j).tables {
      ResolvesAlike(i, j, other);
    }
  }

  lemma RejectedIffBlocked(s: State, rel: Rel)
    ensures Rejected(Next(s, Exclude(rel))) <==> Blocked(s, rel)
  {
    var t := Next(s, Exclude(rel));
    if Blocked(s, rel) {
      if ConnsOk(Resolve(s.inputs), s.reserved.value) {
        var o :| o != rel && Offends(s, o);
        ExcludeLeavesOthers(s.inputs, rel, o);
        StillOffends(s, t, o);
      }
    } else if Rejected(t) {
      var r := Resolve(t.inputs);
      var o :| o in r.tables && !MappingOk(r, s.reserved.value, r.tables[o]);
      ExcludeAddsNothing(s.inputs, rel, o);
      StillOffends(t, s, o);
      assert false;
    }
  }

  /** After an exclusion the relation is still routed exactly when it was and something else blocks the update. */
  lemma ExcludedStaysRoutedIff(s: State, rel: Rel)
    ensures rel in Next(s, Exclude(rel)).routing <==> rel in s.routing && Blocked(s, rel)
  {
    RejectedIffBlocked(s, rel);
  }

  /** While one relation offends, excluding another is refused too, and it stays routed. */
  lemma OffenderPinsOthers(s: State, offender: Rel, rel: Rel)
    requires Offends(s, offender) && offender != rel && rel in s.routing
    ensures var t := Next(s, Exclude(rel));
            Offends(t, offender) && Rejected(t) && rel in t.inputs.optIn.excluded && rel in t.routing
  {
    ExcludeLeavesOthers(s.inputs, rel, offender);
    StillOffends(s, Next(s, Exclude(rel)), offender);
    ExcludedStaysRoutedIff(s, rel);
  }

  const ID := SchemaFold.Column(1, "id", "Int64")

  const PLAIN := Settings(None, None, None, None, None)

  function SmallBase(): Base {
    Base(map[Rel("public", "orders") := Mapping(Target(None, "app", "orders"), [ID], [])],
         Conn("ch", 9000, "app"), map[], map[], (_, _, _) => PLAIN, _ => _ => None)
  }

  /** Reserved: one database. */
  function SmallState(mappings: map<Rel, Mapping>): State {
    var start := Init(Inputs(SmallBase(), Overlay(map[], map[]), OptIn(map[], map[], {}, {}, {})));
    start.(reserved := Some({Scope("ch", 9000, "app")}),
        inputs := start.inputs.(optIn := OptIn(mappings, map[], {}, {}, {})))
  }

  /** Such an offender needs only an opt-in that names an unreserved database. */
  lemma StrayOptInOffends()
    ensures var stray := Mapping(Target(None, "elsewhere", "audit"), [ID], []);
            var s := SmallState(map[Rel("public", "audit") := stray]);
            Offends(s, Rel("public", "audit")) && Rel("public", "orders") in s.routing && Inv(s) && Tuned(s)
  {
    var audit := Rel("public", "audit");
    var stray := Mapping(Target(None, "elsewhere", "audit"), [ID], []);
    var s := SmallState(map[audit := stray]);
    assert SettingsOf(s.inputs, audit) == PLAIN;
    assert Resolve(s.inputs).tables[audit] == stray && Targets(stray)[0] == stray.target;
    assert |"elsewhere"| != |"app"|;
    assert !TargetOk(Resolve(s.inputs), s.reserved.value, stray.target);
    assert s.watch.tables.Keys == {Rel("public", "orders")};
    assert s.watch.tables[Rel("public", "orders")] == Mapping(Target(None, "app", "orders"), [ID], []);
  }

  /** The receivers go, an exclusion is accepted, a receiver comes: it finds a table that is not routed any more. */
  lemma DeafExclusionDiverges(s: State, rel: Rel)
    requires rel in s.watch.tables && s.reserved.None?
    ensures var t := Next(Next(Next(s, LoseReceivers), Exclude(rel)), Subscribe);
            t.listening && rel in t.watch.tables && rel !in t.routing && !Agree(t)
  {
    var deaf := Next(s, LoseReceivers);
    OptInStepIs(deaf, Exclude(rel));
    ExcludedStaysRoutedIff(deaf, rel);
  }

  /** Which takes no more than one table. */
  lemma SmallRunDiverges()
    ensures var orders := Rel("public", "orders");
            var s := Init(Inputs(SmallBase(), Overlay(map[], map[]), OptIn(map[], map[], {}, {}, {})));
            orders in s.watch.tables && !Agree(Next(Next(Next(s, LoseReceivers), Exclude(orders)), Subscribe))
  {
    var orders := Rel("public", "orders");
    var s := Init(Inputs(SmallBase(), Overlay(map[], map[]), OptIn(map[], map[], {}, {}, {})));
    assert orders in s.watch.tables;
    DeafExclusionDiverges(s, orders);
  }
}
