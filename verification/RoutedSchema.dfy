/**
 Routing and schema changes together: the columns published for a relation follow its
 descriptor, and the file's column rules, through any run of the resolver.
 */
module RoutedSchema {
  import opened Basics
  import opened RoutingRules
  import opened Routing
  import Fold = SchemaFold

  /** The column rules in force: the file's, as last taken on. */
  function Names(s: State, rel: Rel): Fold.Namer { (s.inputs.base.names)(rel) }

  function Derived(bridge: Fold.Bridge, names: Fold.Namer, x: Fold.Descriptor): Columns {
    Fold.Derive(x.attrs, x.keys, bridge, names)
  }

  /** A step of the resolver; an ALTER of the relation comes with the descriptor it leads to. */
  datatype Move =
    | Other(step: Step)
    | Alters(step: Step, now: Fold.Descriptor, diff: Fold.Diff, retypes: seq<Fold.Retype>)

  function Latest(was: Fold.Descriptor, m: Move): Fold.Descriptor { if m.Alters? then m.now else was }

  /** The step folds the difference of the two descriptors into whatever mapping it finds. */
  ghost predicate Carries(bridge: Fold.Bridge, names: Fold.Namer, rel: Rel, was: Fold.Descriptor, m: Move)
    requires m.Alters?
  {
    && m.step.Alter? && m.step.rel == rel
    && Fold.Unique(m.now.attrs) && Fold.DiffOf(m.diff, was.attrs, m.now.attrs)
    && forall before: Columns :: Fold.FoldOf((m.step.fold)(before), before, m.now, m.diff, m.retypes, bridge, names)
  }

  /** Every ALTER between two descriptors is carried by the fold of their difference. */
  lemma FoldCarries(bridge: Fold.Bridge, names: Fold.Namer, rel: Rel, was: Fold.Descriptor, now: Fold.Descriptor,
                    diff: Fold.Diff, retypes: seq<Fold.Retype>, partition: bool)
    requires Fold.Unique(now.attrs) && Fold.DiffOf(diff, was.attrs, now.attrs)
    ensures var fold := (before: Columns) => Fold.Fold(before, now, diff, retypes, bridge, names);
            Carries(bridge, names, rel, was, Alters(Alter(rel, fold, partition), now, diff, retypes))
  {
    forall before: Columns
      ensures Fold.FoldOf(Fold.Fold(before, now, diff, retypes, bridge, names), before, now, diff, retypes, bridge,
                          names)
    {
      Fold.FoldFolds(before, now, diff, retypes, bridge, names);
    }
  }

  /** The step is about other relations, or about none. */
  predicate LeavesAlone(i: Inputs, rel: Rel, step: Step) {
    match step
    case Materialize(r, _, _) => r != rel
    case Exclude(r) => r != rel
    case Register(r, _, _) => r != rel
    case Rename(before, after, _) => before != rel && after != rel
    case Forget(r) => r != rel
    case Alter(r, _, _) => r != rel
    case Reload(base) =>
      || rel in i.optIn.mappings || rel in i.optIn.derived
      || (rel in i.base.tables && rel in base.tables && base.tables[rel] == i.base.tables[rel])
    case _ => true
  }

  /** The mapping that owns the relation has the names its descriptor derives under the rules in force. */
  ghost predicate Follows(bridge: Fold.Bridge, s: State, rel: Rel, x: Fold.Descriptor) {
    && rel !in s.inputs.optIn.excluded
    && exists m :: Owns(s.inputs, rel, m) && Fold.SameNames(m.columns, Derived(bridge, Names(s, rel), x))
  }

  lemma LayersKeepOwner(i: Inputs, rel: Rel, step: Step, m: Mapping)
    requires Owns(i, rel, m) && rel !in i.optIn.excluded && LeavesAlone(i, rel, step) && OptInAfter(i, step).Some?
    ensures var j := i.(optIn := OptInAfter(i, step).value); Owns(j, rel, m) && rel !in j.optIn.excluded
  {
  }

  /** Refused or not, a step leaves the inputs it was given. */
  lemma InputsAfter(s: State, step: Step)
    ensures OptInAfter(s.inputs, step).Some? ==>
              Next(s, step).inputs == s.inputs.(optIn := OptInAfter(s.inputs, step).value)
    ensures step.Event? ==> Next(s, step).inputs == s.inputs.(overlay := step.overlay)
    ensures step.Reload? ==> Next(s, step).inputs == s.inputs || Next(s, step).inputs == s.inputs.(base := step.base)
  {
  }

  lemma OthersKeepOwner(s: State, rel: Rel, step: Step, m: Mapping)
    requires Owns(s.inputs, rel, m) && rel !in s.inputs.optIn.excluded && LeavesAlone(s.inputs, rel, step)
    ensures Owns(Next(s, step).inputs, rel, m) && rel !in Next(s, step).inputs.optIn.excluded
  {
    InputsAfter(s, step);
    if OptInAfter(s.inputs, step).Some? {
      LayersKeepOwner(s.inputs, rel, step, m);
    } else if step.Alter? {
      assert Next(s, step) == s;
    }
  }

  lemma FollowsOwner(bridge: Fold.Bridge, s: State, rel: Rel, x: Fold.Descriptor, m: Mapping)
    requires Owns(s.inputs, rel, m) && rel !in s.inputs.optIn.excluded
    ensures Follows(bridge, s, rel, x) <==> Fold.SameNames(m.columns, Derived(bridge, Names(s, rel), x))
  {
  }

  lemma SameNamesTrade(a: Columns, b: Columns, c: Columns)
    requires Fold.SameNames(a, b)
    ensures Fold.SameNames(a, c) <==> Fold.SameNames(b, c)
  {
  }

  /** Steps about other relations matter only through the column rules a reload brings. */
  lemma OtherFollowsIff(bridge: Fold.Bridge, s: State, rel: Rel, x: Fold.Descriptor, step: Step)
    requires Follows(bridge, s, rel, x) && Fold.Unique(x.attrs) && LeavesAlone(s.inputs, rel, step)
    ensures Follows(bridge, Next(s, step), rel, x)
       <==> Fold.Alike(x, bridge, Names(s, rel), Names(Next(s, step), rel))
  {
    var m :| Owns(s.inputs, rel, m) && Fold.SameNames(m.columns, Derived(bridge, Names(s, rel), x));
    var t := Next(s, step);
    OthersKeepOwner(s, rel, step, m);
    FollowsOwner(bridge, t, rel, x, m);
    SameNamesTrade(m.columns, Derived(bridge, Names(s, rel), x), Derived(bridge, Names(t, rel), x));
    Fold.AlikeIff(x, bridge, Names(s, rel), Names(t, rel));
  }

  lemma AlterKeepsOwner(s: State, rel: Rel, fold: Columns -> Columns, partition: bool, m: Mapping)
    requires Owns(s.inputs, rel, m) && rel !in s.inputs.optIn.excluded
    ensures var t := Next(s, Alter(rel, fold, partition));
            && Owns(t.inputs, rel, Folded(m, fold)) && rel !in t.inputs.optIn.excluded
            && Names(t, rel) == Names(s, rel)
  {
    AlteredOwns(s.inputs, rel, fold, partition, m);
    InputsAfter(s, Alter(rel, fold, partition));
  }

  lemma AlterFollowsIff(bridge: Fold.Bridge, s: State, rel: Rel, was: Fold.Descriptor, m: Move)
    requires Follows(bridge, s, rel, was) && Fold.Unique(was.attrs)
    requires m.Alters? && Carries(bridge, Names(s, rel), rel, was, m)
    ensures Follows(bridge, Next(s, m.step), rel, m.now) <==> Fold.Agrees(was, m.now, bridge, Names(s, rel))
  {
    var owner :| Owns(s.inputs, rel, owner) && Fold.SameNames(owner.columns, Derived(bridge, Names(s, rel), was));
    AlterKeepsOwner(s, rel, m.step.fold, m.step.partition, owner);
    FollowsOwner(bridge, Next(s, m.step), rel, m.now, Folded(owner, m.step.fold));
    Fold.FoldEqualsDerivationIff(was, m.now, m.diff, m.retypes, owner.columns, (m.step.fold)(owner.columns), bridge,
        Names(s, rel));
  }

  // ------------------------------------------------------------------
  // Runs
  // ------------------------------------------------------------------

  function Steps(moves: seq<Move>): seq<Step> {
    if moves == [] then [] else [moves[0].step] + Steps(moves[1..])
  }

  /** The descriptor the run ends with. */
  function Last(was: Fold.Descriptor, moves: seq<Move>): Fold.Descriptor
    decreases |moves|
  {
    if moves == [] then was else Last(Latest(was, moves[0]), moves[1..])
  }

  /** What the run is made of: ALTERs of the relation, each folding in its own difference, and steps about others. */
  ghost predicate About(bridge: Fold.Bridge, s: State, rel: Rel, was: Fold.Descriptor, moves: seq<Move>)
    decreases |moves|
  {
    || moves == []
    || (&& (if moves[0].Alters? then Carries(bridge, Names(s, rel), rel, was, moves[0])
            else LeavesAlone(s.inputs, rel, moves[0].step))
        && About(bridge, Next(s, moves[0].step), rel, Latest(was, moves[0]), moves[1..]))
  }

  /** Decided before the step: an ALTER the fold can follow, column rules that name the mapped columns as before. */
  ghost predicate Followable(bridge: Fold.Bridge, s: State, rel: Rel, was: Fold.Descriptor, m: Move) {
    if m.Alters? then Fold.Agrees(was, m.now, bridge, Names(s, rel))
    else Fold.Alike(was, bridge, Names(s, rel), Names(Next(s, m.step), rel))
  }

  ghost predicate AllFollowable(bridge: Fold.Bridge, s: State, rel: Rel, was: Fold.Descriptor, moves: seq<Move>)
    decreases |moves|
  {
    || moves == []
    || (&& Followable(bridge, s, rel, was, moves[0])
        && AllFollowable(bridge, Next(s, moves[0].step), rel, Latest(was, moves[0]), moves[1..]))
  }

  ghost predicate FollowsThroughout(bridge: Fold.Bridge, s: State, rel: Rel, was: Fold.Descriptor, moves: seq<Move>)
    decreases |moves|
  {
    && Follows(bridge, s, rel, was)
    && (moves == [] || FollowsThroughout(bridge, Next(s, moves[0].step), rel, Latest(was, moves[0]), moves[1..]))
  }

  lemma MoveFollowsIff(bridge: Fold.Bridge, s: State, rel: Rel, was: Fold.Descriptor, m: Move)
    requires Follows(bridge, s, rel, was) && Fold.Unique(was.attrs)
    requires if m.Alters? then Carries(bridge, Names(s, rel), rel, was, m) else LeavesAlone(s.inputs, rel, m.step)
    ensures Follows(bridge, Next(s, m.step), rel, Latest(was, m)) <==> Followable(bridge, s, rel, was, m)
  {
    if m.Alters? {
      AlterFollowsIff(bridge, s, rel, was, m);
    } else {
      OtherFollowsIff(bridge, s, rel, was, m.step);
    }
  }

  /** The mapping has the derived names all along a run if and only if every move of it is followable. */
  lemma {:induction false} NamesStayDerivedIff(bridge: Fold.Bridge, s: State, rel: Rel, was: Fold.Descriptor,
                                               moves: seq<Move>)
    requires Follows(bridge, s, rel, was) && Fold.Unique(was.attrs) && About(bridge, s, rel, was, moves)
    ensures FollowsThroughout(bridge, s, rel, was, moves) <==> AllFollowable(bridge, s, rel, was, moves)
    decreases |moves|
  {
    if moves != [] {
      MoveFollowsIff(bridge, s, rel, was, moves[0]);
      if Followable(bridge, s, rel, was, moves[0]) {
        NamesStayDerivedIff(bridge, Next(s, moves[0].step), rel, Latest(was, moves[0]), moves[1..]);
      }
    }
  }

  lemma {:induction false} ThroughoutEnds(bridge: Fold.Bridge, s: State, rel: Rel, was: Fold.Descriptor,
                                          moves: seq<Move>)
    requires FollowsThroughout(bridge, s, rel, was, moves)
    ensures Follows(bridge, Exec(s, Steps(moves)), rel, Last(was, moves))
    decreases |moves|
  {
    if moves != [] {
      assert Steps(moves)[1..] == Steps(moves[1..]);
      ThroughoutEnds(bridge, Next(s, moves[0].step), rel, Latest(was, moves[0]), moves[1..]);
    }
  }

  /**
   Through any run of config events, reloads, opt-ins and exclusions of other relations,
   accepted or refused, and ALTERs of this one, all followable and with a receiver on the
   watch: whenever the views are current and the relation is routed, both show the column
   names its latest descriptor derives under the latest column rules.
   */
  lemma PublishedColumnsNeverDrift(bridge: Fold.Bridge, s: State, rel: Rel, was: Fold.Descriptor, moves: seq<Move>)
    requires Inv(s) && Tuned(s) && AllAccepted(s, Steps(moves)) && LoseReceivers !in Steps(moves)
    requires Follows(bridge, s, rel, was) && Fold.Unique(was.attrs) && About(bridge, s, rel, was, moves)
    requires AllFollowable(bridge, s, rel, was, moves)
    ensures var t := Exec(s, Steps(moves));
            !Rejected(t) && rel in t.routing ==>
              && Fold.SameNames(t.routing[rel].columns, Derived(bridge, Names(t, rel), Last(was, moves)))
              && t.watch.tables == t.routing
  {
    NamesStayDerivedIff(bridge, s, rel, was, moves);
    ThroughoutEnds(bridge, s, rel, was, moves);
    ExecKeepsInv(s, Steps(moves));
    var t := Exec(s, Steps(moves));
    if !Rejected(t) && rel in t.routing {
      var m :| Owns(t.inputs, rel, m) && Fold.SameNames(m.columns, Derived(bridge, Names(t, rel), Last(was, moves)));
      ResolvedAsLayered(t.inputs, rel, m);
    }
  }

  /** An opt-in with the derived columns is where such a run starts. */
  lemma OptInFollows(bridge: Fold.Bridge, s: State, rel: Rel, x: Fold.Descriptor, target: Target, tees: seq<Tee>,
                     partition: bool)
    ensures var m := Mapping(target, Derived(bridge, Names(s, rel), x), tees);
            Follows(bridge, Next(s, Materialize(rel, m, partition)), rel, x)
  {
    var m := Mapping(target, Derived(bridge, Names(s, rel), x), tees);
    var t := Next(s, Materialize(rel, m, partition));
    InputsAfter(s, Materialize(rel, m, partition));
    assert Owns(t.inputs, rel, m);
  }

  /** A reload that brings a renaming rule: the mapping keeps the names it has. */
  lemma RuleReloadLags(s: State, rel: Rel)
    requires var x := Fold.Descriptor([Fold.WAS], {});
             Follows(Fold.AnyType(), s, rel, x) && Fold.Target(Names(s, rel), "city") == "city"
    requires s.reserved.None?
    ensures var t := Next(s, Reload(s.inputs.base.(names := _ => Fold.CityRule())));
            && Fold.Target(Names(t, rel), "city") == "location"
            && !Follows(Fold.AnyType(), t, rel, Fold.Descriptor([Fold.WAS], {}))
  {
    var x := Fold.Descriptor([Fold.WAS], {});
    var step := Reload(s.inputs.base.(names := _ => Fold.CityRule()));
    var t := Next(s, step);
    Fold.OneColumn(Fold.WAS, Fold.AnyType(), Fold.NoRule());
    assert t.inputs == s.inputs.(base := step.base);
    OtherFollowsIff(Fold.AnyType(), s, rel, x, step);
    assert |"location"| != |"city"|;
    assert Fold.IsLive(x.attrs, Fold.WAS) && Fold.AnyType()(Fold.WAS, 1 in x.keys).Some?;
  }
}
