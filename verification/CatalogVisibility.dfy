/**
 Which version of a catalog row a transaction tree sees. The shadow's pages carry
 the versions of one row as its writers left them; the extension decides version by
 version, from hint bits, transaction status and whatever parentage of subtransactions
 reached the standby.

 The reference is logical: the row's committed value and, for the one tree that holds
 the row lock, its value as of every open savepoint level.
 */
module CatalogVisibility {
  import opened Basics

  type Xid = nat
  type Value = seq<int>

  /** `Live(l)`: in progress, member of the lock holder's tree at savepoint level `l`. */
  datatype Status = Committed | Aborted | Live(level: nat)

  datatype Hints = Hints(xminCommitted: bool, xminInvalid: bool, xmaxInvalid: bool)

  /** One heap tuple; the hint bits are whatever readers have set so far. */
  datatype Version = Version(xmin: Xid, xmax: Option<Xid>, value: Value, hints: Hints)

  /** `view[0]` is the committed row, `view[k]` the holder's row with its levels below `k` applied. */
  datatype State = State(versions: seq<Version>, status: map<Xid, Status>, holder: Option<Xid>,
      view: seq<Option<Value>>)

  datatype Step =
    | Lock(top: Xid)
    | Savepoint(xid: Xid)
    | Write(xid: Xid, value: Option<Value>)
    | RollbackTo(level: nat)
    | Release
    | Commit
    | Abort
    | Yield
    | SetHints(at: nat, hints: Hints)
    | Vacuum(at: nat)

  const Init := State([], map[], None, [None])

  /** Holder's open savepoint levels; 0 when the row is unlocked. */
  function Depth(s: State): int { |s.view| - 1 }

  /** The effects of `x` count when the holder's levels below `k` are applied. */
  predicate Counts(status: map<Xid, Status>, x: Xid, k: int) {
    x in status && (status[x].Committed? || (status[x].Live? && status[x].level < k))
  }

  predicate VisibleAt(status: map<Xid, Status>, v: Version, k: int) {
    Counts(status, v.xmin, k) && !(v.xmax.Some? && Counts(status, v.xmax.value, k))
  }

  /** Some version visible at cut `k`, the first one. */
  function Current(versions: seq<Version>, status: map<Xid, Status>, k: int, i: nat := 0): (c: Option<nat>)
    requires i <= |versions|
    ensures c.Some? ==> i <= c.value < |versions| && VisibleAt(status, versions[c.value], k)
    ensures c.None? ==> forall j :: i <= j < |versions| ==> !VisibleAt(status, versions[j], k)
    decreases |versions| - i
  {
    if i == |versions| then None
    else if VisibleAt(status, versions[i], k) then Some(i)
    else Current(versions, status, k, i + 1)
  }

  const NO_HINTS := Hints(false, false, false)

  /** The writer stamps its xid on the version it replaces and on the version it adds. */
  function Stamped(s: State, x: Xid, value: Option<Value>): seq<Version> {
    var cur := Current(s.versions, s.status, Depth(s));
    var kept := if cur.Some? then s.versions[cur.value := Replaced(s.versions[cur.value], x)] else s.versions;
    kept + (if value.Some? then [Version(x, None, value.value, NO_HINTS)] else [])
  }

  function Replaced(v: Version, x: Xid): Version {
    v.(xmax := Some(x), hints := v.hints.(xmaxInvalid := false))
  }

  predicate IsLive(s: State, x: Xid) { x in s.status && s.status[x].Live? }

  predicate Unstamped(s: State) {
    forall v :: v in s.versions ==> !IsLive(s, v.xmin) && (v.xmax.Some? ==> !IsLive(s, v.xmax.value))
  }

  predicate HintsTrue(status: map<Xid, Status>, v: Version) {
    && (v.hints.xminCommitted ==> v.xmin in status && status[v.xmin].Committed?)
    && (v.hints.xminInvalid && !v.hints.xminCommitted ==> v.xmin in status && status[v.xmin].Aborted?)
    && (v.hints.xmaxInvalid && v.xmax.Some? ==> v.xmax.value in status && status[v.xmax.value].Aborted?)
  }

  predicate DeadForGood(status: map<Xid, Status>, v: Version) {
    || (v.xmin in status && status[v.xmin].Aborted?)
    || (v.xmax.Some? && v.xmax.value in status && status[v.xmax.value].Committed?)
  }

  function EndAll(status: map<Xid, Status>, end: Status): map<Xid, Status> {
    map x | x in status :: if status[x].Live? then end else status[x]
  }

  function AbortFrom(status: map<Xid, Status>, level: nat): map<Xid, Status> {
    map x | x in status :: if status[x].Live? && status[x].level >= level then Aborted else status[x]
  }

  function MergeTop(status: map<Xid, Status>, level: nat): map<Xid, Status>
    requires level > 0
  {
    map x | x in status :: if status[x] == Live(level) then Live(level - 1) else status[x]
  }

  function Next(s: State, step: Step): State {
    match step
    case Lock(top) =>
      if s.holder.None? && |s.view| > 0 && top !in s.status
      then s.(holder := Some(top), status := s.status[top := Live(0)], view := s.view + [s.view[|s.view| - 1]]) else s
    case Savepoint(x) =>
      if s.holder.Some? && |s.view| > 0 && x !in s.status
      then s.(status := s.status[x := Live(|s.view| - 1)], view := s.view + [s.view[|s.view| - 1]]) else s
    case Write(x, value) =>
      if |s.view| > 1 && x in s.status && s.status[x] == Live(|s.view| - 2)
      then s.(versions := Stamped(s, x, value), view := s.view[|s.view| - 1 := value]) else s
    case RollbackTo(level) =>
      if 0 < level < |s.view| then s.(status := AbortFrom(s.status, level), view := s.view[..level + 1]) else s
    case Release =>
      if |s.view| > 2
      then s.(status := MergeTop(s.status, |s.view| - 2), view := s.view[..|s.view| - 2] + [s.view[|s.view| - 1]])
          else s
    case Commit =>
      if s.holder.Some? && |s.view| > 0
      then s.(status := EndAll(s.status, Committed), holder := None, view := [s.view[|s.view| - 1]]) else s
    case Abort =>
      if s.holder.Some? && |s.view| > 0
      then s.(status := EndAll(s.status, Aborted), holder := None, view := [s.view[0]]) else s
    // Its stamps all rolled back, the tree lets the lock go and may come back for it
    case Yield =>
      if s.holder.Some? && Unstamped(s) && |s.view| > 0
      then s.(status := map x | x in s.status && !s.status[x].Live? :: s.status[x], holder := None,
          view := [s.view[0]]) else s
    case SetHints(at, hints) =>
      if at < |s.versions| && HintsTrue(s.status, s.versions[at].(hints := hints))
      then s.(versions := s.versions[at := s.versions[at].(hints := hints)]) else s
    case Vacuum(at) =>
      if at < |s.versions| && DeadForGood(s.status, s.versions[at])
      then s.(versions := s.versions[..at] + s.versions[at + 1..]) else s
  }

  function Exec(s: State, steps: seq<Step>): State
    decreases |steps|
  {
    if steps == [] then s else Exec(Next(s, steps[0]), steps[1..])
  }

  // ------------------------------------------------------------------
  // Versions refine the logical row at every savepoint level
  // ------------------------------------------------------------------

  ghost predicate OnlyAt(versions: seq<Version>, status: map<Xid, Status>, i: nat, k: int) {
    && i < |versions| && VisibleAt(status, versions[i], k)
    && forall j :: 0 <= j < |versions| && VisibleAt(status, versions[j], k) ==> j == i
  }

  /** At cut `k` the versions show exactly `row`. */
  ghost predicate Shows(versions: seq<Version>, status: map<Xid, Status>, k: int, row: Option<Value>) {
    match row
    case None => forall j :: 0 <= j < |versions| ==> !VisibleAt(status, versions[j], k)
    case Some(x) => exists i: nat :: OnlyAt(versions, status, i, k) && versions[i].value == x
  }

  ghost predicate Known(s: State) {
    && (forall v :: v in s.versions ==> v.xmin in s.status && (v.xmax.Some? ==> v.xmax.value in s.status))
    && (forall v :: v in s.versions ==> HintsTrue(s.status, v))
  }

  ghost predicate Levels(s: State) {
    && |s.view| > 0 && (s.holder.None? <==> |s.view| == 1)
    && (forall x :: x in s.status && s.status[x].Live? ==> s.status[x].level < Depth(s))
  }

  ghost predicate Inv(s: State) {
    && Levels(s) && Known(s)
    && forall k :: 0 <= k < |s.view| ==> Shows(s.versions, s.status, k, s.view[k])
  }

  /** Versions read the same at cut `k` before and `m` after the statuses change. */
  lemma SameCut(versions: seq<Version>, before: map<Xid, Status>, after: map<Xid, Status>, k: int, m: int,
      row: Option<Value>)
    requires Shows(versions, before, k, row)
    requires forall v :: v in versions ==> (Counts(before, v.xmin, k) <==> Counts(after, v.xmin, m))
    requires forall v :: v in versions && v.xmax.Some? ==>
               (Counts(before, v.xmax.value, k) <==> Counts(after, v.xmax.value, m))
    ensures Shows(versions, after, m, row)
  {
    assert forall j :: 0 <= j < |versions| ==> versions[j] in versions;
    if row.Some? {
      var i: nat :| OnlyAt(versions, before, i, k) && versions[i].value == row.value;
      assert OnlyAt(versions, after, i, m);
    }
  }

  lemma DeeperKeepsInv(s: State, step: Step)
    requires Inv(s) && (step.Lock? || step.Savepoint?)
    ensures Inv(Next(s, step))
  {
    var t := Next(s, step);
    if t != s {
      forall k | 0 <= k < |t.view|
        ensures Shows(t.versions, t.status, k, t.view[k])
      {
        SameCut(s.versions, s.status, t.status, if k == |s.view| then k - 1 else k, k, t.view[k]);
      }
    }
  }

  lemma RollbackKeepsInv(s: State, level: nat)
    requires Inv(s)
    ensures Inv(Next(s, RollbackTo(level)))
  {
    var t := Next(s, RollbackTo(level));
    if t != s {
      forall k | 0 <= k < |t.view|
        ensures Shows(t.versions, t.status, k, t.view[k])
      {
        SameCut(s.versions, s.status, t.status, k, k, t.view[k]);
      }
    }
  }

  lemma ReleaseKeepsInv(s: State)
    requires Inv(s)
    ensures Inv(Next(s, Release))
  {
    var t := Next(s, Release);
    if t != s {
      forall k | 0 <= k < |t.view|
        ensures Shows(t.versions, t.status, k, t.view[k])
      {
        SameCut(s.versions, s.status, t.status, if k == |t.view| - 1 then |s.view| - 1 else k, k, t.view[k]);
      }
    }
  }

  lemma EndKeepsInv(s: State, step: Step)
    requires Inv(s) && (step.Commit? || step.Abort? || step.Yield?)
    ensures Inv(Next(s, step))
  {
    var t := Next(s, step);
    if t != s {
      SameCut(s.versions, s.status, t.status, if step.Commit? then |s.view| - 1 else 0, 0, t.view[0]);
    }
  }

  lemma WriteKeepsCut(s: State, x: Xid, value: Option<Value>, k: int)
    requires Inv(s) && |s.view| > 1 && x in s.status && s.status[x] == Live(|s.view| - 2) && 0 <= k < |s.view| - 1
    ensures Shows(Stamped(s, x, value), s.status, k, s.view[k])
  {
    var after := Stamped(s, x, value);
    var d := Depth(s);
    var cur := Current(s.versions, s.status, d);
    assert !Counts(s.status, x, k);
    forall j | 0 <= j < |s.versions|
      ensures VisibleAt(s.status, after[j], k) <==> VisibleAt(s.status, s.versions[j], k)
      ensures after[j].value == s.versions[j].value
    {
    }
    if s.view[k].Some? {
      var i: nat :| OnlyAt(s.versions, s.status, i, k) && s.versions[i].value == s.view[k].value;
      assert OnlyAt(after, s.status, i, k);
    }
  }

  lemma WriteShows(s: State, x: Xid, value: Option<Value>)
    requires Inv(s) && |s.view| > 1 && x in s.status && s.status[x] == Live(|s.view| - 2)
    ensures Shows(Stamped(s, x, value), s.status, Depth(s), value)
  {
    var after := Stamped(s, x, value);
    var d := Depth(s);
    var cur := Current(s.versions, s.status, d);
    assert Shows(s.versions, s.status, d, s.view[d]);
    assert Counts(s.status, x, d);
    forall j | 0 <= j < |s.versions|
      ensures !VisibleAt(s.status, after[j], d)
    {
    }
    if value.Some? {
      assert OnlyAt(after, s.status, |s.versions|, d);
    }
  }

  lemma WriteKnown(s: State, x: Xid, value: Option<Value>)
    requires Inv(s) && x in s.status
    ensures forall v :: v in Stamped(s, x, value) ==>
              v.xmin in s.status && (v.xmax.Some? ==> v.xmax.value in s.status) && HintsTrue(s.status, v)
  {
    var after := Stamped(s, x, value);
    forall j | 0 <= j < |after|
      ensures after[j].xmin in s.status && (after[j].xmax.Some? ==> after[j].xmax.value in s.status)
      ensures HintsTrue(s.status, after[j])
    {
      if j < |s.versions| {
        assert s.versions[j] in s.versions;
      }
    }
  }

  lemma WriteKeepsInv(s: State, x: Xid, value: Option<Value>)
    requires Inv(s)
    ensures Inv(Next(s, Write(x, value)))
  {
    if |s.view| > 1 && x in s.status && s.status[x] == Live(|s.view| - 2) {
      var t := Next(s, Write(x, value));
      WriteKnown(s, x, value);
      forall k | 0 <= k < |t.view|
        ensures Shows(t.versions, t.status, k, t.view[k])
      {
        if k < |s.view| - 1 {
          WriteKeepsCut(s, x, value, k);
        } else {
          WriteShows(s, x, value);
        }
      }
    }
  }

  lemma HintsKeepInv(s: State, at: nat, hints: Hints)
    requires Inv(s)
    ensures Inv(Next(s, SetHints(at, hints)))
  {
    var t := Next(s, SetHints(at, hints));
    forall k | 0 <= k < |t.view|
      ensures Shows(t.versions, t.status, k, t.view[k])
    {
      assert Shows(s.versions, s.status, k, s.view[k]);
      if t.view[k].Some? {
        var i: nat :| OnlyAt(s.versions, s.status, i, k) && s.versions[i].value == s.view[k].value;
        assert OnlyAt(t.versions, t.status, i, k);
      }
    }
  }

  lemma VacuumKeepsInv(s: State, at: nat)
    requires Inv(s)
    ensures Inv(Next(s, Vacuum(at)))
  {
    var t := Next(s, Vacuum(at));
    if t != s {
      forall k | 0 <= k < |t.view|
        ensures Shows(t.versions, t.status, k, t.view[k])
      {
        assert Shows(s.versions, s.status, k, s.view[k]);
        assert !VisibleAt(s.status, s.versions[at], k);
        if t.view[k].Some? {
          var i: nat :| OnlyAt(s.versions, s.status, i, k) && s.versions[i].value == s.view[k].value;
          assert OnlyAt(t.versions, t.status, if i < at then i else i - 1, k);
        }
      }
    }
  }

  lemma NextKeepsInv(s: State, step: Step)
    requires Inv(s)
    ensures Inv(Next(s, step))
  {
    match step
    case Write(x, value) => WriteKeepsInv(s, x, value);
    case SetHints(at, hints) => HintsKeepInv(s, at, hints);
    case Vacuum(at) => VacuumKeepsInv(s, at);
    case RollbackTo(level) => RollbackKeepsInv(s, level);
    case Release => ReleaseKeepsInv(s);
    case Lock(_) | Savepoint(_) => DeeperKeepsInv(s, step);
    case Commit | Abort | Yield => EndKeepsInv(s, step);
  }

  lemma {:induction false} ExecKeepsInv(s: State, steps: seq<Step>)
    requires Inv(s)
    ensures Inv(Exec(s, steps))
    decreases |steps|
  {
    if steps != [] {
      NextKeepsInv(s, steps[0]);
      ExecKeepsInv(Next(s, steps[0]), steps[1..]);
    }
  }

  // ------------------------------------------------------------------
  // The extension's decision
  // ------------------------------------------------------------------

  datatype Ours = Ours(yes: bool, mismatches: nat) | InconclusiveXid
  datatype Verdict = Verdict(visible: bool, mismatches: nat) | Inconclusive

  /** Topmost transaction recorded for `x`; a subtransaction whose assignment never arrived resolves to itself. */
  function Resolve(parents: map<Xid, Xid>, x: Xid): Xid { if x in parents then parents[x] else x }

  function XidIsOurs(x: Xid, top: Option<Xid>, scoped: bool, parents: map<Xid, Xid>): Ours {
    if top.None? then Ours(false, 0)
    else if x == top.value then Ours(true, 0)
    else if Resolve(parents, x) == top.value then Ours(true, 0)
    else if Resolve(parents, x) != x then Ours(false, 1)
    else if scoped then Ours(true, 1)
    else InconclusiveXid
  }

  function DeleteVerdict(s: State, v: Version, top: Option<Xid>, scoped: bool, parents: map<Xid, Xid>,
      mismatches: nat): Verdict {
    if v.hints.xmaxInvalid || v.xmax.None? then Verdict(true, mismatches)
    else if IsLive(s, v.xmax.value) then
      match XidIsOurs(v.xmax.value, top, scoped, parents)
      case InconclusiveXid => Inconclusive
      case Ours(yes, m) => Verdict(!yes, mismatches + m)
    else Verdict(!(v.xmax.value in s.status && s.status[v.xmax.value].Committed?), mismatches)
  }

  function TupleVisible(s: State, v: Version, top: Option<Xid>, scoped: bool, parents: map<Xid, Xid>): Verdict {
    if v.hints.xminInvalid && !v.hints.xminCommitted then Verdict(false, 0)
    else if v.hints.xminCommitted then DeleteVerdict(s, v, top, scoped, parents, 0)
    else if IsLive(s, v.xmin) then
      match XidIsOurs(v.xmin, top, scoped, parents)
      case InconclusiveXid => Inconclusive
      case Ours(yes, m) =>
        if !yes then Verdict(false, m) else DeleteVerdict(s, v, top, scoped, parents, m)
    else if !(v.xmin in s.status && s.status[v.xmin].Committed?) then Verdict(false, 0)
    else DeleteVerdict(s, v, top, scoped, parents, 0)
  }

  datatype Reading = Reading(rows: seq<Value>, mismatches: nat) | Failed

  /** All versions of the row, in heap order. */
  function Read(s: State, versions: seq<Version>, top: Option<Xid>, scoped: bool, parents: map<Xid, Xid>): Reading {
    if versions == [] then Reading([], 0)
    else match TupleVisible(s, versions[0], top, scoped, parents)
      case Inconclusive => Failed
      case Verdict(visible, m) =>
        match Read(s, versions[1..], top, scoped, parents)
        case Failed => Failed
        case Reading(rows, rest) => Reading((if visible then [versions[0].value] else []) + rows, m + rest)
  }

  /** What the tree rooted at `top` must see: its own row if it holds the lock, else the committed one. */
  function Cut(s: State, top: Option<Xid>): int {
    if top.Some? && top == s.holder then Depth(s) else 0
  }

  function RowOf(row: Option<Value>): seq<Value> { if row.Some? then [row.value] else [] }

  /** Recorded parentage may be missing, never wrong. */
  ghost predicate SoundParents(s: State, parents: map<Xid, Xid>) {
    forall x :: IsLive(s, x) && s.holder.Some? ==> Resolve(parents, x) == x || Resolve(parents, x) == s.holder.value
  }

  /** Top-level xids are their own root: nothing but a member of its tree resolves to `top`. */
  ghost predicate TopsDistinct(s: State, top: Option<Xid>) {
    top.Some? && top != s.holder ==> !IsLive(s, top.value)
  }

  lemma VerdictRight(s: State, v: Version, top: Option<Xid>, scoped: bool, parents: map<Xid, Xid>)
    requires Inv(s) && v in s.versions && SoundParents(s, parents) && TopsDistinct(s, top)
    requires scoped ==> s.holder.None? || top == s.holder || top.None?
    ensures var r := TupleVisible(s, v, top, scoped, parents);
            r.Verdict? ==> (r.visible <==> VisibleAt(s.status, v, Cut(s, top)))
  {
  }

  /** Every version is judged as at cut `k`, or not at all. */
  ghost predicate JudgedAt(s: State, versions: seq<Version>, top: Option<Xid>, scoped: bool, parents: map<Xid, Xid>,
      k: int) {
    forall v :: v in versions ==>
      var r := TupleVisible(s, v, top, scoped, parents);
      r.Verdict? ==> (r.visible <==> VisibleAt(s.status, v, k))
  }

  lemma {:induction false} ReadCollects(s: State, versions: seq<Version>, top: Option<Xid>, scoped: bool,
                                        parents: map<Xid, Xid>, k: int, i: Option<nat>)
    requires JudgedAt(s, versions, top, scoped, parents, k)
    requires forall j :: 0 <= j < |versions| ==> (VisibleAt(s.status, versions[j], k) <==> i == Some(j))
    requires i.Some? ==> i.value < |versions|
    ensures var r := Read(s, versions, top, scoped, parents);
            r.Reading? ==> r.rows == if i.Some? then [versions[i.value].value] else []
    decreases |versions|
  {
    if versions != [] {
      assert versions[0] in versions;
      var rest := if i.Some? && i.value > 0 then Some(i.value - 1) else None;
      assert forall j :: 0 <= j < |versions[1..]| ==> versions[1..][j] == versions[j + 1];
      ReadCollects(s, versions[1..], top, scoped, parents, k, rest);
    }
  }

  lemma {:induction false} ReadSucceeds(s: State, versions: seq<Version>, top: Option<Xid>, scoped: bool,
      parents: map<Xid, Xid>)
    requires top.None? || scoped
    ensures Read(s, versions, top, scoped, parents).Reading?
    ensures top.None? ==> Read(s, versions, top, scoped, parents).mismatches == 0
    decreases |versions|
  {
    if versions != [] {
      ReadSucceeds(s, versions[1..], top, scoped, parents);
    }
  }

  /** With every member's parentage on record the holder's own read neither refuses nor counts a mismatch. */
  lemma {:induction false} CompleteRecordsNeverMismatch(s: State, versions: seq<Version>, scoped: bool,
      parents: map<Xid, Xid>)
    requires s.holder.Some? && forall x :: IsLive(s, x) ==> Resolve(parents, x) == s.holder.value
    ensures var r := Read(s, versions, s.holder, scoped, parents); r.Reading? && r.mismatches == 0
    decreases |versions|
  {
    if versions != [] {
      CompleteRecordsNeverMismatch(s, versions[1..], scoped, parents);
    }
  }

  lemma ReadShows(s: State, top: Option<Xid>, scoped: bool, parents: map<Xid, Xid>, k: int)
    requires Inv(s) && 0 <= k < |s.view| && JudgedAt(s, s.versions, top, scoped, parents, k)
    ensures var r := Read(s, s.versions, top, scoped, parents); r.Reading? ==> r.rows == RowOf(s.view[k])
  {
    assert Shows(s.versions, s.status, k, s.view[k]);
    var i: Option<nat> := None;
    if s.view[k].Some? {
      var at: nat :| OnlyAt(s.versions, s.status, at, k) && s.versions[at].value == s.view[k].value;
      i := Some(at);
    }
    ReadCollects(s, s.versions, top, scoped, parents, k, i);
  }

  /**
   After any history of writers, savepoints, rollbacks, hint settings and vacuums, a
   read for a transaction tree yields exactly the row that tree sees, at most one
   version, or refuses. A committed read never refuses and never counts a mismatch;
   a relation-scoped read, whose lock excludes foreign writers, never refuses.
   */
  lemma ReadsSeeTheTree(steps: seq<Step>, top: Option<Xid>, scoped: bool, parents: map<Xid, Xid>)
    requires var s := Exec(Init, steps);
             && SoundParents(s, parents) && TopsDistinct(s, top)
             && (scoped ==> s.holder.None? || top == s.holder || top.None?)
    ensures var s := Exec(Init, steps);
            var r := Read(s, s.versions, top, scoped, parents);
            && 0 <= Cut(s, top) < |s.view|
            && (r.Reading? ==> r.rows == RowOf(s.view[Cut(s, top)]))
            && (top.None? ==> r == Reading(RowOf(s.view[0]), 0))
            && (scoped ==> r.Reading?)
  {
    ExecKeepsInv(Init, steps);
    var s := Exec(Init, steps);
    forall v | v in s.versions
      ensures var r := TupleVisible(s, v, top, scoped, parents);
              r.Verdict? ==> (r.visible <==> VisibleAt(s.status, v, Cut(s, top)))
    {
      VerdictRight(s, v, top, scoped, parents);
    }
    ReadShows(s, top, scoped, parents, Cut(s, top));
    if top.None? || scoped {
      ReadSucceeds(s, s.versions, top, scoped, parents);
    }
  }

  /**
   Why the relation-scoped caller needs its lock: reading on behalf of another tree while
   a writer with no recorded parentage is in the row yields that writer's uncommitted row,
   so the answer is the committed one exactly when the writer has not changed the row.
   */
  lemma ScopedReadTrustsTheLock(steps: seq<Step>, top: Xid, parents: map<Xid, Xid>)
    requires var s := Exec(Init, steps);
             && s.holder.Some? && s.holder != Some(top) && !IsLive(s, top)
             && forall x :: IsLive(s, x) ==> Resolve(parents, x) == x
    ensures var s := Exec(Init, steps);
            var r := Read(s, s.versions, Some(top), true, parents);
            && Inv(s) && r.Reading? && r.rows == RowOf(s.view[Depth(s)])
            && (r.rows == RowOf(s.view[0]) <==> s.view[Depth(s)] == s.view[0])
  {
    ExecKeepsInv(Init, steps);
    var s := Exec(Init, steps);
    assert JudgedAt(s, s.versions, Some(top), true, parents, Depth(s));
    ReadShows(s, Some(top), true, parents, Depth(s));
    ReadSucceeds(s, s.versions, Some(top), true, parents);
  }
}
