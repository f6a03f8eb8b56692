/**
 Publication of a backup load through a staging table: rows land beside the
 destination, `EXCHANGE TABLES` swaps the two, rows the live stream delivered to
 the swapped-out storage are copied back, and a ledger entry records how far this
 got so that a restart resumes the right phase.
 */
module Staging {
  import opened Basics

  datatype Row = Row(lsn: nat, id: nat)

  /** A storage generation; a table name may point at different ones over time. */
  datatype Table = Table(uuid: nat, rows: set<Row>, shape: nat)

  datatype Phase = Pending | Swapped(uuid: nat) | Done

  /** Where the daemon is between two durable effects. */
  datatype Pc =
    | Off
    | Idle
    | Prepare
    | Loading
    | Gate
    | Mark(uuid: nat)
    | Exchanging(uuid: nat)
    | Waiting
    | Copying
    | Dropping
    | Finishing
    | Resuming(uuid: nat)
    | Clearing

  /** A live insert that has resolved the destination name to a storage generation. */
  datatype Insert = Insert(uuid: nat, row: Row)

  /**
   `s`: opt-in LSN. `load`: rows of the current pass. `swaps`: exchanges applied.
   `late`: exchanges the client gave up on that the server may still apply.
   */
  datatype State = State(s: nat, dest: Table, staging: Option<Table>, mem: Phase, disk: Phase, pc: Pc,
                         load: set<Row>, inflight: set<Insert>, acked: set<Row>, swaps: nat, late: nat, unused: nat)

  datatype Step =
    | Boot
    | Notice
    | Rebuild(rows: set<Row>)
    | Reuse
    | Load(row: Row)
    | LoadDone
    | PassFailed
    | CheckShape(mapped: bool)
    | MarkSwapped(persisted: bool)
    | Exchange(applied: bool, reported: bool, lingers: bool)
    | LateExchange
    | Wait
    | CopyBack(ok: bool)
    | DropStaging(applied: bool, reported: bool)
    | MarkDone(persisted: bool)
    | Inspect
    | Clear(persisted: bool)
    | Crash
    | Ddl(shape: nat)
    | LiveSend(row: Row)
    | LiveLand(insert: Insert)

  function Init(s: nat, dest: Table): State {
    State(s, dest, None, Pending, Pending, Idle, {}, {}, {}, 0, 0, dest.uuid + 1)
  }

  /** The two names trade storage. */
  function Swap(s: State): State
    requires s.staging.Some?
  {
    s.(dest := s.staging.value, staging := Some(s.dest), swaps := s.swaps + 1)
  }

  function Land(s: State, i: Insert): State {
    var gone := s.(inflight := s.inflight - {i});
    if s.dest.uuid == i.uuid then
      gone.(dest := s.dest.(rows := s.dest.rows + {i.row}), acked := s.acked + {i.row})
    else if s.staging.Some? && s.staging.value.uuid == i.uuid then
      gone.(staging := Some(s.staging.value.(rows := s.staging.value.rows + {i.row})), acked := s.acked + {i.row})
    else gone
  }

  function LiveWindow(rows: set<Row>, s: nat): set<Row> { set r | r in rows && r.lsn > s }

  function OnStorage(inserts: set<Insert>, uuid: nat): set<Insert> { set i | i in inserts && i.uuid == uuid }

  function AtMost(rows: set<Row>, s: nat): set<Row> { set r | r in rows && r.lsn <= s }

  function PassStep(s: State, step: Step): State {
    match step
    // A retry rebuilds staging from scratch with whatever its source now holds
    case Rebuild(rows) =>
      if s.pc.Prepare? then
        s.(staging := Some(Table(s.unused, {}, s.dest.shape)), unused := s.unused + 1, load := AtMost(rows, s.s),
            pc := Loading)
      else s
    case Reuse => if s.pc.Prepare? && s.staging.Some? then s.(pc := Loading) else s
    case Load(row) =>
      if s.pc.Loading? && s.staging.Some? && row in s.load
      then s.(staging := Some(s.staging.value.(rows := s.staging.value.rows + {row}))) else s
    case LoadDone => if s.pc.Loading? && s.staging.Some? && s.staging.value.rows == s.load then s.(pc := Gate) else s
    case PassFailed => if s.pc.Prepare? || s.pc.Loading? || s.pc.Gate? then s.(pc := Idle) else s
    case CheckShape(mapped) =>
      if s.pc.Gate? && s.staging.Some? then
        if mapped && s.dest.shape == s.staging.value.shape then s.(pc := Mark(s.staging.value.uuid))
        else s.(staging := None, pc := Idle)
      else s
    case MarkSwapped(persisted) =>
      if s.pc.Mark? then
        if persisted then s.(mem := Swapped(s.pc.uuid), disk := Swapped(s.pc.uuid), pc := Exchanging(s.pc.uuid))
        else s.(pc := Idle)
      else s
    case _ => s
  }

  function SwapStep(s: State, step: Step): State {
    match step
    // A reported success was applied; a reported failure may have been, now or later
    case Exchange(applied, reported, lingers) =>
      if s.pc.Exchanging? && s.staging.Some? then
        if reported then Swap(s).(pc := Waiting)
        else if applied then Swap(s).(pc := Idle)
        else s.(pc := Idle, late := if lingers then s.late + 1 else s.late)
      else s
    case LateExchange => if s.late > 0 && s.staging.Some? then Swap(s).(late := s.late - 1) else s
    // One attempt cap passes: inserts on the old storage have landed or will be resent by name
    case Wait =>
      if s.pc.Waiting? then s.(inflight := OnStorage(s.inflight, s.dest.uuid), pc := Copying) else s
    case CopyBack(ok) =>
      if s.pc.Copying? && s.staging.Some? then
        if ok then s.(dest := s.dest.(rows := s.dest.rows + LiveWindow(s.staging.value.rows, s.s)), pc := Dropping)
        else s.(pc := Idle)
      else s
    case DropStaging(applied, reported) =>
      if s.pc.Dropping? then
        if reported then s.(staging := None, pc := Finishing)
        else if applied then s.(staging := None, pc := Idle)
        else s.(pc := Idle)
      else s
    case MarkDone(persisted) =>
      if s.pc.Finishing? then s.(mem := Done, disk := if persisted then Done else s.disk, pc := Idle) else s
    case _ => s
  }

  function ResumeStep(s: State, step: Step): State {
    match step
    case Boot => if s.pc.Off? then s.(mem := s.disk, pc := Idle) else s
    case Notice =>
      if s.pc.Idle? then
        match s.mem
        case Done => s
        case Pending => s.(pc := Prepare)
        case Swapped(u) => s.(pc := Resuming(u))
      else s
    // The uuid under the staging name tells whether the exchange applied
    case Inspect =>
      if s.pc.Resuming? then
        if s.staging.None? then s.(pc := Finishing)
        else if s.staging.value.uuid != s.pc.uuid then s.(pc := Waiting)
        else if s.dest.shape == s.staging.value.shape then s.(pc := Exchanging(s.pc.uuid))
        else s.(staging := None, pc := Clearing)
      else s
    case Clear(persisted) =>
      if s.pc.Clearing? then s.(mem := Pending, disk := if persisted then Pending else s.disk, pc := Idle) else s
    case _ => s
  }

  function WorldStep(s: State, step: Step): State {
    match step
    case Crash => s.(pc := Off)
    case Ddl(shape) => s.(dest := s.dest.(shape := shape))
    case LiveSend(row) => if row.lsn > s.s then s.(inflight := s.inflight + {Insert(s.dest.uuid, row)}) else s
    case LiveLand(i) => if i in s.inflight then Land(s, i) else s
    case _ => s
  }

  function Next(s: State, step: Step): State {
    match step
    case Rebuild(_) | Reuse | Load(_) | LoadDone | PassFailed | CheckShape(_) | MarkSwapped(_) => PassStep(s, step)
    case Exchange(_, _, _) | LateExchange | Wait | CopyBack(_) | DropStaging(_, _) | MarkDone(_) => SwapStep(s, step)
    case Boot | Notice | Inspect | Clear(_) => ResumeStep(s, step)
    case Crash | Ddl(_) | LiveSend(_) | LiveLand(_) => WorldStep(s, step)
  }

  function Exec(s: State, steps: seq<Step>): State
    decreases |steps|
  {
    if steps == [] then s else Exec(Next(s, steps[0]), steps[1..])
  }

  // ------------------------------------------------------------------
  // Invariant
  // ------------------------------------------------------------------

  ghost predicate Sane(s: State, origin: nat) {
    && origin < s.unused && s.dest.uuid < s.unused
    && (s.staging.Some? ==> s.staging.value.uuid < s.unused && s.staging.value.uuid != s.dest.uuid)
    && (forall r :: r in s.load ==> r.lsn <= s.s)
    && (forall i :: i in s.inflight ==> i.row.lsn > s.s)
    && (forall r :: r in s.acked ==> r.lsn > s.s)
  }

  ghost predicate Settled(s: State) { forall i :: i in s.inflight ==> i.uuid == s.dest.uuid }

  /** Nothing published: the destination holds its prior rows and every acknowledged live row. */
  ghost predicate Unpublished(s: State, origin: nat, prior: set<Row>) {
    && s.swaps == 0 && s.dest.uuid == origin && Settled(s)
    && AtMost(s.dest.rows, s.s) == prior && s.acked <= s.dest.rows
    && (s.staging.Some? ==> s.staging.value.rows <= s.load)
  }

  /** Published: the destination holds exactly the load up to `s`; acknowledged rows are in one of the two. */
  ghost predicate Published(s: State) {
    && s.swaps == 1 && AtMost(s.dest.rows, s.s) == s.load
    && (forall r :: r in s.acked ==> r in s.dest.rows || (s.staging.Some? && r in s.staging.value.rows))
    && (forall i :: i in s.inflight ==> i.uuid == s.dest.uuid || (s.staging.Some? && i.uuid == s.staging.value.uuid))
  }

  /** The live window has been copied back. */
  ghost predicate Recovered(s: State) { Settled(s) && s.acked <= s.dest.rows }

  ghost predicate PendingInv(s: State, origin: nat, prior: set<Row>) {
    && Unpublished(s, origin, prior)
    && (s.pc.Off? || s.mem.Pending?)
    && match s.pc
       case Off | Idle | Prepare => true
       case Loading => s.staging.Some?
       case Gate => s.staging.Some? && s.staging.value.rows == s.load
       case Mark(u) => s.staging.Some? && s.staging.value.rows == s.load && s.staging.value.uuid == u
       case _ => false
  }

  ghost predicate UnswappedInv(s: State, u: nat, origin: nat, prior: set<Row>) {
    && Unpublished(s, origin, prior)
    && if s.pc.Clearing? then s.staging.None?
       else
         && s.staging.Some? && s.staging.value.uuid == u && s.staging.value.rows == s.load
         && (s.pc.Off? || s.mem == Swapped(u))
         && (s.pc.Off? || s.pc.Idle? || s.pc == Exchanging(u) || s.pc == Resuming(u))
  }

  ghost predicate SwappedInv(s: State, u: nat) {
    && Published(s) && s.dest.uuid == u
    && (s.staging.None? ==> Recovered(s))
    && (s.pc.Off? || s.mem == Swapped(u) || (s.mem.Done? && s.staging.None? && s.pc.Idle?))
    && match s.pc
       case Off | Idle => true
       case Resuming(v) => v == u
       case Waiting => s.staging.Some?
       case Copying => s.staging.Some? && Settled(s)
       case Dropping => s.staging.Some? && Recovered(s)
       case Finishing => s.staging.None?
       case _ => false
  }

  ghost predicate DoneInv(s: State) {
    Published(s) && Recovered(s) && s.staging.None? && (s.pc.Off? || (s.pc.Idle? && s.mem.Done?))
  }

  ghost predicate Inv(s: State, origin: nat, prior: set<Row>) {
    && Sane(s, origin)
    && match s.disk
       case Pending => PendingInv(s, origin, prior)
       case Swapped(u) => u != origin && (UnswappedInv(s, u, origin, prior) || SwappedInv(s, u))
       case Done => DoneInv(s)
  }

  /** A discarded load loses its ledger mark at once: no crash and no failed write in between. */
  predicate Tidy(s: State, step: Step) { s.pc.Clearing? ==> !step.Crash? && step != Clear(false) }

  /**
   An exchange applied after its client gave up lands while the ledger still names the
   table under the staging name, and before a resume has decided to exchange again.
   */
  predicate Timely(s: State, step: Step) {
    step.LateExchange? && s.late > 0 && s.staging.Some? ==>
      s.disk == Swapped(s.staging.value.uuid) && (s.pc.Off? || s.pc.Idle? || s.pc.Resuming?)
  }

  predicate Harmless(s: State, step: Step) { Tidy(s, step) && Timely(s, step) }

  lemma InitInv(s: nat, dest: Table)
    requires forall r :: r in dest.rows ==> r.lsn <= s
    ensures Inv(Init(s, dest), dest.uuid, dest.rows)
  {
    assert AtMost(dest.rows, s) == dest.rows;
  }

  lemma PassKeepsInv(s: State, step: Step, origin: nat, prior: set<Row>)
    requires Inv(s, origin, prior)
    ensures Inv(PassStep(s, step), origin, prior)
  {
  }

  lemma ResumeKeepsInv(s: State, step: Step, origin: nat, prior: set<Row>)
    requires Inv(s, origin, prior) && Tidy(s, step)
    ensures Inv(ResumeStep(s, step), origin, prior)
  {
  }

  lemma SwapKeepsInv(s: State, step: Step, origin: nat, prior: set<Row>)
    requires Inv(s, origin, prior) && Timely(s, step)
    ensures Inv(SwapStep(s, step), origin, prior)
  {
  }

  lemma WorldKeepsInv(s: State, step: Step, origin: nat, prior: set<Row>)
    requires Inv(s, origin, prior) && Tidy(s, step)
    ensures Inv(WorldStep(s, step), origin, prior)
  {
  }

  lemma NextKeepsInv(s: State, step: Step, origin: nat, prior: set<Row>)
    requires Inv(s, origin, prior)
    ensures Inv(Next(s, step), origin, prior) <==> Harmless(s, step)
  {
    if Harmless(s, step) {
      PassKeepsInv(s, step, origin, prior);
      ResumeKeepsInv(s, step, origin, prior);
      SwapKeepsInv(s, step, origin, prior);
      WorldKeepsInv(s, step, origin, prior);
    }
  }

  predicate Regular(s: State, steps: seq<Step>)
    decreases |steps|
  {
    steps == [] || (Harmless(s, steps[0]) && Regular(Next(s, steps[0]), steps[1..]))
  }

  lemma {:induction false} ExecKeepsInv(s: State, steps: seq<Step>, origin: nat, prior: set<Row>)
    requires Inv(s, origin, prior) && Regular(s, steps)
    ensures Inv(Exec(s, steps), origin, prior)
    decreases |steps|
  {
    if steps != [] {
      NextKeepsInv(s, steps[0], origin, prior);
      ExecKeepsInv(Next(s, steps[0]), steps[1..], origin, prior);
    }
  }

  // ------------------------------------------------------------------
  // Runs
  // ------------------------------------------------------------------

  /**
   What the two tables and the ledger owe a reader: exchanged at most once, no acknowledged
   row out of both tables, prior rows untouched before and exactly the load up to `s` after
   the exchange, and everything in place once the ledger says done.
   */
  ghost predicate Safe(t: State, prior: set<Row>) {
    && t.swaps <= 1
    && (forall r :: r in t.acked ==> r in t.dest.rows || (t.staging.Some? && r in t.staging.value.rows))
    && (t.swaps == 0 ==> AtMost(t.dest.rows, t.s) == prior)
    && (t.swaps == 1 ==> AtMost(t.dest.rows, t.s) == t.load)
    && (t.disk.Done? ==> t.swaps == 1 && t.acked <= t.dest.rows && t.staging.None?)
  }

  /** Through every crash, retry, failed or lingering statement and concurrent live insert. */
  lemma RunsPublishOnce(lsn: nat, dest: Table, steps: seq<Step>)
    requires forall r :: r in dest.rows ==> r.lsn <= lsn
    requires Regular(Init(lsn, dest), steps)
    ensures Safe(Exec(Init(lsn, dest), steps), dest.rows) && Exec(Init(lsn, dest), steps).s == lsn
  {
    InitInv(lsn, dest);
    ExecKeepsInv(Init(lsn, dest), steps, dest.uuid, dest.rows);
    KeepsLsn(Init(lsn, dest), steps);
  }

  lemma {:induction false} KeepsLsn(s: State, steps: seq<Step>)
    ensures Exec(s, steps).s == s.s
    decreases |steps|
  {
    if steps != [] {
      KeepsLsn(Next(s, steps[0]), steps[1..]);
    }
  }

  /** Rows past `s` come from the live stream alone, and were acknowledged. */
  ghost predicate LiveAcked(s: State) {
    && (forall r :: r in s.load ==> r.lsn <= s.s)
    && (forall r :: r in s.dest.rows && r.lsn > s.s ==> r in s.acked)
    && (s.staging.Some? ==> forall r :: r in s.staging.value.rows && r.lsn > s.s ==> r in s.acked)
  }

  lemma PassKeepsLiveAcked(s: State, step: Step)
    requires LiveAcked(s)
    ensures LiveAcked(PassStep(s, step)) && LiveAcked(ResumeStep(s, step))
  {
  }

  lemma SwapKeepsLiveAcked(s: State, step: Step)
    requires LiveAcked(s)
    ensures LiveAcked(SwapStep(s, step)) && LiveAcked(WorldStep(s, step))
  {
  }

  lemma {:induction false} ExecKeepsLiveAcked(s: State, steps: seq<Step>)
    requires LiveAcked(s)
    ensures LiveAcked(Exec(s, steps))
    decreases |steps|
  {
    if steps != [] {
      PassKeepsLiveAcked(s, steps[0]);
      SwapKeepsLiveAcked(s, steps[0]);
      ExecKeepsLiveAcked(Next(s, steps[0]), steps[1..]);
    }
  }

  /** Once the ledger says done, the destination is the load and the acknowledged live rows, and nothing else. */
  lemma DoneIsLoadPlusLive(lsn: nat, dest: Table, steps: seq<Step>)
    requires forall r :: r in dest.rows ==> r.lsn <= lsn
    requires Regular(Init(lsn, dest), steps) && Exec(Init(lsn, dest), steps).disk.Done?
    ensures var t := Exec(Init(lsn, dest), steps);
            && t.s == lsn && t.dest.rows == t.load + t.acked
            && (forall r :: r in t.load ==> r.lsn <= lsn) && (forall r :: r in t.acked ==> r.lsn > lsn)
  {
    RunsPublishOnce(lsn, dest, steps);
    ExecKeepsLiveAcked(Init(lsn, dest), steps);
    InitInv(lsn, dest);
    ExecKeepsInv(Init(lsn, dest), steps, dest.uuid, dest.rows);
    var t := Exec(Init(lsn, dest), steps);
    forall r
      ensures r in t.dest.rows <==> r in t.load + t.acked
    {
      if r.lsn <= lsn {
        assert r in t.dest.rows <==> r in AtMost(t.dest.rows, t.s);
      }
    }
  }

  // ------------------------------------------------------------------
  // Shape
  // ------------------------------------------------------------------

  /** The step makes the two names trade storage. */
  predicate Exchanges(s: State, step: Step) {
    && s.staging.Some?
    && match step
       case Exchange(applied, reported, _) => s.pc.Exchanging? && (applied || reported)
       case LateExchange => s.late > 0
       case _ => false
  }

  /** The step compares the two shapes and finds them equal. */
  predicate Gates(s: State, step: Step) {
    || (step == CheckShape(true) && s.pc.Gate? && Next(s, step).pc.Mark?)
    || (step.Inspect? && s.pc.Resuming? && Next(s, step).pc.Exchanging?)
  }

  function ShapeAfter(shape: nat, step: Step): nat { if step.Ddl? then step.shape else shape }

  /** All along the run the destination has the shape its DDL last gave it. */
  predicate ShapeKept(s: State, steps: seq<Step>, shape: nat)
    decreases |steps|
  {
    && s.dest.shape == shape
    && (steps == [] || ShapeKept(Next(s, steps[0]), steps[1..], ShapeAfter(shape, steps[0])))
  }

  /**
   Read off the DDL alone: whenever an exchange takes effect, the last ALTER has left the
   shape that was in force at the last gate passed.
   */
  predicate NoAlterSlipsBy(s: State, steps: seq<Step>, shape: nat, gate: nat)
    decreases |steps|
  {
    || steps == []
    || (&& (Exchanges(s, steps[0]) ==> shape == gate)
        && NoAlterSlipsBy(Next(s, steps[0]), steps[1..], ShapeAfter(shape, steps[0]),
                          if Gates(s, steps[0]) then shape else gate))
  }

  /** A load past the gate has the shape the gate saw. */
  ghost predicate GatedAt(s: State, gate: nat) {
    s.staging.Some? && (s.pc.Mark? || s.disk == Swapped(s.staging.value.uuid)) ==> s.staging.value.shape == gate
  }

  lemma StepKeepsGate(s: State, step: Step, origin: nat, prior: set<Row>, gate: nat)
    requires Inv(s, origin, prior) && Harmless(s, step) && GatedAt(s, gate)
    ensures GatedAt(Next(s, step), if Gates(s, step) then s.dest.shape else gate)
    ensures !Exchanges(s, step) ==> Next(s, step).dest.shape == ShapeAfter(s.dest.shape, step)
    ensures Exchanges(s, step) ==> Next(s, step).dest.shape == gate
  {
  }

  /** Publishing keeps the destination's shape exactly when no ALTER falls between a gate and its exchange. */
  lemma {:induction false} PublishingKeepsShapeIff(s: State, steps: seq<Step>, origin: nat, prior: set<Row>,
                                                   gate: nat)
    requires Inv(s, origin, prior) && Regular(s, steps) && GatedAt(s, gate)
    ensures ShapeKept(s, steps, s.dest.shape) <==> NoAlterSlipsBy(s, steps, s.dest.shape, gate)
    decreases |steps|
  {
    if steps != [] {
      var t := Next(s, steps[0]);
      StepKeepsGate(s, steps[0], origin, prior, gate);
      NextKeepsInv(s, steps[0], origin, prior);
      if t.dest.shape == ShapeAfter(s.dest.shape, steps[0]) {
        PublishingKeepsShapeIff(t, steps[1..], origin, prior, if Gates(s, steps[0]) then s.dest.shape else gate);
      }
    }
  }

  /** An ALTER between the gate and the exchange is undone by the exchange: nothing locks the table there. */
  lemma AlterSlipsBy(s: State, shape: nat, origin: nat, prior: set<Row>)
    requires Inv(s, origin, prior) && s.pc.Exchanging? && shape != s.staging.value.shape
    ensures Regular(s, [Ddl(shape), Exchange(true, true, false)])
    ensures Exec(s, [Ddl(shape), Exchange(true, true, false)]).dest.shape != shape
  {
    var a := Next(s, Ddl(shape));
    assert [Ddl(shape), Exchange(true, true, false)][1..] == [Exchange(true, true, false)];
    assert Exec(a, [Exchange(true, true, false)]) == Next(a, Exchange(true, true, false));
  }

  // ------------------------------------------------------------------
  // Resuming
  // ------------------------------------------------------------------

  function ResumeScript(): seq<Step> {
    [Boot, Notice, Inspect, Exchange(true, true, false), Wait, CopyBack(true), DropStaging(true, true), MarkDone(true)]
  }

  lemma ScriptRuns(s: State)
    ensures Exec(s, ResumeScript())
         == Next(Next(Next(Next(Next(Next(Next(Next(s, Boot), Notice), Inspect), Exchange(true, true, false)),
                                     Wait), CopyBack(true)), DropStaging(true, true)), MarkDone(true))
  {
    var script := ResumeScript();
    assert script[1..][1..] == script[2..] && script[2..][1..] == script[3..] && script[3..][1..] == script[4..];
    assert script[4..][1..] == script[5..] && script[5..][1..] == script[6..] && script[6..][1..] == script[7..];
    assert script[7..] == [MarkDone(true)];
    var a := Next(Next(Next(Next(s, Boot), Notice), Inspect), Exchange(true, true, false));
    assert Exec(s, script) == Exec(Next(Next(s, Boot), Notice), script[2..]);
    assert Exec(s, script) == Exec(a, script[4..]);
    var b := Next(Next(a, Wait), CopyBack(true));
    assert Exec(a, script[4..]) == Exec(b, script[6..]);
    assert Exec(b, script[6..]) == Next(Next(b, DropStaging(true, true)), MarkDone(true));
  }

  /** Boot, uuid check and, if still owed, the exchange bring every interrupted state to the copy-back or past it. */
  lemma ResumeReachesTail(s: State, origin: nat, prior: set<Row>)
    requires Inv(s, origin, prior) && s.pc.Off? && s.disk.Swapped?
    requires s.swaps == 0 ==> s.staging.Some? && s.staging.value.shape == s.dest.shape
    ensures var w := Next(Next(Next(Next(s, Boot), Notice), Inspect), Exchange(true, true, false));
            && Published(w) && w.disk == s.disk && w.load == s.load && w.s == s.s && Sane(w, origin)
            && ((w.pc.Waiting? && w.staging.Some?) || (w.pc.Finishing? && w.staging.None? && Recovered(w)))
  {
    var b := Next(Next(s, Boot), Notice);
    assert b == s.(mem := s.disk, pc := Resuming(s.disk.uuid));
    var r := Next(b, Inspect);
    if s.swaps == 0 {
      assert r == b.(pc := Exchanging(s.disk.uuid));
    } else if s.staging.Some? {
      assert r == b.(pc := Waiting);
    } else {
      assert r == b.(pc := Finishing);
    }
  }

  lemma TailFinishes(w: State, origin: nat)
    requires Published(w) && Sane(w, origin) && w.disk.Swapped?
    requires (w.pc.Waiting? && w.staging.Some?) || (w.pc.Finishing? && w.staging.None? && Recovered(w))
    ensures var t := Next(Next(Next(Next(w, Wait), CopyBack(true)), DropStaging(true, true)), MarkDone(true));
            && t.disk.Done? && t.staging.None? && t.acked <= t.dest.rows
            && AtMost(t.dest.rows, t.s) == w.load && t.swaps == 1
  {
    var c := Next(Next(w, Wait), CopyBack(true));
    if w.pc.Waiting? {
      assert c.pc.Dropping? && c.dest.rows == w.dest.rows + LiveWindow(w.staging.value.rows, w.s);
      assert AtMost(c.dest.rows, w.s) == AtMost(w.dest.rows, w.s);
      assert c.acked <= c.dest.rows;
    } else {
      assert c == w;
    }
  }

  /** Whatever phase a crash interrupted, one and the same resume completes the publication. */
  lemma ResumeCompletes(s: State, origin: nat, prior: set<Row>)
    requires Inv(s, origin, prior) && s.pc.Off? && s.disk.Swapped?
    requires s.swaps == 0 ==> s.staging.Some? && s.staging.value.shape == s.dest.shape
    ensures var t := Exec(s, ResumeScript());
            && t.disk.Done? && t.staging.None? && t.acked <= t.dest.rows
            && AtMost(t.dest.rows, t.s) == s.load && t.swaps == 1
  {
    ScriptRuns(s);
    ResumeReachesTail(s, origin, prior);
    TailFinishes(Next(Next(Next(Next(s, Boot), Notice), Inspect), Exchange(true, true, false)), origin);
  }

  /** An exchange that lands late but before the resume looks is found applied, and the resume completes. */
  lemma LateExchangeIsFound(s: State, origin: nat, prior: set<Row>)
    requires Inv(s, origin, prior) && s.pc.Off? && s.disk.Swapped? && s.late > 0
    requires s.staging.Some? && s.disk == Swapped(s.staging.value.uuid)
    ensures var t := Exec(Next(s, LateExchange), ResumeScript());
            && t.disk.Done? && t.staging.None? && t.acked <= t.dest.rows
            && AtMost(t.dest.rows, t.s) == s.load && t.swaps == 1
  {
    NextKeepsInv(s, LateExchange, origin, prior);
    ResumeCompletes(Next(s, LateExchange), origin, prior);
  }

  // ------------------------------------------------------------------
  // The two conditions are exact
  // ------------------------------------------------------------------

  function DoneScript(): seq<Step> { [Crash, Boot, Notice, Inspect, MarkDone(true)] }

  lemma RunOn(s: State, step: Step, rest: seq<Step>)
    requires Harmless(s, step) && Regular(Next(s, step), rest)
    ensures Regular(s, [step] + rest) && Exec(s, [step] + rest) == Exec(Next(s, step), rest)
  {
    assert ([step] + rest)[1..] == rest;
  }

  lemma DoneScriptRuns(s: State)
    requires !s.pc.Clearing? && s.disk.Swapped? && s.staging.None?
    ensures Regular(s, DoneScript()) && Exec(s, DoneScript()) == s.(mem := Done, disk := Done, pc := Idle)
  {
    var off := Next(s, Crash);
    var idle := Next(off, Boot);
    var resuming := Next(idle, Notice);
    var finishing := Next(resuming, Inspect);
    assert finishing == s.(mem := s.disk, pc := Finishing);
    RunOn(finishing, MarkDone(true), []);
    RunOn(resuming, Inspect, [MarkDone(true)] + []);
    RunOn(idle, Notice, [Inspect] + ([MarkDone(true)] + []));
    RunOn(off, Boot, [Notice] + ([Inspect] + ([MarkDone(true)] + [])));
    RunOn(s, Crash, [Boot] + ([Notice] + ([Inspect] + ([MarkDone(true)] + []))));
    assert DoneScript() == [Crash] + ([Boot] + ([Notice] + ([Inspect] + ([MarkDone(true)] + []))));
  }

  /** A crash, or a ledger write that fails, between the drop and the clear: the next boot calls the load done. */
  lemma UntidyDiscardMarksDone(s: State, step: Step, origin: nat, prior: set<Row>)
    requires Inv(s, origin, prior) && !Tidy(s, step)
    ensures Regular(Next(s, step), DoneScript())
    ensures var t := Exec(Next(s, step), DoneScript());
            t.disk.Done? && t.swaps == 0 && AtMost(t.dest.rows, t.s) == prior
  {
    DoneScriptRuns(Next(s, step));
  }

  /** A load of no rows, just begun, goes on to its exchange. */
  lemma EmptyLoadExchanges(s: State) returns (rest: seq<Step>)
    requires s.pc.Loading? && s.load == {} && s.staging.Some?
    requires s.staging.value.rows == {} && s.staging.value.shape == s.dest.shape
    ensures Regular(s, rest) && Exec(s, rest).swaps == s.swaps + 1
  {
    var gate := Next(s, LoadDone);
    var mark := Next(gate, CheckShape(true));
    var exchanging := Next(mark, MarkSwapped(true));
    assert exchanging.pc.Exchanging? && exchanging.staging.Some? && exchanging.swaps == s.swaps;
    RunOn(exchanging, Exchange(true, true, false), []);
    rest := [Exchange(true, true, false)] + [];
    RunOn(mark, MarkSwapped(true), rest);
    rest := [MarkSwapped(true)] + rest;
    RunOn(gate, CheckShape(true), rest);
    rest := [CheckShape(true)] + rest;
    RunOn(s, LoadDone, rest);
    rest := [LoadDone] + rest;
  }

  /** An entry left pending is loaded again and exchanged again. */
  lemma PendingExchangesAgain(s: State) returns (rest: seq<Step>)
    requires s.disk.Pending? && !s.pc.Clearing?
    ensures Regular(s, rest) && Exec(s, rest).swaps == s.swaps + 1
  {
    var off := Next(s, Crash);
    var idle := Next(off, Boot);
    var prepare := Next(idle, Notice);
    assert prepare.pc.Prepare?;
    rest := EmptyLoadExchanges(Next(prepare, Rebuild({})));
    RunOn(prepare, Rebuild({}), rest);
    rest := [Rebuild({})] + rest;
    RunOn(idle, Notice, rest);
    rest := [Notice] + rest;
    RunOn(off, Boot, rest);
    rest := [Boot] + rest;
    RunOn(s, Crash, rest);
    rest := [Crash] + rest;
  }

  /** An exchange that lands at any other time is followed, or is itself, a second exchange. */
  lemma UntimelyExchangesTwice(s: State, step: Step, origin: nat, prior: set<Row>) returns (rest: seq<Step>)
    requires Inv(s, origin, prior) && !Timely(s, step)
    ensures Regular(Next(s, step), rest) && Exec(Next(s, step), rest).swaps == 2
  {
    var t := Next(s, step);
    if s.disk.Pending? {
      rest := PendingExchangesAgain(t);
    } else if s.pc.Exchanging? {
      rest := [Exchange(true, true, false)];
      assert Exec(t, rest) == Next(t, rest[0]);
    } else {
      rest := [];
    }
  }

  ghost predicate SafeForever(s: State, prior: set<Row>) {
    forall rest :: Regular(s, rest) ==> Safe(Exec(s, rest), prior)
  }

  /** A step leaves every continuation safe if and only if it is harmless, which the state before it decides. */
  lemma SafeForeverIff(s: State, step: Step, origin: nat, prior: set<Row>)
    requires Inv(s, origin, prior)
    ensures SafeForever(Next(s, step), prior) <==> Harmless(s, step)
  {
    var t := Next(s, step);
    if Harmless(s, step) {
      NextKeepsInv(s, step, origin, prior);
      forall rest | Regular(t, rest)
        ensures Safe(Exec(t, rest), prior)
      {
        ExecKeepsInv(t, rest, origin, prior);
      }
    } else if !Tidy(s, step) {
      UntidyDiscardMarksDone(s, step, origin, prior);
      assert !Safe(Exec(t, DoneScript()), prior);
    } else {
      var rest := UntimelyExchangesTwice(s, step, origin, prior);
      assert !Safe(Exec(t, rest), prior);
    }
  }

  /** Short of an untimely exchange, "done" means published in every continuation exactly when the discard is tidy. */
  lemma DoneMeansPublishedIff(s: State, step: Step, origin: nat, prior: set<Row>)
    requires Inv(s, origin, prior) && Timely(s, step)
    ensures (forall rest | Regular(Next(s, step), rest) ::
               Exec(Next(s, step), rest).disk.Done? ==> Exec(Next(s, step), rest).swaps == 1)
       <==> Tidy(s, step)
  {
    SafeForeverIff(s, step, origin, prior);
    if Tidy(s, step) {
      forall rest | Regular(Next(s, step), rest) && Exec(Next(s, step), rest).disk.Done?
        ensures Exec(Next(s, step), rest).swaps == 1
      {
        assert Safe(Exec(Next(s, step), rest), prior);
      }
    } else {
      UntidyDiscardMarksDone(s, step, origin, prior);
    }
  }

  lemma {:induction false} RegularPrefix(s: State, steps: seq<Step>, k: nat)
    requires Regular(s, steps) && k <= |steps|
    ensures Regular(s, steps[..k])
    decreases k
  {
    if k > 0 {
      RegularPrefix(Next(s, steps[0]), steps[1..], k - 1);
      assert steps[..k][1..] == steps[1..][..k - 1];
    }
  }

  /** The first step of a run that is not harmless. */
  lemma {:induction false} FirstHarm(s: State, steps: seq<Step>) returns (k: nat)
    requires !Regular(s, steps)
    ensures k < |steps| && Regular(s, steps[..k]) && !Harmless(Exec(s, steps[..k]), steps[k])
    decreases |steps|
  {
    if !Harmless(s, steps[0]) {
      k := 0;
    } else {
      var j := FirstHarm(Next(s, steps[0]), steps[1..]);
      k := j + 1;
      assert steps[..k][1..] == steps[1..][..j];
    }
  }

  lemma {:induction false} ExecSnoc(s: State, steps: seq<Step>, k: nat)
    requires k < |steps|
    ensures Exec(s, steps[..k + 1]) == Next(Exec(s, steps[..k]), steps[k])
    decreases k
  {
    if k == 0 {
      assert steps[..1] == [steps[0]];
    } else {
      assert steps[..k + 1][1..] == steps[1..][..k] && steps[..k][1..] == steps[1..][..k - 1];
      ExecSnoc(Next(s, steps[0]), steps[1..], k - 1);
    }
  }

  /** A run is free of untidy discards and untimely exchanges exactly when every prefix of it stays safe for ever. */
  lemma RunSafeForeverIff(lsn: nat, dest: Table, steps: seq<Step>)
    requires forall r :: r in dest.rows ==> r.lsn <= lsn
    ensures Regular(Init(lsn, dest), steps)
       <==> forall k :: 0 <= k <= |steps| ==> SafeForever(Exec(Init(lsn, dest), steps[..k]), dest.rows)
  {
    var s := Init(lsn, dest);
    InitInv(lsn, dest);
    if Regular(s, steps) {
      forall k | 0 <= k <= |steps|
        ensures SafeForever(Exec(s, steps[..k]), dest.rows)
      {
        RegularPrefix(s, steps, k);
        ExecKeepsInv(s, steps[..k], dest.uuid, dest.rows);
        InvSafeForever(Exec(s, steps[..k]), dest.uuid, dest.rows);
      }
    } else {
      var k := FirstHarm(s, steps);
      ExecKeepsInv(s, steps[..k], dest.uuid, dest.rows);
      SafeForeverIff(Exec(s, steps[..k]), steps[k], dest.uuid, dest.rows);
      ExecSnoc(s, steps, k);
    }
  }

  lemma InvSafeForever(s: State, origin: nat, prior: set<Row>)
    requires Inv(s, origin, prior)
    ensures SafeForever(s, prior)
  {
    forall rest | Regular(s, rest)
      ensures Safe(Exec(s, rest), prior)
    {
      ExecKeepsInv(s, rest, origin, prior);
    }
  }

  // ------------------------------------------------------------------
  // Two schedules with a late exchange
  // ------------------------------------------------------------------

  /** A resume that exchanges while an earlier exchange is still on its way to the server. */
  lemma ResumeBesideLateExchange(s: State, origin: nat, prior: set<Row>)
    requires Inv(s, origin, prior) && s.pc.Exchanging? && s.dest.shape == s.staging.value.shape
    ensures var a := Next(Next(s, Exchange(false, false, true)), Crash);
            var b := Next(Next(Next(Next(a, Boot), Notice), Inspect), Exchange(true, true, false));
            b == s.(mem := s.disk, pc := Waiting, dest := s.staging.value, staging := Some(s.dest), swaps := 1,
                late := s.late + 1)
  {
    var a := Next(Next(s, Exchange(false, false, true)), Crash);
    assert a == s.(pc := Off, late := s.late + 1);
    var n := Next(Next(a, Boot), Notice);
    assert n == s.(mem := s.disk, pc := Resuming(s.disk.uuid), late := s.late + 1);
  }

  /** The tail of a publication whose tables are swapped back under it. */
  lemma SwappedBackTail(b: State)
    requires b.pc.Waiting? && b.late > 0 && b.staging.Some? && LiveWindow(b.dest.rows, b.s) == {}
    ensures var t := Next(Next(Next(Next(Next(b, LateExchange), Wait), CopyBack(true)), DropStaging(true, true)),
              MarkDone(true));
            t.disk.Done? && t.swaps == b.swaps + 1 && t.dest.rows == b.staging.value.rows && t.s == b.s
  {
    var c := Next(Next(b, LateExchange), Wait);
    assert c.dest == b.staging.value && c.staging == Some(b.dest) && c.pc.Copying?;
    var d := Next(c, CopyBack(true));
    assert d.dest.rows == b.staging.value.rows && d.pc.Dropping?;
  }

  /** An exchange applied after the resume has exchanged swaps the load back out, and the drop removes it. */
  lemma LateExchangeUnpublishes(s: State, origin: nat, prior: set<Row>)
    requires Inv(s, origin, prior) && s.pc.Exchanging? && s.dest.shape == s.staging.value.shape
    ensures var a := Next(Next(s, Exchange(false, false, true)), Crash);
            var b := Next(Next(Next(Next(a, Boot), Notice), Inspect), Exchange(true, true, false));
            var t := Next(Next(Next(Next(Next(b, LateExchange), Wait), CopyBack(true)), DropStaging(true, true)),
                MarkDone(true));
            t.disk.Done? && t.swaps == 2 && AtMost(t.dest.rows, t.s) == prior
  {
    var a := Next(Next(s, Exchange(false, false, true)), Crash);
    var b := Next(Next(Next(Next(a, Boot), Notice), Inspect), Exchange(true, true, false));
    ResumeBesideLateExchange(s, origin, prior);
    assert LiveWindow(b.dest.rows, b.s) == {};
    SwappedBackTail(b);
  }

  /** A lingering exchange that outlives the discard of its load publishes the next, still empty, load. */
  lemma LateExchangePublishesNextLoad(s: State, shape: nat, rows: set<Row>, origin: nat, prior: set<Row>)
    requires Inv(s, origin, prior) && s.pc.Exchanging? && shape != s.staging.value.shape
    ensures var a := Next(Next(Next(Next(s, Exchange(false, false, true)), Ddl(shape)), Notice), Inspect);
            var t := Next(Next(Next(Next(a, Clear(true)), Notice), Rebuild(rows)), LateExchange);
            t.disk.Pending? && t.dest.rows == {} && t.swaps == 1 && t.load == AtMost(rows, t.s)
  {
    var a := Next(Next(Next(Next(s, Exchange(false, false, true)), Ddl(shape)), Notice), Inspect);
    assert a.pc.Clearing? && a.staging.None? && a.late == s.late + 1;
    var b := Next(Next(Next(a, Clear(true)), Notice), Rebuild(rows));
    assert b.staging == Some(Table(a.unused, {}, shape)) && b.late == s.late + 1;
  }
}
