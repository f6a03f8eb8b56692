/**
 The publishing statements as a session runs them, in order, against the two tables and
 the ledger; each statement's outcome is the server's or the disk's to decide. Every
 method is a step, or a run, of Staging.
 */
module StagingSession {
  import opened Basics
  import opened Staging

  /** How the world answers one publication or one resume. */
  datatype Answers = Answers(clears: bool, exchange: Step, copies: bool, drops: Step, records: bool)

  predicate AnswersOk(a: Answers) { a.exchange.Exchange? && a.drops.DropStaging? }

  class Session {
    const s: nat
    var dest: Table
    var staging: Option<Table>
    var mem: Phase
    var disk: Phase
    var pc: Pc
    var load: set<Row>
    var inflight: set<Insert>
    var acked: set<Row>
    var swaps: nat
    var late: nat
    var unused: nat

    function View(): State
      reads this
    {
      State(s, dest, staging, mem, disk, pc, load, inflight, acked, swaps, late, unused)
    }

    constructor (s: nat, dest: Table)
      ensures View() == Init(s, dest)
    {
      this.s, this.dest, staging, mem, disk, pc := s, dest, None, Pending, Pending, Idle;
      load, inflight, acked, swaps, late, unused := {}, {}, {}, 0, 0, dest.uuid + 1;
    }

    /** DROP and CREATE .. AS: a fresh table of the destination's shape. */
    method RebuildStaging(rows: set<Row>)
      requires pc.Prepare?
      modifies this
      ensures View() == Next(old(View()), Rebuild(rows))
    {
      staging := None;
      staging := Some(Table(unused, {}, dest.shape));
      unused := unused + 1;
      load := AtMost(rows, s);
      pc := Loading;
    }

    /** Shape gate: a destination altered under the load discards it. */
    method Gate(mapped: bool)
      requires pc.Gate? && staging.Some?
      modifies this
      ensures View() == Next(old(View()), CheckShape(mapped))
    {
      if !mapped || dest.shape != staging.value.shape {
        staging := None;
        pc := Idle;
        return;
      }
      pc := Mark(staging.value.uuid);
    }

    /** The phase is on disk before the exchange is sent, or the exchange is withheld. */
    method MarkSwappedEntry(persists: bool)
      requires pc.Mark?
      modifies this
      ensures View() == Next(old(View()), MarkSwapped(persists))
    {
      var prior := mem;
      var u := pc.uuid;
      mem := Swapped(u);
      if !persists {
        mem := prior;
        pc := Idle;
        return;
      }
      disk := mem;
      pc := Exchanging(u);
    }

    /** EXCHANGE TABLES, sent once. */
    method ExchangeTables(answer: Step)
      requires answer.Exchange? && pc.Exchanging? && staging.Some?
      modifies this
      ensures View() == Next(old(View()), answer)
    {
      if answer.reported || answer.applied {
        var out := dest;
        dest := staging.value;
        staging := Some(out);
        swaps := swaps + 1;
      } else if answer.lingers {
        late := late + 1;
      }
      pc := if answer.reported then Waiting else Idle;
    }

    method WaitForStragglers()
      requires pc.Waiting?
      modifies this
      ensures View() == Next(old(View()), Wait)
    {
      inflight := OnStorage(inflight, dest.uuid);
      pc := Copying;
    }

    /** INSERT .. SELECT of the rows past `s`; a resend adds nothing. */
    method CopyBackRows(ok: bool)
      requires pc.Copying? && staging.Some?
      modifies this
      ensures View() == Next(old(View()), CopyBack(ok))
    {
      if !ok {
        pc := Idle;
        return;
      }
      dest := dest.(rows := dest.rows + LiveWindow(staging.value.rows, s));
      pc := Dropping;
    }

    method DropStagingTable(answer: Step)
      requires answer.DropStaging? && pc.Dropping?
      modifies this
      ensures View() == Next(old(View()), answer)
    {
      if answer.reported || answer.applied {
        staging := None;
      }
      pc := if answer.reported then Finishing else Idle;
    }

    method MarkDoneEntry(records: bool)
      requires pc.Finishing?
      modifies this
      ensures View() == Next(old(View()), MarkDone(records))
    {
      mem := Done;
      if records {
        disk := Done;
      }
      pc := Idle;
    }

    /** Tail shared by publication and resume: wait, copy back, drop, record. */
    method FinishSwapped(a: Answers)
      requires AnswersOk(a) && pc.Waiting? && staging.Some?
      modifies this
      ensures View() == TailRun(old(View()), a)
    {
      WaitForStragglers();
      CopyBackRows(a.copies);
      if pc.Dropping? {
        DropStagingTable(a.drops);
      }
      if pc.Finishing? {
        MarkDoneEntry(a.records);
      }
    }

    /** The uuid under the staging name tells which phase was reached; an unfit load is dropped. */
    method InspectStaging()
      requires pc.Resuming?
      modifies this
      ensures View() == Next(old(View()), Inspect)
    {
      var u := pc.uuid;
      if staging.None? {
        pc := Finishing;
      } else if staging.value.uuid != u {
        pc := Waiting;
      } else if dest.shape == staging.value.shape {
        pc := Exchanging(u);
      } else {
        staging := None;
        pc := Clearing;
      }
    }

    method ClearSwapped(persists: bool)
      requires pc.Clearing?
      modifies this
      ensures View() == Next(old(View()), Clear(persists))
    {
      mem := Pending;
      if persists {
        disk := Pending;
      }
      pc := Idle;
    }

    /** Boot resume of a swapped entry. */
    method ResumeSwap(a: Answers)
      requires AnswersOk(a) && pc.Resuming?
      modifies this
      ensures View() == ResumeRun(old(View()), a)
    {
      InspectStaging();
      Skips(View(), a);
      if pc.Finishing? {
        MarkDoneEntry(a.records);
        return;
      }
      if pc.Clearing? {
        ClearSwapped(a.clears);
        Skips(View(), a);
        return;
      }
      if pc.Exchanging? {
        ExchangeTables(a.exchange);
        Skips(View(), a);
        if !pc.Waiting? { return; }
      }
      FinishSwapped(a);
    }
  }

  /** The resume as a run: statements a branch skips are steps that change nothing. */
  function ResumeRun(s: State, a: Answers): State {
    TailRun(Next(Next(Next(s, Inspect), Clear(a.clears)), a.exchange), a)
  }

  function TailRun(s: State, a: Answers): State {
    Next(Next(Next(Next(s, Wait), CopyBack(a.copies)), a.drops), MarkDone(a.records))
  }

  /** Statements that do not apply change nothing. */
  lemma Skips(s: State, a: Answers)
    requires AnswersOk(a)
    ensures !s.pc.Clearing? ==> Next(s, Clear(a.clears)) == s
    ensures !s.pc.Exchanging? ==> Next(s, a.exchange) == s
    ensures s.pc.Idle? ==> TailRun(s, a) == s
    ensures s.pc.Finishing? ==> TailRun(s, a) == Next(s, MarkDone(a.records))
  {
  }

  lemma TailKeepsInv(s: State, a: Answers, origin: nat, prior: set<Row>)
    requires AnswersOk(a) && Inv(s, origin, prior) && !s.pc.Clearing?
    ensures Inv(TailRun(s, a), origin, prior)
  {
    var c := Next(s, Wait);
    NextKeepsInv(s, Wait, origin, prior);
    var d := Next(c, CopyBack(a.copies));
    NextKeepsInv(c, CopyBack(a.copies), origin, prior);
    var e := Next(d, a.drops);
    NextKeepsInv(d, a.drops, origin, prior);
    NextKeepsInv(e, MarkDone(a.records), origin, prior);
  }

  /** The resume finds its load still unpublished and the destination altered under it. */
  predicate Discards(s: State) {
    && s.pc.Resuming? && s.staging.Some? && s.staging.value.uuid == s.pc.uuid
    && s.staging.value.shape != s.dest.shape
  }

  /** An unrecorded discard is where the resume stops. */
  lemma DiscardStops(s: State, a: Answers)
    requires AnswersOk(a) && Discards(s)
    ensures ResumeRun(s, a) == Next(Next(s, Inspect), Clear(a.clears))
  {
    Skips(Next(Next(s, Inspect), Clear(a.clears)), a);
  }

  lemma ResumeKeepsInv(s: State, a: Answers, origin: nat, prior: set<Row>)
    requires AnswersOk(a) && s.pc.Resuming? && !Discards(s) && Inv(s, origin, prior)
    ensures Inv(ResumeRun(s, a), origin, prior)
  {
    var b := Next(s, Inspect);
    NextKeepsInv(s, Inspect, origin, prior);
    Skips(b, a);
    NextKeepsInv(b, a.exchange, origin, prior);
    TailKeepsInv(Next(b, a.exchange), a, origin, prior);
  }

  /** A resume keeps every continuation safe whatever fails in it, but for the ledger write of a discard. */
  lemma ResumeIsSafeIff(s: State, a: Answers, origin: nat, prior: set<Row>)
    requires AnswersOk(a) && s.pc.Resuming? && Inv(s, origin, prior)
    ensures SafeForever(ResumeRun(s, a), prior) <==> a.clears || !Discards(s)
  {
    if Discards(s) {
      DiscardStops(s, a);
      NextKeepsInv(s, Inspect, origin, prior);
      SafeForeverIff(Next(s, Inspect), Clear(a.clears), origin, prior);
    } else {
      ResumeKeepsInv(s, a, origin, prior);
      InvSafeForever(ResumeRun(s, a), origin, prior);
    }
  }
}
