/**
 Initial load from a physical backup, one destination key at a time. A page walk
 pages every tuple of the key at its own instant, the visibility gate decides
 which tuples are rows, archived WAL replays the gap and the live stream follows.
 The destination keeps the row with the highest `_lsn`.

 A history is the key's heap records in WAL order, from every transaction that
 ever wrote it, each carrying what became of its transaction by the time the
 destination is compared with the source.
 */
module FuzzyBackup {
  import opened Basics

  type Row = seq<int>

  datatype Fate = Committed(lsn: nat) | Aborted(lsn: nat) | Running

  /** One heap record: `write` is the new row, `None` a delete. */
  datatype Op = Op(tree: nat, fate: Fate, rec: nat, write: Option<Row>)

  // ------------------------------------------------------------------
  // Histories PostgreSQL can produce
  // ------------------------------------------------------------------

  predicate EndsAfter(f: Fate, rec: nat) { f.Running? || rec < f.lsn }
  predicate EndedBefore(f: Fate, rec: nat) { !f.Running? && f.lsn < rec }

  predicate AbortedBefore(o: Op, rec: nat) { o.fate.Aborted? && o.fate.lsn < rec }

  /**
   Row locking: a writer waits until every earlier writer of the key outside its
   own transaction tree has ended; inside a tree, a savepoint rolled back after
   the later write takes that write with it; a committed tree leaves nothing running.
   */
  predicate Pair(a: Op, b: Op) {
    && a.rec < b.rec
    && (a.tree != b.tree ==> EndedBefore(a.fate, b.rec))
    && (a.tree == b.tree && a.fate.Aborted? && b.rec <= a.fate.lsn ==> b.fate.Aborted?)
    && (a.tree == b.tree && a.fate.Committed? && b.fate.Committed? ==> a.fate.lsn == b.fate.lsn)
    && (a.tree == b.tree ==> (a.fate.Running? ==> !b.fate.Committed?) && (b.fate.Running? ==> !a.fate.Committed?))
  }

  predicate History(ops: seq<Op>) {
    && (forall i :: 0 <= i < |ops| ==> EndsAfter(ops[i].fate, ops[i].rec))
    && (forall i, j :: 0 <= i < j < |ops| ==> Pair(ops[i], ops[j]))
  }

  /** The tuple record `j` acts on: the write before it not yet rolled back. */
  function Target(ops: seq<Op>, j: nat): (t: Option<nat>)
    requires j < |ops|
    ensures t.Some? ==> t.value < j
  {
    LastLiveBefore(ops, j, ops[j].rec)
  }

  function LastLiveBefore(ops: seq<Op>, n: nat, rec: nat): (t: Option<nat>)
    requires n <= |ops|
    ensures t.Some? ==> t.value < n && !AbortedBefore(ops[t.value], rec)
    ensures t.Some? ==> forall k :: t.value < k < n ==> AbortedBefore(ops[k], rec)
    ensures t.None? ==> forall k :: 0 <= k < n ==> AbortedBefore(ops[k], rec)
  {
    if n == 0 then None
    else if !AbortedBefore(ops[n - 1], rec) then Some(n - 1)
    else LastLiveBefore(ops, n - 1, rec)
  }

  /** The record stamped as tuple `i`'s xmax on a page holding WAL up to `at`. */
  function XmaxAt(ops: seq<Op>, i: nat, at: nat): (x: Option<nat>)
    requires i < |ops|
    ensures x.Some? ==> i < x.value < |ops| && ops[x.value].rec <= at && Target(ops, x.value) == Some(i)
    ensures forall j :: i < j < |ops| && ops[j].rec <= at && Target(ops, j) == Some(i)
              ==> x.Some? && j <= x.value
  {
    XmaxBelow(ops, i, at, |ops|)
  }

  function XmaxBelow(ops: seq<Op>, i: nat, at: nat, n: nat): (x: Option<nat>)
    requires i < |ops| && n <= |ops|
    ensures x.Some? ==> i < x.value < n && ops[x.value].rec <= at && Target(ops, x.value) == Some(i)
    ensures forall j :: i < j < n && ops[j].rec <= at && Target(ops, j) == Some(i)
              ==> x.Some? && j <= x.value
  {
    if n <= i + 1 then None
    else if ops[n - 1].rec <= at && Target(ops, n - 1) == Some(i) then Some(n - 1)
    else XmaxBelow(ops, i, at, n - 1)
  }

  /** The source's committed row: latest commit, last record within it. */
  ghost predicate SourceState(ops: seq<Op>, state: Option<Row>) {
    if forall i :: 0 <= i < |ops| ==> !ops[i].fate.Committed? then state.None?
    else exists i :: 0 <= i < |ops| && LatestCommit(ops, i) && state == ops[i].write
  }

  predicate LatestCommit(ops: seq<Op>, i: nat)
    requires i < |ops|
  {
    && ops[i].fate.Committed?
    && forall j :: 0 <= j < |ops| && ops[j].fate.Committed? ==>
         ops[j].fate.lsn < ops[i].fate.lsn || (ops[j].fate.lsn == ops[i].fate.lsn && ops[j].rec <= ops[i].rec)
  }

  // ------------------------------------------------------------------
  // The visibility gate
  // ------------------------------------------------------------------

  /** `StatusUnknown`: the transaction log no longer reaches back that far. */
  datatype Status = StatusCommitted | StatusAborted | StatusInProgress | StatusUnknown
  datatype Side = Live | Dead | Pending | Unknown
  datatype Visibility = Emit | Skip | Defer

  /** Infomask hint bits; both xmin bits together mean frozen. */
  datatype Hints = Hints(xminCommitted: bool, xminInvalid: bool, xmaxCommitted: bool, xmaxInvalid: bool)

  function InsertSide(h: Hints, view: Option<Status>): Side {
    if h.xminCommitted && h.xminInvalid then Live
    else if h.xminInvalid then Dead
    else if h.xminCommitted then Live
    else if view.None? then Unknown
    else match view.value
      case StatusCommitted | StatusUnknown => Live
      case StatusAborted => Dead
      case StatusInProgress => Pending
  }

  function DeleteSide(hasXmax: bool, h: Hints, view: Option<Status>): Side {
    if !hasXmax || h.xmaxInvalid then Live
    else if h.xmaxCommitted then Dead
    else if view.None? then Unknown
    else match view.value
      case StatusCommitted | StatusUnknown => Dead
      case StatusAborted => Live
      case StatusInProgress => Pending
  }

  function TupleVisibility(h: Hints, hasXmax: bool, insertView: Option<Status>,
      deleteView: Option<Status>): Visibility {
    var insert := InsertSide(h, insertView);
    if insert == Dead then Skip
    else if insert == Unknown then Defer
    else match DeleteSide(hasXmax, h, deleteView)
      case Dead => Skip
      case Unknown => Defer
      case Pending => Defer
      case Live => if insert == Pending then Defer else Emit
  }

  /** How one tuple was read: page instant, hint bits and what the backup's transaction logs say. */
  datatype Read = Read(at: nat, pruned: bool, hints: Hints, insertStatus: Status, deleteStatus: Status)

  /**
   Gate outcome: hint bits first, then the complete transaction view, then the
   pending table, which promotes on insert commit and delete abort.
   */
  predicate Shipped(ops: seq<Op>, i: nat, r: Read)
    requires i < |ops|
  {
    var xmax := XmaxAt(ops, i, r.at);
    && ops[i].write.Some? && ops[i].rec <= r.at && !r.pruned
    && match TupleVisibility(r.hints, xmax.Some?, None, None)
       case Emit => true
       case Skip => false
       case Defer =>
         match TupleVisibility(r.hints, xmax.Some?, Some(r.insertStatus), Some(r.deleteStatus))
         case Emit => true
         case Skip => false
         case Defer => ops[i].fate.Committed? && (xmax.Some? ==> ops[xmax.value].fate.Aborted?)
  }

  // ------------------------------------------------------------------
  // One load
  // ------------------------------------------------------------------

  datatype Mode = BaseBackup | ObjectStore

  /** `s`: opt-in LSN. `redo`: backup redo. `from`: first record the gap replay decodes. */
  datatype Load = Load(mode: Mode, s: nat, redo: nat, from: nat) {
    /** `_lsn` of walked rows. */
    function Tag(): nat {
      match mode
      case BaseBackup => s
      case ObjectStore => Min(s, redo)
    }

    /** A fresh base backup starts after the opt-in; replay starts at or before redo. */
    predicate Valid() {
      && (mode.BaseBackup? ==> s <= redo)
      && from <= redo
    }

    /** Commits the transaction view is guaranteed to know: the backup's logs plus the gap pre-scan. */
    function Known(): nat { Max(redo, s) }
  }

  /** WAL that must arrive: the live stream past `s`, and the gap's commits for records its replay decodes. */
  predicate MustDeliver(l: Load, o: Op) {
    && o.fate.Committed?
    && (o.fate.lsn > l.s || (l.mode.ObjectStore? && l.redo < o.fate.lsn <= l.s && l.from <= o.rec))
  }

  /** The tag is the highest version at which walked rows lose to every commit WAL must deliver. */
  lemma TagIsTight(l: Load, o: Op)
    requires l.Valid()
    ensures MustDeliver(l, o) ==> l.Tag() < o.fate.lsn
    ensures exists next :: MustDeliver(l, next) && next.fate.lsn == l.Tag() + 1
  {
    assert MustDeliver(l, Op(0, Committed(l.Tag() + 1), l.from, None));
  }

  /**
   What arrived over WAL. A resumed replay may re-deliver older commits too, never
   an earlier write of the key without the later ones.
   */
  predicate DeliveryOk(l: Load, ops: seq<Op>, arrived: seq<bool>) {
    && |arrived| == |ops|
    && (forall i :: 0 <= i < |ops| && arrived[i] ==> ops[i].fate.Committed?)
    && (forall i :: 0 <= i < |ops| && MustDeliver(l, ops[i]) ==> arrived[i])
    && (forall i, j :: 0 <= i < j < |ops| && arrived[i] && ops[j].fate.Committed? ==> arrived[j])
  }

  /** A status may lag behind an outcome, never contradict it; past the log's reach only commits are left. */
  predicate StatusSound(f: Fate, st: Status, known: nat) {
    && (st.StatusCommitted? || st.StatusUnknown? ==> f.Committed?)
    && (st.StatusAborted? ==> f.Aborted?)
    && (f.Committed? && f.lsn <= known ==> st.StatusCommitted? || st.StatusUnknown?)
  }

  /** Each page is read past redo; hints and logs are truthful; vacuum only takes dead tuples. */
  predicate ReadOk(l: Load, ops: seq<Op>, i: nat, r: Read)
    requires i < |ops|
  {
    var xmax := XmaxAt(ops, i, r.at);
    && l.redo <= r.at
    && (r.hints.xminCommitted ==> ops[i].fate.Committed?)
    && (r.hints.xminInvalid && !r.hints.xminCommitted ==> ops[i].fate.Aborted?)
    && StatusSound(ops[i].fate, r.insertStatus, l.Known())
    && (r.hints.xmaxCommitted && !r.hints.xmaxInvalid ==> xmax.Some? && ops[xmax.value].fate.Committed?)
    && (r.hints.xmaxInvalid && xmax.Some? ==> ops[xmax.value].fate.Aborted?)
    && (xmax.Some? ==> StatusSound(ops[xmax.value].fate, r.deleteStatus, l.Known()))
    && (r.pruned ==> ops[i].fate.Aborted?
                     || exists j :: i < j < |ops| && Target(ops, j) == Some(i) && ops[j].fate.Committed?)
  }

  predicate ReadsOk(l: Load, ops: seq<Op>, pages: seq<Read>) {
    && |pages| == |ops|
    && forall i :: 0 <= i < |ops| ==> ReadOk(l, ops, i, pages[i])
  }

  /** Every row the key got: walked rows at the tag, WAL rows at their commit, in delivery order. */
  datatype DestRow = DestRow(lsn: nat, order: nat, write: Option<Row>)

  function WalRow(o: Op): DestRow
    requires o.fate.Committed?
  {
    DestRow(o.fate.lsn, o.rec, o.write)
  }

  ghost predicate IsDestRow(l: Load, ops: seq<Op>, arrived: seq<bool>, pages: seq<Read>, d: DestRow)
    requires |pages| == |ops| == |arrived|
  {
    || (exists i :: 0 <= i < |ops| && arrived[i] && ops[i].fate.Committed? && d == WalRow(ops[i]))
    || (exists i :: 0 <= i < |ops| && Shipped(ops, i, pages[i]) && d == DestRow(l.Tag(), 0, ops[i].write))
  }

  /** A value keep-highest-`_lsn` may settle on; equal versions keep the later insert. */
  ghost predicate Settles(l: Load, ops: seq<Op>, arrived: seq<bool>, pages: seq<Read>, state: Option<Row>)
    requires |pages| == |ops| == |arrived|
  {
    || (state.None? && forall d :: !IsDestRow(l, ops, arrived, pages, d))
    || (exists d :: Highest(l, ops, arrived, pages, d) && state == d.write)
  }

  ghost predicate Highest(l: Load, ops: seq<Op>, arrived: seq<bool>, pages: seq<Read>, d: DestRow)
    requires |pages| == |ops| == |arrived|
  {
    && IsDestRow(l, ops, arrived, pages, d)
    && forall e :: IsDestRow(l, ops, arrived, pages, e) ==> e.lsn < d.lsn || (e.lsn == d.lsn && e.order <= d.order)
  }

  // ------------------------------------------------------------------
  // The last committed record
  // ------------------------------------------------------------------

  predicate LastCommitted(ops: seq<Op>, last: nat) {
    && last < |ops| && ops[last].fate.Committed?
    && forall j :: last < j < |ops| ==> !ops[j].fate.Committed?
  }

  /** Record order and commit order agree on one key. */
  lemma LastIsLatest(ops: seq<Op>, last: nat)
    requires History(ops) && LastCommitted(ops, last)
    ensures LatestCommit(ops, last)
    ensures forall j :: 0 <= j < |ops| && ops[j].fate.Committed? ==> j <= last
    ensures forall j :: 0 <= j < |ops| && LatestCommit(ops, j) ==> j == last
  {
    forall j | 0 <= j < last && ops[j].fate.Committed?
      ensures ops[j].fate.lsn <= ops[last].fate.lsn && ops[j].rec < ops[last].rec
    {
      assert Pair(ops[j], ops[last]);
    }
  }

  lemma SourceIsLast(ops: seq<Op>, last: nat)
    requires History(ops) && LastCommitted(ops, last)
    ensures forall s :: SourceState(ops, s) <==> s == ops[last].write
  {
    LastIsLatest(ops, last);
  }

  /** Every page holds the last committed record and the transaction view knows its outcome. */
  predicate WalkKnows(l: Load, ops: seq<Op>, last: nat)
    requires LastCommitted(ops, last)
  {
    ops[last].rec < l.redo && ops[last].fate.lsn <= l.Known()
  }

  /** If the last committed record did not come over WAL, none did, and the walk has it. */
  lemma NothingDelivered(l: Load, ops: seq<Op>, arrived: seq<bool>, last: nat)
    requires l.Valid() && DeliveryOk(l, ops, arrived) && History(ops) && LastCommitted(ops, last) && !arrived[last]
    ensures WalkKnows(l, ops, last)
    ensures forall i :: 0 <= i < |ops| ==> !arrived[i]
  {
    LastIsLatest(ops, last);
  }

  /** A superseded committed tuple carries a committed xmax on every page past the superseder. */
  lemma SupersededIsStamped(ops: seq<Op>, i: nat, last: nat, at: nat)
    requires History(ops) && LastCommitted(ops, last) && i < last && ops[i].fate.Committed?
    requires ops[last].rec <= at
    ensures XmaxAt(ops, i, at).Some?
    ensures var x := XmaxAt(ops, i, at).value; x <= last && ops[x].fate.Committed?
  {
    var j := FirstCommittedAfter(ops, i, last);
    assert ops[j].rec <= at by {
      if j < last { assert Pair(ops[j], ops[last]); }
    }
    CommittedTargets(ops, i, j);
    // a writer past j acts on j or later, never on i
    assert XmaxAt(ops, i, at).value == j;
  }

  lemma FirstCommittedAfter(ops: seq<Op>, i: nat, last: nat) returns (j: nat)
    requires i < last < |ops| && ops[last].fate.Committed?
    ensures i < j <= last && ops[j].fate.Committed?
    ensures forall k :: i < k < j ==> !ops[k].fate.Committed?
  {
    j := i + 1;
    while !ops[j].fate.Committed?
      invariant i < j <= last
      invariant forall k :: i < k < j ==> !ops[k].fate.Committed?
      decreases last - j
    {
      j := j + 1;
    }
  }

  /** The next committed writer of the key acts on the committed tuple before it. */
  lemma CommittedTargets(ops: seq<Op>, i: nat, j: nat)
    requires History(ops) && i < j < |ops| && ops[i].fate.Committed? && ops[j].fate.Committed?
    requires forall k :: i < k < j ==> !ops[k].fate.Committed?
    ensures Target(ops, j) == Some(i)
  {
    forall k | i < k < j
      ensures AbortedBefore(ops[k], ops[j].rec)
    {
      assert Pair(ops[k], ops[j]);
    }
  }

  // ------------------------------------------------------------------
  // What the walk ships
  // ------------------------------------------------------------------

  lemma UncommittedNeverShips(l: Load, ops: seq<Op>, i: nat, r: Read)
    requires i < |ops| && ReadOk(l, ops, i, r) && !ops[i].fate.Committed?
    ensures !Shipped(ops, i, r)
  {
  }

  lemma CommittedDeleterSkips(l: Load, ops: seq<Op>, i: nat, r: Read)
    requires i < |ops| && ReadOk(l, ops, i, r)
    requires var x := XmaxAt(ops, i, r.at);
             x.Some? && ops[x.value].fate.Committed? && ops[x.value].fate.lsn <= l.Known()
    ensures !Shipped(ops, i, r)
  {
  }

  lemma SupersededNeverShips(l: Load, ops: seq<Op>, i: nat, last: nat, r: Read)
    requires History(ops) && LastCommitted(ops, last) && WalkKnows(l, ops, last)
    requires i < last && ReadOk(l, ops, i, r)
    ensures !Shipped(ops, i, r)
  {
    if ops[i].fate.Committed? {
      SupersededIsStamped(ops, i, last, r.at);
      LastIsLatest(ops, last);
      CommittedDeleterSkips(l, ops, i, r);
    } else {
      UncommittedNeverShips(l, ops, i, r);
    }
  }

  /** The tuple is the key's committed row, and a transaction that has neither committed nor aborted is deleting it. */
  predicate UndecidedDelete(ops: seq<Op>, i: nat, r: Read)
    requires i < |ops|
  {
    var xmax := XmaxAt(ops, i, r.at);
    xmax.Some? && ops[xmax.value].fate.Running?
  }

  /** A committed inserter whose outcome is known never stands in the way. */
  lemma CommittedInsertIsLive(h: Hints, f: Fate, st: Status, known: nat)
    requires f.Committed? && f.lsn <= known && StatusSound(f, st, known) && !(h.xminInvalid && !h.xminCommitted)
    ensures InsertSide(h, Some(st)) == Live && (InsertSide(h, None) == Live || InsertSide(h, None) == Unknown)
  {
  }

  /** A deleter that has not committed never hides the tuple; one still running leaves it pending. */
  lemma UncommittedDeleteSide(h: Hints, f: Fate, st: Status, known: nat)
    requires !f.Committed? && StatusSound(f, st, known) && !(h.xmaxCommitted && !h.xmaxInvalid)
    requires h.xmaxInvalid ==> f.Aborted?
    ensures DeleteSide(true, h, Some(st)) == Live || DeleteSide(true, h, Some(st)) == Pending
    ensures DeleteSide(true, h, None) == Live || DeleteSide(true, h, None) == Unknown
    ensures f.Running? ==> DeleteSide(true, h, Some(st)) == Pending && DeleteSide(true, h, None) == Unknown
  {
  }

  lemma LastShips(l: Load, ops: seq<Op>, last: nat, r: Read)
    requires History(ops) && LastCommitted(ops, last) && WalkKnows(l, ops, last) && ReadOk(l, ops, last, r)
    ensures Shipped(ops, last, r) <==> ops[last].write.Some? && !UndecidedDelete(ops, last, r)
  {
    assert !r.pruned;
    CommittedInsertIsLive(r.hints, ops[last].fate, r.insertStatus, l.Known());
    var xmax := XmaxAt(ops, last, r.at);
    if xmax.Some? {
      UncommittedDeleteSide(r.hints, ops[xmax.value].fate, r.deleteStatus, l.Known());
    }
  }

  // ------------------------------------------------------------------
  // Convergence
  // ------------------------------------------------------------------

  /** The key's committed row never came over WAL and its walked tuple waits on an undecided delete. */
  ghost predicate Stuck(l: Load, ops: seq<Op>, arrived: seq<bool>, pages: seq<Read>)
    requires |pages| == |ops| == |arrived|
  {
    exists last :: 0 <= last < |ops| && LastCommitted(ops, last) && !arrived[last]
                   && ops[last].write.Some? && UndecidedDelete(ops, last, pages[last])
  }

  lemma {:induction false} FindLast(ops: seq<Op>, n: nat) returns (last: nat)
    requires n <= |ops| && exists i :: 0 <= i < n && ops[i].fate.Committed?
    requires forall j :: n <= j < |ops| ==> !ops[j].fate.Committed?
    ensures LastCommitted(ops, last)
  {
    if ops[n - 1].fate.Committed? {
      last := n - 1;
    } else {
      last := FindLast(ops, n - 1);
    }
  }

  lemma OnlyLastShips(l: Load, ops: seq<Op>, pages: seq<Read>, last: nat)
    requires History(ops) && ReadsOk(l, ops, pages) && LastCommitted(ops, last) && WalkKnows(l, ops, last)
    ensures forall i :: 0 <= i < |ops| && Shipped(ops, i, pages[i]) ==> i == last
  {
    forall i | 0 <= i < |ops| && i != last
      ensures !Shipped(ops, i, pages[i])
    {
      if i < last {
        SupersededNeverShips(l, ops, i, last, pages[i]);
      } else {
        UncommittedNeverShips(l, ops, i, pages[i]);
      }
    }
  }

  /** Among the rows that came over WAL the last committed record's is the highest. */
  lemma LastTopsWal(ops: seq<Op>, arrived: seq<bool>, last: nat, i: nat)
    requires History(ops) && |arrived| == |ops| && LastCommitted(ops, last)
    requires i < |ops| && ops[i].fate.Committed?
    ensures i <= last
    ensures ops[i].fate.lsn <= ops[last].fate.lsn && ops[i].rec <= ops[last].rec
    ensures ops[i].rec == ops[last].rec ==> i == last
  {
    LastIsLatest(ops, last);
    assert i < last ==> Pair(ops[i], ops[last]);
  }

  predicate Outranks(d: DestRow, e: DestRow) { e.lsn < d.lsn || (e.lsn == d.lsn && e.order < d.order) }

  lemma RowIsWalkedOrWal(l: Load, ops: seq<Op>, arrived: seq<bool>, pages: seq<Read>, last: nat, d: DestRow)
    requires DeliveryOk(l, ops, arrived) && History(ops) && ReadsOk(l, ops, pages)
    requires LastCommitted(ops, last) && IsDestRow(l, ops, arrived, pages, d)
    ensures || d == WalRow(ops[last]) || Outranks(WalRow(ops[last]), d)
            || exists i :: 0 <= i < |ops| && Shipped(ops, i, pages[i]) && d == DestRow(l.Tag(), 0, ops[i].write)
  {
    if i :| 0 <= i < |ops| && arrived[i] && ops[i].fate.Committed? && d == WalRow(ops[i]) {
      LastTopsWal(ops, arrived, last, i);
    }
  }

  /** The last record arrived past the tag: its row outranks every walked one. */
  lemma NewerDeliveryConverges(l: Load, ops: seq<Op>, arrived: seq<bool>, pages: seq<Read>, last: nat)
    requires DeliveryOk(l, ops, arrived) && History(ops) && ReadsOk(l, ops, pages)
    requires LastCommitted(ops, last) && arrived[last] && l.Tag() < ops[last].fate.lsn
    ensures forall s :: Settles(l, ops, arrived, pages, s) <==> s == ops[last].write
  {
    var top := WalRow(ops[last]);
    assert IsDestRow(l, ops, arrived, pages, top);
    forall d | IsDestRow(l, ops, arrived, pages, d)
      ensures d == top || Outranks(top, d)
    {
      RowIsWalkedOrWal(l, ops, arrived, pages, last, d);
    }
    assert Highest(l, ops, arrived, pages, top);
  }

  lemma LastRowsAgree(l: Load, ops: seq<Op>, arrived: seq<bool>, pages: seq<Read>, last: nat, d: DestRow)
    requires DeliveryOk(l, ops, arrived) && History(ops) && ReadsOk(l, ops, pages)
    requires LastCommitted(ops, last) && WalkKnows(l, ops, last) && IsDestRow(l, ops, arrived, pages, d)
    ensures var walked := DestRow(l.Tag(), 0, ops[last].write);
            d == WalRow(ops[last]) || Outranks(WalRow(ops[last]), d) || (d == walked && Shipped(ops, last, pages[last]))
  {
    OnlyLastShips(l, ops, pages, last);
    RowIsWalkedOrWal(l, ops, arrived, pages, last, d);
  }

  /** The last record was re-delivered at or below the tag: its walked row, if any, says the same. */
  lemma OlderDeliveryConverges(l: Load, ops: seq<Op>, arrived: seq<bool>, pages: seq<Read>, last: nat)
    requires l.Valid() && DeliveryOk(l, ops, arrived) && History(ops) && ReadsOk(l, ops, pages)
    requires LastCommitted(ops, last) && arrived[last] && ops[last].fate.lsn <= l.Tag()
    ensures forall s :: Settles(l, ops, arrived, pages, s) <==> s == ops[last].write
  {
    var top, walked := WalRow(ops[last]), DestRow(l.Tag(), 0, ops[last].write);
    var ships := Shipped(ops, last, pages[last]);
    assert IsDestRow(l, ops, arrived, pages, top);
    assert ships ==> IsDestRow(l, ops, arrived, pages, walked);
    forall d | IsDestRow(l, ops, arrived, pages, d)
      ensures d == top || Outranks(top, d) || (d == walked && ships)
    {
      LastRowsAgree(l, ops, arrived, pages, last, d);
    }
    assert Highest(l, ops, arrived, pages, if ships && top.lsn < walked.lsn then walked else top);
  }

  lemma WalkedConverges(l: Load, ops: seq<Op>, arrived: seq<bool>, pages: seq<Read>, last: nat)
    requires l.Valid() && DeliveryOk(l, ops, arrived) && History(ops) && ReadsOk(l, ops, pages)
    requires LastCommitted(ops, last) && !arrived[last]
    ensures Shipped(ops, last, pages[last]) ==> forall s :: Settles(l, ops, arrived, pages, s) <==> s == ops[last].write
    ensures !Shipped(ops, last, pages[last]) ==> forall s :: Settles(l, ops, arrived, pages, s) <==> s.None?
  {
    NothingDelivered(l, ops, arrived, last);
    OnlyLastShips(l, ops, pages, last);
    var walked := DestRow(l.Tag(), 0, ops[last].write);
    assert forall d :: IsDestRow(l, ops, arrived, pages, d) ==> d == walked;
    if Shipped(ops, last, pages[last]) {
      assert IsDestRow(l, ops, arrived, pages, walked);
      assert Highest(l, ops, arrived, pages, walked);
    }
  }

  lemma UncommittedKeyConverges(l: Load, ops: seq<Op>, arrived: seq<bool>, pages: seq<Read>)
    requires l.Valid() && DeliveryOk(l, ops, arrived) && History(ops) && ReadsOk(l, ops, pages)
    requires forall i :: 0 <= i < |ops| ==> !ops[i].fate.Committed?
    ensures forall s :: Settles(l, ops, arrived, pages, s) <==> s.None?
  {
    forall i | 0 <= i < |ops|
      ensures !Shipped(ops, i, pages[i])
    {
      UncommittedNeverShips(l, ops, i, pages[i]);
    }
    assert forall d :: !IsDestRow(l, ops, arrived, pages, d);
  }

  /**
   For any history, any page instants past redo and either mode, the destination
   settles on exactly the source's committed row, deletes included, if and only if
   no undecided transaction holds back the key's walked row.
   */
  lemma LoadConverges(l: Load, ops: seq<Op>, arrived: seq<bool>, pages: seq<Read>)
    requires l.Valid() && DeliveryOk(l, ops, arrived) && History(ops) && ReadsOk(l, ops, pages)
    ensures (forall s :: Settles(l, ops, arrived, pages, s) <==> SourceState(ops, s)) <==>
              !Stuck(l, ops, arrived, pages)
  {
    if forall i :: 0 <= i < |ops| ==> !ops[i].fate.Committed? {
      UncommittedKeyConverges(l, ops, arrived, pages);
    } else {
      var last := FindLast(ops, |ops|);
      SourceIsLast(ops, last);
      assert forall k :: 0 <= k < |ops| && LastCommitted(ops, k) ==> k == last;
      if arrived[last] {
        if l.Tag() < ops[last].fate.lsn {
          NewerDeliveryConverges(l, ops, arrived, pages, last);
        } else {
          OlderDeliveryConverges(l, ops, arrived, pages, last);
        }
      } else {
        WalkedConverges(l, ops, arrived, pages, last);
        NothingDelivered(l, ops, arrived, last);
        LastShips(l, ops, last, pages[last]);
        if UndecidedDelete(ops, last, pages[last]) && ops[last].write.Some? {
          assert SourceState(ops, ops[last].write);
          assert !Settles(l, ops, arrived, pages, ops[last].write);
        }
      }
    }
  }

  /** Once every transaction that touched the key has ended, the load has converged. */
  lemma SettledHistoryConverges(l: Load, ops: seq<Op>, arrived: seq<bool>, pages: seq<Read>)
    requires l.Valid() && DeliveryOk(l, ops, arrived) && History(ops) && ReadsOk(l, ops, pages)
    requires forall i :: 0 <= i < |ops| ==> !ops[i].fate.Running?
    ensures forall s :: Settles(l, ops, arrived, pages, s) <==> SourceState(ops, s)
  {
    LoadConverges(l, ops, arrived, pages);
  }

  const OPEN_LOAD := Load(BaseBackup, 10, 20, 0)
  const OPEN_OPS := [Op(1, Committed(5), 3, Some([7])), Op(2, Running, 15, None)]
  const OPEN_HINTS := Hints(false, false, false, false)
  const OPEN_PAGES := [Read(25, false, OPEN_HINTS, StatusCommitted, StatusInProgress),
                       Read(25, false, OPEN_HINTS, StatusInProgress, StatusInProgress)]

  lemma OpenDeleteStamps()
    ensures XmaxAt(OPEN_OPS, 0, 25) == Some(1) && XmaxAt(OPEN_OPS, 1, 25) == None
  {
    assert Target(OPEN_OPS, 1) == Some(0);
  }

  lemma OpenDeleteReads()
    ensures History(OPEN_OPS) && DeliveryOk(OPEN_LOAD, OPEN_OPS, [false, false])
    ensures ReadsOk(OPEN_LOAD, OPEN_OPS, OPEN_PAGES)
  {
    OpenDeleteStamps();
  }

  lemma OpenDeleteShipsNothing(i: nat)
    requires i < 2
    ensures !Shipped(OPEN_OPS, i, OPEN_PAGES[i])
  {
    OpenDeleteStamps();
  }

  /** An open delete seen on the page keeps a committed row out of the destination. */
  lemma OpenDeleteWithholdsRow()
    ensures DeliveryOk(OPEN_LOAD, OPEN_OPS, [false, false]) && History(OPEN_OPS)
    ensures ReadsOk(OPEN_LOAD, OPEN_OPS, OPEN_PAGES)
    ensures SourceState(OPEN_OPS, Some([7])) && Settles(OPEN_LOAD, OPEN_OPS, [false, false], OPEN_PAGES, None)
  {
    OpenDeleteReads();
    assert LatestCommit(OPEN_OPS, 0);
    OpenDeleteShipsNothing(0);
    OpenDeleteShipsNothing(1);
    assert forall d :: !IsDestRow(OPEN_LOAD, OPEN_OPS, [false, false], OPEN_PAGES, d);
  }
}
