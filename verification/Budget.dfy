/**
 The resident-byte budget as a step machine: three first-in-first-out counting
 semaphores (whole pool, admission compartment, big-value gate), the requests
 that wait on them and the live permits. Each step is one atomic action of one
 task, so a run is any interleaving of any number of tasks.
 */
module Budget {
  import opened Basics
  import opened Sums

  const GRANULARITY: nat := 1024

  /** Size in semaphore units, rounded up. */
  function UnitsFor(bytes: nat): (units: nat)
    ensures (units as int - 1) * GRANULARITY < bytes <= units * GRANULARITY
  {
    (bytes + GRANULARITY - 1) / GRANULARITY
  }

  function AtLeastOne(n: nat): nat { if n == 0 then 1 else n }

  lemma UnitsMonotone(a: nat, b: nat)
    requires a <= b
    ensures UnitsFor(a) <= UnitsFor(b)
  {
  }

  /** What `with_leaf_reserve` fixes for the life of the pool. */
  datatype Config = Config(total: nat, leafReserve: nat) {
    function AdmissionMax(): nat {
      if leafReserve < total then total - leafReserve else 0
    }
    function LeafMax(): nat {
      if leafReserve == 0 then total else leafReserve
    }
    function PoolUnits(): nat { AtLeastOne(UnitsFor(total)) }
    function AdmissionUnits(): nat { AtLeastOne(UnitsFor(AdmissionMax())) }

    /** Units a full admission compartment and one full leaf need together. */
    predicate Reserved() {
      UnitsFor(AdmissionMax()) + UnitsFor(LeafMax()) <= PoolUnits()
    }
  }

  /** How a permit came about; a compartment-sized request is `Unmetered`. */
  datatype Kind = Leaf | Admission | Unmetered

  datatype Permit = Permit(kind: Kind, bytes: nat, units: nat, admissionUnits: nat, bigLeaf: bool)

  /** A request past its first semaphore, heading for or queued on the pool. */
  datatype Request = LeafRequest(bytes: nat, big: bool) | AdmitRequest(bytes: nat)

  function PermitUnits(p: Permit): nat { p.units }
  function PermitAdmission(p: Permit): nat { p.admissionUnits }
  function PermitGate(p: Permit): nat { if p.bigLeaf then 1 else 0 }
  function PermitBytes(p: Permit): nat { p.bytes }
  function LeafCount(p: Permit): nat { if p.kind.Leaf? then 1 else 0 }

  function RequestAdmission(r: Request): nat {
    match r
    case LeafRequest(_, _) => 0
    case AdmitRequest(bytes) => UnitsFor(bytes)
  }
  function RequestGate(r: Request): nat {
    if r.LeafRequest? && r.big then 1 else 0
  }

  datatype State = State(
    config: Config,
    poolFree: nat,
    admissionFree: nat,
    gateFree: nat,
    gateQueue: seq<nat>,          // byte sizes of large values waiting their turn
    admissionQueue: seq<nat>,     // byte sizes of admitters waiting for the compartment
    between: seq<Request>,        // past the first semaphore, pool not asked yet
    poolQueue: seq<Request>,
    permits: seq<Permit>,
    cur: nat)

  function Init(c: Config): State {
    State(c, c.PoolUnits(), c.AdmissionUnits(), 1, [], [], [], [], [], 0)
  }

  /** Pool units a request waits for. */
  function Demand(c: Config, r: Request): nat {
    match r
    case LeafRequest(bytes, _) => UnitsFor(Min(bytes, c.LeafMax()))
    case AdmitRequest(bytes) => UnitsFor(bytes)
  }

  /** The permit a request turns into once the pool grants it. */
  function Granted(c: Config, r: Request): Permit {
    match r
    case LeafRequest(bytes, big) => Permit(Leaf, bytes, Demand(c, r), 0, big)
    case AdmitRequest(bytes) => Permit(Admission, bytes, Demand(c, r), Demand(c, r), false)
  }

  /** A newcomer takes units only when nobody queues before it. */
  predicate CanTake(free: nat, waiting: nat, units: nat) {
    units <= free && (units == 0 || waiting == 0)
  }

  datatype Step =
    | AcquireCall(bytes: nat)
    | AdmitCall(bytes: nat)
    | TryAdmitCall(bytes: nat)
    | GateGrant
    | AdmissionGrant
    | PoolCall(i: nat)
    | PoolGrant
    | Shrink(i: nat, bytes: nat)
    | Drop(i: nat)

  function AddPermit(s: State, p: Permit): State {
    s.(permits := s.permits + [p], cur := s.cur + p.bytes)
  }

  /** `acquire` up to its first wait. */
  function AcquireStep(s: State, bytes: nat): State {
    if bytes <= s.config.LeafMax() then
      s.(between := s.between + [LeafRequest(bytes, false)])
    else if CanTake(s.gateFree, |s.gateQueue|, 1) then
      s.(gateFree := s.gateFree - 1, between := s.between + [LeafRequest(bytes, true)])
    else
      s.(gateQueue := s.gateQueue + [bytes])
  }

  /** `admit` up to its first wait. */
  function AdmitStep(s: State, bytes: nat): State {
    if bytes > s.config.AdmissionMax() then
      AddPermit(s, Permit(Unmetered, bytes, 0, 0, false))
    else if CanTake(s.admissionFree, |s.admissionQueue|, UnitsFor(bytes)) then
      s.(admissionFree := s.admissionFree - UnitsFor(bytes), between := s.between + [AdmitRequest(bytes)])
    else
      s.(admissionQueue := s.admissionQueue + [bytes])
  }

  predicate TryAdmitFits(s: State, bytes: nat) {
    var units := UnitsFor(bytes);
    && CanTake(s.admissionFree, |s.admissionQueue|, units)
    && CanTake(s.poolFree, |s.poolQueue|, units)
  }

  /** `try_admit`: both compartments or neither. */
  function TryAdmitStep(s: State, bytes: nat): State {
    if bytes > s.config.AdmissionMax() then
      AddPermit(s, Permit(Unmetered, bytes, 0, 0, false))
    else if TryAdmitFits(s, bytes) then
      var units := UnitsFor(bytes);
      AddPermit(
        s.(admissionFree := s.admissionFree - units, poolFree := s.poolFree - units),
        Permit(Admission, bytes, units, units, false))
    else s
  }

  function PoolStep(s: State, r: Request): State {
    var units := Demand(s.config, r);
    if CanTake(s.poolFree, |s.poolQueue|, units) then
      AddPermit(s.(poolFree := s.poolFree - units), Granted(s.config, r))
    else
      s.(poolQueue := s.poolQueue + [r])
  }

  predicate HeadGrantable(s: State)
    requires s.poolQueue != []
  {
    Demand(s.config, s.poolQueue[0]) <= s.poolFree
  }

  /** `MemoryPermit::shrink` on the permit alone. */
  function Shrunk(c: Config, p: Permit, bytes: nat): Permit {
    if bytes >= p.bytes then p
    else
      var units := Min(UnitsFor(bytes), p.units);
      var freedAdmission := Min(p.units - units, p.admissionUnits);
      Permit(p.kind, bytes, units, p.admissionUnits - freedAdmission,
             p.bigLeaf && bytes > c.LeafMax())
  }

  /** Replace a permit by a smaller one, or by nothing, giving back the difference. */
  function GiveBack(s: State, was: Permit, now: Permit): State
    requires now.bytes <= was.bytes <= s.cur
    requires now.units <= was.units && now.admissionUnits <= was.admissionUnits
    requires now.bigLeaf ==> was.bigLeaf
  {
    s.(poolFree := s.poolFree + (was.units - now.units),
       admissionFree := s.admissionFree + (was.admissionUnits - now.admissionUnits),
       gateFree := s.gateFree + (PermitGate(was) - PermitGate(now)),
       cur := s.cur - (was.bytes - now.bytes))
  }

  const Nothing := Permit(Unmetered, 0, 0, 0, false)

  function ShrinkStep(s: State, i: nat, bytes: nat): State {
    if i < |s.permits| && s.permits[i].bytes <= s.cur then
      var now := Shrunk(s.config, s.permits[i], bytes);
      GiveBack(s.(permits := s.permits[i := now]), s.permits[i], now)
    else s
  }

  ghost function DropStep(s: State, i: nat): State {
    if i < |s.permits| && s.permits[i].bytes <= s.cur then
      GiveBack(s.(permits := Without(s.permits, i)), s.permits[i], Nothing)
    else s
  }

  /** One action of one task; an action the state does not allow changes nothing. */
  ghost function Next(s: State, step: Step): State {
    match step
    case AcquireCall(bytes) => AcquireStep(s, bytes)
    case AdmitCall(bytes) => AdmitStep(s, bytes)
    case TryAdmitCall(bytes) => TryAdmitStep(s, bytes)
    case GateGrant =>
      if s.gateQueue != [] && s.gateFree > 0 then
        s.(gateFree := s.gateFree - 1, gateQueue := s.gateQueue[1..],
           between := s.between + [LeafRequest(s.gateQueue[0], true)])
      else s
    case AdmissionGrant =>
      if s.admissionQueue != [] && UnitsFor(s.admissionQueue[0]) <= s.admissionFree then
        s.(admissionFree := s.admissionFree - UnitsFor(s.admissionQueue[0]),
           admissionQueue := s.admissionQueue[1..],
           between := s.between + [AdmitRequest(s.admissionQueue[0])])
      else s
    case PoolCall(i) =>
      if i < |s.between| then PoolStep(s.(between := Without(s.between, i)), s.between[i]) else s
    case PoolGrant =>
      if s.poolQueue != [] && HeadGrantable(s) then
        var r := s.poolQueue[0];
        AddPermit(s.(poolFree := s.poolFree - Demand(s.config, r), poolQueue := s.poolQueue[1..]),
                  Granted(s.config, r))
      else s
    case Shrink(i, bytes) => ShrinkStep(s, i, bytes)
    case Drop(i) => DropStep(s, i)
  }

  ghost function Exec(s: State, steps: seq<Step>): State
    decreases |steps|
  {
    if steps == [] then s else Exec(Next(s, steps[0]), steps[1..])
  }

  // ------------------------------------------------------------------
  // What every run keeps
  // ------------------------------------------------------------------

  /** A permit meters exactly what its kind says. */
  predicate PermitOk(c: Config, p: Permit) {
    match p.kind
    case Leaf =>
      && p.admissionUnits == 0
      && p.bigLeaf == (p.bytes > c.LeafMax())
      && p.units == UnitsFor(Min(p.bytes, c.LeafMax()))
    case Admission =>
      && p.bytes <= c.AdmissionMax()
      && p.units == p.admissionUnits == UnitsFor(p.bytes)
      && !p.bigLeaf
    case Unmetered => p.units == 0 && p.admissionUnits == 0 && !p.bigLeaf
  }

  predicate RequestOk(c: Config, r: Request) {
    match r
    case LeafRequest(bytes, big) => big == (bytes > c.LeafMax())
    case AdmitRequest(bytes) => bytes <= c.AdmissionMax()
  }

  ghost predicate Conserved(s: State) {
    && s.poolFree + Sum(s.permits, PermitUnits) == s.config.PoolUnits()
    && s.admissionFree + Sum(s.permits, PermitAdmission) + Sum(s.between, RequestAdmission)
         + Sum(s.poolQueue, RequestAdmission) == s.config.AdmissionUnits()
    && s.gateFree + Sum(s.permits, PermitGate) + Sum(s.between, RequestGate)
         + Sum(s.poolQueue, RequestGate) == 1
    && s.cur == Sum(s.permits, PermitBytes)
  }

  ghost predicate WellFormed(s: State) {
    && (forall p :: p in s.permits ==> PermitOk(s.config, p))
    && (forall r :: r in s.between ==> RequestOk(s.config, r))
    && (forall r :: r in s.poolQueue ==> RequestOk(s.config, r))
    && (forall b :: b in s.gateQueue ==> b > s.config.LeafMax())
    && (forall b :: b in s.admissionQueue ==> b <= s.config.AdmissionMax())
  }

  ghost predicate Inv(s: State) { Conserved(s) && WellFormed(s) }

  lemma AddPermitSums(s: State, p: Permit)
    ensures var t := AddPermit(s, p);
            && Sum(t.permits, PermitUnits) == Sum(s.permits, PermitUnits) + p.units
            && Sum(t.permits, PermitAdmission) == Sum(s.permits, PermitAdmission) + p.admissionUnits
            && Sum(t.permits, PermitGate) == Sum(s.permits, PermitGate) + PermitGate(p)
            && Sum(t.permits, PermitBytes) == Sum(s.permits, PermitBytes) + p.bytes
  {
    SumAppend(s.permits, p, PermitUnits);
    SumAppend(s.permits, p, PermitAdmission);
    SumAppend(s.permits, p, PermitGate);
    SumAppend(s.permits, p, PermitBytes);
  }

  lemma AppendRequestSums(q: seq<Request>, r: Request)
    ensures Sum(q + [r], RequestAdmission) == Sum(q, RequestAdmission) + RequestAdmission(r)
    ensures Sum(q + [r], RequestGate) == Sum(q, RequestGate) + RequestGate(r)
  {
    SumAppend(q, r, RequestAdmission);
    SumAppend(q, r, RequestGate);
  }

  lemma RemoveRequestSums(q: seq<Request>, i: nat)
    requires i < |q|
    ensures Sum(q, RequestAdmission) == Sum(Without(q, i), RequestAdmission) + RequestAdmission(q[i])
    ensures Sum(q, RequestGate) == Sum(Without(q, i), RequestGate) + RequestGate(q[i])
  {
    SumRemove(q, i, RequestAdmission);
    SumRemove(q, i, RequestGate);
  }

  /** Elements a queue operation may leave behind. */
  lemma MembersAfter<T>(s: seq<T>, x: T)
    ensures forall y :: y in s + [x] ==> y == x || y in s
    ensures s != [] ==> forall y :: y in s[1..] ==> y in s
  {
  }

  lemma AddPermitKeepsInv(s: State, p: Permit)
    requires WellFormed(s) && PermitOk(s.config, p)
    requires Conserved(s.(poolFree := s.poolFree + p.units, admissionFree := s.admissionFree + p.admissionUnits,
                          gateFree := s.gateFree + PermitGate(p)))
    ensures Inv(AddPermit(s, p))
  {
    AddPermitSums(s, p);
    MembersAfter(s.permits, p);
  }

  lemma EnterBetweenKeepsInv(s: State, r: Request)
    requires WellFormed(s) && RequestOk(s.config, r)
    requires Conserved(s.(admissionFree := s.admissionFree + RequestAdmission(r),
                          gateFree := s.gateFree + RequestGate(r)))
    ensures Inv(s.(between := s.between + [r]))
  {
    AppendRequestSums(s.between, r);
    MembersAfter(s.between, r);
  }

  lemma AcquireKeepsInv(s: State, bytes: nat)
    requires Inv(s)
    ensures Inv(Next(s, AcquireCall(bytes)))
  {
    if bytes <= s.config.LeafMax() {
      EnterBetweenKeepsInv(s, LeafRequest(bytes, false));
    } else if CanTake(s.gateFree, |s.gateQueue|, 1) {
      EnterBetweenKeepsInv(s.(gateFree := s.gateFree - 1), LeafRequest(bytes, true));
    } else {
      MembersAfter(s.gateQueue, bytes);
    }
  }

  lemma AdmitKeepsInv(s: State, bytes: nat)
    requires Inv(s)
    ensures Inv(Next(s, AdmitCall(bytes)))
  {
    var units := UnitsFor(bytes);
    if bytes > s.config.AdmissionMax() {
      AddPermitKeepsInv(s, Permit(Unmetered, bytes, 0, 0, false));
    } else if CanTake(s.admissionFree, |s.admissionQueue|, units) {
      EnterBetweenKeepsInv(s.(admissionFree := s.admissionFree - units), AdmitRequest(bytes));
    } else {
      MembersAfter(s.admissionQueue, bytes);
    }
  }

  lemma TryAdmitKeepsInv(s: State, bytes: nat)
    requires Inv(s)
    ensures Inv(Next(s, TryAdmitCall(bytes)))
  {
    var units := UnitsFor(bytes);
    if bytes > s.config.AdmissionMax() {
      AddPermitKeepsInv(s, Permit(Unmetered, bytes, 0, 0, false));
    } else if TryAdmitFits(s, bytes) {
      AddPermitKeepsInv(s.(admissionFree := s.admissionFree - units, poolFree := s.poolFree - units),
                        Permit(Admission, bytes, units, units, false));
    }
  }

  lemma GateGrantKeepsInv(s: State)
    requires Inv(s)
    ensures Inv(Next(s, GateGrant))
  {
    if s.gateQueue != [] && s.gateFree > 0 {
      assert s.gateQueue[0] in s.gateQueue;
      MembersAfter(s.gateQueue, 0);
      EnterBetweenKeepsInv(s.(gateFree := s.gateFree - 1, gateQueue := s.gateQueue[1..]),
                           LeafRequest(s.gateQueue[0], true));
    }
  }

  lemma AdmissionGrantKeepsInv(s: State)
    requires Inv(s)
    ensures Inv(Next(s, AdmissionGrant))
  {
    if s.admissionQueue != [] && UnitsFor(s.admissionQueue[0]) <= s.admissionFree {
      var bytes := s.admissionQueue[0];
      assert bytes in s.admissionQueue;
      MembersAfter(s.admissionQueue, 0);
      EnterBetweenKeepsInv(
        s.(admissionFree := s.admissionFree - UnitsFor(bytes), admissionQueue := s.admissionQueue[1..]),
        AdmitRequest(bytes));
    }
  }

  lemma PoolServedKeepsInv(s: State, i: nat)
    requires Inv(s) && i < |s.between| && CanTake(s.poolFree, |s.poolQueue|, Demand(s.config, s.between[i]))
    ensures Inv(Next(s, PoolCall(i)))
  {
    var r := s.between[i];
    assert r in s.between;
    RemoveRequestSums(s.between, i);
    AddPermitKeepsInv(s.(between := Without(s.between, i), poolFree := s.poolFree - Demand(s.config, r)),
        Granted(s.config, r));
  }

  lemma PoolQueuedKeepsInv(s: State, i: nat)
    requires Inv(s) && i < |s.between| && !CanTake(s.poolFree, |s.poolQueue|, Demand(s.config, s.between[i]))
    ensures Inv(Next(s, PoolCall(i)))
  {
    var r := s.between[i];
    assert r in s.between;
    RemoveRequestSums(s.between, i);
    AppendRequestSums(s.poolQueue, r);
    MembersAfter(s.poolQueue, r);
  }

  lemma PoolStepKeepsInv(s: State, i: nat)
    requires Inv(s) && i < |s.between|
    ensures Inv(Next(s, PoolCall(i)))
  {
    if CanTake(s.poolFree, |s.poolQueue|, Demand(s.config, s.between[i])) {
      PoolServedKeepsInv(s, i);
    } else {
      PoolQueuedKeepsInv(s, i);
    }
  }

  lemma PoolGrantKeepsInv(s: State)
    requires Inv(s)
    ensures Inv(Next(s, PoolGrant))
  {
    if s.poolQueue != [] && HeadGrantable(s) {
      var r := s.poolQueue[0];
      assert r in s.poolQueue;
      RemoveRequestSums(s.poolQueue, 0);
      assert Without(s.poolQueue, 0) == s.poolQueue[1..];
      AddPermitKeepsInv(s.(poolFree := s.poolFree - Demand(s.config, r), poolQueue := s.poolQueue[1..]),
                        Granted(s.config, r));
    }
  }

  lemma ShrunkOk(c: Config, p: Permit, bytes: nat)
    requires PermitOk(c, p)
    ensures PermitOk(c, Shrunk(c, p, bytes))
  {
    if bytes < p.bytes {
      UnitsMonotone(Min(bytes, c.LeafMax()), Min(p.bytes, c.LeafMax()));
      UnitsMonotone(bytes, p.bytes);
      UnitsMonotone(Min(bytes, c.LeafMax()), bytes);
      if bytes > c.LeafMax() {
        UnitsMonotone(c.LeafMax(), bytes);
      }
    }
  }

  lemma ShrinkKeepsInv(s: State, i: nat, bytes: nat)
    requires Inv(s) && i < |s.permits|
    ensures Inv(Next(s, Shrink(i, bytes)))
  {
    var was := s.permits[i];
    assert was in s.permits;
    var now := Shrunk(s.config, was, bytes);
    ShrunkOk(s.config, was, bytes);
    SumAtLeast(s.permits, i, PermitBytes);
    SumUpdate(s.permits, i, now, PermitUnits);
    SumUpdate(s.permits, i, now, PermitAdmission);
    SumUpdate(s.permits, i, now, PermitGate);
    SumUpdate(s.permits, i, now, PermitBytes);
  }

  lemma DropKeepsInv(s: State, i: nat)
    requires Inv(s) && i < |s.permits|
    ensures Inv(Next(s, Drop(i)))
    ensures Next(s, Drop(i)).permits == Without(s.permits, i)
  {
    SumAtLeast(s.permits, i, PermitBytes);
    SumRemove(s.permits, i, PermitUnits);
    SumRemove(s.permits, i, PermitAdmission);
    SumRemove(s.permits, i, PermitGate);
    SumRemove(s.permits, i, PermitBytes);
  }

  lemma NextKeepsInv(s: State, step: Step)
    requires Inv(s)
    ensures Inv(Next(s, step)) && Next(s, step).config == s.config
  {
    match step
    case AcquireCall(bytes) => AcquireKeepsInv(s, bytes);
    case AdmitCall(bytes) => AdmitKeepsInv(s, bytes);
    case TryAdmitCall(bytes) => TryAdmitKeepsInv(s, bytes);
    case GateGrant => GateGrantKeepsInv(s);
    case AdmissionGrant => AdmissionGrantKeepsInv(s);
    case PoolCall(i) => if i < |s.between| { PoolStepKeepsInv(s, i); }
    case PoolGrant => PoolGrantKeepsInv(s);
    case Shrink(i, bytes) => if i < |s.permits| { ShrinkKeepsInv(s, i, bytes); }
    case Drop(i) => if i < |s.permits| { DropKeepsInv(s, i); }
  }

  lemma {:induction false} ExecKeepsInv(s: State, steps: seq<Step>)
    requires Inv(s)
    ensures Inv(Exec(s, steps)) && Exec(s, steps).config == s.config
    decreases |steps|
  {
    if steps != [] {
      NextKeepsInv(s, steps[0]);
      ExecKeepsInv(Next(s, steps[0]), steps[1..]);
    }
  }

  /** Conservation over every interleaving. */
  lemma RunsConserve(c: Config, steps: seq<Step>)
    ensures Inv(Exec(Init(c), steps)) && Exec(Init(c), steps).config == c
  {
    ExecKeepsInv(Init(c), steps);
  }

  // ------------------------------------------------------------------
  // The byte bound
  // ------------------------------------------------------------------

  function Excess(leafMax: nat): Permit -> nat {
    (p: Permit) => if p.bigLeaf && p.bytes > leafMax then p.bytes - leafMax else 0
  }
  function UnmeteredBytes(p: Permit): nat { if p.kind.Unmetered? then p.bytes else 0 }
  function MeteredBytes(p: Permit): nat { p.units * GRANULARITY }

  lemma {:induction false} MeteredIsUnits(ps: seq<Permit>)
    ensures Sum(ps, MeteredBytes) == Sum(ps, PermitUnits) * GRANULARITY
  {
    if ps != [] {
      MeteredIsUnits(ps[1..]);
    }
  }

  lemma {:induction false} BytesBounded(c: Config, ps: seq<Permit>)
    requires forall p :: p in ps ==> PermitOk(c, p)
    ensures Sum(ps, PermitBytes)
            <= Sum(ps, MeteredBytes) + Sum(ps, Excess(c.LeafMax())) + Sum(ps, UnmeteredBytes)
  {
    if ps != [] {
      assert ps[0] in ps;
      BytesBounded(c, ps[1..]);
    }
  }

  lemma {:induction false} GateExclusive(ps: seq<Permit>, i: nat, j: nat)
    requires i < j < |ps| && ps[i].bigLeaf && ps[j].bigLeaf
    ensures Sum(ps, PermitGate) >= 2
  {
    SumRemove(ps, i, PermitGate);
    assert Without(ps, i)[j - 1] == ps[j];
    SumAtLeast(Without(ps, i), j - 1, PermitGate);
  }

  /**
   Resident bytes never pass the pool except by the excess of one large value and
   by admissions too large to meter; and large values run one at a time.
   */
  lemma ResidentBound(c: Config, steps: seq<Step>)
    ensures var s := Exec(Init(c), steps);
            && s.cur <= GRANULARITY * c.PoolUnits() + Sum(s.permits, Excess(c.LeafMax()))
                          + Sum(s.permits, UnmeteredBytes)
            && (forall i, j :: 0 <= i < j < |s.permits| && s.permits[i].kind.Leaf? && s.permits[j].kind.Leaf?
                  ==> s.permits[i].bytes <= c.LeafMax() || s.permits[j].bytes <= c.LeafMax())
  {
    var s := Exec(Init(c), steps);
    RunsConserve(c, steps);
    BytesBounded(c, s.permits);
    MeteredIsUnits(s.permits);
    forall i, j | 0 <= i < j < |s.permits| && s.permits[i].kind.Leaf? && s.permits[j].kind.Leaf?
      ensures s.permits[i].bytes <= c.LeafMax() || s.permits[j].bytes <= c.LeafMax()
    {
      assert s.permits[i] in s.permits && s.permits[j] in s.permits;
      if s.permits[i].bytes > c.LeafMax() && s.permits[j].bytes > c.LeafMax() {
        GateExclusive(s.permits, i, j);
      }
    }
  }

  lemma {:induction false} DropAll(s: State) returns (steps: seq<Step>)
    requires Inv(s)
    ensures var t := Exec(s, steps);
            && t.permits == [] && Inv(t)
            && t == s.(permits := [], poolFree := t.poolFree, admissionFree := t.admissionFree,
                       gateFree := t.gateFree, cur := t.cur)
    decreases |s.permits|
  {
    if s.permits == [] {
      steps := [];
    } else {
      DropKeepsInv(s, 0);
      var rest := DropAll(Next(s, Drop(0)));
      steps := [Drop(0)] + rest;
    }
  }

  /** With no request in flight, dropping every permit restores the initial state. */
  lemma DroppingAllRestoresInit(c: Config, steps: seq<Step>) returns (drops: seq<Step>)
    requires var s := Exec(Init(c), steps);
             s.gateQueue == [] && s.admissionQueue == [] && s.between == [] && s.poolQueue == []
    ensures Exec(Exec(Init(c), steps), drops) == Init(c)
  {
    RunsConserve(c, steps);
    drops := DropAll(Exec(Init(c), steps));
  }

  // ------------------------------------------------------------------
  // Leaf progress
  // ------------------------------------------------------------------

  ghost predicate NoLeaf(s: State) {
    forall p :: p in s.permits ==> !p.kind.Leaf?
  }

  lemma {:induction false} AdmissionHoldsPool(ps: seq<Permit>, c: Config)
    requires forall p :: p in ps ==> PermitOk(c, p) && !p.kind.Leaf?
    ensures Sum(ps, PermitUnits) == Sum(ps, PermitAdmission)
  {
    if ps != [] {
      assert ps[0] in ps;
      AdmissionHoldsPool(ps[1..], c);
    }
  }

  /** A compartment rounded up to one unit hands out nothing when it is empty. */
  lemma {:induction false} EmptyCompartmentHoldsNothing(s: State)
    requires WellFormed(s) && s.config.AdmissionMax() == 0
    ensures Sum(s.permits, PermitAdmission) == 0
    ensures Sum(s.between, RequestAdmission) == 0
    ensures Sum(s.poolQueue, RequestAdmission) == 0
  {
    SumZero(s.permits, PermitAdmission);
    SumZero(s.between, RequestAdmission);
    SumZero(s.poolQueue, RequestAdmission);
  }

  /**
   Once no leaf permit is live, the head of the pool queue can be granted: it
   never needs an admission permit to go away.
   */
  lemma HeadNeedsOnlyLeaves(s: State)
    requires Inv(s) && s.config.Reserved()
    requires s.poolQueue != [] && NoLeaf(s)
    ensures HeadGrantable(s)
  {
    var c, head := s.config, s.poolQueue[0];
    assert head in s.poolQueue;
    AdmissionHoldsPool(s.permits, c);
    SumAtLeast(s.poolQueue, 0, RequestAdmission);
    if c.AdmissionMax() == 0 {
      EmptyCompartmentHoldsNothing(s);
    }
    match head
    case LeafRequest(bytes, _) => UnitsMonotone(Min(bytes, c.LeafMax()), c.LeafMax());
    case AdmitRequest(_) =>
  }

  /** Steps that neither start a request nor release an admission. */
  predicate LeafOnly(s: State, step: Step) {
    match step
    case GateGrant => true
    case PoolCall(_) => true
    case PoolGrant => true
    case Drop(i) => i < |s.permits| && s.permits[i].kind.Leaf?
    case _ => false
  }

  ghost predicate LeafOnlyRun(s: State, steps: seq<Step>)
    decreases |steps|
  {
    steps == [] || (LeafOnly(s, steps[0]) && LeafOnlyRun(Next(s, steps[0]), steps[1..]))
  }

  ghost predicate Served(s: State) {
    s.gateQueue == [] && s.between == [] && s.poolQueue == []
  }

  ghost function Backlog(s: State): nat {
    3 * |s.gateQueue| + 2 * |s.between| + |s.poolQueue|
  }

  ghost function Leaves(s: State): nat { Sum(s.permits, LeafCount) }

  /** The next step of a schedule that serves every pending leaf. */
  lemma ServingStep(s: State) returns (step: Step)
    requires Inv(s) && s.config.Reserved() && !Served(s)
    ensures LeafOnly(s, step)
    ensures var t := Next(s, step);
            Backlog(t) < Backlog(s) || (Backlog(t) == Backlog(s) && Leaves(t) < Leaves(s))
  {
    if s.between != [] {
      step := PoolCall(0);
    } else if s.poolQueue != [] {
      if HeadGrantable(s) {
        step := PoolGrant;
      } else {
        if NoLeaf(s) {
          HeadNeedsOnlyLeaves(s);
        }
        var i :| 0 <= i < |s.permits| && s.permits[i].kind.Leaf?;
        step := Drop(i);
        DropKeepsInv(s, i);
        SumRemove(s.permits, i, LeafCount);
      }
    } else if s.gateFree > 0 {
      step := GateGrant;
    } else {
      var i := SumPositive(s.permits, PermitGate);
      assert s.permits[i] in s.permits;
      step := Drop(i);
      DropKeepsInv(s, i);
      SumRemove(s.permits, i, LeafCount);
    }
  }

  lemma {:induction false} ServeFrom(s: State) returns (steps: seq<Step>)
    requires Inv(s) && s.config.Reserved()
    ensures LeafOnlyRun(s, steps) && Served(Exec(s, steps))
    decreases Backlog(s), Leaves(s)
  {
    if Served(s) {
      steps := [];
    } else {
      var step := ServingStep(s);
      NextKeepsInv(s, step);
      var rest := ServeFrom(Next(s, step));
      steps := [step] + rest;
      assert steps[1..] == rest;
    }
  }

  /** No step of such a schedule releases an admission permit. */
  lemma {:induction false} LeafOnlyKeepsAdmissions(s: State, steps: seq<Step>, p: Permit)
    requires Inv(s) && LeafOnlyRun(s, steps) && p in s.permits && !p.kind.Leaf?
    ensures p in Exec(s, steps).permits
    decreases |steps|
  {
    if steps != [] {
      var step := steps[0];
      NextKeepsInv(s, step);
      if step.Drop? {
        DropKeepsInv(s, step.i);
        var k :| 0 <= k < |s.permits| && s.permits[k] == p;
        assert k != step.i;
        if k < step.i {
          assert Without(s.permits, step.i)[k] == p;
        } else {
          assert Without(s.permits, step.i)[k - 1] == p;
        }
      }
      LeafOnlyKeepsAdmissions(Next(s, step), steps[1..], p);
    }
  }

  /** In every run, a pool queue whose leaf holders have gone can serve its head. */
  ghost predicate LeafProgress(c: Config) {
    forall steps: seq<Step> ::
      var s := Exec(Init(c), steps);
      s.poolQueue != [] && NoLeaf(s) ==> HeadGrantable(s)
  }

  /** A full compartment, then one full leaf. */
  function FillThenLeaf(c: Config): seq<Step> {
    [AdmitCall(c.AdmissionMax()), PoolCall(0), AcquireCall(c.LeafMax()), PoolCall(0)]
  }

  lemma UnreservedLeafStarves(c: Config)
    requires !c.Reserved()
    ensures var s := Exec(Init(c), FillThenLeaf(c));
            && s.poolQueue == [LeafRequest(c.LeafMax(), false)]
            && NoLeaf(s) && !HeadGrantable(s)
  {
    var steps := FillThenLeaf(c);
    var adm, leaf := UnitsFor(c.AdmissionMax()), UnitsFor(c.LeafMax());
    UnitsMonotone(c.AdmissionMax(), c.total);
    var s0 := Init(c);
    var s1 := Next(s0, steps[0]);
    assert s1.between == [AdmitRequest(c.AdmissionMax())];
    var s2 := Next(s1, steps[1]);
    assert s2.between == [] && s2.poolFree == c.PoolUnits() - adm;
    assert s2.permits == [Permit(Admission, c.AdmissionMax(), adm, adm, false)];
    var s3 := Next(s2, steps[2]);
    assert s3.between == [LeafRequest(c.LeafMax(), false)];
    var s4 := Next(s3, steps[3]);
    assert Demand(c, s3.between[0]) == leaf > s3.poolFree;
    assert s4.poolQueue == [LeafRequest(c.LeafMax(), false)];
    assert steps[1..][1..][1..] == [steps[3]];
    assert steps[1..][1..] == [steps[2], steps[3]];
    assert steps[1..] == [steps[1], steps[2], steps[3]];
    assert Exec(s3, [steps[3]]) == s4;
    assert Exec(s2, [steps[2], steps[3]]) == s4;
    assert Exec(s1, [steps[1], steps[2], steps[3]]) == s4;
  }

  /**
   Leaf waiters depend only on other leaf holders exactly when the two shares,
   rounded up separately, still fit the rounded pool.
   */
  lemma LeafProgressIffReserved(c: Config)
    ensures LeafProgress(c) <==> c.Reserved()
  {
    if c.Reserved() {
      forall steps: seq<Step>
        ensures var s := Exec(Init(c), steps);
                s.poolQueue != [] && NoLeaf(s) ==> HeadGrantable(s)
      {
        RunsConserve(c, steps);
        var s := Exec(Init(c), steps);
        if s.poolQueue != [] && NoLeaf(s) {
          HeadNeedsOnlyLeaves(s);
        }
      }
    } else {
      UnreservedLeafStarves(c);
    }
  }

  /** A whole-KiB reserve inside the pool satisfies the condition. */
  lemma AlignedReserveSuffices(c: Config)
    requires 0 < c.leafReserve <= c.total && c.leafReserve % GRANULARITY == 0
    ensures c.Reserved()
  {
    assert c.leafReserve == GRANULARITY * (c.leafReserve / GRANULARITY);
  }

  /**
   From any state of any run, granting and dropping leaf permits alone serves
   every pending request past its first semaphore, with no admission released.
   */
  lemma PendingLeavesAlwaysServable(c: Config, steps: seq<Step>) returns (rest: seq<Step>)
    requires c.Reserved()
    ensures var s := Exec(Init(c), steps);
            && LeafOnlyRun(s, rest)
            && Served(Exec(s, rest))
            && (forall p :: p in s.permits && !p.kind.Leaf? ==> p in Exec(s, rest).permits)
  {
    RunsConserve(c, steps);
    var s := Exec(Init(c), steps);
    rest := ServeFrom(s);
    forall p | p in s.permits && !p.kind.Leaf?
      ensures p in Exec(s, rest).permits
    {
      LeafOnlyKeepsAdmissions(s, rest, p);
    }
  }

  // ------------------------------------------------------------------
  // Pools without a reserve: leaf-only
  // ------------------------------------------------------------------

  ghost predicate NoAdmitters(s: State) {
    && NoMetered(s.permits)
    && (forall r :: r in s.between ==> r.LeafRequest?)
    && (forall r :: r in s.poolQueue ==> r.LeafRequest?)
    && s.admissionQueue == []
  }

  ghost predicate NoMetered(ps: seq<Permit>) {
    forall p :: p in ps ==> !p.kind.Admission?
  }

  predicate LeafSide(step: Step) { !step.AdmitCall? && !step.TryAdmitCall? }

  lemma LeafStepHasNoAdmitters(s: State, step: Step)
    requires NoAdmitters(s) && LeafSide(step)
    ensures NoAdmitters(Next(s, step))
  {
    match step
    case PoolCall(i) =>
      if i < |s.between| {
        assert s.between[i] in s.between;
        MembersAfter(s.permits, Granted(s.config, s.between[i]));
        MembersAfter(s.poolQueue, s.between[i]);
      }
    case PoolGrant =>
      if s.poolQueue != [] {
        assert s.poolQueue[0] in s.poolQueue;
        MembersAfter(s.permits, Granted(s.config, s.poolQueue[0]));
        MembersAfter(s.poolQueue, s.poolQueue[0]);
      }
    case Shrink(i, bytes) => if i < |s.permits| { assert s.permits[i] in s.permits; }
    case _ =>
  }

  lemma {:induction false} LeafRunsHaveNoAdmitters(s: State, steps: seq<Step>)
    requires NoAdmitters(s)
    requires forall step :: step in steps ==> LeafSide(step)
    ensures NoAdmitters(Exec(s, steps))
    decreases |steps|
  {
    if steps != [] {
      assert steps[0] in steps;
      LeafStepHasNoAdmitters(s, steps[0]);
      LeafRunsHaveNoAdmitters(Next(s, steps[0]), steps[1..]);
    }
  }

  lemma {:induction false} NoPoolUnitsHeld(c: Config, ps: seq<Permit>)
    requires forall p :: p in ps ==> PermitOk(c, p) && p.kind.Unmetered?
    ensures Sum(ps, PermitUnits) == 0
  {
    SumZero(ps, PermitUnits);
  }

  /** `MemoryBudget::new`: a pool nobody admits through serves its leaves unconditionally. */
  lemma LeafOnlyPoolProgress(total: nat, steps: seq<Step>)
    requires forall step :: step in steps ==> LeafSide(step)
    ensures var s := Exec(Init(Config(total, 0)), steps);
            s.poolQueue != [] && NoLeaf(s) ==> HeadGrantable(s)
  {
    var c := Config(total, 0);
    var s := Exec(Init(c), steps);
    RunsConserve(c, steps);
    LeafRunsHaveNoAdmitters(Init(c), steps);
    if s.poolQueue != [] && NoLeaf(s) {
      var head := s.poolQueue[0];
      assert head in s.poolQueue;
      forall p | p in s.permits ensures p.kind.Unmetered? {
      }
      NoPoolUnitsHeld(c, s.permits);
      UnitsMonotone(Min(head.bytes, total), total);
    }
  }

  // ------------------------------------------------------------------
  // Order of service
  // ------------------------------------------------------------------

  /** While anyone waits for the pool, a request that needs units joins the end of the queue. */
  lemma NewcomerWaits(s: State, i: nat)
    requires i < |s.between| && s.poolQueue != [] && Demand(s.config, s.between[i]) > 0
    ensures Next(s, PoolCall(i)).poolQueue == s.poolQueue + [s.between[i]]
    ensures Next(s, PoolCall(i)).permits == s.permits && Next(s, PoolCall(i)).poolFree == s.poolFree
  {
  }

  /** While anyone waits for its compartment, an admission that needs units waits behind them, and `try_admit` gives up. */
  lemma AdmitterWaits(s: State, bytes: nat)
    requires s.admissionQueue != [] && 0 < bytes <= s.config.AdmissionMax()
    ensures Next(s, AdmitCall(bytes)).admissionQueue == s.admissionQueue + [bytes]
    ensures Next(s, TryAdmitCall(bytes)) == s
  {
  }

  /** One step leaves the pool queue alone, serves its head, or adds at its end. */
  lemma StepServesInOrder(s: State, step: Step) returns (k: nat, added: seq<Request>)
    ensures k <= |s.poolQueue| && Next(s, step).poolQueue == s.poolQueue[k..] + added
  {
    var t := Next(s, step);
    k, added := 0, [];
    assert s.poolQueue[0..] == s.poolQueue;
    if t.poolQueue != s.poolQueue {
      if step.PoolGrant? {
        k := 1;
        assert s.poolQueue[1..] + [] == s.poolQueue[1..];
      } else {
        added := [s.between[step.i]];
      }
    }
  }

  /** Taking off the front and adding at the end, twice. */
  lemma TakesCompose<T>(q: seq<T>, j: nat, more: seq<T>, k: nat, last: seq<T>) returns (n: nat, added: seq<T>)
    requires j <= |q| && k <= |q[j..] + more|
    ensures n <= |q| && (q[j..] + more)[k..] + last == q[n..] + added
  {
    if k <= |q| - j {
      n, added := j + k, more + last;
      assert (q[j..] + more)[k..] == q[j + k..] + more;
    } else {
      n, added := |q|, more[k - (|q| - j)..] + last;
      assert (q[j..] + more)[k..] == more[k - (|q| - j)..];
      assert q[n..] == [];
    }
  }

  /** Nobody overtakes in the pool queue: any run takes a prefix off its front and adds at its end. */
  lemma {:induction false} PoolServesInOrder(s: State, steps: seq<Step>) returns (k: nat, added: seq<Request>)
    ensures k <= |s.poolQueue| && Exec(s, steps).poolQueue == s.poolQueue[k..] + added
    decreases |steps|
  {
    if steps == [] {
      k, added := 0, [];
      assert s.poolQueue[0..] + [] == s.poolQueue;
    } else {
      var j, more := StepServesInOrder(s, steps[0]);
      var i, last := PoolServesInOrder(Next(s, steps[0]), steps[1..]);
      k, added := TakesCompose(s.poolQueue, j, more, i, last);
    }
  }
}
