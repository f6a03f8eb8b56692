/**
 The budget's own objects. Every method is one step of the machine in `Budget`,
 so what that machine proves about runs holds of any sequence of these calls.
 */
module BudgetPool {
  import opened Basics
  import opened Sums
  import opened Budget

  class MemoryPermit {
    ghost const kind: Kind
    var bytes: nat
    var units: nat
    var admissionUnits: nat
    var bigLeaf: bool

    ghost function View(): Permit
      reads this
    {
      Permit(kind, bytes, units, admissionUnits, bigLeaf)
    }

    constructor (ghost kind: Kind, bytes: nat, units: nat, admissionUnits: nat)
      ensures View() == Permit(kind, bytes, units, admissionUnits, false)
    {
      this.kind := kind;
      this.bytes := bytes;
      this.units := units;
      this.admissionUnits := admissionUnits;
      this.bigLeaf := false;
    }

    /** Lower the permit's own fields, returning what goes back to each semaphore. */
    method Lower(bytes: nat, c: Config) returns (freed: nat, freedAdmission: nat, freedGate: nat)
      requires bytes < this.bytes
      modifies this
      ensures View() == Shrunk(c, old(View()), bytes)
      ensures freed == old(units) - units
      ensures freedAdmission == old(admissionUnits) - admissionUnits
      ensures freedGate == PermitGate(old(View())) - PermitGate(View())
    {
      var newUnits := Min(UnitsFor(bytes), units);
      freed, freedAdmission, freedGate := units - newUnits, 0, 0;
      if freed > 0 {
        freedAdmission := Min(freed, admissionUnits);
        if freedAdmission > 0 {
          admissionUnits := admissionUnits - freedAdmission;
        }
        units := newUnits;
      }
      this.bytes := bytes;
      if bigLeaf && bytes <= c.LeafMax() {
        bigLeaf := false;
        freedGate := 1;
      }
    }
  }

  ghost function Views(live: seq<MemoryPermit>): (r: seq<Permit>)
    reads live
    ensures |r| == |live|
    ensures forall i :: 0 <= i < |live| ==> r[i] == live[i].View()
  {
    seq(|live|, i requires 0 <= i < |live| reads live => live[i].View())
  }

  lemma WithoutViews(live: seq<MemoryPermit>, i: nat)
    requires i < |live| && Distinct(live)
    ensures Views(Without(live, i)) == Without(Views(live), i)
    ensures Distinct(Without(live, i))
  {
    var rest := Without(live, i);
    assert forall k :: 0 <= k < |rest| ==> rest[k] == live[if k < i then k else k + 1];
    assert forall k :: 0 <= k < |rest| ==> Without(Views(live), i)[k] == Views(live)[if k < i then k else k + 1];
  }

  class MemoryBudget {
    const config: Config
    const admissionMax: nat
    const leafMax: nat
    var sem: nat
    var admission: nat
    var gate: nat
    var gateQueue: seq<nat>
    var admissionQueue: seq<nat>
    var between: seq<Request>
    var poolQueue: seq<Request>
    var cur: nat
    ghost var live: seq<MemoryPermit>

    ghost function View(): State
      reads this, live
    {
      State(config, sem, admission, gate, gateQueue, admissionQueue, between, poolQueue, Views(live), cur)
    }

    ghost predicate Valid()
      reads this, live
    {
      && admissionMax == config.AdmissionMax()
      && leafMax == config.LeafMax()
      && Distinct(live)
      && Inv(View())
    }

    constructor (total: nat, leafReserve: nat)
      ensures Valid() && View() == Init(Config(total, leafReserve))
    {
      config := Config(total, leafReserve);
      admissionMax := if leafReserve < total then total - leafReserve else 0;
      leafMax := if leafReserve == 0 then total else leafReserve;
      sem := AtLeastOne(UnitsFor(total));
      admission := AtLeastOne(UnitsFor(if leafReserve < total then total - leafReserve else 0));
      gate := 1;
      gateQueue, admissionQueue, between, poolQueue := [], [], [], [];
      cur := 0;
      live := [];
    }

    /** Account a granted permit. */
    method NewPermit(ghost kind: Kind, bytes: nat, units: nat, admissionUnits: nat) returns (p: MemoryPermit)
      requires Distinct(live)
      modifies this`cur, this`live
      ensures fresh(p) && live == old(live) + [p] && Distinct(live)
      ensures View() == AddPermit(old(View()), Permit(kind, bytes, units, admissionUnits, false))
    {
      cur := cur + bytes;
      p := new MemoryPermit(kind, bytes, units, admissionUnits);
      live := live + [p];
      assert Views(live) == old(Views(live)) + [p.View()];
    }

    ghost predicate Configured()
      reads this
    {
      admissionMax == config.AdmissionMax() && leafMax == config.LeafMax()
    }

    method AcquireHeld(bytes: nat)
      requires Configured()
      modifies this`gate, this`gateQueue, this`between
      ensures View() == AcquireStep(old(View()), bytes)
    {
      var metered := Min(bytes, leafMax);
      if metered < bytes {
        if gateQueue == [] && gate >= 1 {
          gate := gate - 1;
          between := between + [LeafRequest(bytes, true)];
        } else {
          gateQueue := gateQueue + [bytes];
        }
      } else {
        between := between + [LeafRequest(bytes, false)];
      }
    }

    /** `acquire` up to its first wait. */
    method Acquire(bytes: nat)
      requires Valid()
      modifies this
      ensures Valid() && live == old(live)
      ensures View() == Next(old(View()), AcquireCall(bytes))
    {
      NextKeepsInv(View(), AcquireCall(bytes));
      AcquireHeld(bytes);
    }

    method AdmitHeld(bytes: nat) returns (p: MemoryPermit?)
      requires Configured() && Distinct(live)
      modifies this`admission, this`admissionQueue, this`between, this`cur, this`live
      ensures Distinct(live)
      ensures p != null <==> bytes > admissionMax
      ensures View() == AdmitStep(old(View()), bytes)
    {
      if bytes > admissionMax {
        p := NewPermit(Unmetered, bytes, 0, 0);
        return;
      }
      p := null;
      var units := UnitsFor(bytes);
      if units <= admission && (units == 0 || admissionQueue == []) {
        admission := admission - units;
        between := between + [AdmitRequest(bytes)];
      } else {
        admissionQueue := admissionQueue + [bytes];
      }
    }

    /** `admit` up to its first wait; a compartment-sized request passes unmetered. */
    method Admit(bytes: nat) returns (p: MemoryPermit?)
      requires Valid()
      modifies this
      ensures Valid()
      ensures p != null <==> bytes > admissionMax
      ensures View() == Next(old(View()), AdmitCall(bytes))
    {
      NextKeepsInv(View(), AdmitCall(bytes));
      p := AdmitHeld(bytes);
    }

    method TryAdmitHeld(bytes: nat) returns (p: MemoryPermit?)
      requires Configured() && Distinct(live)
      modifies this`sem, this`admission, this`cur, this`live
      ensures Distinct(live)
      ensures p == null <==> bytes <= admissionMax && !TryAdmitFits(old(View()), bytes)
      ensures View() == TryAdmitStep(old(View()), bytes)
    {
      if bytes > admissionMax {
        p := NewPermit(Unmetered, bytes, 0, 0);
        return;
      }
      var units := UnitsFor(bytes);
      if !(units <= admission && (units == 0 || admissionQueue == [])) {
        return null;
      }
      admission := admission - units;
      if !(units <= sem && (units == 0 || poolQueue == [])) {
        admission := admission + units;
        return null;
      }
      sem := sem - units;
      p := NewPermit(Admission, bytes, units, units);
    }

    /** `try_admit`: the compartment's units go back when the pool is short. */
    method TryAdmit(bytes: nat) returns (p: MemoryPermit?)
      requires Valid()
      modifies this
      ensures Valid()
      ensures p == null <==> bytes <= admissionMax && !TryAdmitFits(old(View()), bytes)
      ensures View() == Next(old(View()), TryAdmitCall(bytes))
    {
      NextKeepsInv(View(), TryAdmitCall(bytes));
      p := TryAdmitHeld(bytes);
    }

    /** The pool's units are there: the request becomes a permit. */
    method GrantHeld(r: Request) returns (p: MemoryPermit)
      requires Distinct(live) && Demand(config, r) <= sem
      modifies this`sem, this`cur, this`live
      ensures Distinct(live)
      ensures var s := old(View());
              View() == AddPermit(s.(poolFree := s.poolFree - Demand(config, r)), Granted(config, r))
    {
      var units := Demand(config, r);
      sem := sem - units;
      p := NewPermit(if r.LeafRequest? then Leaf else Admission, r.bytes, units, if r.LeafRequest? then 0 else units);
      if r.LeafRequest? && r.big {
        p.bigLeaf := true;
      }
      assert Views(live) == old(Views(live)) + [p.View()];
    }

    /** A large value's turn comes. */
    method GateGranted()
      requires Valid()
      modifies this
      ensures Valid() && live == old(live)
      ensures View() == Next(old(View()), GateGrant)
    {
      NextKeepsInv(View(), GateGrant);
      if gateQueue == [] || gate == 0 { return; }
      gate := gate - 1;
      between := between + [LeafRequest(gateQueue[0], true)];
      gateQueue := gateQueue[1..];
    }

    /** The compartment serves the admission that has waited longest. */
    method AdmissionGranted()
      requires Valid()
      modifies this
      ensures Valid() && live == old(live)
      ensures View() == Next(old(View()), AdmissionGrant)
    {
      NextKeepsInv(View(), AdmissionGrant);
      if admissionQueue == [] || UnitsFor(admissionQueue[0]) > admission { return; }
      admission := admission - UnitsFor(admissionQueue[0]);
      between := between + [AdmitRequest(admissionQueue[0])];
      admissionQueue := admissionQueue[1..];
    }

    method AskPoolHeld(i: nat) returns (p: MemoryPermit?)
      requires Distinct(live) && i < |between|
      modifies this`sem, this`between, this`poolQueue, this`cur, this`live
      ensures Distinct(live)
      ensures var s := old(View()); View() == PoolStep(s.(between := Without(s.between, i)), s.between[i])
    {
      var r := between[i];
      between := between[..i] + between[i + 1..];
      var units := Demand(config, r);
      p := null;
      if units <= sem && (units == 0 || poolQueue == []) {
        p := GrantHeld(r);
      } else {
        poolQueue := poolQueue + [r];
      }
    }

    /** A request past its first semaphore asks the pool: served at once, or behind everyone there. */
    method AskPool(i: nat) returns (p: MemoryPermit?)
      requires Valid() && i < |between|
      modifies this
      ensures Valid() && View() == Next(old(View()), PoolCall(i))
    {
      NextKeepsInv(View(), PoolCall(i));
      p := AskPoolHeld(i);
    }

    method PoolGrantedHeld() returns (p: MemoryPermit)
      requires Distinct(live) && poolQueue != [] && Demand(config, poolQueue[0]) <= sem
      modifies this`sem, this`poolQueue, this`cur, this`live
      ensures Distinct(live) && View() == Next(old(View()), PoolGrant)
    {
      var r := poolQueue[0];
      poolQueue := poolQueue[1..];
      p := GrantHeld(r);
    }

    /** The pool serves the request that has waited longest, once its units are there. */
    method PoolGranted() returns (p: MemoryPermit?)
      requires Valid()
      modifies this
      ensures Valid() && View() == Next(old(View()), PoolGrant)
      ensures p != null <==> old(poolQueue) != [] && Demand(config, old(poolQueue)[0]) <= old(sem)
    {
      NextKeepsInv(View(), PoolGrant);
      if poolQueue == [] || Demand(config, poolQueue[0]) > sem { return null; }
      p := PoolGrantedHeld();
    }

    /** Keep only what survives into the owning value. */
    method ShrinkHeld(p: MemoryPermit, bytes: nat, ghost i: nat)
      requires Distinct(live) && i < |live| && live[i] == p && p.bytes <= cur
      modifies this`sem, this`admission, this`gate, this`cur, p
      ensures View() == ShrinkStep(old(View()), i, bytes)
    {
      ghost var before := Views(live);
      if bytes >= p.bytes {
        assert before[i := before[i]] == before;
        return;
      }
      var wasBytes := p.bytes;
      var freed, freedAdmission, freedGate := p.Lower(bytes, config);
      sem := sem + freed;
      admission := admission + freedAdmission;
      gate := gate + freedGate;
      cur := cur - (wasBytes - bytes);
      assert Views(live) == before[i := p.View()];
    }

    method Shrink(p: MemoryPermit, bytes: nat, ghost i: nat)
      requires Valid() && i < |live| && live[i] == p
      modifies this`sem, this`admission, this`gate, this`cur, p
      ensures Valid()
      ensures View() == Next(old(View()), Step.Shrink(i, bytes))
    {
      HeldWithinCur(i);
      NextKeepsInv(View(), Step.Shrink(i, bytes));
      ShrinkHeld(p, bytes, i);
    }

    lemma HeldWithinCur(i: nat)
      requires Inv(View()) && i < |live|
      ensures live[i].bytes <= cur
    {
      SumAtLeast(Views(live), i, PermitBytes);
      assert PermitBytes(Views(live)[i]) == live[i].bytes;
    }

    /** Hand back to the semaphores, skipping the ones that get nothing. */
    method Return(bytes: nat, units: nat, admissionUnits: nat, big: bool)
      requires bytes <= cur
      modifies this`sem, this`admission, this`gate, this`cur
      ensures cur == old(cur) - bytes && sem == old(sem) + units
      ensures admission == old(admission) + admissionUnits
      ensures gate == old(gate) + (if big then 1 else 0)
    {
      cur := cur - bytes;
      sem := sem + units;
      if admissionUnits > 0 {
        admission := admission + admissionUnits;
      }
      if big {
        gate := gate + 1;
      }
    }

    /** Release everything the permit holds. */
    method DropHeld(p: MemoryPermit, ghost i: nat)
      requires Distinct(live) && i < |live| && live[i] == p && p.bytes <= cur
      modifies this`sem, this`admission, this`gate, this`cur, this`live
      ensures Distinct(live) && live == Without(old(live), i)
      ensures View() == DropStep(old(View()), i)
    {
      WithoutViews(live, i);
      assert Views(live)[i] == p.View();
      Return(p.bytes, p.units, p.admissionUnits, p.bigLeaf);
      live := Without(live, i);
    }

    method Drop(p: MemoryPermit, ghost i: nat)
      requires Valid() && i < |live| && live[i] == p
      modifies this`sem, this`admission, this`gate, this`cur, this`live
      ensures Valid() && live == Without(old(live), i)
      ensures View() == Next(old(View()), Step.Drop(i))
    {
      HeldWithinCur(i);
      NextKeepsInv(View(), Step.Drop(i));
      DropHeld(p, i);
    }
  }
}
