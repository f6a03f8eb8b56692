/**
 The worker's serve loop: a fixed table of connections, a wait set built from it and
 reused until membership changes, and one request served per round from the positions
 the wait reported.
 */
module WaitSet {
  import opened Basics

  type Fd = nat

  const MAX_CONNS: nat := 8
  const POS_LATCH: nat := 0
  // Position 1 is the postmaster's death, on which the wait does not return
  const POS_LISTEN: nat := 2
  const POS_CONN0: nat := 3
  const GEN_MOD: nat := 0x1_0000_0000_0000_0000

  /** What accept(2) and the set-up of the new socket came to. */
  datatype Arrival = NoSocket | Arrived(fd: Fd, nonblocking: bool)

  /**
   `table`: connections in use, in order. `cached`: descriptors behind the cached wait
   set's connection positions. `accepted`, `closed`: every descriptor ever accepted, and
   ever closed.
   */
  datatype State = State(table: seq<Fd>, gen: nat, cached: Option<seq<Fd>>, cachedGen: nat,
                         accepted: multiset<Fd>, closed: multiset<Fd>)

  const Init := State([], 0, None, 0, multiset{}, multiset{})

  function Bump(gen: nat): nat { (gen + 1) % GEN_MOD }

  function Accept(s: State, a: Arrival): State {
    match a
    case NoSocket => s
    case Arrived(fd, nonblocking) =>
      var o := s.(accepted := s.accepted + multiset{fd});
      if |s.table| >= MAX_CONNS || !nonblocking then o.(closed := s.closed + multiset{fd})
      else o.(table := s.table + [fd], gen := Bump(s.gen))
  }

  /** The last connection takes the dropped one's place. */
  function Drop(s: State, i: nat): State
    requires i < |s.table|
  {
    s.(table := SwapRemove(s.table, i), gen := Bump(s.gen), closed := s.closed + multiset{s.table[i]})
  }

  function Refresh(s: State): State {
    if s.cached.None? || s.cachedGen != s.gen then s.(cached := Some(s.table), cachedGen := s.gen) else s
  }

  datatype Scan = Scan(state: State, serve: int)

  /** Walk the reported events: accept on the listener, remember the first connection position. */
  function Events(s: State, events: seq<nat>, arrivals: seq<Arrival>, serve: int): Scan
    requires |arrivals| == |events|
    decreases |events|
  {
    if events == [] then Scan(s, serve)
    else
      var t := if events[0] == POS_LISTEN then Accept(s, arrivals[0]) else s;
      var pick := if events[0] == POS_LATCH || events[0] == POS_LISTEN || serve >= 0 then serve
          else events[0] - POS_CONN0;
      Events(t, events[1..], arrivals[1..], pick)
  }

  /** The connection at the picked index. */
  function Picked(scan: Scan): Option<Fd> {
    if 0 <= scan.serve < |scan.state.table| then Some(scan.state.table[scan.serve]) else None
  }

  /** A request that fails costs its connection. */
  function Settled(scan: Scan, requestOk: bool): State {
    if 0 <= scan.serve < |scan.state.table| && !requestOk then Drop(scan.state, scan.serve) else scan.state
  }

  /** One turn: the connection served, if any, and the state after it. */
  function Walk(s: State, events: seq<nat>, arrivals: seq<Arrival>): Scan
    requires |arrivals| == |events|
  {
    Events(Refresh(s), events, arrivals, -1)
  }

  function Round(s: State, events: seq<nat>, arrivals: seq<Arrival>, requestOk: bool): State
    requires |arrivals| == |events|
  {
    Settled(Walk(s, events, arrivals), requestOk)
  }

  // ------------------------------------------------------------------
  // Invariant
  // ------------------------------------------------------------------

  /** The cached set is current whenever its generation is; every descriptor is in the table once, or closed. */
  ghost predicate Inv(s: State) {
    && |s.table| <= MAX_CONNS && s.gen < GEN_MOD && s.cachedGen < GEN_MOD
    && (s.cached.Some? && s.cachedGen == s.gen ==> s.cached.value == s.table)
    && Distinct(s.table)
    && s.accepted == multiset(s.table) + s.closed
  }

  /** The kernel never hands out a descriptor that is still open. */
  predicate FreshArrivals(s: State, events: seq<nat>, arrivals: seq<Arrival>)
    requires |arrivals| == |events|
    decreases |events|
  {
    events == [] ||
    (&& (events[0] == POS_LISTEN && arrivals[0].Arrived? ==> arrivals[0].fd !in s.table)
     && FreshArrivals(if events[0] == POS_LISTEN then Accept(s, arrivals[0]) else s, events[1..], arrivals[1..]))
  }

  /** A wait reports each position at most once, and none beyond the set. */
  predicate Reported(s: State, events: seq<nat>) {
    && (forall i, j :: 0 <= i < j < |events| ==> events[i] != events[j])
    && (forall i :: 0 <= i < |events| ==> events[i] < |s.table| + POS_CONN0)
  }

  lemma RefreshNames(s: State)
    requires Inv(s)
    ensures Inv(Refresh(s)) && Refresh(s).cached == Some(s.table) && Refresh(s).table == s.table
              && Refresh(s).cachedGen == s.gen
  {
  }

  /** While events are walked the table only grows at its end, by at most the one accept a round has. */
  ghost predicate Grown(from: State, s: State) {
    && |from.table| <= |s.table| <= MAX_CONNS && s.table[..|from.table|] == from.table
    && Distinct(s.table) && s.accepted == multiset(s.table) + s.closed
    && s.cached == from.cached && s.cachedGen == from.cachedGen
  }

  lemma AcceptGrows(from: State, s: State, a: Arrival)
    requires Grown(from, s) && (a.Arrived? ==> a.fd !in s.table)
    ensures Grown(from, Accept(s, a))
  {
    if a.Arrived? {
      assert multiset(s.table + [a.fd]) == multiset(s.table) + multiset{a.fd};
      assert s.accepted + multiset{a.fd} == multiset(s.table) + (s.closed + multiset{a.fd});
    }
  }

  lemma {:induction false} EventsGrow(from: State, s: State, events: seq<nat>, arrivals: seq<Arrival>, serve: int)
    requires |arrivals| == |events| && Grown(from, s) && FreshArrivals(s, events, arrivals)
    requires forall i :: 0 <= i < |events| ==> events[i] < |from.table| + POS_CONN0
    requires serve < |from.table|
    ensures Grown(from, Events(s, events, arrivals, serve).state)
    ensures Events(s, events, arrivals, serve).serve < |from.table|
    decreases |events|
  {
    if events != [] {
      var t := if events[0] == POS_LISTEN then Accept(s, arrivals[0]) else s;
      if events[0] == POS_LISTEN { AcceptGrows(from, s, arrivals[0]); }
      var pick := if events[0] == POS_LATCH || events[0] == POS_LISTEN || serve >= 0 then serve
          else events[0] - POS_CONN0;
      EventsGrow(from, t, events[1..], arrivals[1..], pick);
    }
  }

  /** Generations after the walk: unchanged with the table, one step on when a connection joined. */
  lemma {:induction false} EventsGen(s: State, events: seq<nat>, arrivals: seq<Arrival>, serve: int)
    requires |arrivals| == |events|
    requires forall i, j :: 0 <= i < j < |events| ==> events[i] != events[j]
    ensures var t := Events(s, events, arrivals, serve).state;
            (t.table == s.table && t.gen == s.gen) || (|t.table| == |s.table| + 1 && t.gen == Bump(s.gen))
    decreases |events|
  {
    if events != [] {
      assert events[1..] == events[1..];
      if events[0] == POS_LISTEN {
        EventsQuiet(Accept(s, arrivals[0]), events[1..], arrivals[1..], serve);
      } else {
        var pick := if events[0] == POS_LATCH || serve >= 0 then serve else events[0] - POS_CONN0;
        EventsGen(s, events[1..], arrivals[1..], pick);
      }
    }
  }

  lemma {:induction false} EventsQuiet(s: State, events: seq<nat>, arrivals: seq<Arrival>, serve: int)
    requires |arrivals| == |events| && POS_LISTEN !in events
    ensures Events(s, events, arrivals, serve).state == s
    decreases |events|
  {
    if events != [] {
      assert events[0] in events;
      var pick := if events[0] == POS_LATCH || serve >= 0 then serve else events[0] - POS_CONN0;
      EventsQuiet(s, events[1..], arrivals[1..], pick);
    }
  }

  /** The first connection position among the events, from `serve` on. */
  lemma {:induction false} EventsPick(s: State, events: seq<nat>, arrivals: seq<Arrival>, serve: int)
    requires |arrivals| == |events| && serve < 0
    ensures var pick := Events(s, events, arrivals, serve).serve; pick >= 0 ==> pick + POS_CONN0 in events
    decreases |events|
  {
    if events != [] {
      var t := if events[0] == POS_LISTEN then Accept(s, arrivals[0]) else s;
      var pick := if events[0] == POS_LATCH || events[0] == POS_LISTEN then serve else events[0] - POS_CONN0;
      if pick >= 0 {
        EventsSettled(t, events[1..], arrivals[1..], pick);
      } else {
        EventsPick(t, events[1..], arrivals[1..], pick);
      }
    }
  }

  lemma {:induction false} EventsSettled(s: State, events: seq<nat>, arrivals: seq<Arrival>, serve: int)
    requires |arrivals| == |events| && serve >= 0
    ensures Events(s, events, arrivals, serve).serve == serve
    decreases |events|
  {
    if events != [] {
      EventsSettled(if events[0] == POS_LISTEN then Accept(s, arrivals[0]) else s, events[1..], arrivals[1..], serve);
    }
  }

  function SwapRemove(t: seq<Fd>, i: nat): seq<Fd>
    requires i < |t|
  {
    t[i := t[|t| - 1]][..|t| - 1]
  }

  lemma SwapRemoveTakesOne(t: seq<Fd>, i: nat)
    requires i < |t|
    ensures multiset(SwapRemove(t, i)) + multiset{t[i]} == multiset(t)
  {
    var n := |t| - 1;
    if i == n {
      assert SwapRemove(t, i) == t[..n] && t == t[..n] + [t[n]];
    } else {
      var a, b := t[..i], t[i + 1..n];
      assert t == a + [t[i]] + b + [t[n]];
      assert SwapRemove(t, i) == a + [t[n]] + b;
      FourPieces(a, t[i], b, t[n]);
    }
  }

  lemma FourPieces(a: seq<Fd>, x: Fd, b: seq<Fd>, y: Fd)
    ensures multiset(a + [x] + b + [y]) == multiset(a) + multiset(b) + multiset{x, y}
    ensures multiset(a + [y] + b) == multiset(a) + multiset(b) + multiset{y}
  {
  }

  lemma SwapRemoveStaysDistinct(t: seq<Fd>, i: nat)
    requires i < |t| && Distinct(t)
    ensures Distinct(SwapRemove(t, i))
  {
  }

  lemma DropAccounts(s: State, i: nat)
    requires i < |s.table| && Distinct(s.table) && s.accepted == multiset(s.table) + s.closed
    ensures var t := Drop(s, i);
            Distinct(t.table) && t.accepted == multiset(t.table) + t.closed && |t.table| == |s.table| - 1
  {
    SwapRemoveTakesOne(s.table, i);
    SwapRemoveStaysDistinct(s.table, i);
    assert Drop(s, i).table == SwapRemove(s.table, i);
  }

  lemma BumpDiffers(gen: nat)
    requires gen < GEN_MOD
    ensures Bump(gen) < GEN_MOD && Bump(gen) != gen && Bump(Bump(gen)) != gen && Bump(Bump(gen)) < GEN_MOD
  {
  }

  /** After the walk and the drop, either nothing changed or the generation did. */
  lemma RoundKeepsInv(r: State, scan: Scan, requestOk: bool)
    requires Inv(r) && r.cached == Some(r.table) && r.cachedGen == r.gen && Grown(r, scan.state)
    requires (scan.state.table == r.table && scan.state.gen == r.gen)
             || (|scan.state.table| == |r.table| + 1 && scan.state.gen == Bump(r.gen))
    ensures Inv(Settled(scan, requestOk))
  {
    BumpDiffers(r.gen);
    if 0 <= scan.serve < |scan.state.table| && !requestOk {
      DropAccounts(scan.state, scan.serve);
    }
  }

  /** The walk's outcome: the table grown at its end, and a pick the wait reported. */
  lemma WalkOutcome(s: State, events: seq<nat>, arrivals: seq<Arrival>)
    requires |arrivals| == |events| && Inv(s) && Reported(s, events) && FreshArrivals(Refresh(s), events, arrivals)
    ensures var scan := Walk(s, events, arrivals);
            && Grown(Refresh(s), scan.state) && scan.serve < |s.table|
            && (scan.serve >= 0 ==> scan.serve + POS_CONN0 in events)
            && (scan.serve >= 0 ==> scan.state.table[scan.serve] == s.table[scan.serve])
  {
    var r := Refresh(s);
    RefreshNames(s);
    assert r.table[..|r.table|] == r.table;
    EventsGrow(r, r, events, arrivals, -1);
    EventsPick(r, events, arrivals, -1);
    var scan := Events(r, events, arrivals, -1);
    if scan.serve >= 0 {
      assert scan.state.table[..|r.table|][scan.serve] == r.table[scan.serve];
    }
  }

  /** After any round a changed membership has left a generation the cached set does not have. */
  lemma RoundStaysValid(s: State, events: seq<nat>, arrivals: seq<Arrival>, requestOk: bool)
    requires |arrivals| == |events| && Inv(s) && Reported(s, events) && FreshArrivals(Refresh(s), events, arrivals)
    ensures Inv(Round(s, events, arrivals, requestOk))
  {
    var r := Refresh(s);
    RefreshNames(s);
    WalkOutcome(s, events, arrivals);
    EventsGen(r, events, arrivals, -1);
    RoundKeepsInv(r, Events(r, events, arrivals, -1), requestOk);
  }

  /** The descriptor the set named at a position the wait reported. */
  ghost predicate NamedBy(s: State, events: seq<nat>, fd: Fd) {
    exists p: nat :: p in events && POS_CONN0 <= p && p - POS_CONN0 < |s.table| && fd == s.table[p - POS_CONN0]
  }

  predicate SomeConn(events: seq<nat>) { exists p :: p in events && p >= POS_CONN0 }

  /**
   Whatever a round accepts on the way, the connection it serves is the one the set
   named at a reported position, and it serves one whenever one was reported.
   */
  lemma RoundServesTheReported(s: State, events: seq<nat>, arrivals: seq<Arrival>)
    requires |arrivals| == |events| && Inv(s) && Reported(s, events) && FreshArrivals(Refresh(s), events, arrivals)
    ensures Picked(Walk(s, events, arrivals)).Some? <==> SomeConn(events)
    ensures Picked(Walk(s, events, arrivals)).Some? ==> NamedBy(s, events, Picked(Walk(s, events, arrivals)).value)
  {
    WalkOutcome(s, events, arrivals);
    var scan := Walk(s, events, arrivals);
    if Picked(scan).Some? {
      var p: nat := scan.serve + POS_CONN0;
      assert p in events && p - POS_CONN0 == scan.serve;
    }
    if p :| p in events && p >= POS_CONN0 {
      SomePick(Refresh(s), events, arrivals, -1, p);
    }
  }

  lemma {:induction false} SomePick(s: State, events: seq<nat>, arrivals: seq<Arrival>, serve: int, p: nat)
    requires |arrivals| == |events| && p in events && p >= POS_CONN0
    ensures Events(s, events, arrivals, serve).serve >= 0
    decreases |events|
  {
    var t := if events[0] == POS_LISTEN then Accept(s, arrivals[0]) else s;
    var pick := if events[0] == POS_LATCH || events[0] == POS_LISTEN || serve >= 0 then serve
        else events[0] - POS_CONN0;
    if pick >= 0 {
      EventsSettled(t, events[1..], arrivals[1..], pick);
    } else {
      assert p in events[1..];
      SomePick(t, events[1..], arrivals[1..], pick, p);
    }
  }

  // ------------------------------------------------------------------
  // Runs
  // ------------------------------------------------------------------

  /** One turn of the loop as the kernel and the client answer it. */
  datatype Turn = Turn(events: seq<nat>, arrivals: seq<Arrival>, requestOk: bool)

  predicate TurnOk(s: State, t: Turn) {
    |t.arrivals| == |t.events| && Reported(s, t.events) && FreshArrivals(Refresh(s), t.events, t.arrivals)
  }

  function After(s: State, t: Turn): State
    requires |t.arrivals| == |t.events|
  {
    Round(s, t.events, t.arrivals, t.requestOk)
  }

  ghost predicate RunOk(s: State, turns: seq<Turn>)
    decreases |turns|
  {
    turns == [] || (TurnOk(s, turns[0]) && RunOk(After(s, turns[0]), turns[1..]))
  }

  ghost function Exec(s: State, turns: seq<Turn>): State
    requires RunOk(s, turns)
    decreases |turns|
  {
    if turns == [] then s else Exec(After(s, turns[0]), turns[1..])
  }

  /**
   At every wait of every run the set's connection positions name the table, each open
   descriptor is in it once, every other accepted one is closed, and the cap holds.
   */
  lemma {:induction false} RunsStayConsistent(s: State, turns: seq<Turn>)
    requires Inv(s) && RunOk(s, turns)
    ensures var t := Exec(s, turns);
            && Inv(t) && Refresh(t).cached == Some(t.table) && |t.table| <= MAX_CONNS
            && Distinct(t.table) && t.accepted == multiset(t.table) + t.closed
    decreases |turns|
  {
    if turns == [] {
      RefreshNames(s);
    } else {
      RoundStaysValid(s, turns[0].events, turns[0].arrivals, turns[0].requestOk);
      RunsStayConsistent(After(s, turns[0]), turns[1..]);
    }
  }

  /**
   Why the set is keyed on the generation: an accept and a drop in one round keep the count and change the
   members.
   */
  lemma CountWouldMissAChange(s: State, fd: Fd, i: nat)
    requires Inv(s) && 0 < |s.table| < MAX_CONNS && i < |s.table| && fd !in s.table
    ensures var t := Drop(Accept(s, Arrived(fd, true)), i);
            |t.table| == |s.table| && t.table != s.table && t.gen != s.gen
  {
    BumpDiffers(s.gen);
    var t := Drop(Accept(s, Arrived(fd, true)), i);
    assert t.table[i] == fd;
  }

  // ------------------------------------------------------------------
  // The worker
  // ------------------------------------------------------------------

  class Worker {
    const conns: array<Fd>
    var nconns: nat
    var gen: nat
    var cached: Option<seq<Fd>>
    var cachedGen: nat
    var accepted: multiset<Fd>
    var closed: multiset<Fd>

    ghost predicate Valid()
      reads this, conns
    {
      conns.Length == MAX_CONNS && nconns <= MAX_CONNS
    }

    ghost function View(): State
      requires Valid()
      reads this, conns
    {
      State(conns[..nconns], gen, cached, cachedGen, accepted, closed)
    }

    constructor ()
      ensures Valid() && fresh(conns) && View() == Init
    {
      conns := new Fd[MAX_CONNS];
      nconns, gen, cached, cachedGen := 0, 0, None, 0;
      accepted, closed := multiset{}, multiset{};
    }

    method Join(fd: Fd)
      requires Valid() && nconns < MAX_CONNS
      modifies `nconns, `gen, conns
      ensures Valid() && conns[..nconns] == old(conns[..nconns]) + [fd] && gen == Bump(old(gen))
    {
      conns[nconns] := fd;
      nconns := nconns + 1;
      gen := (gen + 1) % GEN_MOD;
    }

    method AcceptConn(a: Arrival)
      requires Valid()
      modifies this, conns
      ensures Valid() && View() == Accept(old(View()), a)
    {
      if a.NoSocket? { return; }
      accepted := accepted + multiset{a.fd};
      if nconns >= MAX_CONNS || !a.nonblocking {
        closed := closed + multiset{a.fd};
        return;
      }
      Join(a.fd);
    }

    method DropConn(i: nat)
      requires Valid() && i < nconns
      modifies this, conns
      ensures Valid() && View() == Drop(old(View()), i)
    {
      ghost var t := conns[..nconns];
      closed := closed + multiset{conns[i]};
      nconns := nconns - 1;
      conns[i] := conns[nconns];
      gen := (gen + 1) % GEN_MOD;
      assert conns[..nconns] == SwapRemove(t, i);
    }

    method BuildWaitSet()
      requires Valid()
      modifies `cached, `cachedGen
      ensures Valid() && View() == Refresh(old(View()))
    {
      if cached.None? || cachedGen != gen {
        var fds: seq<Fd> := [];
        for i := 0 to nconns
          invariant fds == conns[..i]
        {
          fds := fds + [conns[i]];
        }
        cached, cachedGen := Some(fds), gen;
      }
    }

    method WalkEvents(events: seq<nat>, arrivals: seq<Arrival>) returns (serve: int)
      requires Valid() && |arrivals| == |events|
      modifies this, conns
      ensures Valid() && Scan(View(), serve) == Events(old(View()), events, arrivals, -1)
    {
      serve := -1;
      for i := 0 to |events|
        invariant Valid() && Events(View(), events[i..], arrivals[i..], serve)
                    == Events(old(View()), events, arrivals, -1)
      {
        assert events[i..][1..] == events[i + 1..] && arrivals[i..][1..] == arrivals[i + 1..];
        var pos := events[i];
        if pos == POS_LATCH {
        } else if pos == POS_LISTEN {
          AcceptConn(arrivals[i]);
        } else if serve < 0 {
          serve := pos - POS_CONN0;
        }
      }
    }

    /** One turn: rebuild the set if membership changed, walk the events, serve one request. */
    method ServeRound(events: seq<nat>, arrivals: seq<Arrival>, requestOk: bool) returns (served: Option<Fd>)
      requires Valid() && Inv(View()) && |arrivals| == |events| && Reported(View(), events)
      requires FreshArrivals(Refresh(View()), events, arrivals)
      modifies this, conns
      ensures Valid() && Inv(View()) && View() == Round(old(View()), events, arrivals, requestOk)
      ensures served == Picked(Walk(old(View()), events, arrivals))
    {
      ghost var start := View();
      RoundStaysValid(start, events, arrivals, requestOk);
      WalkOutcome(start, events, arrivals);
      BuildWaitSet();
      var serve := WalkEvents(events, arrivals);
      served := None;
      if serve >= 0 {
        assert serve < nconns;
        served := Some(conns[serve]);
        if !requestOk {
          DropConn(serve);
        }
      }
    }

    /** Shutdown closes whatever is left. */
    method CloseAll()
      requires Valid() && Inv(View())
      modifies this, conns
      ensures Valid() && nconns == 0 && accepted == closed
    {
      while nconns > 0
        invariant Valid() && Distinct(View().table) && accepted == multiset(View().table) + closed
        decreases nconns
      {
        DropAccounts(View(), 0);
        DropConn(0);
      }
    }
  }
}
