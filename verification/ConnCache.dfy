/**
 One cached ClickHouse connection per destination instance. Configs are shared objects
 compared by identity; the live snapshot may change at any time, and a cached client
 counts only while it was dialled under the very object the destination yields now.
 */
module ConnCache {
  import opened Basics

  type Endpoint = seq<int>

  /** Connection settings: the default endpoint, the named instances, the retry cap. */
  datatype Settings = Settings(conn: Endpoint, instances: map<string, Endpoint>, retries: nat)

  /** A config object; two objects with equal settings are still two objects. */
  class EmitterConfig {
    const settings: Settings

    constructor (settings: Settings)
      ensures this.settings == settings
    {
      this.settings := settings;
    }
  }

  /** One published snapshot of the resolved config. */
  class Snapshot {
    const settings: Settings

    constructor (settings: Settings)
      ensures this.settings == settings
    {
      this.settings := settings;
    }
  }

  /** Named instance dialled as a default endpoint. */
  function ForInstance(s: Settings, name: string): Settings
    requires name in s.instances
  {
    s.(conn := s.instances[name])
  }

  /** The settings an instance is dialled with under the last published snapshot, if it knows the instance. */
  function Expected(base: EmitterConfig, live: Snapshot?, instance: Option<string>): Option<Settings> {
    var s := if live != null then live.settings else base.settings;
    match instance
    case None => Some(s)
    case Some(name) => if name in s.instances then Some(ForInstance(s, name)) else None
  }

  datatype Named = Named(base: EmitterConfig, config: EmitterConfig)

  class DestEmitter {
    const base: EmitterConfig
    /** Latest snapshot on the watch channel, none without a resolver. */
    var live: Snapshot?
    var seen: Snapshot?
    var config: EmitterConfig
    var named: map<string, Named>

    /** What was last compared agrees; cached instances belong to the config they were built from. */
    ghost predicate Valid()
      reads this
    {
      && (if seen != null then config.settings == seen.settings else config == base)
      && (live == null ==> seen == null)
      && (forall n :: n in named ==> n in named[n].base.settings.instances
                                     && named[n].config.settings == ForInstance(named[n].base.settings, n))
    }

    /** The last comparison was against the live snapshot. */
    ghost predicate Synced()
      reads this
    {
      live == null || seen == live
    }

    /** The object the current snapshot yields for an instance, once looked up. */
    ghost predicate Yields(instance: Option<string>, c: EmitterConfig)
      reads this
    {
      && Synced()
      && match instance
         case None => c == config
         case Some(name) => name in named && named[name].base == config && c == named[name].config
    }

    constructor (base: EmitterConfig, live: Snapshot?)
      ensures Valid() && this.base == base && this.live == live && config == base && named == map[] && seen == null
    {
      this.base, this.live, this.seen := base, live, null;
      this.config, this.named := base, map[];
    }

    method Publish(s: Snapshot)
      requires Valid()
      modifies `live
      ensures Valid() && live == s
    {
      live := s;
    }

    /** A snapshot that changes no connection setting keeps the object. */
    method Current() returns (c: EmitterConfig)
      requires Valid()
      modifies this
      ensures Valid() && unchanged(`live) && unchanged(`named) && Yields(None, c)
      ensures Expected(base, live, None) == Some(c.settings)
      ensures old(Synced()) || (live != null && old(config).settings == live.settings) ==> c == old(config)
    {
      if live != null && seen != live {
        if config.settings != live.settings {
          config := new EmitterConfig(live.settings);
        }
        seen := live;
      }
      c := config;
    }

    method Instance(name: string) returns (c: EmitterConfig?)
      requires Valid()
      modifies this
      ensures Valid() && unchanged(`live)
      ensures c != null ==> Yields(Some(name), c)
      ensures Expected(base, live, Some(name)) == if c != null then Some(c.settings) else None
      ensures Synced()
      ensures old(Synced()) ==> config == old(config)
      ensures old(Synced() && name in named && named[name].base == config) ==> c == old(named[name].config)
    {
      var cur := Current();
      if name !in cur.settings.instances { return null; }
      if name in named && named[name].base == cur { return named[name].config; }
      c := new EmitterConfig(ForInstance(cur.settings, name));
      named := named[name := Named(cur, c)];
    }
  }

  class Client {
    /** The config object it was dialled under. */
    const under: EmitterConfig

    constructor (under: EmitterConfig)
      ensures this.under == under
    {
      this.under := under;
    }
  }

  datatype Connection = Connection(client: Client?, dialed: EmitterConfig?)

  /** A held client was dialled under the config on record. */
  ghost predicate Coherent(c: Connection) { c.client != null ==> c.dialed == c.client.under }

  /** A hand-out: the client, the snapshot in force at that moment and the instance asked for. */
  datatype Handout = Handout(client: Client, live: Snapshot?, instance: Option<string>)

  /** The client was dialled with the settings its moment called for. */
  ghost predicate Current(base: EmitterConfig, h: Handout) {
    Expected(base, h.live, h.instance) == Some(h.client.under.settings)
  }

  class ChConn {
    const dest: DestEmitter
    var instance: Option<string>
    var selected: EmitterConfig?
    var active: Connection
    var parked: map<Option<string>, Connection>
    var dials: nat
    ghost var handed: seq<Handout>

    ghost predicate Valid()
      reads this
    {
      && instance !in parked
      && Coherent(active)
      && (forall k :: k in parked ==> Coherent(parked[k]))
      && (instance.None? <==> selected == null)
      && (forall h :: h in handed ==> Current(dest.base, h))
    }

    constructor (dest: DestEmitter)
      ensures Valid() && this.dest == dest && instance == None && parked == map[] && handed == []
    {
      this.dest, instance, selected := dest, None, null;
      active, parked, dials, handed := Connection(null, null), map[], 0, [];
    }

    /** Swap the active connection with the parked one of another instance. */
    method Select(to: Option<string>) returns (ok: bool)
      requires Valid() && dest.Valid()
      modifies this, dest
      ensures Valid() && dest.Valid() && dest.live == old(dest.live) && handed == old(handed)
      ensures ok ==> instance == to
      ensures to.None? ==> ok
      ensures !ok ==> instance == old(instance) && active == old(active) && parked == old(parked)
      ensures ok && to != old(instance) ==>
                && active == (if to in old(parked) then old(parked)[to] else Connection(null, null))
                && parked == (old(parked) - {to})[old(instance) := old(active)]
    {
      var config: EmitterConfig? := null;
      if to.Some? {
        config := dest.Instance(to.value);
        if config == null { return false; }
      }
      if instance != to {
        var next := if to in parked then parked[to] else Connection(null, null);
        parked := (parked - {to})[instance := active];
        active := next;
        instance := to;
      }
      selected := config;
      return true;
    }

    /** The config on record: what was last selected, possibly out of date, or what the destination yields. */
    method Config() returns (c: EmitterConfig)
      requires Valid() && dest.Valid()
      modifies dest
      ensures dest.Valid() && dest.live == old(dest.live)
      ensures selected != null ==> c == selected && unchanged(dest)
      ensures selected == null ==> dest.Yields(None, c) && Expected(dest.base, dest.live, None) == Some(c.settings)
    {
      if selected != null {
        c := selected;
      } else {
        c := dest.Current();
      }
    }

    /** Refreshed: the object the destination yields now for the instance. */
    method Refresh() returns (c: EmitterConfig?)
      requires Valid() && dest.Valid()
      modifies dest, `selected
      ensures Valid() && dest.Valid() && dest.live == old(dest.live)
      ensures c != null ==> dest.Yields(instance, c)
      ensures Expected(dest.base, dest.live, instance) == if c != null then Some(c.settings) else None
    {
      if instance.Some? {
        var named := dest.Instance(instance.value);
        if named == null { return null; }
        selected := named;
      }
      c := Config();
    }

    /** Take a client out: the cached one if it is current and not idle, else a fresh dial. */
    method TakeReady(expired: bool, dialOk: bool) returns (client: Client?)
      requires Valid() && dest.Valid()
      modifies this, dest
      ensures Valid() && dest.Valid() && instance == old(instance) && parked == old(parked)
                && dest.live == old(dest.live)
      ensures client != null ==> dest.Yields(instance, client.under) && active == Connection(null, client.under)
      ensures client != null ==> handed == old(handed) + [Handout(client, dest.live, instance)]
      ensures client != null && old(active.client) == null ==> fresh(client) && dials == old(dials) + 1
      ensures client == null ==> handed == old(handed) && dials == old(dials)
      ensures old(dials) <= dials <= old(dials) + 1
      ensures client != null ==> Expected(dest.base, dest.live, instance).Some?
      ensures dialOk && Expected(dest.base, dest.live, instance).Some? ==> client != null
      ensures client != null && old(active.client) == null ==> dialOk
    {
      var config := Refresh();
      if config == null { return null; }
      client := TakeUnder(config, expired, dialOk);
    }

    /** The cached client if it was dialled under this object and is not idle, else a fresh dial under it. */
    method TakeUnder(config: EmitterConfig, expired: bool, dialOk: bool) returns (client: Client?)
      requires Valid() && Expected(dest.base, dest.live, instance) == Some(config.settings)
      modifies `active, `dials, `handed
      ensures Valid()
      ensures client != null ==> client.under == config && active == Connection(null, config)
      ensures client != null ==> handed == old(handed) + [Handout(client, dest.live, instance)]
      ensures client != null && old(active.client) == null ==> dialOk && fresh(client) && dials == old(dials) + 1
      ensures client == null ==> handed == old(handed) && dials == old(dials) && !dialOk
      ensures old(dials) <= dials <= old(dials) + 1
    {
      if active.dialed != config || expired {
        active := active.(client := null);
      }
      if active.client != null {
        client := active.client;
        active := active.(client := null);
      } else {
        if !dialOk { return null; }
        client := new Client(config);
        active := Connection(null, config);
        dials := dials + 1;
      }
      handed := handed + [Handout(client, dest.live, instance)];
    }

    /** Put back what an attempt borrowed. */
    method GiveBack(client: Client)
      requires Valid() && active == Connection(null, client.under)
      modifies `active
      ensures Valid() && active == Connection(client, client.under)
    {
      active := active.(client := client);
    }

    method Ready(expired: bool, dialOk: bool) returns (client: Client?)
      requires Valid() && dest.Valid()
      modifies this, dest
      ensures Valid() && dest.Valid() && instance == old(instance) && parked == old(parked)
      ensures client != null ==> dest.Yields(instance, client.under) && active == Connection(client, client.under)
    {
      client := TakeReady(expired, dialOk);
      if client != null {
        GiveBack(client);
      }
    }

    /** Resends allowed by the config on record when the retry starts. */
    ghost function Cap(): nat
      reads this, dest
    {
      if selected != null then selected.settings.retries
      else if dest.live != null then dest.live.settings.retries else dest.base.settings.retries
    }

    /** One attempt: what the world does first, then a client, used if there is one and put back. */
    method Try(a: Attempt) returns (client: Client?)
      requires Valid() && dest.Valid()
      modifies this, dest
      ensures Valid() && dest.Valid() && instance == old(instance) && parked == old(parked)
      ensures dest.live == if a.change != null then a.change else old(dest.live)
      ensures client != null ==> Expected(dest.base, dest.live, instance) == Some(client.under.settings)
      ensures a.dialOk && Expected(dest.base, dest.live, instance).Some? ==> client != null
      ensures client != null && old(active.client) == null ==> a.dialOk && fresh(client) && dials == old(dials) + 1
      ensures client == null ==> dials == old(dials)
      ensures old(dials) <= dials <= old(dials) + 1
    {
      if a.change != null {
        dest.Publish(a.change);
      }
      client := TakeReady(a.expired, a.dialOk);
      if client != null {
        assert Handout(client, dest.live, instance) in handed;
        GiveBack(client);
      }
    }

    /** The next attempt of a retry: the story so far, and how it goes on. */
    method TryNext(world: nat -> Attempt, tries: nat, ghost live: Snapshot?, ghost dialed: nat, ghost got: seq<Client?>)
      returns (client: Client?)
      requires Valid() && dest.Valid() && tries == |got| && (tries > 0 ==> active.client == null)
      requires Told(dest.base, instance, world, live, dialed, got, dest.live, dials)
      modifies this, dest
      ensures Valid() && dest.Valid() && instance == old(instance) && parked == old(parked)
      ensures Told(dest.base, instance, world, live, dialed, got + [client], dest.live, dials)
      ensures tries > 0 && client != null ==> fresh(client)
    {
      client := Try(world(tries));
      AllServedSnoc(dest.base, live, instance, world, got, client);
      ServedSnoc(got, client);
      OneEachSnoc(got, client);
    }

    /** One round of a retry: an attempt and, if it is not the last, the connection dropped behind it. */
    method Round(world: nat -> Attempt, tries: nat, left: nat, ghost live: Snapshot?, ghost dialed: nat,
                 ghost got: seq<Client?>, ghost cap: nat) returns (client: Client?, ok: bool, over: bool)
      requires Valid() && dest.Valid() && tries == |got| && (tries > 0 ==> active.client == null)
      requires Told(dest.base, instance, world, live, dialed, got, dest.live, dials) && Goes(world, got, cap, left)
      modifies this, dest
      ensures Valid() && dest.Valid() && instance == old(instance) && parked == old(parked)
      ensures Told(dest.base, instance, world, live, dialed, got + [client], dest.live, dials)
      ensures over ==> Ends(world, got + [client], ok, cap, left)
      ensures !over ==> left > 0 && Goes(world, got + [client], cap, left - 1) && active.client == null
      ensures tries > 0 && client != null ==> fresh(client)
    {
      client := TryNext(world, tries, live, dialed, got);
      AttemptEnds(world, got, client, cap, left);
      ok := client != null && world(tries).opOk;
      over := ok || world(tries).final || left == 0;
      if !over {
        HangUp();
      }
    }

    /**
     Resend until an attempt succeeds, its error is final or the resends run out; the world
     may publish another config before each attempt. `got`: the client of each attempt.
     */
    method Retry(world: nat -> Attempt) returns (ok: bool, tries: nat, ghost got: seq<Client?>)
      requires Valid() && dest.Valid()
      modifies this, dest
      ensures Valid() && dest.Valid() && instance == old(instance) && parked == old(parked)
      // Which attempts are made, and how they end
      ensures 1 <= tries == |got| <= old(Cap()) + 1
      ensures ok <==> Succeeds(world(tries - 1), got[tries - 1])
      ensures FailedOn(world, got[..tries - 1])
      ensures !ok ==> world(tries - 1).final || tries == old(Cap()) + 1
      // Every client is dialled for the config in force at its attempt
      ensures dest.live == LiveAfter(old(dest.live), world, tries)
      ensures AllServed(dest.base, old(dest.live), instance, world, got)
      // and every resend by a connection of its own
      ensures forall k :: 1 <= k < tries && got[k] != null ==> fresh(got[k])
      ensures OneEach(got)
      ensures DialsFit(old(dials), dials, got)
    {
      ghost var live, dialed, cap := dest.live, dials, Cap();
      var left := Resends();
      tries, got, ok := 0, [], false;
      var over := false;
      while !over
        invariant Valid() && dest.Valid() && instance == old(instance) && parked == old(parked)
        invariant tries == |got| && Told(dest.base, instance, world, live, dialed, got, dest.live, dials)
        invariant forall k :: 1 <= k < tries && got[k] != null ==> fresh(got[k])
        invariant if over then Ends(world, got, ok, cap, left) else Goes(world, got, cap, left)
        invariant !over && tries > 0 ==> active.client == null
        decreases !over, left
      {
        var client;
        client, ok, over := Round(world, tries, left, live, dialed, got, cap);
        tries, got := tries + 1, got + [client];
        if !over {
          left := left - 1;
        }
      }
    }

    /** The resends the config on record allows. */
    method Resends() returns (n: nat)
      requires Valid() && dest.Valid()
      modifies dest
      ensures dest.Valid() && dest.live == old(dest.live) && n == old(Cap())
    {
      var config := Config();
      n := config.settings.retries;
    }

    method HangUp()
      requires Valid()
      modifies `active
      ensures Valid() && active == old(active).(client := null)
    {
      active := active.(client := null);
    }
  }

  /** One attempt as the world answers it. */
  datatype Attempt = Attempt(change: Snapshot?, expired: bool, dialOk: bool, opOk: bool, final: bool)

  predicate Succeeds(a: Attempt, client: Client?) { client != null && a.opOk }

  /** The last snapshot published by the first `n` attempts. */
  function LiveAfter(live: Snapshot?, world: nat -> Attempt, n: nat): Snapshot? {
    if n == 0 then live
    else if world(n - 1).change != null then world(n - 1).change
    else LiveAfter(live, world, n - 1)
  }

  /** A client, if there is one, of the settings in force; none only if the dial fails or the instance is unknown. */
  ghost predicate Serves(base: EmitterConfig, live: Snapshot?, instance: Option<string>, a: Attempt, client: Client?) {
    && (client != null ==> Expected(base, live, instance) == Some(client.under.settings))
    && (client == null ==> !a.dialOk || Expected(base, live, instance).None?)
  }

  ghost predicate AllServed(base: EmitterConfig, live: Snapshot?, instance: Option<string>, world: nat -> Attempt,
                            got: seq<Client?>) {
    forall k :: 0 <= k < |got| ==> Serves(base, LiveAfter(live, world, k + 1), instance, world(k), got[k])
  }

  /** Each of these attempts fails, with an error that is not final. */
  predicate FailedOn(world: nat -> Attempt, got: seq<Client?>) {
    forall k :: 0 <= k < |got| ==> !Succeeds(world(k), got[k]) && !world(k).final
  }

  /** No client serves two attempts. */
  predicate OneEach(got: seq<Client?>) {
    forall j, k :: 0 <= j < k < |got| && got[k] != null ==> got[j] != got[k]
  }

  /** Every attempt so far has failed and `left` resends remain. */
  ghost predicate Goes(world: nat -> Attempt, got: seq<Client?>, cap: nat, left: nat) {
    |got| + left == cap && FailedOn(world, got)
  }

  /** The last attempt decides: it succeeds, its error is final, or no resend remains. */
  ghost predicate Ends(world: nat -> Attempt, got: seq<Client?>, ok: bool, cap: nat, left: nat) {
    && got != [] && |got| + left == cap + 1 && FailedOn(world, got[..|got| - 1])
    && (ok <==> Succeeds(world(|got| - 1), got[|got| - 1]))
    && (!ok ==> world(|got| - 1).final || left == 0)
  }

  lemma AttemptEnds(world: nat -> Attempt, got: seq<Client?>, client: Client?, cap: nat, left: nat)
    requires Goes(world, got, cap, left)
    ensures var a := world(|got|);
            var ok := Succeeds(a, client);
            if ok || a.final || left == 0 then Ends(world, got + [client], ok, cap, left)
            else Goes(world, got + [client], cap, left - 1)
  {
    assert (got + [client])[..|got|] == got;
  }

  ghost function Served(got: seq<Client?>): nat {
    if got == [] then 0 else Served(got[..|got| - 1]) + (if got[|got| - 1] != null then 1 else 0)
  }

  /** The story so far: `live` and `dialed` as it began, `now` and `dials` as it stands. */
  ghost predicate Told(base: EmitterConfig, instance: Option<string>, world: nat -> Attempt, live: Snapshot?,
                       dialed: nat, got: seq<Client?>, now: Snapshot?, dials: nat) {
    && now == LiveAfter(live, world, |got|) && AllServed(base, live, instance, world, got)
    && OneEach(got) && DialsFit(dialed, dials, got)
  }

  /** A dial for every resend that got a client, and at most one more. */
  ghost predicate DialsFit(before: nat, now: nat, got: seq<Client?>) {
    if got == [] then now == before else before + Served(got[1..]) <= now <= before + Served(got)
  }

  lemma ServedSnoc(got: seq<Client?>, client: Client?)
    ensures Served(got + [client]) == Served(got) + if client != null then 1 else 0
    ensures got != [] ==> Served((got + [client])[1..]) == Served(got[1..]) + if client != null then 1 else 0
    ensures got == [] ==> Served((got + [client])[1..]) == 0
  {
    assert (got + [client])[..|got|] == got;
    if got != [] {
      assert (got + [client])[1..] == got[1..] + [client];
      assert (got[1..] + [client])[..|got| - 1] == got[1..];
    }
  }

  lemma AllServedSnoc(base: EmitterConfig, live: Snapshot?, instance: Option<string>, world: nat -> Attempt,
                      got: seq<Client?>, client: Client?)
    requires AllServed(base, live, instance, world, got)
    requires Serves(base, LiveAfter(live, world, |got| + 1), instance, world(|got|), client)
    ensures AllServed(base, live, instance, world, got + [client])
  {
  }

  lemma OneEachSnoc(got: seq<Client?>, client: Client?)
    requires OneEach(got) && (client != null ==> client !in got)
    ensures OneEach(got + [client])
  {
  }

  /** Selecting another instance and back finds the same connection again. */
  method SelectRoundTrip(c: ChConn, to: string) returns (ok: bool)
    requires c.Valid() && c.dest.Valid() && c.instance.None?
    modifies c, c.dest
    ensures c.Valid() && c.dest.Valid() && c.instance.None? && c.active == old(c.active)
    ensures ok ==> Some(to) in c.parked && forall k :: k != Some(to) && k in old(c.parked) ==>
              k in c.parked && c.parked[k] == old(c.parked)[k]
  {
    ok := c.Select(Some(to));
    if ok {
      var back := c.Select(None);
    }
  }
}
