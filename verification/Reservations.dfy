/** The tunnel hub's port table: quota checks, and reservations that roll back. */
module Reservations {
  import opened Text
  import opened Config
  import opened PortTable

  const CAPACITY := 1024

  predicate OneToOne(ports: Ports) {
    forall k, l :: k in ports && l in ports && ports[k] == ports[l] ==> k == l
  }

  function Of(keys: set<Key>, agent: string): set<Key> {
    set k | k in keys && k.agent == agent
  }

  /** `check_capacity`: a batch that brings nothing new is always allowed. */
  predicate WithinQuota(held: set<Key>, keys: set<Key>, quota: nat) {
    && (keys - held != {} ==> |held| + |keys - held| <= CAPACITY)
    && (forall k :: k in keys - held ==> |Of(held + keys, k.agent)| <= quota)
  }

  /** The quota check, said of the keys alone. */
  lemma QuotaExactly(held: set<Key>, keys: set<Key>, quota: nat)
    ensures WithinQuota(held, keys, quota) <==>
            && (keys <= held || |held| + |keys - held| <= 1024)
            && forall k :: k in keys && k !in held ==> |set l | l in held + keys && l.agent == k.agent| <= quota
  {
    if keys - held == {} {
      assert forall k :: k in keys && k !in held ==> k in keys - held;
    }
    forall k: Key ensures Of(held + keys, k.agent) == set l | l in held + keys && l.agent == k.agent {}
    hide Of;
  }

  /** Mappings above a lowered quota keep resolving: asking for them again is never refused. */
  lemma HeldStaysAllowed(held: set<Key>, keys: set<Key>, quota: nat)
    requires keys <= held
    ensures WithinQuota(held, keys, quota)
  {
    assert keys - held == {};
  }

  /** What the hub sends an agent to name a target: a digest of container and port, which is injective,
      or the container and port themselves. */
  datatype Token = Hashed(container: string, port: int) | Named(container: string, port: int)

  datatype Expiry = Never | At(time: real)

  /** Targets without the dropped keys. */
  function Without(destinations: map<string, map<Key, Token>>, keys: set<Key>): map<string, map<Key, Token>> {
    map a | a in destinations :: destinations[a] - keys
  }

  /** A batch that the quota admits and the kernel can bind. */
  predicate Bindable(ports: Ports, keys: set<Key>, binds: Ports, quota: nat) {
    WithinQuota(ports.Keys, keys, quota) && keys - ports.Keys <= binds.Keys
  }

  /** When a reservation goes through, written out. */
  lemma ReservedExactly(ports: Ports, keys: set<Key>, binds: Ports, quota: nat, write: Io)
    ensures Bindable(ports, keys, binds, quota) && (keys - ports.Keys != {} ==> !write.Raises()) <==>
            && (keys <= ports.Keys || |ports| + |keys - ports.Keys| <= 1024)
            && (forall k :: k in keys && k !in ports ==> |set l | l in ports.Keys + keys && l.agent == k.agent| <= quota)
            && (forall k :: k in keys && k !in ports ==> k in binds && write == Done)
  {
    QuotaExactly(ports.Keys, keys, quota);
    ReservedWithin(ports, keys, binds, quota, write);
    hide WithinQuota, Bindable;
  }

  lemma ReservedWithin(ports: Ports, keys: set<Key>, binds: Ports, quota: nat, write: Io)
    ensures Bindable(ports, keys, binds, quota) && (keys - ports.Keys != {} ==> !write.Raises()) <==>
            WithinQuota(ports.Keys, keys, quota) && forall k :: k in keys && k !in ports ==> k in binds && write == Done
  {
    hide WithinQuota;
    forall k | k in keys && k !in ports ensures k in keys - ports.Keys {}
  }

  /** What startup keeps of the saved table. */
  function Kept(saved: Ports, references: Option<set<int>>, selected: set<Key>): Ports {
    if references.Some? then Pruned(saved, references.value, selected) else saved
  }

  lemma KeptMappings(saved: Ports, references: Option<set<int>>, selected: set<Key>)
    ensures var kept := Kept(saved, references, selected);
            && |kept| <= |saved|
            && (forall k :: k in kept ==> k in saved && kept[k] == saved[k])
            && (references.Some? ==> forall k :: k in saved && (saved[k] in references.value || k in selected) ==> k in kept)
            && Saved(Table(kept, kept))
  {
    SubmapSize(Kept(saved, references, selected), saved);
  }

  /** Startup goes through: the saved table is sound, the pruned one is written if anything was pruned, and every kept
      port can be bound. */
  predicate Opens(saved: Ports, quota: nat, references: Option<set<int>>, selected: set<Key>, write: Io, busy: set<int>) {
    var kept := Kept(saved, references, selected);
    && |saved| <= CAPACITY && (forall k :: k in saved ==> 1024 <= saved[k] <= 65535) && 1 <= quota <= 512
    && (kept != saved ==> !write.Raises())
    && OneToOne(kept) && forall k :: k in kept ==> kept[k] !in busy
  }

  /** Startup, said of the saved table alone. */
  lemma OpensExactly(saved: Ports, quota: nat, references: Option<set<int>>, selected: set<Key>, write: Io, busy: set<int>)
    ensures var stays := set k | k in saved && (references.None? || saved[k] in references.value || k in selected);
            && Kept(saved, references, selected).Keys == stays
            && (Opens(saved, quota, references, selected, write, busy) <==>
                  && |saved| <= 1024 && 1 <= quota <= 512 && (forall k :: k in saved ==> 1024 <= saved[k] <= 65535)
                  && (write == Done || saved.Keys <= stays)
                  && (forall k :: k in stays ==> saved[k] !in busy)
                  && forall k, l :: k in stays && l in stays && saved[k] == saved[l] ==> k == l)
  {
    hide Kept;
    KeptStays(saved, references, selected);
  }

  lemma KeptStays(saved: Ports, references: Option<set<int>>, selected: set<Key>)
    ensures var kept, stays := Kept(saved, references, selected), set k | k in saved && (references.None? || saved[k] in references.value || k in selected);
            kept.Keys == stays && (forall k :: k in kept ==> kept[k] == saved[k]) && (kept == saved <==> saved.Keys <= stays)
  {
    var kept, stays := Kept(saved, references, selected), set k | k in saved && (references.None? || saved[k] in references.value || k in selected);
    assert kept.Keys == stays;
    if saved.Keys <= stays {
      assert kept == saved;
    }
  }

  class TunnelHub {
    const quota: nat
    var ports: Ports
    var listeners: Ports
    var file: Ports
    var destinations: map<string, map<Key, Token>>
    var expires: map<string, Expiry>
    var connected: set<string>

    function View(): Table
      reads `ports, `file
    {
      Table(ports, file)
    }

    /** Open sockets and recorded ports agree, no port serves two keys, and the table is within its capacity. */
    predicate Valid()
      reads `ports, `listeners
    {
      listeners == ports && OneToOne(ports) && |ports| <= CAPACITY
    }

    constructor (quota: nat, ports: Ports, file: Ports)
      requires OneToOne(ports) && |ports| <= CAPACITY
      ensures Valid() && this.quota == quota && this.ports == ports && this.file == file
      ensures destinations == map[] && expires == map[] && connected == {}
    {
      this.quota, this.ports, this.listeners, this.file := quota, ports, ports, file;
      destinations, expires, connected := map[], map[], {};
    }

    /** Opens the hub on the saved table. Every kept port must be free; otherwise startup fails.
        Without a list of configurations nothing is pruned. */
    static method Open(saved: Ports, quota: nat, references: Option<set<int>>, selected: set<Key>, write: Io, busy: set<int>)
      returns (hub: TunnelHub?)
      ensures hub != null <==> Opens(saved, quota, references, selected, write, busy)
      ensures var stays := set k | k in saved && (references.None? || saved[k] in references.value || k in selected);
              && (hub != null <==>
                    && |saved| <= 1024 && 1 <= quota <= 512 && (forall k :: k in saved ==> 1024 <= saved[k] <= 65535)
                    && (write == Done || saved.Keys <= stays)
                    && (forall k :: k in stays ==> saved[k] !in busy)
                    && forall k, l :: k in stays && l in stays && saved[k] == saved[l] ==> k == l)
              && (hub != null ==> hub.ports.Keys == stays)
      ensures hub != null ==> hub.Valid() && fresh(hub) && hub.quota == quota
      ensures hub != null ==> forall k :: k in hub.ports ==> k in saved && hub.ports[k] == saved[k]
      ensures hub != null && references.Some? ==>
                forall k :: k in saved && (saved[k] in references.value || k in selected) ==> k in hub.ports
      ensures hub != null && references.None? ==> hub.ports == saved
      ensures hub != null ==> hub.file == hub.ports && Saved(hub.View())
      ensures hub != null && references.Some? ==> hub.View() == Next(Table(saved, saved), Restart(references.value, selected))
    {
      hide Pruned, OneToOne, Saved;
      OpensExactly(saved, quota, references, selected, write, busy);
      if |saved| > CAPACITY || (exists k :: k in saved && !(1024 <= saved[k] <= 65535)) || !(1 <= quota <= 512) {
        return null;
      }
      var kept := Kept(saved, references, selected);
      KeptMappings(saved, references, selected);
      if kept != saved && write.Raises() {
        return null;
      }
      var ok := Bind(kept, busy);
      if !ok {
        return null;
      }
      hub := new TunnelHub(quota, kept, kept);
      assert hub.ports.Keys == kept.Keys;
    }

    /** Startup binds the kept ports one after another. */
    static method Bind(kept: Ports, busy: set<int>) returns (ok: bool)
      ensures ok <==> OneToOne(kept) && forall k :: k in kept ==> kept[k] !in busy
    {
      var todo := kept.Keys;
      var bound: set<int> := {};
      while todo != {}
        invariant todo <= kept.Keys
        invariant bound == set k | k in kept.Keys - todo :: kept[k]
        invariant forall k, l :: k in kept.Keys - todo && l in kept.Keys - todo && kept[k] == kept[l] ==> k == l
        invariant forall k :: k in kept.Keys - todo ==> kept[k] !in busy
      {
        var k :| k in todo;
        if kept[k] in busy || kept[k] in bound {
          return false;
        }
        bound := bound + {kept[k]};
        todo := todo - {k};
      }
      return true;
    }

    /** The quota check walks the agents that would gain a key. */
    method CheckCapacity(keys: set<Key>) returns (ok: bool)
      ensures ok <==> WithinQuota(ports.Keys, keys, quota)
      ensures ok <==> && (keys <= ports.Keys || |ports| + |keys - ports.Keys| <= 1024)
                      && forall k :: k in keys && k !in ports ==> |set l | l in ports.Keys + keys && l.agent == k.agent| <= quota
    {
      QuotaExactly(ports.Keys, keys, quota);
      var added := keys - ports.Keys;
      if added != {} && |ports| + |added| > CAPACITY {
        return false;
      }
      var agents := set k | k in added :: k.agent;
      while agents != {}
        invariant agents <= set k | k in added :: k.agent
        invariant forall k :: k in added && k.agent !in agents ==> |Of(ports.Keys + keys, k.agent)| <= quota
      {
        var agent :| agent in agents;
        if |Of(ports.Keys + keys, agent)| > quota {
          return false;
        }
        agents := agents - {agent};
      }
      return true;
    }

    /** Binds a listener for each key, or closes what it opened when one of them cannot be bound. */
    method BindAll(keys: set<Key>, binds: Ports) returns (made: Option<Ports>)
      requires keys !! listeners.Keys
      modifies `listeners
      ensures made.Some? <==> keys <= binds.Keys
      ensures made.None? ==> listeners == old(listeners)
      ensures made.Some? ==> made.value == Chosen(binds, keys) && listeners == old(listeners) + made.value
    {
      var todo, some := keys, map[];
      while todo != {}
        invariant todo <= keys && some.Keys == keys - todo && some.Keys <= binds.Keys
        invariant forall k :: k in some ==> some[k] == binds[k]
        invariant listeners == old(listeners) + some
      {
        var k :| k in todo;
        if k !in binds {
          listeners := listeners - some.Keys;
          return None;
        }
        listeners := listeners[k := binds[k]];
        some := some[k := binds[k]];
        todo := todo - {k};
      }
      return Some(some);
    }

    /** Enters a reservation: binds a listener for every new key and records the ports. The environment
        gives `binds`, the unused ports the kernel hands out; a key outside it cannot be bound.
        A refused or failed entry leaves table and listeners as they were. */
    method Begin(keys: set<Key>, binds: Ports, write: Io) returns (added: Option<Ports>)
      requires Valid()
      requires OneToOne(binds) && binds.Values !! ports.Values
      modifies `ports, `listeners, `file
      ensures Valid()
      ensures added.Some? <==> Bindable(old(ports), keys, binds, quota) && (keys - old(ports.Keys) != {} ==> !write.Raises())
      ensures View() == if Bindable(old(ports), keys, binds, quota) then Recorded(old(View()), Chosen(binds, keys - old(ports.Keys)), write)
                        else old(View())
      ensures added.None? ==> ports == old(ports)
      ensures added.Some? ==> added.value == Chosen(binds, keys - old(ports.Keys)) && added.value.Keys == keys - old(ports.Keys)
      ensures added.Some? ==> ports == old(ports) + added.value
      ensures added.Some? ==> keys <= ports.Keys && forall k :: k in added.value ==> |Of(ports.Keys, k.agent)| <= quota
    {
      hide WithinQuota, OneToOne, Of, Chosen;
      var ok := CheckCapacity(keys);
      if !ok {
        return None;
      }
      added := Acquire(keys, binds, write);
    }

    /** A batch within the quota: bind a listener for every new key, then record the ports. */
    method Acquire(keys: set<Key>, binds: Ports, write: Io) returns (added: Option<Ports>)
      requires Valid() && WithinQuota(ports.Keys, keys, quota)
      requires OneToOne(binds) && binds.Values !! ports.Values
      modifies `ports, `listeners, `file
      ensures Valid()
      ensures added.Some? <==> keys - old(ports.Keys) <= binds.Keys && (keys - old(ports.Keys) != {} ==> !write.Raises())
      ensures View() == if keys - old(ports.Keys) <= binds.Keys then Recorded(old(View()), Chosen(binds, keys - old(ports.Keys)), write)
                        else old(View())
      ensures added.None? ==> ports == old(ports)
      ensures added.Some? ==> added.value == Chosen(binds, keys - old(ports.Keys)) && added.value.Keys == keys - old(ports.Keys)
      ensures added.Some? ==> ports == old(ports) + added.value
      ensures added.Some? ==> keys <= ports.Keys && forall k :: k in added.value ==> |Of(ports.Keys, k.agent)| <= quota
    {
      hide WithinQuota, OneToOne, Of, Chosen, Recorded;
      ghost var before := ports;
      var made := BindAll(keys - ports.Keys, binds);
      if made.None? {
        return None;
      }
      GrownTable(before, binds, keys, quota);
      var ok := Record(made.value, write);
      return if ok then made else None;
    }

    /** Writes the grown table and adopts it; when the write fails the new listeners are closed again. */
    method Record(made: Ports, write: Io) returns (ok: bool)
      requires listeners == ports + made && made.Keys !! ports.Keys
      modifies `ports, `listeners, `file
      ensures ok <==> made == map[] || !write.Raises()
      ensures listeners == ports && ports == if ok then old(ports) + made else old(ports)
      ensures file == if made != map[] && write != Lost then old(ports) + made else old(file)
      ensures View() == Recorded(old(View()), made, write)
    {
      if made != map[] {
        if write.Replaces() {
          file := ports + made;
        }
        if write.Raises() {
          listeners := listeners - made.Keys;
          Undone(ports, made);
          return false;
        }
      }
      ports := ports + made;
      return true;
    }

    /** Leaves a reservation whose body failed. `keep` is what the owner still refers to, or nothing
        when that could not be determined, and then every new mapping stays. Mappings that existed
        before the reservation are never touched. */
    method Abort(added: Ports, keep: Option<set<int>>, write: Io)
      requires Valid()
      requires forall k :: k in added ==> k in ports && ports[k] == added[k]
      modifies `ports, `listeners, `file, `destinations
      ensures Valid()
      ensures View() == Aborted(old(View()), added, keep, write)
      ensures destinations == if Orphans(added, keep) != {} && write.Raises() then old(destinations)
                              else Without(old(destinations), Orphans(added, keep))
    {
      hide OneToOne, Without, Orphans;
      var dropped := Orphans(added, keep);
      WithoutNothing(destinations);
      if dropped != {} {
        var ok := Shrink(dropped, write);
        if ok {
          destinations := Without(destinations, dropped);
        }
      }
    }

    /** The targets of an agent and when they expire. */
    method Targets(agent: string, found: map<Key, Token>, expiry: Expiry)
      modifies `destinations, `expires
      ensures destinations == old(destinations)[agent := found] && expires == old(expires)[agent := expiry]
    {
      destinations, expires := destinations[agent := found], expires[agent := expiry];
    }

    /** Writes the smaller table and adopts it, unless the write fails. */
    method Shrink(dropped: set<Key>, write: Io) returns (ok: bool)
      requires Valid()
      modifies `ports, `listeners, `file
      ensures Valid() && ok == !write.Raises()
      ensures View() == Table(if write.Raises() then old(ports) else old(ports) - dropped, if write.Replaces() then old(ports) - dropped else old(file))
    {
      hide OneToOne;
      var remaining := ports - dropped;
      Shrunk(ports, dropped);
      if write.Replaces() {
        file := remaining;
      }
      ok := !write.Raises();
      if ok {
        ports, listeners := remaining, listeners - dropped;
      }
    }
  }

  /** The fresh part of a batch with the ports it is given. */
  function Chosen(binds: Ports, keys: set<Key>): (r: Ports)
    ensures forall k :: k in r <==> k in keys && k in binds
    ensures forall k :: k in r ==> r[k] == binds[k]
  {
    map k | k in keys && k in binds :: binds[k]
  }

  /** Dropping keys takes exactly those keys from every agent's targets. */
  lemma WithoutExactly(destinations: map<string, map<Key, Token>>, keys: set<Key>, agent: string, k: Key)
    requires agent in destinations
    ensures Without(destinations, keys).Keys == destinations.Keys
    ensures k in Without(destinations, keys)[agent] <==> k in destinations[agent] && k !in keys
    ensures k in Without(destinations, keys)[agent] ==> Without(destinations, keys)[agent][k] == destinations[agent][k]
  {
  }

  lemma WithoutNothing(destinations: map<string, map<Key, Token>>)
    ensures Without(destinations, {}) == destinations
  {
    assert forall a :: a in destinations ==> destinations[a] - {} == destinations[a];
  }

  lemma Undone(ports: Ports, made: Ports)
    requires made.Keys !! ports.Keys
    ensures (ports + made) - made.Keys == ports
  {
  }

  lemma ChosenKeys(ports: Ports, binds: Ports, keys: set<Key>)
    requires keys - ports.Keys <= binds.Keys
    ensures Chosen(binds, keys - ports.Keys).Keys == keys - ports.Keys
    ensures (ports + Chosen(binds, keys - ports.Keys)).Keys == ports.Keys + keys
  {
    var made := Chosen(binds, keys - ports.Keys);
    assert made.Keys == keys - ports.Keys;
    assert ports.Keys + (keys - ports.Keys) == ports.Keys + keys;
  }

  /** A batch within the quota leaves a table that is one-to-one, within its capacity, and holds every key asked for. */
  lemma GrownTable(ports: Ports, binds: Ports, keys: set<Key>, quota: nat)
    requires OneToOne(ports) && OneToOne(binds) && binds.Values !! ports.Values
    requires |ports| <= CAPACITY && WithinQuota(ports.Keys, keys, quota) && keys - ports.Keys <= binds.Keys
    ensures var made := Chosen(binds, keys - ports.Keys); var grown := ports + made;
            && made.Keys == keys - ports.Keys && (made == map[] <==> keys - ports.Keys == {})
            && OneToOne(grown) && |grown| <= CAPACITY && keys <= grown.Keys
            && forall k :: k in made ==> |Of(grown.Keys, k.agent)| <= quota
  {
    ChosenKeys(ports, binds, keys);
    GrownOneToOne(ports, binds, keys);
    GrownSize(ports, binds, keys, quota);
    hide WithinQuota, OneToOne, Of, Chosen;
    var made := Chosen(binds, keys - ports.Keys);
    assert made == map[] <==> made.Keys == {};
  }

  lemma GrownOneToOne(ports: Ports, binds: Ports, keys: set<Key>)
    requires OneToOne(ports) && OneToOne(binds) && binds.Values !! ports.Values
    ensures OneToOne(ports + Chosen(binds, keys - ports.Keys))
  {
    var made := Chosen(binds, keys - ports.Keys);
    var grown := ports + made;
    forall k, l | k in grown && l in grown && grown[k] == grown[l] ensures k == l {
      if k in made {
        assert made[k] == binds[k] && binds[k] in binds.Values;
      } else {
        assert ports[k] in ports.Values;
      }
      if l in made {
        assert made[l] == binds[l] && binds[l] in binds.Values;
      } else {
        assert ports[l] in ports.Values;
      }
    }
  }

  lemma GrownSize(ports: Ports, binds: Ports, keys: set<Key>, quota: nat)
    requires |ports| <= CAPACITY && WithinQuota(ports.Keys, keys, quota) && keys - ports.Keys <= binds.Keys
    ensures |ports + Chosen(binds, keys - ports.Keys)| <= CAPACITY
    ensures forall k :: k in keys - ports.Keys ==> |Of((ports + Chosen(binds, keys - ports.Keys)).Keys, k.agent)| <= quota
  {
    ChosenKeys(ports, binds, keys);
    assert ports.Keys + keys == ports.Keys + (keys - ports.Keys);
    assert |ports.Keys + (keys - ports.Keys)| == |ports.Keys| + |keys - ports.Keys|;
    if keys - ports.Keys == {} {
      assert ports.Keys + keys == ports.Keys;
    }
  }

  lemma Shrunk(ports: Ports, dropped: set<Key>)
    requires OneToOne(ports) && |ports| <= CAPACITY
    ensures OneToOne(ports - dropped) && |ports - dropped| <= CAPACITY
  {
    SubmapSize(ports - dropped, ports);
  }

  lemma SubmapSize(a: Ports, b: Ports)
    requires a.Keys <= b.Keys
    ensures |a| <= |b|
  {
    assert |b.Keys - a.Keys| == |b.Keys| - |a.Keys|;
  }
}
