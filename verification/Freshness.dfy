/** When reserved ports are fresh for a reconciliation, and which placeholders its result can hold. */
module Freshness {
  import opened Text
  import opened Config
  import opened Endpoints
  import opened Labels
  import opened Ownership
  import opened Shapes
  import opened Records
  import opened Reconciliation
  import opened Placeholders
  import Reservations
  import Storage

  // ---- Substitution looks at occurring keys only ----

  predicate Agree(keys: set<Key>, p: Ports, q: Ports) {
    forall k :: k in keys ==> (k in p <==> k in q) && (k in p ==> p[k] == q[k])
  }

  lemma TargetsAgree(ts: seq<Target>, p: Ports, q: Ports)
    requires Agree(PendingIn(ts), p, q)
    ensures ResolveAll(ts, p) == ResolveAll(ts, q)
  {
    PendingListed(ts);
  }

  lemma RouteAgrees(r: Route, p: Ports, q: Ports)
    requires Agree(PendingOf(r), p, q)
    ensures ResolveRoute(r, p) == ResolveRoute(r, q)
  {
    PendingListed(RouteTargets(r));
    assert Agree(PendingIn(r.targets), p, q) && Agree(PendingIn(Discovered(r)), p, q);
    TargetsAgree(r.targets, p, q);
    TargetsAgree(Discovered(r), p, q);
    if r.docker.Some? && r.docker.value.sources.Some? {
      var sources := r.docker.value.sources.value;
      forall i | 0 <= i < |sources| ensures ResolveSource(sources[i], p) == ResolveSource(sources[i], q) {
        assert forall t :: t in sources[i].members && t.address.Pending? ==> t.address.key in PendingOf(r);
        TargetsAgree(sources[i].members, p, q);
      }
      assert ResolveSources(sources, p) == ResolveSources(sources, q);
    }
  }

  lemma ConfigAgrees(c: Configuration, p: Ports, q: Ports)
    requires Agree(PendingKeys(c), p, q)
    ensures ResolveConfig(c, p) == ResolveConfig(c, q)
  {
    hide PendingOf, ResolveRoute;
    forall i, j | 0 <= i < |c.hosts| && 0 <= j < |c.hosts[i].routes|
      ensures ResolveRoute(c.hosts[i].routes[j], p) == ResolveRoute(c.hosts[i].routes[j], q)
    {
      assert forall k :: k in PendingOf(c.hosts[i].routes[j]) ==> k in PendingKeys(c);
      RouteAgrees(c.hosts[i].routes[j], p, q);
    }
    forall i | 0 <= i < |c.hosts| ensures ResolveHost(c.hosts[i], p) == ResolveHost(c.hosts[i], q) {
      assert ResolveHost(c.hosts[i], p).routes == ResolveHost(c.hosts[i], q).routes;
    }
  }

  // ---- What a rebuilt configuration can mention ----

  /** Placeholders stand on their key's port. */
  predicate WellPlaced(es: seq<Entry>) {
    forall e :: e in es && e.target.address.Pending? ==> e.target.port == e.target.address.key.port && 1 <= e.target.port <= 65535
  }

  /** No entry stands on one of these loopback ports. */
  predicate Unused(es: seq<Entry>, ports: set<int>) {
    forall e :: e in es && e.target.address == Plain(LOOPBACK) ==> e.target.port !in ports
  }

  lemma BasePrior(c: Configuration, es: seq<Entry>, frozen: set<string>, i: nat, j: nat, t: Target)
    requires Valid(c) && Parsed(es) && i < |Start(c, es, frozen)| && j < |Start(c, es, frozen)[i].slots|
    requires t in Base(Start(c, es, frozen)[i].slots[j])
    ensures i < |c.hosts| && j < |c.hosts[i].routes| && t in RouteTargets(c.hosts[i].routes[j])
  {
    hide Valid;
    StartSlot(c, es, frozen, i, j);
    if i < |c.hosts| && j < |c.hosts[i].routes| {
      RouteOfValid(c, i, j);
      var r := c.hosts[i].routes[j];
      if r.docker.Some? {
        PreparePool(r, frozen, t);
      }
    }
  }

  lemma RouteOfValid(c: Configuration, i: nat, j: nat)
    requires Valid(c) && i < |c.hosts| && j < |c.hosts[i].routes|
    ensures var r := c.hosts[i].routes[j]; r.docker.Some? ==> ValidDocker(r.docker.value, r.targets)
  {
    assert ValidHost(c.hosts[i]) && ValidRoute(c.hosts[i].routes[j]);
  }

  lemma LoopbackMentioned(c: Configuration, i: nat, j: nat, t: Target)
    requires i < |c.hosts| && j < |c.hosts[i].routes| && t in RouteTargets(c.hosts[i].routes[j]) && t.address == Plain(LOOPBACK)
    ensures t.port in Storage.PortsOf(c)
  {
    assert t.port in Storage.LoopbackPorts(RouteTargets(c.hosts[i].routes[j]));
    assert t.port in Storage.RoutePorts(c.hosts[i].routes[j]);
  }

  /** Ports that neither the configuration nor any entry mentions are fresh for every route. */
  lemma UnusedFresh(c: Configuration, es: seq<Entry>, frozen: set<string>, ports: Ports)
    requires Valid(c) && Parsed(es) && PendingKeys(c) == {} && WellPlaced(es)
    requires Reservations.OneToOne(ports) && (forall k :: k in ports ==> 1 <= ports[k] <= 65535)
    requires Storage.PortsOf(c) !! ports.Values && Unused(es, ports.Values)
    ensures FreshFor(c, es, frozen, ports)
  {
    hide Valid, Storage.PortsOf;
    var cs := Start(c, es, frozen);
    forall i, j | 0 <= i < |cs| && 0 <= j < |cs[i].slots| ensures Fresh(cs[i].slots[j], Lower(cs[i].host.domain), es, ports) {
      var s, domain := cs[i].slots[j], Lower(cs[i].host.domain);
      StartResolved(c, es, frozen, ports, i, j);
      forall t | Meets(s, domain, es, t)
        ensures forall k :: k in ports ==> At(t) != Endpoint(Plain(LOOPBACK), ports[k])
        ensures t.address.Pending? ==> t.port == t.address.key.port
      {
        if t in Base(s) {
          BasePrior(c, es, frozen, i, j, t);
          if t.address == Plain(LOOPBACK) {
            LoopbackMentioned(c, i, j, t);
          }
        }
      }
    }
  }

  lemma {:induction false} InsertOwned(x: Source, sources: seq<Source>, t: Target)
    requires Owned(InsertSource(x, sources), t)
    ensures t in x.members || Owned(sources, t)
  {
    var all := InsertSource(x, sources);
    if sources == [] {
      assert all == [x];
    } else {
      OwnedTail(all, t);
      OwnedTail(sources, t);
      if Compare(x.name, sources[0].name) > 0 {
        assert all[1..] == InsertSource(x, sources[1..]);
        if Owned(all[1..], t) {
          InsertOwned(x, sources[1..], t);
        }
      } else {
        assert all[1..] == sources;
      }
    }
  }

  lemma {:induction false} SortedOwned(sources: seq<Source>, t: Target)
    requires Owned(SortSources(sources), t)
    ensures Owned(sources, t)
  {
    if sources != [] {
      var first := Source(sources[0].name, Sort(sources[0].members));
      InsertOwned(first, SortSources(sources[1..]), t);
      SortMembers(sources[0].members);
      OwnedTail(sources, t);
      if t !in first.members {
        SortedOwned(sources[1..], t);
      }
    }
  }

  /** Every target of a written route, recorded members included, was there to begin with or came with an entry. */
  lemma WrittenMeets(s: Slot, domain: string, es: seq<Entry>, v: Slot, k: Key)
    requires Gathered(s, domain, es, v) && k in PendingOf(Finish(v))
    ensures exists t :: Meets(s, domain, es, t) && t.address == Pending(k)
  {
    var r := Finish(v);
    if k in PendingIn(RouteTargets(r)) {
      var t :| t in RouteTargets(r) && t.address.Pending? && t.address.key == k;
      if v.route.docker.Some? {
        SortMembers(Discovered(v.route));
      }
      assert t in Base(v);
      assert Meets(s, domain, es, t);
    } else {
      var sources := r.docker.value.sources.value;
      var x, t :| 0 <= x < |sources| && t in sources[x].members && t.address.Pending? && t.address.key == k;
      assert Owned(sources, t);
      SortedOwned(v.owned, t);
      assert Meets(s, domain, es, t);
    }
  }

  /** Placeholders in a rebuilt configuration come from entries. */
  lemma RebuiltPending(c: Configuration, es: seq<Entry>, frozen: set<string>, k: Key)
    requires Valid(c) && Parsed(es) && PendingKeys(c) == {} && WellPlaced(es) && AllFold(Start(c, es, frozen), es)
    requires k in PendingKeys(Rebuilt(c, es, frozen))
    ensures exists e :: e in es && e.target.address == Pending(k)
  {
    hide Valid, PendingOf, Fold, Finish;
    var r := Rebuilt(c, es, frozen);
    var i, j :| 0 <= i < |r.hosts| && 0 <= j < |r.hosts[i].routes| && k in PendingOf(r.hosts[i].routes[j]);
    RebuiltHost(c, es, frozen, i);
    RebuiltRoute(c, es, frozen, i, j);
    var s, domain := Start(c, es, frozen)[i].slots[j], Lower(Start(c, es, frozen)[i].host.domain);
    UnusedFresh(c, es, frozen, map[]);
    SlotCommutes(c, es, frozen, map[], i, j);
    StartResolved(c, es, frozen, map[], i, j);
    WrittenMeets(s, domain, es, Fold(s, domain, es).value, k);
    var t :| Meets(s, domain, es, t) && t.address == Pending(k);
    assert Aimed(s, domain, es, t);
  }
}
