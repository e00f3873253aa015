/** Substituting reserved ports for placeholders commutes with reconciliation. */
module Placeholders {
  import opened Text
  import opened Config
  import opened Endpoints
  import opened Labels
  import opened Ownership
  import opened Shapes
  import opened Records
  import opened Reconciliation

  function Resolve(t: Target, ports: Ports): Target {
    if t.address.Pending? && t.address.key in ports
    then t.(address := Plain(LOOPBACK), port := ports[t.address.key]) else t
  }

  function ResolveAll(ts: seq<Target>, ports: Ports): seq<Target> {
    seq(|ts|, i requires 0 <= i < |ts| => Resolve(ts[i], ports))
  }

  function ResolveSource(s: Source, ports: Ports): Source {
    Source(s.name, ResolveAll(s.members, ports))
  }

  function ResolveSources(sources: seq<Source>, ports: Ports): seq<Source> {
    seq(|sources|, i requires 0 <= i < |sources| => ResolveSource(sources[i], ports))
  }

  function ResolveDocker(d: Docker, ports: Ports): Docker {
    Docker(d.managed, d.group, ResolveAll(d.targets, ports),
           if d.sources.Some? then Some(ResolveSources(d.sources.value, ports)) else None)
  }

  function ResolveRoute(r: Route, ports: Ports): Route {
    r.(targets := ResolveAll(r.targets, ports),
       docker := if r.docker.Some? then Some(ResolveDocker(r.docker.value, ports)) else None)
  }

  function ResolveHost(h: Host, ports: Ports): Host {
    h.(routes := seq(|h.routes|, i requires 0 <= i < |h.routes| => ResolveRoute(h.routes[i], ports)))
  }

  /** The second visit of `materialize`: every placeholder becomes its loopback port. */
  function ResolveConfig(c: Configuration, ports: Ports): Configuration {
    c.(hosts := seq(|c.hosts|, i requires 0 <= i < |c.hosts| => ResolveHost(c.hosts[i], ports)))
  }

  function ResolveEntries(es: seq<Entry>, ports: Ports): seq<Entry> {
    seq(|es|, i requires 0 <= i < |es| => es[i].(target := Resolve(es[i].target, ports)))
  }

  function ResolveSlot(s: Slot, ports: Ports): Slot {
    Slot(ResolveRoute(s.route, ports), ResolveSources(s.owned, ports), s.settled)
  }

  // ---- Which placeholders occur ----

  function PendingIn(ts: seq<Target>): set<Key> {
    set t | t in ts && t.address.Pending? :: t.address.key
  }

  function PendingOf(r: Route): set<Key> {
    PendingIn(RouteTargets(r))
    + (if r.docker.Some? && r.docker.value.sources.Some?
       then set i, t | 0 <= i < |r.docker.value.sources.value| && t in r.docker.value.sources.value[i].members && t.address.Pending? :: t.address.key
       else {})
  }

  /** The first visit of `materialize`: the keys whose placeholders occur anywhere. */
  function PendingKeys(c: Configuration): set<Key> {
    set i, j, k | 0 <= i < |c.hosts| && 0 <= j < |c.hosts[i].routes| && k in PendingOf(c.hosts[i].routes[j]) :: k
  }

  lemma ResolveMembers(ts: seq<Target>, ports: Ports, t: Target)
    ensures t in ResolveAll(ts, ports) <==> exists x :: x in ts && Resolve(x, ports) == t
  {
    if x :| x in ts && Resolve(x, ports) == t {
      var i :| 0 <= i < |ts| && ts[i] == x;
      assert ResolveAll(ts, ports)[i] == t;
    }
  }

  lemma RouteCleared(r: Route, ports: Ports)
    requires PendingOf(r) <= ports.Keys
    ensures PendingOf(ResolveRoute(r, ports)) == {}
  {
    var q := ResolveRoute(r, ports);
    forall t | t in RouteTargets(q) ensures !t.address.Pending? {
      assert RouteTargets(q) == ResolveAll(RouteTargets(r), ports);
      ResolveMembers(RouteTargets(r), ports, t);
      var x :| x in RouteTargets(r) && Resolve(x, ports) == t;
      assert x.address.Pending? ==> x.address.key in PendingIn(RouteTargets(r));
    }
    if r.docker.Some? && r.docker.value.sources.Some? {
      var sources := r.docker.value.sources.value;
      forall i, t | 0 <= i < |sources| && t in q.docker.value.sources.value[i].members ensures !t.address.Pending? {
        ResolveMembers(sources[i].members, ports, t);
        var x :| x in sources[i].members && Resolve(x, ports) == t;
        assert x.address.Pending? ==> x.address.key in PendingOf(r);
      }
    }
  }

  /** Once every occurring key has a port, no placeholder survives. */
  lemma NoPlaceholderSurvives(c: Configuration, ports: Ports)
    requires PendingKeys(c) <= ports.Keys
    ensures PendingKeys(ResolveConfig(c, ports)) == {}
  {
    forall i, j | 0 <= i < |c.hosts| && 0 <= j < |c.hosts[i].routes| ensures PendingOf(ResolveRoute(c.hosts[i].routes[j], ports)) == {} {
      assert forall k :: k in PendingOf(c.hosts[i].routes[j]) ==> k in PendingKeys(c);
      RouteCleared(c.hosts[i].routes[j], ports);
    }
  }

  lemma PendingListed(ts: seq<Target>)
    ensures forall t :: t in ts && t.address.Pending? ==> t.address.key in PendingIn(ts)
  {
  }

  lemma ResolveNothing(ts: seq<Target>, ports: Ports)
    requires PendingIn(ts) == {}
    ensures ResolveAll(ts, ports) == ts
  {
    PendingListed(ts);
  }

  // ---- One route ----

  /** The targets that can meet on a route. */
  ghost predicate Meets(s: Slot, domain: string, es: seq<Entry>, t: Target) {
    t in Base(s) || Aimed(s, domain, es, t)
  }

  /** The reserved ports are one-to-one and fresh for the route: no target that meets another there
      already stands on the loopback port reserved for a placeholder. */
  ghost predicate Fresh(s: Slot, domain: string, es: seq<Entry>, ports: Ports) {
    && (forall k, l :: k in ports && l in ports && ports[k] == ports[l] ==> k == l)
    && (forall t, k :: Meets(s, domain, es, t) && k in ports ==> At(t) != Endpoint(Plain(LOOPBACK), ports[k]))
    && (forall t :: Meets(s, domain, es, t) && t.address.Pending? ==> t.port == t.address.key.port)
  }

  lemma ResolveApart(s: Slot, domain: string, es: seq<Entry>, ports: Ports, x: Target, y: Target)
    requires Fresh(s, domain, es, ports) && Meets(s, domain, es, x) && Meets(s, domain, es, y)
    ensures At(Resolve(x, ports)) == At(Resolve(y, ports)) <==> At(x) == At(y)
    ensures Resolve(x, ports) == Resolve(y, ports) <==> x == y
  {
  }

  lemma ResolveIn(s: Slot, domain: string, es: seq<Entry>, ports: Ports, ts: seq<Target>, t: Target)
    requires Fresh(s, domain, es, ports) && Meets(s, domain, es, t)
    requires forall x :: x in ts ==> Meets(s, domain, es, x)
    ensures Resolve(t, ports) in ResolveAll(ts, ports) <==> t in ts
  {
    ResolveMembers(ts, ports, Resolve(t, ports));
    if x :| x in ts && Resolve(x, ports) == Resolve(t, ports) {
      ResolveApart(s, domain, es, ports, x, t);
    }
  }

  lemma {:induction false} ResolveFind(s: Slot, domain: string, es: seq<Entry>, ports: Ports, ts: seq<Target>, t: Target)
    requires Fresh(s, domain, es, ports) && Meets(s, domain, es, t)
    requires forall x :: x in ts ==> Meets(s, domain, es, x)
    ensures var f, g := Find(ts, At(t)), Find(ResolveAll(ts, ports), At(Resolve(t, ports)));
            f.Some? == g.Some? && (f.Some? ==> g.value == Resolve(f.value, ports) && Meets(s, domain, es, f.value))
  {
    if ts != [] {
      ResolveApart(s, domain, es, ports, ts[0], t);
      assert ResolveAll(ts, ports)[1..] == ResolveAll(ts[1..], ports);
      ResolveFind(s, domain, es, ports, ts[1..], t);
    }
  }

  lemma {:induction false} ResolveAddMember(s: Slot, domain: string, es: seq<Entry>, ports: Ports, owned: seq<Source>, name: string, t: Target)
    requires Fresh(s, domain, es, ports) && Meets(s, domain, es, t)
    requires forall x :: Owned(owned, x) ==> Meets(s, domain, es, x)
    ensures AddMember(ResolveSources(owned, ports), name, Resolve(t, ports)) == ResolveSources(AddMember(owned, name, t), ports)
  {
    if owned == [] {
      assert ResolveAll([t], ports) == [Resolve(t, ports)];
    } else {
      assert ResolveSources(owned, ports)[1..] == ResolveSources(owned[1..], ports);
      assert ResolveSources(owned, ports)[0] == ResolveSource(owned[0], ports);
      if owned[0].name == name {
        assert forall x :: x in owned[0].members ==> Owned(owned, x);
        ResolveIn(s, domain, es, ports, owned[0].members, t);
        assert ResolveAll(owned[0].members + [t], ports) == ResolveAll(owned[0].members, ports) + [Resolve(t, ports)];
        var head := if t in owned[0].members then owned[0] else owned[0].(members := owned[0].members + [t]);
        assert ResolveSources([head] + owned[1..], ports) == [ResolveSource(head, ports)] + ResolveSources(owned[1..], ports);
      } else {
        forall x | Owned(owned[1..], x) ensures Meets(s, domain, es, x) { OwnedTail(owned, x); }
        ResolveAddMember(s, domain, es, ports, owned[1..], name, t);
        var rest := AddMember(owned[1..], name, t);
        assert ResolveSources([owned[0]] + rest, ports) == [ResolveSource(owned[0], ports)] + ResolveSources(rest, ports);
      }
    }
  }

  /** What the fold has gathered so far consists of targets that meet on the route. */
  ghost predicate Gathered(s: Slot, domain: string, es: seq<Entry>, u: Slot) {
    && SameRoute(s.route, u.route)
    && (forall t :: t in Base(u) ==> Meets(s, domain, es, t))
    && (forall t :: Owned(u.owned, t) ==> Meets(s, domain, es, t))
  }

  lemma ResolveAdmit(s: Slot, domain: string, es: seq<Entry>, ports: Ports, u: Slot, e: Entry)
    requires Fresh(s, domain, es, ports) && Gathered(s, domain, es, u) && e in es && Aims(e, domain, s.route) && u.route.docker.Some?
    ensures var v, w := Admit(u, e), Admit(ResolveSlot(u, ports), e.(target := Resolve(e.target, ports)));
            && v.Ok? == w.Ok?
            && (v.Ok? ==> w.value == ResolveSlot(v.value, ports))
  {
    hide Fresh, Find, AddMember, Resolve, At;
    var q := ResolveSlot(u, ports);
    assert Meets(s, domain, es, e.target) by {
      assert Aimed(s, domain, es, e.target);
    }
    assert ResolveAll(Base(u), ports) == Base(q);
    ResolveFind(s, domain, es, ports, Base(u), e.target);
    ResolveIn(s, domain, es, ports, u.route.targets, e.target);
    ResolveAddMember(s, domain, es, ports, u.owned, e.source, e.target);
    hide Meets;
    var found := Find(Base(u), At(e.target));
    if found.Some? {
      ResolveApart(s, domain, es, ports, found.value, e.target);
    }
    var d := u.route.docker.value;
    assert ResolveAll(d.targets + [e.target], ports) == ResolveAll(d.targets, ports) + [Resolve(e.target, ports)];
  }

  lemma ResolveVisit(s: Slot, domain: string, es: seq<Entry>, ports: Ports, u: Slot, e: Entry)
    requires Fresh(s, domain, es, ports) && Gathered(s, domain, es, u) && e in es
    ensures var v, w := Visit(u, domain, e), Visit(ResolveSlot(u, ports), domain, e.(target := Resolve(e.target, ports)));
            && v.Ok? == w.Ok?
            && (v.Ok? ==> w.value == ResolveSlot(v.value, ports))
  {
    hide Fresh, Admit, Meets, Owned, Resolve, ResolveAll;
    var f := e.(target := Resolve(e.target, ports));
    assert Aims(e, domain, u.route) == Aims(f, domain, ResolveSlot(u, ports).route);
    if Aims(e, domain, u.route) && u.route.docker.Some? {
      assert Aims(e, domain, s.route);
      ResolveAdmit(s, domain, es, ports, u, e);
      ResolveAdmit(s, domain, es, ports, u.(route := u.route.(options := e.spec.options), settled := true), e);
    }
  }

  lemma GatheredVisit(s: Slot, domain: string, es: seq<Entry>, u: Slot, e: Entry)
    requires Gathered(s, domain, es, u) && e in es && Visit(u, domain, e).Ok?
    ensures Gathered(s, domain, es, Visit(u, domain, e).value)
  {
    var v := Visit(u, domain, e).value;
    if Aims(e, domain, u.route) {
      assert Aims(e, domain, s.route);
      assert Aimed(s, domain, es, e.target);
      forall t | Owned(v.owned, t) ensures Meets(s, domain, es, t) {
        if v.owned != u.owned { AddMemberOwned(u.owned, e.source, e.target, t); }
      }
    }
  }

  lemma {:induction false} AddMemberOwned(owned: seq<Source>, name: string, x: Target, t: Target)
    requires Owned(AddMember(owned, name, x), t)
    ensures Owned(owned, t) || t == x
  {
    var after := AddMember(owned, name, x);
    OwnedTail(after, t);
    if owned != [] {
      OwnedTail(owned, t);
      if owned[0].name == name {
        assert after[1..] == owned[1..];
      } else {
        assert after[1..] == AddMember(owned[1..], name, x);
        if Owned(after[1..], t) {
          AddMemberOwned(owned[1..], name, x, t);
        }
      }
    } else {
      assert !Owned(after[1..], t);
    }
  }

  lemma {:induction false} ResolveFold(s: Slot, domain: string, all: seq<Entry>, ports: Ports, es: seq<Entry>)
    requires Fresh(s, domain, all, ports) && Gathered(s, domain, all, s) && forall e :: e in es ==> e in all
    ensures var v, w := Fold(s, domain, es), Fold(ResolveSlot(s, ports), domain, ResolveEntries(es, ports));
            && v.Ok? == w.Ok?
            && (v.Ok? ==> w.value == ResolveSlot(v.value, ports) && Gathered(s, domain, all, v.value))
  {
    if es != [] {
      var before, e := es[..|es| - 1], es[|es| - 1];
      var fs := ResolveEntries(es, ports);
      assert fs[..|fs| - 1] == ResolveEntries(before, ports);
      assert fs[|fs| - 1] == e.(target := Resolve(e.target, ports));
      ResolveFold(s, domain, all, ports, before);
      if Fold(s, domain, before).Ok? {
        var u := Fold(s, domain, before).value;
        ResolveVisit(s, domain, all, ports, u, e);
        if Visit(u, domain, e).Ok? {
          GatheredVisit(s, domain, all, u, e);
        }
      }
    }
  }

  // ---- Whole configurations ----

  lemma {:induction false} ShapeResolve(bs: seq<Bench>, es: seq<Entry>, ports: Ports)
    ensures Shape(bs, ResolveEntries(es, ports)) == Shape(bs, es)
  {
    if es != [] {
      var fs := ResolveEntries(es, ports);
      assert fs[..|fs| - 1] == ResolveEntries(es[..|es| - 1], ports);
      ShapeResolve(bs, es[..|es| - 1], ports);
    }
  }

  /** Before the entries arrive a route holds no placeholder. */
  lemma StartResolved(c: Configuration, es: seq<Entry>, frozen: set<string>, ports: Ports, i: nat, j: nat)
    requires Valid(c) && Parsed(es) && PendingKeys(c) == {}
    requires i < |Start(c, es, frozen)| && j < |Start(c, es, frozen)[i].slots|
    ensures ResolveSlot(Start(c, es, frozen)[i].slots[j], ports) == Start(c, es, frozen)[i].slots[j]
    ensures forall t :: t in Base(Start(c, es, frozen)[i].slots[j]) ==> t.address.Plain?
  {
    StartSlot(c, es, frozen, i, j);
    if i < |c.hosts| && j < |c.hosts[i].routes| {
      var r := c.hosts[i].routes[j];
      assert ValidHost(c.hosts[i]) && ValidRoute(r);
      assert PendingOf(r) == {} by {
        assert forall k :: k in PendingOf(r) ==> k in PendingKeys(c);
      }
      hide Valid, PendingOf, ResolveSlot, Start, Prepare;
      PreparedResolved(r, frozen, ports);
    } else {
      var e :| e in es && Start(c, es, frozen)[i].slots[j] == NewSlot(e.spec);
      NewSlotResolved(e.spec, ports);
    }
  }

  lemma NewSlotResolved(spec: Spec, ports: Ports)
    ensures ResolveSlot(NewSlot(spec), ports) == NewSlot(spec) && Base(NewSlot(spec)) == []
  {
    assert ResolveAll([], ports) == [] && ResolveSources([], ports) == [];
  }

  lemma PreparedResolved(r: Route, frozen: set<string>, ports: Ports)
    requires PendingOf(r) == {} && (r.docker.Some? ==> ValidDocker(r.docker.value, r.targets))
    ensures var s := Prepare(r, frozen); ResolveSlot(s, ports) == s && forall t :: t in Base(s) ==> t.address.Plain?
  {
    var s := Prepare(r, frozen);
    PreparedPlain(r, frozen);
    forall k | 0 <= k < |s.owned| ensures ResolveSource(s.owned[k], ports) == s.owned[k] {
      PlainOwned(s.owned, k);
      assert PendingIn(s.owned[k].members) == {};
      ResolveNothing(s.owned[k].members, ports);
    }
    assert PendingIn(s.route.targets) == {} && PendingIn(Discovered(s.route)) == {};
    ResolveNothing(s.route.targets, ports);
    ResolveNothing(Discovered(s.route), ports);
    assert ResolveSources(s.owned, ports) == s.owned;
    if r.docker.Some? {
      if r.docker.value.sources.Some? {
        SourcesPlain(r, ports);
      }
      assert ResolveDocker(s.route.docker.value, ports) == s.route.docker.value;
    }
  }

  lemma PlainOwned(owned: seq<Source>, k: nat)
    requires k < |owned| && forall t :: Owned(owned, t) ==> t.address.Plain?
    ensures forall t :: t in owned[k].members ==> t.address.Plain?
  {
    assert forall t :: t in owned[k].members ==> Owned(owned, t);
  }

  lemma SourcesPlain(r: Route, ports: Ports)
    requires PendingOf(r) == {} && r.docker.Some? && r.docker.value.sources.Some?
    ensures ResolveSources(r.docker.value.sources.value, ports) == r.docker.value.sources.value
  {
    var sources := r.docker.value.sources.value;
    forall k | 0 <= k < |sources| ensures ResolveSource(sources[k], ports) == sources[k] {
      assert PendingIn(sources[k].members) == {} by {
        assert forall t :: t in sources[k].members && t.address.Pending? ==> t.address.key in PendingOf(r);
      }
      ResolveNothing(sources[k].members, ports);
    }
  }

  lemma PreparedPlain(r: Route, frozen: set<string>)
    requires PendingOf(r) == {} && (r.docker.Some? ==> ValidDocker(r.docker.value, r.targets))
    ensures var s := Prepare(r, frozen);
            && (forall t :: t in Base(s) ==> t.address.Plain?)
            && (forall t :: Owned(s.owned, t) ==> t.address.Plain?)
  {
    var s := Prepare(r, frozen);
    PendingListed(RouteTargets(r));
    if r.docker.Some? {
      forall t ensures t in Discovered(s.route) || Owned(s.owned, t) ==> t in RouteTargets(r) {
        PreparePool(r, frozen, t);
      }
    }
  }

  // ---- Equal up to the order inside target and source lists ----

  predicate SameSources(a: seq<Source>, b: seq<Source>) {
    && |a| == |b|
    && forall i :: 0 <= i < |a| ==> a[i].name == b[i].name && multiset(a[i].members) == multiset(b[i].members)
  }

  predicate Reordered(a: Route, b: Route) {
    && b == a.(docker := b.docker) && a.docker.Some? == b.docker.Some?
    && (a.docker.Some? ==>
          var d, e := a.docker.value, b.docker.value;
          && d.managed == e.managed && d.group == e.group && multiset(d.targets) == multiset(e.targets)
          && d.sources.Some? == e.sources.Some?
          && (d.sources.Some? ==> SameSources(d.sources.value, e.sources.value)))
  }

  /** The same configuration, route by route in the same places, up to the order inside target and source lists. */
  predicate Alike(a: Configuration, b: Configuration) {
    && b.settings == a.settings && |b.hosts| == |a.hosts|
    && (forall i :: 0 <= i < |a.hosts| ==>
          && b.hosts[i] == a.hosts[i].(routes := b.hosts[i].routes) && |b.hosts[i].routes| == |a.hosts[i].routes|
          && forall j :: 0 <= j < |a.hosts[i].routes| ==> Reordered(a.hosts[i].routes[j], b.hosts[i].routes[j]))
  }

  function Dropped<T>(s: seq<T>, i: nat): seq<T>
    requires i < |s|
  {
    s[..i] + s[i + 1..]
  }

  lemma DroppedBag<T>(s: seq<T>, i: nat)
    requires i < |s|
    ensures multiset(s) == multiset(Dropped(s, i)) + multiset{s[i]}
  {
    assert s == s[..i] + [s[i]] + s[i + 1..];
  }

  lemma DroppedAlike<T>(a: seq<T>, i: nat, b: seq<T>, j: nat)
    requires i < |a| && j < |b| && a[i] == b[j]
    ensures multiset(a) == multiset(b) <==> multiset(Dropped(a, i)) == multiset(Dropped(b, j))
  {
    DroppedBag(a, i);
    DroppedBag(b, j);
    if multiset(a) == multiset(b) {
      assert multiset(Dropped(a, i)) == multiset(a) - multiset{a[i]};
      assert multiset(Dropped(b, j)) == multiset(b) - multiset{b[j]};
    }
  }

  lemma ResolveDropped(ts: seq<Target>, i: nat, ports: Ports)
    requires i < |ts|
    ensures Dropped(ResolveAll(ts, ports), i) == ResolveAll(Dropped(ts, i), ports)
  {
  }

  lemma {:induction false} ResolveBag(a: seq<Target>, b: seq<Target>, ports: Ports)
    requires multiset(a) == multiset(b)
    ensures multiset(ResolveAll(a, ports)) == multiset(ResolveAll(b, ports))
    decreases |a|
  {
    hide Resolve;
    assert |multiset(a)| == |a| && |multiset(b)| == |b|;
    if a != [] {
      assert a[0] in multiset(b);
      var i :| 0 <= i < |b| && b[i] == a[0];
      DroppedAlike(a, 0, b, i);
      ResolveBag(Dropped(a, 0), Dropped(b, i), ports);
      ResolveDropped(a, 0, ports);
      ResolveDropped(b, i, ports);
      DroppedAlike(ResolveAll(a, ports), 0, ResolveAll(b, ports), i);
    }
  }

  lemma ResolveSort(ts: seq<Target>, ports: Ports)
    ensures multiset(ResolveAll(Sort(ts), ports)) == multiset(Sort(ResolveAll(ts, ports)))
  {
    SortKeeps(ts);
    SortKeeps(ResolveAll(ts, ports));
    ResolveBag(Sort(ts), ts, ports);
  }

  lemma {:induction false} ResolveInsertSource(s: Source, x: Source, sources: seq<Source>, others: seq<Source>)
    requires s.name == x.name && multiset(s.members) == multiset(x.members) && SameSources(sources, others)
    ensures SameSources(InsertSource(s, sources), InsertSource(x, others))
  {
    if sources != [] && Compare(s.name, sources[0].name) > 0 {
      ResolveInsertSource(s, x, sources[1..], others[1..]);
    }
  }

  lemma {:induction false} ResolveSortSources(sources: seq<Source>, ports: Ports)
    ensures SameSources(ResolveSources(SortSources(sources), ports), SortSources(ResolveSources(sources, ports)))
  {
    if sources != [] {
      var first, others := Source(sources[0].name, Sort(sources[0].members)), ResolveSources(sources, ports);
      assert others[0] == ResolveSource(sources[0], ports) && others[1..] == ResolveSources(sources[1..], ports);
      ResolveSortSources(sources[1..], ports);
      ResolveSort(sources[0].members, ports);
      InsertResolved(first, SortSources(sources[1..]), ports);
      ResolveInsertSource(ResolveSource(first, ports), Source(others[0].name, Sort(others[0].members)),
                          ResolveSources(SortSources(sources[1..]), ports), SortSources(others[1..]));
    }
  }

  lemma {:induction false} InsertResolved(s: Source, sources: seq<Source>, ports: Ports)
    ensures ResolveSources(InsertSource(s, sources), ports) == InsertSource(ResolveSource(s, ports), ResolveSources(sources, ports))
  {
    var others := ResolveSources(sources, ports);
    if sources != [] {
      assert others[0] == ResolveSource(sources[0], ports) && others[1..] == ResolveSources(sources[1..], ports);
      InsertResolved(s, sources[1..], ports);
    }
  }

  lemma FinishResolve(v: Slot, ports: Ports)
    requires v.route.docker.Some?
    ensures Reordered(ResolveRoute(Finish(v), ports), Finish(ResolveSlot(v, ports)))
  {
    ResolveSort(Discovered(v.route), ports);
    ResolveSortSources(v.owned, ports);
    var w := ResolveSlot(v, ports);
    assert Foreign(w.owned) <==> Foreign(v.owned) by {
      assert |w.owned| == |v.owned| && forall i :: 0 <= i < |v.owned| ==> w.owned[i].name == v.owned[i].name;
    }
  }

  /** Freshness for every route that reconciliation touches. */
  ghost predicate FreshFor(c: Configuration, es: seq<Entry>, frozen: set<string>, ports: Ports) {
    && (forall k :: k in ports ==> 1 <= ports[k] <= 65535)
    && (forall e :: e in es && e.target.address.Pending? ==> 1 <= e.target.port <= 65535)
    && forall i, j :: 0 <= i < |Start(c, es, frozen)| && 0 <= j < |Start(c, es, frozen)[i].slots| ==>
         Fresh(Start(c, es, frozen)[i].slots[j], Lower(Start(c, es, frozen)[i].host.domain), es, ports)
  }

  lemma SlotCommutes(c: Configuration, es: seq<Entry>, frozen: set<string>, ports: Ports, i: nat, j: nat)
    requires Valid(c) && Parsed(es) && PendingKeys(c) == {} && FreshFor(c, es, frozen, ports)
    requires i < |Start(c, es, frozen)| && j < |Start(c, es, frozen)[i].slots|
    ensures var s, domain := Start(c, es, frozen)[i].slots[j], Lower(Start(c, es, frozen)[i].host.domain);
            var v, w := Fold(s, domain, es), Fold(s, domain, ResolveEntries(es, ports));
            && v.Ok? == w.Ok?
            && (v.Ok? ==> w.value == ResolveSlot(v.value, ports) && Gathered(s, domain, es, v.value))
  {
    var s, domain := Start(c, es, frozen)[i].slots[j], Lower(Start(c, es, frozen)[i].host.domain);
    StartResolved(c, es, frozen, ports, i, j);
    StartSound(c, es, frozen, i, j);
    assert Gathered(s, domain, es, s) by {
      if s.route.docker.None? {
        StartSlot(c, es, frozen, i, j);
      }
    }
    ResolveFold(s, domain, es, ports, es);
  }

  lemma AllFoldCommutes(c: Configuration, es: seq<Entry>, frozen: set<string>, ports: Ports)
    requires Valid(c) && Parsed(es) && PendingKeys(c) == {} && FreshFor(c, es, frozen, ports)
    ensures Start(c, ResolveEntries(es, ports), frozen) == Start(c, es, frozen)
    ensures AllFold(Start(c, es, frozen), es) <==> AllFold(Start(c, es, frozen), ResolveEntries(es, ports))
  {
    hide Fold, Valid;
    ShapeResolve(PrepareAll(c.hosts, frozen), es, ports);
    var cs, fs := Start(c, es, frozen), ResolveEntries(es, ports);
    forall i, j | 0 <= i < |cs| && 0 <= j < |cs[i].slots|
      ensures Fold(cs[i].slots[j], Lower(cs[i].host.domain), es).Ok? == Fold(cs[i].slots[j], Lower(cs[i].host.domain), fs).Ok?
    {
      SlotCommutes(c, es, frozen, ports, i, j);
    }
  }

  lemma RouteCommutes(c: Configuration, es: seq<Entry>, frozen: set<string>, ports: Ports, i: nat, j: nat)
    requires Valid(c) && Parsed(es) && PendingKeys(c) == {} && FreshFor(c, es, frozen, ports)
    requires AllFold(Start(c, es, frozen), es) && i < |Start(c, es, frozen)| && j < |Start(c, es, frozen)[i].slots|
    ensures AllFold(Start(c, ResolveEntries(es, ports), frozen), ResolveEntries(es, ports))
    ensures var a, b := Rebuilt(c, es, frozen), Rebuilt(c, ResolveEntries(es, ports), frozen);
            && |a.hosts| == |b.hosts| == |Start(c, es, frozen)|
            && b.hosts[i] == a.hosts[i].(routes := b.hosts[i].routes)
            && |a.hosts[i].routes| == |b.hosts[i].routes| == |Start(c, es, frozen)[i].slots|
            && Reordered(ResolveRoute(a.hosts[i].routes[j], ports), b.hosts[i].routes[j])
            && (ValidRoute(a.hosts[i].routes[j]) <==> ValidRoute(b.hosts[i].routes[j]))
  {
    hide Fold, Valid, Reordered, Finish, ValidRoute, Fresh;
    var fs := ResolveEntries(es, ports);
    AllFoldCommutes(c, es, frozen, ports);
    RebuiltHost(c, es, frozen, i);
    RebuiltHost(c, fs, frozen, i);
    RebuiltRoute(c, es, frozen, i, j);
    RebuiltRoute(c, fs, frozen, i, j);
    SlotCommutes(c, es, frozen, ports, i, j);
    var s, domain := Start(c, es, frozen)[i].slots[j], Lower(Start(c, es, frozen)[i].host.domain);
    var v := Fold(s, domain, es).value;
    assert s.route.docker.Some? == v.route.docker.Some? by { FoldFrame(s, domain, es); }
    if v.route.docker.Some? {
      FinishResolve(v, ports);
      WrittenAlike(c, es, frozen, ports, i, j);
    } else {
      UndockedCommutes(c, es, frozen, ports, i, j);
    }
  }

  lemma UndockedCommutes(c: Configuration, es: seq<Entry>, frozen: set<string>, ports: Ports, i: nat, j: nat)
    requires Valid(c) && Parsed(es) && PendingKeys(c) == {} && i < |Start(c, es, frozen)| && j < |Start(c, es, frozen)[i].slots|
    requires var s := Start(c, es, frozen)[i].slots[j];
             s.route.docker.None? && Fold(s, Lower(Start(c, es, frozen)[i].host.domain), es).Ok?
    ensures var s := Start(c, es, frozen)[i].slots[j];
            var v := Fold(s, Lower(Start(c, es, frozen)[i].host.domain), es).value;
            && ResolveRoute(Finish(v), ports) == Finish(v) && Finish(ResolveSlot(v, ports)) == Finish(v)
            && Reordered(Finish(v), Finish(v))
  {
    var s := Start(c, es, frozen)[i].slots[j];
    StartResolved(c, es, frozen, ports, i, j);
    FoldFrame(s, Lower(Start(c, es, frozen)[i].host.domain), es);
  }

  lemma TargetAlike(s: Slot, domain: string, es: seq<Entry>, ports: Ports, t: Target, balance: Balance)
    requires Parsed(es) && Meets(s, domain, es, t)
    requires forall x :: x in Base(s) ==> x.address.Plain?
    requires forall k :: k in ports ==> 1 <= ports[k] <= 65535
    requires forall e :: e in es && e.target.address.Pending? ==> 1 <= e.target.port <= 65535
    ensures ValidTarget(t, balance) <==> ValidTarget(Resolve(t, ports), balance)
  {
    if t.address.Pending? {
      var e :| e in es && Aims(e, domain, s.route) && e.target == t;
    }
  }

  lemma TargetsAlike(s: Slot, domain: string, es: seq<Entry>, ports: Ports, v: Slot)
    requires Parsed(es) && Gathered(s, domain, es, v)
    requires forall x :: x in Base(s) ==> x.address.Plain?
    requires forall k :: k in ports ==> 1 <= ports[k] <= 65535
    requires forall e :: e in es && e.target.address.Pending? ==> 1 <= e.target.port <= 65535
    requires v.route.docker.Some?
    ensures var r, q := Finish(v), Finish(ResolveSlot(v, ports));
            && |RouteTargets(r)| == |RouteTargets(q)| && |Discovered(r)| == |Discovered(q)|
            && ((forall t :: t in RouteTargets(r) ==> ValidTarget(t, r.options.balance)) <==>
                (forall t :: t in RouteTargets(q) ==> ValidTarget(t, r.options.balance)))
  {
    var r, q := Finish(v), Finish(ResolveSlot(v, ports));
    WrittenTargets(v, ports);
    var balance := r.options.balance;
    hide ValidTarget, Finish, Resolve, ResolveSlot;
    forall x | x in Base(v) ensures ValidTarget(x, balance) <==> ValidTarget(Resolve(x, ports), balance) {
      TargetAlike(s, domain, es, ports, x, balance);
    }
    hide Gathered;
    forall x | x in Base(v) ensures Resolve(x, ports) in RouteTargets(q) {}
  }

  /** The targets of a route written back, and written back after substitution. */
  lemma WrittenTargets(v: Slot, ports: Ports)
    requires v.route.docker.Some?
    ensures var r, q := Finish(v), Finish(ResolveSlot(v, ports));
            && |RouteTargets(r)| == |RouteTargets(q)| && |Discovered(r)| == |Discovered(q)|
            && (forall t :: t in RouteTargets(r) <==> t in Base(v))
            && (forall t :: t in RouteTargets(q) <==> exists x :: x in Base(v) && Resolve(x, ports) == t)
  {
    hide Resolve;
    var r, q := Finish(v), Finish(ResolveSlot(v, ports));
    SortMembers(Discovered(v.route));
    SortMembers(ResolveAll(Discovered(v.route), ports));
    assert ResolveAll(Base(v), ports) == ResolveAll(v.route.targets, ports) + ResolveAll(Discovered(v.route), ports);
    forall t ensures t in RouteTargets(r) <==> t in Base(v) {}
    forall t ensures t in RouteTargets(q) <==> exists x :: x in Base(v) && Resolve(x, ports) == t {
      ResolveMembers(Base(v), ports, t);
    }
  }

  lemma SourcesAlike(a: Docker, b: Docker, ports: Ports)
    requires a.sources.Some? == b.sources.Some?
    requires a.sources.Some? ==> SameSources(ResolveSources(a.sources.value, ports), b.sources.value)
    requires MembersDiscovered(RecordedSources(a), a.targets) && Covered(RecordedSources(a), a.targets) && DistinctNames(RecordedSources(a))
    requires MembersDiscovered(RecordedSources(b), b.targets) && Covered(RecordedSources(b), b.targets) && DistinctNames(RecordedSources(b))
    ensures a.sources.Some? ==> (ValidSources(a.sources.value, a.targets) <==> ValidSources(b.sources.value, b.targets))
  {
    if a.sources.Some? {
      var x, y := a.sources.value, b.sources.value;
      forall i | 0 <= i < |x| ensures x[i].name == y[i].name && |x[i].members| == |y[i].members| {
        var m := ResolveSources(x, ports)[i].members;
        assert multiset(m) == multiset(y[i].members);
        assert |multiset(m)| == |m| && |multiset(y[i].members)| == |y[i].members|;
      }
    }
  }

  /** Both written routes pass or fail validation together. */
  lemma WrittenAlike(c: Configuration, es: seq<Entry>, frozen: set<string>, ports: Ports, i: nat, j: nat)
    requires Valid(c) && Parsed(es) && PendingKeys(c) == {} && FreshFor(c, es, frozen, ports)
    requires AllFold(Start(c, es, frozen), es) && i < |Start(c, es, frozen)| && j < |Start(c, es, frozen)[i].slots|
    requires Start(c, es, frozen)[i].slots[j].route.docker.Some?
    ensures var s := Start(c, es, frozen)[i].slots[j];
            var v := Fold(s, Lower(Start(c, es, frozen)[i].host.domain), es).value;
            ValidRoute(Finish(v)) <==> ValidRoute(Finish(ResolveSlot(v, ports)))
  {
    hide Fold, Valid, Fresh, ValidTarget, ValidSources, Covered, MembersDiscovered, SameSources;
    var s, domain := Start(c, es, frozen)[i].slots[j], Lower(Start(c, es, frozen)[i].host.domain);
    var v := Fold(s, domain, es).value;
    SlotCommutes(c, es, frozen, ports, i, j);
    FoldFrame(s, domain, es);
    StartResolved(c, es, frozen, ports, i, j);
    var r, q := Finish(v), Finish(ResolveSlot(v, ports));
    TargetsAlike(s, domain, es, ports, v);
    BothCovered(c, es, frozen, ports, i, j);
    hide FreshFor, PendingKeys, AllFold, Start, Gathered;
    FinishResolve(v, ports);
    SourcesAlike(r.docker.value, q.docker.value, ports);
  }

  /** Both written routes record exactly what they discovered. */
  lemma BothCovered(c: Configuration, es: seq<Entry>, frozen: set<string>, ports: Ports, i: nat, j: nat)
    requires Valid(c) && Parsed(es) && PendingKeys(c) == {} && FreshFor(c, es, frozen, ports)
    requires AllFold(Start(c, es, frozen), es) && i < |Start(c, es, frozen)| && j < |Start(c, es, frozen)[i].slots|
    requires Start(c, es, frozen)[i].slots[j].route.docker.Some?
    ensures var s := Start(c, es, frozen)[i].slots[j];
            var v := Fold(s, Lower(Start(c, es, frozen)[i].host.domain), es).value;
            var r, q := Finish(v), Finish(ResolveSlot(v, ports));
            && r.docker.Some? && q.docker.Some?
            && var a, b := r.docker.value, q.docker.value;
            && MembersDiscovered(RecordedSources(a), a.targets) && Covered(RecordedSources(a), a.targets) && DistinctNames(RecordedSources(a))
            && MembersDiscovered(RecordedSources(b), b.targets) && Covered(RecordedSources(b), b.targets) && DistinctNames(RecordedSources(b))
  {
    hide Fold, Valid, Fresh, Covered, MembersDiscovered, DistinctNames;
    var fs := ResolveEntries(es, ports);
    var s, domain := Start(c, es, frozen)[i].slots[j], Lower(Start(c, es, frozen)[i].host.domain);
    SlotCommutes(c, es, frozen, ports, i, j);
    AllFoldCommutes(c, es, frozen, ports);
    FoldFrame(s, domain, es);
    RebuiltRoute(c, es, frozen, i, j);
    RebuiltRoute(c, fs, frozen, i, j);
    assert Parsed(fs);
    CoverageHolds(c, es, frozen, i, j);
    CoverageHolds(c, fs, frozen, i, j);
  }

  /** Reconciling placeholders and then substituting the reserved ports gives, up to the order inside
      target and source lists, what reconciling the substituted entries gives; both succeed or fail together. */
  lemma MaterializeCommutes(c: Configuration, es: seq<Entry>, frozen: set<string>, ports: Ports)
    requires Valid(c) && Parsed(es) && PendingKeys(c) == {} && FreshFor(c, es, frozen, ports)
    ensures Succeeds(c, es, frozen) <==> Succeeds(c, ResolveEntries(es, ports), frozen)
    ensures Succeeds(c, es, frozen) ==>
              Alike(ResolveConfig(Rebuilt(c, es, frozen), ports), Rebuilt(c, ResolveEntries(es, ports), frozen))
  {
    hide Fold, Reordered, ValidRoute, Fresh;
    var fs := ResolveEntries(es, ports);
    AllFoldCommutes(c, es, frozen, ports);
    if AllFold(Start(c, es, frozen), es) {
      var a, b := Rebuilt(c, es, frozen), Rebuilt(c, fs, frozen);
      forall i | 0 <= i < |a.hosts|
        ensures b.hosts[i] == a.hosts[i].(routes := b.hosts[i].routes) && |b.hosts[i].routes| == |a.hosts[i].routes|
        ensures forall j :: 0 <= j < |a.hosts[i].routes| ==>
                  && Reordered(ResolveRoute(a.hosts[i].routes[j], ports), b.hosts[i].routes[j])
                  && (ValidRoute(a.hosts[i].routes[j]) <==> ValidRoute(b.hosts[i].routes[j]))
                  && a.hosts[i].routes[j].id == b.hosts[i].routes[j].id && a.hosts[i].routes[j].path == b.hosts[i].routes[j].path
      {
        RebuiltHost(c, es, frozen, i);
        RebuiltHost(c, fs, frozen, i);
        forall j | 0 <= j < |a.hosts[i].routes|
          ensures Reordered(ResolveRoute(a.hosts[i].routes[j], ports), b.hosts[i].routes[j])
          ensures ValidRoute(a.hosts[i].routes[j]) <==> ValidRoute(b.hosts[i].routes[j])
          ensures a.hosts[i].routes[j].id == b.hosts[i].routes[j].id && a.hosts[i].routes[j].path == b.hosts[i].routes[j].path
        {
          RouteCommutes(c, es, frozen, ports, i, j);
          ReorderedHeader(a.hosts[i].routes[j], b.hosts[i].routes[j], ports);
        }
      }
      ValidAlike(a, b);
    }
  }

  lemma ReorderedHeader(a: Route, b: Route, ports: Ports)
    requires Reordered(ResolveRoute(a, ports), b)
    ensures a.id == b.id && a.path == b.path
  {
  }

  lemma ValidAlike(a: Configuration, b: Configuration)
    requires a.settings == b.settings && |a.hosts| == |b.hosts|
    requires forall i :: 0 <= i < |a.hosts| ==>
               b.hosts[i] == a.hosts[i].(routes := b.hosts[i].routes) && |b.hosts[i].routes| == |a.hosts[i].routes|
    requires forall i, j :: 0 <= i < |a.hosts| && 0 <= j < |a.hosts[i].routes| ==>
               && (ValidRoute(a.hosts[i].routes[j]) <==> ValidRoute(b.hosts[i].routes[j]))
               && a.hosts[i].routes[j].id == b.hosts[i].routes[j].id && a.hosts[i].routes[j].path == b.hosts[i].routes[j].path
    ensures Valid(a) <==> Valid(b)
  {
    hide ValidRoute;
    forall i | 0 <= i < |a.hosts| ensures ValidHost(a.hosts[i]) <==> ValidHost(b.hosts[i]) {
      assert DistinctPaths(a.hosts[i].routes) <==> DistinctPaths(b.hosts[i].routes);
    }
    assert DistinctDomains(a.hosts) <==> DistinctDomains(b.hosts);
    assert DistinctIds(a.hosts) <==> DistinctIds(b.hosts);
  }
}
