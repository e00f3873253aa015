/** What a reconciliation does to a configuration, said of the configuration and the entries alone. */
module Outcome {
  import opened Text
  import opened Config
  import opened Endpoints
  import opened Labels
  import opened Ownership
  import opened Shapes
  import opened Records
  import opened Canonical
  import opened Reconciliation

  // ---- What entries ask for ----

  /** The label names this host and path. */
  predicate Addressed(e: Entry, domain: string, path: string) {
    e.spec.group == "" && e.spec.host == domain && e.spec.path == path
  }

  /** The label names the group of this route, which an editor made. */
  predicate Joined(e: Entry, r: Route) {
    e.spec.group != "" && r.docker.Some? && !r.docker.value.managed && r.docker.value.group == e.spec.group
  }

  predicate Reaches(e: Entry, domain: string, r: Route) {
    Addressed(e, domain, r.path) || Joined(e, r)
  }

  ghost predicate Exists(c: Configuration, domain: string, path: string) {
    exists i, j :: 0 <= i < |c.hosts| && 0 <= j < |c.hosts[i].routes| && Lower(c.hosts[i].domain) == domain && c.hosts[i].routes[j].path == path
  }

  /** The same target at the same endpoint, and one set of options from those who name the route. */
  predicate Consistent(a: Entry, b: Entry) {
    && (a.target.address == b.target.address && a.target.port == b.target.port ==> a.target == b.target)
    && (a.spec.group == "" && b.spec.group == "" ==> a.spec.options == b.spec.options)
  }

  /** A frozen source of the route holds the target, outside the manual list. */
  ghost predicate Holds(r: Route, frozen: set<string>, t: Target) {
    && r.docker.Some? && t !in r.targets
    && var d := r.docker.value;
    if d.sources.Some? then exists x :: 0 <= x < |d.sources.value| && d.sources.value[x].name in frozen && t in d.sources.value[x].members
    else LOCAL in frozen && t in d.targets
  }

  /** The first of some targets at an endpoint. */
  predicate Leads(ts: seq<Target>, n: int, t: Target) {
    0 <= n < |ts| && At(ts[n]) == At(t) && forall m :: 0 <= m < n ==> At(ts[m]) != At(t)
  }

  /** The first manual target at the endpoint, if there is one, is this target. */
  ghost predicate Suits(manual: seq<Target>, t: Target) {
    forall n :: Leads(manual, n, t) ==> manual[n] == t
  }

  /** An existing route takes an entry: one that names it finds it managed, with the same options if it still holds
      anything; and nothing else stands at the entry's endpoint. */
  ghost predicate Takes(r: Route, frozen: set<string>, e: Entry) {
    && r.docker.Some?
    && (e.spec.group == "" ==> r.docker.value.managed && ((exists t :: Holds(r, frozen, t)) ==> r.options == e.spec.options))
    && Suits(r.targets, e.target)
    && ((forall m :: m in r.targets ==> At(m) != At(e.target)) ==> forall t :: Holds(r, frozen, t) && At(t) == At(e.target) ==> t == e.target)
  }

  /** Every existing route takes the entries that reach it, and they agree; and so do those that name a missing route. */
  ghost predicate Absorbable(c: Configuration, es: seq<Entry>, frozen: set<string>) {
    && (forall i, j :: 0 <= i < |c.hosts| && 0 <= j < |c.hosts[i].routes| ==> Absorbs(c.hosts[i].routes[j], Lower(c.hosts[i].domain), es, frozen))
    && (forall d, p :: !Exists(c, d, p) ==> Unanimous(es, d, p))
  }

  ghost predicate Absorbs(r: Route, domain: string, es: seq<Entry>, frozen: set<string>) {
    && (forall e :: e in es && Reaches(e, domain, r) ==> Takes(r, frozen, e))
    && (forall a, b :: a in es && b in es && Reaches(a, domain, r) && Reaches(b, domain, r) ==> Consistent(a, b))
  }

  ghost predicate Unanimous(es: seq<Entry>, domain: string, path: string) {
    forall a, b :: a in es && b in es && Addressed(a, domain, path) && Addressed(b, domain, path) ==> Consistent(a, b)
  }

  // ---- What comes back ----

  /** A created route: managed, in no group, without manual targets, with the path and the options of the entries that
      name it, discovering exactly their targets. */
  ghost predicate Fresh(q: Route, domain: string, path: string, es: seq<Entry>) {
    && q.id == DockerRoute(domain, path) && q.name == "Docker " + path[..if |path| > 73 then 73 else |path|] && q.path == path
    && q.targets == [] && q.rewrite == None
    && (forall e :: e in es && Addressed(e, domain, path) ==> q.options == e.spec.options)
    && q.docker.Some? && q.docker.value.managed && q.docker.value.group == ""
    && (forall t :: t in q.docker.value.targets <==> exists e :: e in es && Addressed(e, domain, path) && e.target == t)
    && Sorted(q.docker.value.targets) && DistinctEndpoints(q.docker.value.targets)
    && (q.docker.value.sources.Some? <==> exists e :: e in es && Addressed(e, domain, path) && e.source != LOCAL)
  }

  /** What an existing route keeps, and what becomes of the rest of it. */
  ghost predicate Updated(r: Route, q: Route, domain: string, es: seq<Entry>, frozen: set<string>) {
    if r.docker.None? then q == r
    else
      && q.id == r.id && q.name == r.name && q.path == r.path && q.targets == r.targets && q.rewrite == r.rewrite
      && (forall e :: e in es && Addressed(e, domain, r.path) ==> q.options == e.spec.options)
      && ((forall e :: e in es ==> !Addressed(e, domain, r.path)) ==> q.options == r.options)
      && q.docker.Some? && q.docker.value.managed == r.docker.value.managed && q.docker.value.group == r.docker.value.group
      && (forall t :: t in q.docker.value.targets <==>
                      t !in r.targets && (Holds(r, frozen, t) || exists e :: e in es && Reaches(e, domain, r) && e.target == t))
      && Sorted(q.docker.value.targets)
      && (q.docker.value.sources.Some? <==>
            r.docker.value.sources.Some? || exists e :: e in es && Reaches(e, domain, r) && e.source != LOCAL && e.target !in r.targets)
  }

  /** A created host: enabled, without TLS, with the domain the labels name. */
  predicate Plainly(h: Host, domain: string) {
    h.id == DockerHost(domain) && h.domain == domain && h.enabled && h.tls == None
  }

  /** Everything that existed keeps its place and its settings, and its routes are updated. */
  ghost predicate Framed(c: Configuration, es: seq<Entry>, frozen: set<string>, r: Configuration) {
    && r.settings == c.settings && |c.hosts| <= |r.hosts|
    && forall i :: 0 <= i < |c.hosts| ==>
         && r.hosts[i] == c.hosts[i].(routes := r.hosts[i].routes) && |c.hosts[i].routes| <= |r.hosts[i].routes|
         && forall j :: 0 <= j < |c.hosts[i].routes| ==>
              Updated(c.hosts[i].routes[j], r.hosts[i].routes[j], Lower(c.hosts[i].domain), es, frozen)
  }

  /** Everything beyond that was missing and is named by an entry, and everything missing that is named is there. */
  ghost predicate Created(c: Configuration, es: seq<Entry>, r: Configuration) {
    && |c.hosts| <= |r.hosts|
    && (forall i :: |c.hosts| <= i < |r.hosts| ==> Plainly(r.hosts[i], Lower(r.hosts[i].domain)) && r.hosts[i].routes != [])
    && (forall i, j :: 0 <= i < |r.hosts| && 0 <= j < |r.hosts[i].routes| && !(i < |c.hosts| && j < |c.hosts[i].routes|) ==>
          var domain, path := Lower(r.hosts[i].domain), r.hosts[i].routes[j].path;
          !Exists(c, domain, path) && (exists e :: e in es && Addressed(e, domain, path)) && Fresh(r.hosts[i].routes[j], domain, path, es))
    && (forall e :: e in es && e.spec.group == "" ==> Exists(r, e.spec.host, e.spec.path))
  }

  // ---- One existing route ----

  lemma HoldsExactly(r: Route, frozen: set<string>, t: Target)
    requires r.docker.Some? && ValidDocker(r.docker.value, r.targets)
    ensures Holds(r, frozen, t) <==> t in Discovered(Prepare(r, frozen).route)
  {
    var s, d := Prepare(r, frozen), r.docker.value;
    var sources := RecordedSources(d);
    PreparePool(r, frozen, t);
    PrepareOwns(r, frozen, "");
    if Owned(s.owned, t) {
      var k := OwnedUnder(s.owned, t);
      PrepareOwns(r, frozen, k);
      WithoutMembers(Members(sources, k), r.targets, t);
      MembersNamed(sources, k, t);
      MembersIn(sources, k);
    }
    if Holds(r, frozen, t) {
      var x :| 0 <= x < |sources| && sources[x].name in frozen && t in sources[x].members;
      RecordedOwn(d, r.targets, t);
      PrepareOwns(r, frozen, sources[x].name);
      MembersAt(sources, x);
      WithoutMembers(Members(sources, sources[x].name), r.targets, t);
      MemberOwned(s.owned, sources[x].name, t);
    }
  }

  lemma {:induction false} MembersAt(sources: seq<Source>, x: nat)
    requires DistinctNames(sources) && x < |sources|
    ensures Members(sources, sources[x].name) == sources[x].members
  {
    if x > 0 {
      MembersAt(sources[1..], x - 1);
    }
  }

  lemma {:induction false} Leader(ts: seq<Target>, t: Target) returns (n: nat)
    requires Find(ts, At(t)).Some?
    ensures Leads(ts, n, t) && ts[n] == Find(ts, At(t)).value
  {
    if At(ts[0]) == At(t) {
      n := 0;
    } else {
      var m := Leader(ts[1..], t);
      n := m + 1;
      forall k | 0 <= k < n ensures At(ts[k]) != At(t) {
        if k > 0 { assert ts[1..][k - 1] == ts[k]; }
      }
    }
  }

  lemma SuitsFind(ts: seq<Target>, t: Target)
    ensures Suits(ts, t) <==> (Find(ts, At(t)).Some? ==> Find(ts, At(t)).value == t)
  {
    if Find(ts, At(t)).Some? {
      var n := Leader(ts, t);
      forall m | Leads(ts, m, t) ensures m == n {
        assert !(m < n) && !(n < m);
      }
      assert Suits(ts, t) ==> ts[n] == t;
    } else {
      forall m ensures !Leads(ts, m, t) {
        assert 0 <= m < |ts| ==> ts[m] in ts;
      }
    }
  }

  /** Preparing a route and asking whether it accepts an entry is asking the route itself. */
  lemma TakesExactly(r: Route, frozen: set<string>, e: Entry)
    requires (r.docker.Some? ==> ValidDocker(r.docker.value, r.targets)) && DistinctEndpoints(Discovered(r))
    ensures Takes(r, frozen, e) <==> Accepts(Prepare(r, frozen), e)
  {
    if r.docker.Some? {
      var s := Prepare(r, frozen);
      var kept := Discovered(s.route);
      PrepareOwns(r, frozen, "");
      PrepareClean(r, frozen);
      forall t ensures Holds(r, frozen, t) <==> t in kept { HoldsExactly(r, frozen, t); }
      hide Holds, Prepare;
      SuitsFind(r.targets, e.target);
      FindConcat(r.targets, kept, At(e.target));
      assert Base(s) == r.targets + kept;
      KeptAt(kept, e.target);
      assert kept != [] <==> exists t :: t in kept by {
        if kept != [] { assert kept[0] in kept; }
      }
    }
  }

  lemma KeptAt(kept: seq<Target>, t: Target)
    requires DistinctEndpoints(kept)
    ensures (Find(kept, At(t)).Some? ==> Find(kept, At(t)).value == t) <==> forall x :: x in kept && At(x) == At(t) ==> x == t
  {
    if Find(kept, At(t)).Some? {
      var y := Find(kept, At(t)).value;
      forall x | x in kept && At(x) == At(t) ensures x == y {
        var i, j :| 0 <= i < |kept| && 0 <= j < |kept| && kept[i] == x && kept[j] == y;
        assert !(i < j) && !(j < i);
      }
    }
  }

  lemma ReachesExactly(e: Entry, domain: string, r: Route, frozen: set<string>)
    ensures Reaches(e, domain, r) <==> Aims(e, domain, Prepare(r, frozen).route)
  {
  }

  lemma AbsorbsExactly(r: Route, domain: string, es: seq<Entry>, frozen: set<string>)
    requires (r.docker.Some? ==> ValidDocker(r.docker.value, r.targets)) && DistinctEndpoints(Discovered(r))
    ensures Absorbs(r, domain, es, frozen) <==> Fold(Prepare(r, frozen), domain, es).Ok?
  {
    var s := Prepare(r, frozen);
    FoldSucceeds(s, domain, es);
    forall e ensures Reaches(e, domain, r) <==> Aims(e, domain, s.route) { ReachesExactly(e, domain, r, frozen); }
    forall e ensures Takes(r, frozen, e) <==> Accepts(s, e) { TakesExactly(r, frozen, e); }
    hide Takes, Accepts, Reaches, Aims, Prepare, Fold;
    forall a, b ensures Consistent(a, b) <==> Agree(a, b) {}
  }

  // ---- One created route ----

  /** A created route takes the entries that name it, as long as they agree with each other. */
  lemma UnanimousExactly(spec: Spec, domain: string, es: seq<Entry>)
    requires spec.group == "" && spec.host == domain
    ensures Unanimous(es, domain, spec.path) <==> Fold(NewSlot(spec), domain, es).Ok?
  {
    var s := NewSlot(spec);
    FoldSucceeds(s, domain, es);
    forall e ensures Addressed(e, domain, spec.path) <==> Aims(e, domain, s.route) {}
    forall e | Addressed(e, domain, spec.path) ensures Accepts(s, e) {}
    hide Accepts, Aims, Fold;
    forall a, b ensures Consistent(a, b) <==> Agree(a, b) {}
  }

  // ---- Whole configurations ----

  /** The routes of the configuration come first, in their places. */
  lemma Within(c: Configuration, es: seq<Entry>, frozen: set<string>, i: nat, j: nat)
    requires Valid(c) && Parsed(es) && i < |c.hosts| && j < |c.hosts[i].routes|
    ensures i < |Start(c, es, frozen)| && Start(c, es, frozen)[i].host == c.hosts[i] && j < |Start(c, es, frozen)[i].slots|
    ensures Start(c, es, frozen)[i].slots[j] == Prepare(c.hosts[i].routes[j], frozen)
  {
    StartKeyed(c, es, frozen);
    var bs := PrepareAll(c.hosts, frozen);
    assert bs[i].slots <= Start(c, es, frozen)[i].slots;
    StartSlot(c, es, frozen, i, j);
  }

  /** Whatever lies beyond them was missing, and an entry names it. */
  lemma Beyond(c: Configuration, es: seq<Entry>, frozen: set<string>, i: nat, j: nat) returns (e: Entry)
    requires Valid(c) && Parsed(es) && i < |Start(c, es, frozen)| && j < |Start(c, es, frozen)[i].slots|
    requires !(i < |c.hosts| && j < |c.hosts[i].routes|)
    ensures var b := Start(c, es, frozen)[i];
            && !Exists(c, Lower(b.host.domain), b.slots[j].route.path)
            && e in es && Addressed(e, Lower(b.host.domain), b.slots[j].route.path) && b.slots[j] == NewSlot(e.spec)
  {
    var cs := Start(c, es, frozen);
    var domain, path := Lower(cs[i].host.domain), cs[i].slots[j].route.path;
    StartSlot(c, es, frozen, i, j);
    e :| e in es && Names(e, domain, path) && cs[i].slots[j] == NewSlot(e.spec);
    StartKeyed(c, es, frozen);
    hide Start, Valid, NewSlot;
    forall k, l | 0 <= k < |c.hosts| && 0 <= l < |c.hosts[k].routes|
      ensures !(Lower(c.hosts[k].domain) == domain && c.hosts[k].routes[l].path == path)
    {
      Within(c, es, frozen, k, l);
      PreparedPath(c.hosts[k].routes[l], frozen);
      assert KeyedSlots(cs[i].slots);
    }
  }

  lemma PreparedPath(r: Route, frozen: set<string>)
    ensures Prepare(r, frozen).route.path == r.path
  {
  }

  /** Every route that an entry names is there afterwards. */
  lemma Reached(c: Configuration, es: seq<Entry>, frozen: set<string>, e: Entry) returns (i: nat, j: nat)
    requires Valid(c) && Parsed(es) && e in es && e.spec.group == ""
    ensures i < |Start(c, es, frozen)| && j < |Start(c, es, frozen)[i].slots|
    ensures Lower(Start(c, es, frozen)[i].host.domain) == e.spec.host && Start(c, es, frozen)[i].slots[j].route.path == e.spec.path
  {
    StartKeyed(c, es, frozen);
    ShapeLookup(PrepareAll(c.hosts, frozen), es, e.spec.host, e.spec.path);
    assert Names(e, e.spec.host, e.spec.path);
    i := HostIndex(Start(c, es, frozen), e.spec.host).value;
    j := PathIndex(Start(c, es, frozen)[i].slots, e.spec.path).value;
  }

  lemma RouteOf(c: Configuration, i: nat, j: nat)
    requires Valid(c) && DistinctDiscovered(c) && i < |c.hosts| && j < |c.hosts[i].routes|
    ensures var r := c.hosts[i].routes[j]; (r.docker.Some? ==> ValidDocker(r.docker.value, r.targets)) && DistinctEndpoints(Discovered(r))
  {
    assert ValidHost(c.hosts[i]) && ValidRoute(c.hosts[i].routes[j]);
  }

  /** When the entries can be absorbed, said of the configuration alone. A route that is missing takes the entries that
      name it exactly if every two of them agree. */
  lemma AbsorbableExactly(c: Configuration, es: seq<Entry>, frozen: set<string>)
    requires Valid(c) && Parsed(es) && DistinctDiscovered(c)
    ensures AllFold(Start(c, es, frozen), es) <==> Absorbable(c, es, frozen)
  {
    var cs := Start(c, es, frozen);
    hide Valid, Start, Fold, Absorbs, Prepare, DistinctDiscovered, Parsed, NewSlot;
    if AllFold(cs, es) {
      forall i, j | 0 <= i < |c.hosts| && 0 <= j < |c.hosts[i].routes|
        ensures Absorbs(c.hosts[i].routes[j], Lower(c.hosts[i].domain), es, frozen)
      {
        Within(c, es, frozen, i, j);
        RouteOf(c, i, j);
        AbsorbsExactly(c.hosts[i].routes[j], Lower(c.hosts[i].domain), es, frozen);
      }
      forall d, p | !Exists(c, d, p) ensures Unanimous(es, d, p) {
        if e :| e in es && Addressed(e, d, p) {
          MissingUnanimous(c, es, frozen, e);
        }
      }
    }
    if Absorbable(c, es, frozen) {
      forall i, j | 0 <= i < |cs| && 0 <= j < |cs[i].slots| ensures Fold(cs[i].slots[j], Lower(cs[i].host.domain), es).Ok? {
        if i < |c.hosts| && j < |c.hosts[i].routes| {
          Within(c, es, frozen, i, j);
          RouteOf(c, i, j);
          AbsorbsExactly(c.hosts[i].routes[j], Lower(c.hosts[i].domain), es, frozen);
        } else {
          var e := Beyond(c, es, frozen, i, j);
          UnanimousExactly(e.spec, Lower(cs[i].host.domain), es);
        }
      }
    }
  }

  lemma MissingUnanimous(c: Configuration, es: seq<Entry>, frozen: set<string>, e: Entry)
    requires Valid(c) && Parsed(es) && AllFold(Start(c, es, frozen), es)
    requires e in es && e.spec.group == "" && !Exists(c, e.spec.host, e.spec.path)
    ensures Unanimous(es, e.spec.host, e.spec.path)
  {
    hide Valid, Start, Fold, Parsed, NewSlot, Unanimous;
    var i, j := Reached(c, es, frozen, e);
    if i < |c.hosts| && j < |c.hosts[i].routes| {
      Within(c, es, frozen, i, j);
      PreparedPath(c.hosts[i].routes[j], frozen);
      assert false;
    }
    var x := Beyond(c, es, frozen, i, j);
    UnanimousExactly(x.spec, e.spec.host, es);
  }

  lemma ForeignExactly(s: Slot, domain: string, es: seq<Entry>)
    requires Fold(s, domain, es).Ok?
    ensures Foreign(Fold(s, domain, es).value.owned) <==>
            || Foreign(s.owned)
            || exists e :: e in es && Aims(e, domain, s.route) && e.source != LOCAL && e.target !in s.route.targets
  {
    hide Fold, Aims;
    var v := Fold(s, domain, es).value;
    forall k ensures Named(v.owned, k) <==> Named(s.owned, k) || exists t :: t !in s.route.targets && Contributed(s, domain, es, k, t) {
      FoldMembers(s, domain, es, k);
    }
    if Foreign(v.owned) {
      var i :| 0 <= i < |v.owned| && v.owned[i].name != LOCAL;
      assert Named(v.owned, v.owned[i].name);
    }
    if e :| e in es && Aims(e, domain, s.route) && e.source != LOCAL && e.target !in s.route.targets {
      assert Contributed(s, domain, es, e.source, e.target);
      assert Named(v.owned, e.source);
    }
    if Foreign(s.owned) {
      var i :| 0 <= i < |s.owned| && s.owned[i].name != LOCAL;
      assert Named(s.owned, s.owned[i].name);
      assert Named(v.owned, s.owned[i].name);
    }
  }

  lemma PreparedForeign(r: Route, frozen: set<string>)
    requires r.docker.Some? && ValidDocker(r.docker.value, r.targets)
    ensures Foreign(Prepare(r, frozen).owned) ==> r.docker.value.sources.Some?
  {
    var s := Prepare(r, frozen);
    if Foreign(s.owned) {
      var i :| 0 <= i < |s.owned| && s.owned[i].name != LOCAL;
      PrepareOwns(r, frozen, s.owned[i].name);
      assert Named(s.owned, s.owned[i].name);
    }
  }

  /** What becomes of an existing route. */
  lemma UpdatedExactly(r: Route, domain: string, es: seq<Entry>, frozen: set<string>)
    requires (r.docker.Some? ==> ValidDocker(r.docker.value, r.targets)) && Fold(Prepare(r, frozen), domain, es).Ok?
    ensures Updated(r, Finish(Fold(Prepare(r, frozen), domain, es).value), domain, es, frozen)
  {
    hide Fold, Prepare, Finish, Holds, Reaches, Addressed, Aims, ValidDocker;
    UpdatedFrame(r, domain, es, frozen);
    if r.docker.Some? {
      UpdatedOptions(r, domain, es, frozen);
      UpdatedDiscovered(r, domain, es, frozen);
      UpdatedSources(r, domain, es, frozen);
    }
  }

  lemma UpdatedFrame(r: Route, domain: string, es: seq<Entry>, frozen: set<string>)
    requires Fold(Prepare(r, frozen), domain, es).Ok?
    ensures var q := Finish(Fold(Prepare(r, frozen), domain, es).value);
            && (r.docker.None? ==> q == r)
            && q.id == r.id && q.name == r.name && q.path == r.path && q.targets == r.targets && q.rewrite == r.rewrite
            && (r.docker.Some? ==> q.docker.Some? && q.docker.value.managed == r.docker.value.managed && q.docker.value.group == r.docker.value.group)
  {
    var s := Prepare(r, frozen);
    FoldFrame(s, domain, es);
    if r.docker.None? {
      FoldSucceeds(s, domain, es);
      FoldOptions(s, domain, es);
    }
    hide Fold;
  }

  lemma UpdatedOptions(r: Route, domain: string, es: seq<Entry>, frozen: set<string>)
    requires r.docker.Some? && Fold(Prepare(r, frozen), domain, es).Ok?
    ensures var q := Finish(Fold(Prepare(r, frozen), domain, es).value);
            && (forall e :: e in es && Addressed(e, domain, r.path) ==> q.options == e.spec.options)
            && ((forall e :: e in es ==> !Addressed(e, domain, r.path)) ==> q.options == r.options)
  {
    var s := Prepare(r, frozen);
    FoldOptions(s, domain, es);
    forall e ensures Addressed(e, domain, r.path) <==> Aims(e, domain, s.route) && Direct(e) {}
    hide Fold, Aims, Addressed;
  }

  lemma UpdatedDiscovered(r: Route, domain: string, es: seq<Entry>, frozen: set<string>)
    requires r.docker.Some? && ValidDocker(r.docker.value, r.targets) && Fold(Prepare(r, frozen), domain, es).Ok?
    ensures var q := Finish(Fold(Prepare(r, frozen), domain, es).value);
            && q.docker.Some? && Sorted(q.docker.value.targets)
            && forall t :: t in q.docker.value.targets <==>
                           t !in r.targets && (Holds(r, frozen, t) || exists e :: e in es && Reaches(e, domain, r) && e.target == t)
  {
    var s := Prepare(r, frozen);
    var v := Fold(s, domain, es).value;
    FoldFrame(s, domain, es);
    PrepareOwns(r, frozen, "");
    SortMembers(Discovered(v.route));
    SortKeeps(Discovered(v.route));
    forall e ensures Reaches(e, domain, r) <==> Aims(e, domain, s.route) { ReachesExactly(e, domain, r, frozen); }
    forall t ensures t in Discovered(v.route) <==>
                     t !in r.targets && (Holds(r, frozen, t) || exists e :: e in es && Reaches(e, domain, r) && e.target == t) {
      FoldTargets(s, domain, es, t);
      HoldsExactly(r, frozen, t);
    }
    hide Fold, Prepare, Holds, Reaches, Aims;
  }

  lemma UpdatedSources(r: Route, domain: string, es: seq<Entry>, frozen: set<string>)
    requires r.docker.Some? && ValidDocker(r.docker.value, r.targets) && Fold(Prepare(r, frozen), domain, es).Ok?
    ensures var q := Finish(Fold(Prepare(r, frozen), domain, es).value);
            && q.docker.Some?
            && (q.docker.value.sources.Some? <==>
                  r.docker.value.sources.Some? || exists e :: e in es && Reaches(e, domain, r) && e.source != LOCAL && e.target !in r.targets)
  {
    var s := Prepare(r, frozen);
    FoldFrame(s, domain, es);
    ForeignExactly(s, domain, es);
    PreparedForeign(r, frozen);
    forall e ensures Reaches(e, domain, r) <==> Aims(e, domain, s.route) { ReachesExactly(e, domain, r, frozen); }
    hide Fold, Reaches, Aims, Foreign;
  }

  /** What a created route becomes. */
  lemma FreshExactly(spec: Spec, domain: string, es: seq<Entry>, e: Entry)
    requires Fold(NewSlot(spec), domain, es).Ok? && e in es && Addressed(e, domain, spec.path) && e.spec == spec
    ensures Fresh(Finish(Fold(NewSlot(spec), domain, es).value), domain, spec.path, es)
  {
    var s := NewSlot(spec);
    var v := Fold(s, domain, es).value;
    FoldFrame(s, domain, es);
    FoldOptions(s, domain, es);
    ForeignExactly(s, domain, es);
    FoldDistinct(s, domain, es);
    SortDistinct(Discovered(v.route));
    SortMembers(Discovered(v.route));
    SortKeeps(Discovered(v.route));
    forall x ensures Addressed(x, domain, spec.path) <==> Aims(x, domain, s.route) {}
    forall t ensures t in Discovered(v.route) <==> exists x :: x in es && Addressed(x, domain, spec.path) && x.target == t {
      FoldTargets(s, domain, es, t);
    }
    hide Fold, Addressed, Aims;
  }

  /** A created host exists for the sake of a route. */
  lemma {:induction false} ShapeUsed(bs: seq<Bench>, es: seq<Entry>)
    requires Parsed(es)
    ensures |bs| <= |Shape(bs, es)| && forall i :: |bs| <= i < |Shape(bs, es)| ==> Shape(bs, es)[i].slots != []
  {
    if es != [] {
      ShapeUsed(bs, es[..|es| - 1]);
      ExtendUsed(Shape(bs, es[..|es| - 1]), es[|es| - 1]);
    }
  }

  lemma ExtendUsed(bs: seq<Bench>, e: Entry)
    requires Lower(e.spec.host) == e.spec.host
    ensures |bs| <= |Extend(bs, e)|
    ensures forall i :: 0 <= i < |bs| ==> |bs[i].slots| <= |Extend(bs, e)[i].slots|
    ensures forall i :: |bs| <= i < |Extend(bs, e)| ==> Extend(bs, e)[i].slots != []
  {
    if e.spec.group == "" && HostIndex(bs, e.spec.host).None? {
      var cs := bs + [NewBench(e.spec.host)];
      assert Lower(cs[|bs|].host.domain) == e.spec.host;
      assert HostIndex(cs, e.spec.host).Some?;
    }
  }

  lemma NewHosts(c: Configuration, es: seq<Entry>, frozen: set<string>, i: nat)
    requires Valid(c) && Parsed(es) && |c.hosts| <= i < |Start(c, es, frozen)|
    ensures var b := Start(c, es, frozen)[i]; Plainly(b.host, Lower(b.host.domain)) && b.slots != []
  {
    var bs, cs := PrepareAll(c.hosts, frozen), Start(c, es, frozen);
    var domain := Lower(cs[i].host.domain);
    ShapeUsed(bs, es);
    StartKeyed(c, es, frozen);
    ShapeLookup(bs, es, domain, "");
    HostAtIndex(cs, i);
    hide Valid, Start, Shape;
    if HostIndex(bs, domain).Some? {
      IndexFound(bs, cs, domain);
    }
    var e :| e in es && Direct(e) && e.spec.host == domain;
  }

  lemma FramedExactly(c: Configuration, es: seq<Entry>, frozen: set<string>)
    requires Valid(c) && Parsed(es) && AllFold(Start(c, es, frozen), es)
    ensures Framed(c, es, frozen, Rebuilt(c, es, frozen))
  {
    var r, cs := Rebuilt(c, es, frozen), Start(c, es, frozen);
    StartKeyed(c, es, frozen);
    forall i | 0 <= i < |c.hosts|
      ensures r.hosts[i] == c.hosts[i].(routes := r.hosts[i].routes) && |c.hosts[i].routes| <= |r.hosts[i].routes|
      ensures forall j :: 0 <= j < |c.hosts[i].routes| ==>
                Updated(c.hosts[i].routes[j], r.hosts[i].routes[j], Lower(c.hosts[i].domain), es, frozen)
    {
      RebuiltHost(c, es, frozen, i);
      forall j | 0 <= j < |c.hosts[i].routes|
        ensures Updated(c.hosts[i].routes[j], r.hosts[i].routes[j], Lower(c.hosts[i].domain), es, frozen)
      {
        hide Updated, Finish, Prepare, Fold;
        Within(c, es, frozen, i, j);
        RebuiltRoute(c, es, frozen, i, j);
        assert ValidHost(c.hosts[i]) && ValidRoute(c.hosts[i].routes[j]);
        UpdatedExactly(c.hosts[i].routes[j], Lower(c.hosts[i].domain), es, frozen);
      }
    }
  }

  lemma CreatedExactly(c: Configuration, es: seq<Entry>, frozen: set<string>)
    requires Valid(c) && Parsed(es) && AllFold(Start(c, es, frozen), es)
    ensures Created(c, es, Rebuilt(c, es, frozen))
  {
    hide Finish, Fold, Fresh, NewSlot, Valid, Plainly, Parsed;
    var r, cs := Rebuilt(c, es, frozen), Start(c, es, frozen);
    FramedExactly(c, es, frozen);
    hide Start, Rebuilt;
    forall i | |c.hosts| <= i < |r.hosts| ensures Plainly(r.hosts[i], Lower(r.hosts[i].domain)) && r.hosts[i].routes != [] {
      RebuiltSize(c, es, frozen);
      RebuiltHost(c, es, frozen, i);
      NewHosts(c, es, frozen, i);
      PlainlyRoutes(cs[i].host, r.hosts[i].routes);
    }
    forall i, j | 0 <= i < |r.hosts| && 0 <= j < |r.hosts[i].routes| && !(i < |c.hosts| && j < |c.hosts[i].routes|)
      ensures var domain, path := Lower(r.hosts[i].domain), r.hosts[i].routes[j].path;
              !Exists(c, domain, path) && (exists e :: e in es && Addressed(e, domain, path)) && Fresh(r.hosts[i].routes[j], domain, path, es)
    {
      RebuiltSize(c, es, frozen);
      RebuiltHost(c, es, frozen, i);
      RebuiltRoute(c, es, frozen, i, j);
      var e := Beyond(c, es, frozen, i, j);
      FreshExactly(e.spec, Lower(cs[i].host.domain), es, e);
    }
    forall e | e in es && e.spec.group == "" ensures Exists(r, e.spec.host, e.spec.path) {
      var i, j := Reached(c, es, frozen, e);
      RebuiltHost(c, es, frozen, i);
      RebuiltRoute(c, es, frozen, i, j);
    }
  }

  lemma PlainlyRoutes(h: Host, routes: seq<Route>)
    ensures Plainly(h, Lower(h.domain)) ==> Plainly(h.(routes := routes), Lower(h.domain))
  {
  }

  // ---- The same, written out ----

  /** Labels that name only missing routes are absorbed exactly if every two for one host and path agree on the options, and
      on the target where they have one endpoint. */
  lemma MissingAccept(c: Configuration, es: seq<Entry>, frozen: set<string>)
    requires Valid(c) && Parsed(es)
    requires forall e, i, j :: e in es && 0 <= i < |c.hosts| && 0 <= j < |c.hosts[i].routes| ==>
               e.spec.group == "" && !(Lower(c.hosts[i].domain) == e.spec.host && c.hosts[i].routes[j].path == e.spec.path)
    ensures AllFold(Start(c, es, frozen), es) <==>
            forall a, b :: a in es && b in es && a.spec.group == b.spec.group == "" && a.spec.host == b.spec.host && a.spec.path == b.spec.path ==>
                             && a.spec.options == b.spec.options
                             && (a.target.address == b.target.address && a.target.port == b.target.port ==> a.target == b.target)
  {
    var cs := Start(c, es, frozen);
    hide Valid, Start, Fold, Prepare, Parsed, NewSlot;
    if AllFold(cs, es) {
      forall a | a in es && a.spec.group == "" ensures Unanimous(es, a.spec.host, a.spec.path) {
        MissingUnanimous(c, es, frozen, a);
      }
      forall a, b | a in es && b in es && a.spec.group == b.spec.group == "" && a.spec.host == b.spec.host && a.spec.path == b.spec.path
        ensures Consistent(a, b)
      {
        assert Addressed(a, a.spec.host, a.spec.path) && Addressed(b, a.spec.host, a.spec.path);
      }
    } else {
      var i, j :| 0 <= i < |cs| && 0 <= j < |cs[i].slots| && Fold(cs[i].slots[j], Lower(cs[i].host.domain), es).Err?;
      if i < |c.hosts| && j < |c.hosts[i].routes| {
        Within(c, es, frozen, i, j);
        PreparedPath(c.hosts[i].routes[j], frozen);
        FoldIdle(cs[i].slots[j], Lower(cs[i].host.domain), es);
      } else {
        var e := Beyond(c, es, frozen, i, j);
        UnanimousExactly(e.spec, Lower(cs[i].host.domain), es);
      }
    }
  }

  /** Whatever is there beyond the old routes was missing and is what labels that name it ask for: managed, in no group,
      without manual targets, on their path and with their options, discovering exactly their targets. */
  lemma CreatedRoute(c: Configuration, es: seq<Entry>, frozen: set<string>, i: nat, j: nat)
    requires Valid(c) && Parsed(es) && AllFold(Start(c, es, frozen), es)
    requires i < |Rebuilt(c, es, frozen).hosts| && j < |Rebuilt(c, es, frozen).hosts[i].routes|
    requires i < |c.hosts| ==> j >= |c.hosts[i].routes|
    ensures var h := Rebuilt(c, es, frozen).hosts[i]; var q := h.routes[j]; var domain := Lower(h.domain);
            && (forall k, l :: 0 <= k < |c.hosts| && 0 <= l < |c.hosts[k].routes| ==>
                  !(Lower(c.hosts[k].domain) == domain && c.hosts[k].routes[l].path == q.path))
            && (exists e :: e in es && e.spec.group == "" && e.spec.host == domain && e.spec.path == q.path)
            && (i >= |c.hosts| ==> h.id == DockerHost(domain) && h.domain == domain && h.enabled && h.tls == None)
            && q.id == DockerRoute(domain, q.path) && q.name == "Docker " + (if |q.path| > 73 then q.path[..73] else q.path)
            && q.targets == [] && q.rewrite == None && q.docker.Some? && q.docker.value.managed && q.docker.value.group == ""
            && (forall e :: e in es && e.spec.group == "" && e.spec.host == domain && e.spec.path == q.path ==> q.options == e.spec.options)
            && (forall t :: t in q.docker.value.targets <==>
                            exists e :: e in es && e.spec.group == "" && e.spec.host == domain && e.spec.path == q.path && e.target == t)
  {
    hide Valid, Start, Rebuilt, Parsed;
    CreatedExactly(c, es, frozen);
    var q, domain := Rebuilt(c, es, frozen).hosts[i].routes[j], Lower(Rebuilt(c, es, frozen).hosts[i].domain);
    assert !Exists(c, domain, q.path) && Fresh(q, domain, q.path, es);
    forall e ensures Addressed(e, domain, q.path) <==> e.spec.group == "" && e.spec.host == domain && e.spec.path == q.path {}
  }

  /** Every label that names a missing route gets it. */
  lemma CreatedForAll(c: Configuration, es: seq<Entry>, frozen: set<string>, e: Entry) returns (i: nat, j: nat)
    requires Valid(c) && Parsed(es) && AllFold(Start(c, es, frozen), es) && e in es && e.spec.group == ""
    ensures var hosts := Rebuilt(c, es, frozen).hosts;
            && i < |hosts| && j < |hosts[i].routes| && Lower(hosts[i].domain) == e.spec.host && hosts[i].routes[j].path == e.spec.path
            && hosts[i].routes[j].options == e.spec.options && e.target in RouteTargets(hosts[i].routes[j])
  {
    hide Valid, Start, Rebuilt, Parsed;
    CreatedExactly(c, es, frozen);
    FramedExactly(c, es, frozen);
    var hosts := Rebuilt(c, es, frozen).hosts;
    i, j :| 0 <= i < |hosts| && 0 <= j < |hosts[i].routes| && Lower(hosts[i].domain) == e.spec.host && hosts[i].routes[j].path == e.spec.path;
    var q := hosts[i].routes[j];
    assert Addressed(e, e.spec.host, e.spec.path);
    if i < |c.hosts| && j < |c.hosts[i].routes| {
      NotManual(c, es, frozen, i, j, e);
      assert Updated(c.hosts[i].routes[j], q, e.spec.host, es, frozen);
      assert Reaches(e, e.spec.host, c.hosts[i].routes[j]);
    } else {
      assert Fresh(q, e.spec.host, e.spec.path, es);
    }
  }

  /** A route that a label names belongs to Docker. */
  lemma NotManual(c: Configuration, es: seq<Entry>, frozen: set<string>, i: nat, j: nat, e: Entry)
    requires Valid(c) && Parsed(es) && AllFold(Start(c, es, frozen), es) && e in es && e.spec.group == ""
    requires i < |c.hosts| && j < |c.hosts[i].routes| && Lower(c.hosts[i].domain) == e.spec.host && c.hosts[i].routes[j].path == e.spec.path
    ensures c.hosts[i].routes[j].docker.Some?
  {
    var r := c.hosts[i].routes[j];
    Within(c, es, frozen, i, j);
    FoldSucceeds(Prepare(r, frozen), e.spec.host, es);
    assert Aims(e, e.spec.host, Prepare(r, frozen).route);
    assert Accepts(Prepare(r, frozen), e);
  }

  /** A route that existed keeps its place, identity, name, path, manual targets and rewrite rules, whether it is managed
      and its group, and its options unless a label names it. Without a Docker part it comes back as it was. Its discovered
      targets are what frozen sources held and what labels that name it, or its group, report. */
  lemma ExistingRoute(c: Configuration, es: seq<Entry>, frozen: set<string>, i: nat, j: nat)
    requires Valid(c) && Parsed(es) && AllFold(Start(c, es, frozen), es) && i < |c.hosts| && j < |c.hosts[i].routes|
    ensures i < |Rebuilt(c, es, frozen).hosts| && j < |Rebuilt(c, es, frozen).hosts[i].routes|
    ensures Rebuilt(c, es, frozen).settings == c.settings
    ensures Rebuilt(c, es, frozen).hosts[i] == c.hosts[i].(routes := Rebuilt(c, es, frozen).hosts[i].routes)
    ensures var r, q, domain := c.hosts[i].routes[j], Rebuilt(c, es, frozen).hosts[i].routes[j], Lower(c.hosts[i].domain);
            && q.id == r.id && q.name == r.name && q.path == r.path && q.targets == r.targets && q.rewrite == r.rewrite
            && (r.docker.None? ==> q == r)
            && (r.docker.Some? ==>
                  && q.docker.Some? && q.docker.value.managed == r.docker.value.managed && q.docker.value.group == r.docker.value.group
                  && (forall e :: e in es && e.spec.group == "" && e.spec.host == domain && e.spec.path == r.path ==> q.options == e.spec.options)
                  && ((forall e :: e in es ==> !(e.spec.group == "" && e.spec.host == domain && e.spec.path == r.path)) ==> q.options == r.options)
                  && forall t :: t in q.docker.value.targets <==>
                       && t !in r.targets
                       && (|| (if r.docker.value.sources.Some?
                               then exists x :: x in r.docker.value.sources.value && x.name in frozen && t in x.members
                               else "local" in frozen && t in r.docker.value.targets)
                           || exists e :: && e in es && e.target == t
                                          && if e.spec.group == "" then e.spec.host == domain && e.spec.path == r.path
                                             else !r.docker.value.managed && r.docker.value.group == e.spec.group))
  {
    hide Valid, Start, Rebuilt, Parsed;
    FramedExactly(c, es, frozen);
    var r, q, domain := c.hosts[i].routes[j], Rebuilt(c, es, frozen).hosts[i].routes[j], Lower(c.hosts[i].domain);
    assert Updated(r, q, domain, es, frozen);
    if r.docker.Some? {
      UpdatedTargets(r, q, domain, es, frozen);
      forall e ensures Addressed(e, domain, r.path) <==> e.spec.group == "" && e.spec.host == domain && e.spec.path == r.path {}
    }
  }

  lemma UpdatedTargets(r: Route, q: Route, domain: string, es: seq<Entry>, frozen: set<string>)
    requires r.docker.Some? && Updated(r, q, domain, es, frozen)
    ensures forall t :: t in q.docker.value.targets <==>
                        && t !in r.targets
                        && (|| (if r.docker.value.sources.Some?
                                then exists x :: x in r.docker.value.sources.value && x.name in frozen && t in x.members
                                else "local" in frozen && t in r.docker.value.targets)
                            || exists e :: && e in es && e.target == t
                                           && if e.spec.group == "" then e.spec.host == domain && e.spec.path == r.path
                                              else !r.docker.value.managed && r.docker.value.group == e.spec.group)
  {
    forall e ensures Reaches(e, domain, r) <==> if e.spec.group == "" then e.spec.host == domain && e.spec.path == r.path
                                                else !r.docker.value.managed && r.docker.value.group == e.spec.group {}
    forall t ensures Holds(r, frozen, t) <==> t !in r.targets && if r.docker.value.sources.Some?
                                                                 then exists x :: x in r.docker.value.sources.value && x.name in frozen && t in x.members
                                                                 else "local" in frozen && t in r.docker.value.targets {}
    hide Reaches, Holds;
  }
}
