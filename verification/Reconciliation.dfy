/** The results about whole configurations: canonical, idempotent, and exact about ownership. */
module Reconciliation {
  import opened Text
  import opened Config
  import opened Endpoints
  import opened Labels
  import opened Ownership
  import opened Shapes
  import opened Records
  import opened Canonical
  import opened Idempotence

  // ---- Slots at the start ----

  lemma StartKeyed(c: Configuration, es: seq<Entry>, frozen: set<string>)
    requires Valid(c) && Parsed(es)
    ensures Keyed(PrepareAll(c.hosts, frozen))
    ensures Keyed(Start(c, es, frozen)) && Grown(PrepareAll(c.hosts, frozen), Start(c, es, frozen))
  {
    var bs := PrepareAll(c.hosts, frozen);
    forall i | 0 <= i < |bs| ensures KeyedSlots(bs[i].slots) {
      assert ValidHost(c.hosts[i]);
    }
    ShapeKeyed(bs, es);
  }

  /** A slot is a prepared route of the configuration or one created by an entry. */
  lemma StartSlot(c: Configuration, es: seq<Entry>, frozen: set<string>, i: nat, j: nat)
    requires Valid(c) && Parsed(es)
    requires i < |Start(c, es, frozen)| && j < |Start(c, es, frozen)[i].slots|
    ensures var b := Start(c, es, frozen)[i];
            if i < |c.hosts| && j < |c.hosts[i].routes| then b.slots[j] == Prepare(c.hosts[i].routes[j], frozen)
            else exists e :: e in es && Names(e, Lower(b.host.domain), b.slots[j].route.path) && b.slots[j] == NewSlot(e.spec)
  {
    StartKeyed(c, es, frozen);
    var bs, cs := PrepareAll(c.hosts, frozen), Start(c, es, frozen);
    var domain, path := Lower(cs[i].host.domain), cs[i].slots[j].route.path;
    SlotAtIndex(cs, i, j);
    ShapeLookup(bs, es, domain, path);
    if SlotAt(bs, domain, path).Some? {
      GrownPlace(bs, cs, i, j);
    }
    if i < |c.hosts| && j < |c.hosts[i].routes| {
      SlotAtIndex(bs, i, j);
    }
  }

  /** A slot that could be looked up before keeps its place. */
  lemma GrownPlace(bs: seq<Bench>, cs: seq<Bench>, i: nat, j: nat)
    requires Keyed(bs) && Keyed(cs) && Grown(bs, cs) && i < |cs| && j < |cs[i].slots|
    requires SlotAt(bs, Lower(cs[i].host.domain), cs[i].slots[j].route.path).Some?
    ensures i < |bs| && j < |bs[i].slots| && bs[i].slots[j] == cs[i].slots[j]
  {
    var h := HostIndex(bs, Lower(cs[i].host.domain)).value;
    var p := PathIndex(bs[h].slots, cs[i].slots[j].route.path).value;
    assert cs[h].host == bs[h].host && bs[h].slots <= cs[h].slots;
    assert h == i;
    assert cs[i].slots[p] == bs[i].slots[p];
    assert KeyedSlots(cs[i].slots);
    assert p == j;
  }

  lemma StartSound(c: Configuration, es: seq<Entry>, frozen: set<string>, i: nat, j: nat)
    requires Valid(c) && Parsed(es)
    requires i < |Start(c, es, frozen)| && j < |Start(c, es, frozen)[i].slots|
    ensures Sound(Start(c, es, frozen)[i].slots[j], frozen)
    ensures DistinctDiscovered(c) ==> Clean(Start(c, es, frozen)[i].slots[j], frozen)
  {
    StartSlot(c, es, frozen, i, j);
    if i < |c.hosts| && j < |c.hosts[i].routes| {
      assert ValidHost(c.hosts[i]) && ValidRoute(c.hosts[i].routes[j]);
      PrepareSound(c.hosts[i].routes[j], frozen);
      if DistinctDiscovered(c) {
        PrepareClean(c.hosts[i].routes[j], frozen);
      }
    }
  }

  lemma StartSoundAt(c: Configuration, es: seq<Entry>, frozen: set<string>, domain: string, path: string)
    requires Valid(c) && Parsed(es) && DistinctDiscovered(c)
    requires SlotAt(Start(c, es, frozen), domain, path).Some?
    ensures Clean(SlotAt(Start(c, es, frozen), domain, path).value, frozen)
  {
    var cs := Start(c, es, frozen);
    var i := HostIndex(cs, domain).value;
    StartSound(c, es, frozen, i, PathIndex(cs[i].slots, path).value);
  }

  /** The same route starts alike for the same entries in another order. */
  lemma StartTwin(c: Configuration, es: seq<Entry>, fs: seq<Entry>, frozen: set<string>, domain: string, path: string)
    requires Valid(c) && Parsed(es) && Parsed(fs) && SameEntries(es, fs)
    ensures var s, t := SlotAt(Start(c, es, frozen), domain, path), SlotAt(Start(c, fs, frozen), domain, path);
            && s.Some? == t.Some?
            && (s.Some? ==> Twin(s.value, t.value, domain, es))
    ensures HostAt(Start(c, es, frozen), domain) == HostAt(Start(c, fs, frozen), domain)
  {
    StartKeyed(c, es, frozen);
    var bs := PrepareAll(c.hosts, frozen);
    ShapeLookup(bs, es, domain, path);
    ShapeLookup(bs, fs, domain, path);
    var s, t := SlotAt(Start(c, es, frozen), domain, path), SlotAt(Start(c, fs, frozen), domain, path);
    if s.Some? && SlotAt(bs, domain, path).None? {
      var e :| e in es && Names(e, domain, path) && s.value == NewSlot(e.spec);
      assert Aims(e, domain, s.value.route);
    }
  }

  // ---- The rebuilt routes ----

  lemma RebuiltRoute(c: Configuration, es: seq<Entry>, frozen: set<string>, i: nat, j: nat)
    requires AllFold(Start(c, es, frozen), es)
    requires i < |Start(c, es, frozen)| && j < |Start(c, es, frozen)[i].slots|
    ensures var b, r := Start(c, es, frozen)[i], Rebuilt(c, es, frozen);
            && |r.hosts| == |Start(c, es, frozen)| && |r.hosts[i].routes| == |b.slots|
            && Fold(b.slots[j], Lower(b.host.domain), es).Ok?
            && r.hosts[i].routes[j] == Finish(Fold(b.slots[j], Lower(b.host.domain), es).value)
            && r.hosts[i].routes[j].path == b.slots[j].route.path
  {
    var b := Start(c, es, frozen)[i];
    FoldFrame(b.slots[j], Lower(b.host.domain), es);
  }

  lemma RebuiltHost(c: Configuration, es: seq<Entry>, frozen: set<string>, i: nat)
    requires AllFold(Start(c, es, frozen), es) && i < |Start(c, es, frozen)|
    ensures var b, r := Start(c, es, frozen)[i], Rebuilt(c, es, frozen);
            && |r.hosts| == |Start(c, es, frozen)|
            && r.hosts[i] == b.host.(routes := r.hosts[i].routes) && |r.hosts[i].routes| == |b.slots|
  {
  }

  lemma RebuiltKeyed(c: Configuration, es: seq<Entry>, frozen: set<string>)
    requires Valid(c) && Parsed(es) && AllFold(Start(c, es, frozen), es)
    ensures var hosts := Rebuilt(c, es, frozen).hosts;
            DistinctDomains(hosts) && forall i :: 0 <= i < |hosts| ==> DistinctPaths(hosts[i].routes)
  {
    StartKeyed(c, es, frozen);
    var hosts, cs := Rebuilt(c, es, frozen).hosts, Start(c, es, frozen);
    forall i | 0 <= i < |hosts| ensures hosts[i].domain == cs[i].host.domain && DistinctPaths(hosts[i].routes) {
      RebuiltHost(c, es, frozen, i);
      forall j, l | 0 <= j < l < |hosts[i].routes| ensures hosts[i].routes[j].path != hosts[i].routes[l].path {
        RebuiltRoute(c, es, frozen, i, j);
        RebuiltRoute(c, es, frozen, i, l);
        assert KeyedSlots(cs[i].slots);
      }
    }
  }

  // ---- Configurations equal up to the order of hosts and routes ----

  ghost predicate SameHost(a: Host, b: Host) {
    && a.(routes := []) == b.(routes := [])
    && |a.routes| == |b.routes|
    && forall r :: r in a.routes <==> r in b.routes
  }

  ghost predicate SameView(a: Configuration, b: Configuration) {
    && a.settings == b.settings
    && |a.hosts| == |b.hosts|
    && (forall i :: 0 <= i < |a.hosts| ==> Listed(a.hosts[i], b.hosts))
    && (forall k :: 0 <= k < |b.hosts| ==> Listed(b.hosts[k], a.hosts))
  }

  ghost predicate Listed(h: Host, hosts: seq<Host>) {
    exists i :: 0 <= i < |hosts| && SameHost(h, hosts[i])
  }

  lemma {:induction false} DistinctSize(s: seq<string>)
    requires forall i, j :: 0 <= i < j < |s| ==> s[i] != s[j]
    ensures |set x | x in s| == |s|
  {
    if s != [] {
      DistinctSize(s[1..]);
      assert (set x | x in s) == {s[0]} + (set x | x in s[1..]);
    }
  }

  lemma SameSize(a: seq<string>, b: seq<string>)
    requires forall i, j :: 0 <= i < j < |a| ==> a[i] != a[j]
    requires forall i, j :: 0 <= i < j < |b| ==> b[i] != b[j]
    requires forall x :: x in a <==> x in b
    ensures |a| == |b|
  {
    DistinctSize(a);
    DistinctSize(b);
    assert (set x | x in a) == (set x | x in b);
  }

  /** Where route `j` of host `i` lies among the results for the other order. */
  lemma CounterpartRoute(c: Configuration, es: seq<Entry>, fs: seq<Entry>, frozen: set<string>, i: nat, j: nat) returns (k: nat, l: nat)
    requires Valid(c) && Parsed(es) && Parsed(fs) && SameEntries(es, fs) && Thawed(es, frozen) && DistinctDiscovered(c)
    requires AllFold(Start(c, es, frozen), es) && AllFold(Start(c, fs, frozen), fs)
    requires i < |Rebuilt(c, es, frozen).hosts| && j < |Rebuilt(c, es, frozen).hosts[i].routes|
    ensures var a, b := Rebuilt(c, es, frozen).hosts, Rebuilt(c, fs, frozen).hosts;
            && HostIndex(Start(c, fs, frozen), Lower(a[i].domain)) == Some(k) && k < |b|
            && l < |b[k].routes| && b[k].routes[l] == a[i].routes[j]
  {
    StartKeyed(c, es, frozen);
    StartKeyed(c, fs, frozen);
    var ss, ts := Start(c, es, frozen), Start(c, fs, frozen);
    RebuiltHost(c, es, frozen, i);
    RebuiltRoute(c, es, frozen, i, j);
    SlotAtIndex(ss, i, j);
    var domain, path := Lower(ss[i].host.domain), ss[i].slots[j].route.path;
    StartTwin(c, es, fs, frozen, domain, path);
    k := HostIndex(ts, domain).value;
    l := PathIndex(ts[k].slots, path).value;
    StartSound(c, es, frozen, i, j);
    TwinFinish(ss[i].slots[j], ts[k].slots[l], domain, es, fs, frozen);
    RebuiltRoute(c, fs, frozen, k, l);
  }

  lemma RebuiltSize(c: Configuration, es: seq<Entry>, frozen: set<string>)
    requires AllFold(Start(c, es, frozen), es)
    ensures |Rebuilt(c, es, frozen).hosts| == |Start(c, es, frozen)|
  {
  }

  lemma CounterpartRoutes(c: Configuration, es: seq<Entry>, fs: seq<Entry>, frozen: set<string>, i: nat, k: nat)
    requires Valid(c) && Parsed(es) && Parsed(fs) && SameEntries(es, fs) && Thawed(es, frozen) && DistinctDiscovered(c)
    requires AllFold(Start(c, es, frozen), es) && AllFold(Start(c, fs, frozen), fs)
    requires i < |Rebuilt(c, es, frozen).hosts| && k < |Rebuilt(c, fs, frozen).hosts|
    requires HostIndex(Start(c, fs, frozen), Lower(Rebuilt(c, es, frozen).hosts[i].domain)) == Some(k)
    ensures forall r :: r in Rebuilt(c, es, frozen).hosts[i].routes ==> r in Rebuilt(c, fs, frozen).hosts[k].routes
  {
    hide *;
    var routes := Rebuilt(c, es, frozen).hosts[i].routes;
    forall r | r in routes ensures r in Rebuilt(c, fs, frozen).hosts[k].routes {
      var j :| 0 <= j < |routes| && routes[j] == r;
      var n, l := CounterpartRoute(c, es, fs, frozen, i, j);
    }
  }

  lemma CounterpartHost(c: Configuration, es: seq<Entry>, fs: seq<Entry>, frozen: set<string>, i: nat) returns (k: nat)
    requires Valid(c) && Parsed(es) && Parsed(fs) && SameEntries(es, fs) && Thawed(es, frozen) && DistinctDiscovered(c)
    requires AllFold(Start(c, es, frozen), es) && AllFold(Start(c, fs, frozen), fs)
    requires i < |Rebuilt(c, es, frozen).hosts|
    ensures k < |Rebuilt(c, fs, frozen).hosts| && SameHost(Rebuilt(c, es, frozen).hosts[i], Rebuilt(c, fs, frozen).hosts[k])
    ensures HostIndex(Start(c, fs, frozen), Lower(Rebuilt(c, es, frozen).hosts[i].domain)) == Some(k)
  {
    hide Rebuilt, Start, Valid, Parsed, AllFold, DistinctDiscovered;
    StartKeyed(c, es, frozen);
    StartKeyed(c, fs, frozen);
    RebuiltSize(c, es, frozen);
    RebuiltHost(c, es, frozen, i);
    var domain := Lower(Rebuilt(c, es, frozen).hosts[i].domain);
    StartTwin(c, es, fs, frozen, domain, "");
    HostAtIndex(Start(c, es, frozen), i);
    k := HostIndex(Start(c, fs, frozen), domain).value;
    RebuiltHost(c, fs, frozen, k);
    assert SameEntries(fs, es) && Thawed(fs, frozen);
    CounterpartRoutes(c, es, fs, frozen, i, k);
    CounterpartRoutes(c, fs, es, frozen, k, i);
    RebuiltKeyed(c, es, frozen);
    RebuiltKeyed(c, fs, frozen);
    SamePathCount(Rebuilt(c, es, frozen).hosts[i].routes, Rebuilt(c, fs, frozen).hosts[k].routes);
  }

  lemma SamePathCount(a: seq<Route>, b: seq<Route>)
    requires DistinctPaths(a) && DistinctPaths(b) && forall r :: r in a <==> r in b
    ensures |a| == |b|
  {
    var p, q := seq(|a|, i requires 0 <= i < |a| => a[i].path), seq(|b|, i requires 0 <= i < |b| => b[i].path);
    forall x ensures x in p <==> x in q {
      if x in p {
        var i :| 0 <= i < |p| && p[i] == x;
        assert a[i] in b;
        var j :| 0 <= j < |b| && b[j] == a[i];
        assert q[j] == x;
      }
      if x in q {
        var i :| 0 <= i < |q| && q[i] == x;
        assert b[i] in a;
        var j :| 0 <= j < |a| && a[j] == b[i];
        assert p[j] == x;
      }
    }
    SameSize(p, q);
  }

  lemma {:induction false} SameHostCount(c: Configuration, es: seq<Entry>, fs: seq<Entry>, frozen: set<string>)
    requires Valid(c) && Parsed(es) && Parsed(fs) && SameEntries(es, fs) && Thawed(es, frozen) && DistinctDiscovered(c)
    requires AllFold(Start(c, es, frozen), es) && AllFold(Start(c, fs, frozen), fs)
    ensures |Rebuilt(c, es, frozen).hosts| == |Rebuilt(c, fs, frozen).hosts|
  {
    var a, b := Rebuilt(c, es, frozen).hosts, Rebuilt(c, fs, frozen).hosts;
    RebuiltKeyed(c, es, frozen);
    RebuiltKeyed(c, fs, frozen);
    var p := seq(|a|, i requires 0 <= i < |a| => Lower(a[i].domain));
    var q := seq(|b|, i requires 0 <= i < |b| => Lower(b[i].domain));
    assert Thawed(fs, frozen);
    assert DistinctDomains(a) && DistinctDomains(b);
    hide Valid, Rebuilt, Start, Fold, DistinctDiscovered, SameHost;
    forall i | 0 <= i < |p| ensures p[i] in q {
      var k := CounterpartHost(c, es, fs, frozen, i);
      assert q[k] == p[i];
    }
    forall i | 0 <= i < |q| ensures q[i] in p {
      var k := CounterpartHost(c, fs, es, frozen, i);
      assert p[k] == q[i];
    }
    SameSize(p, q);
  }

  lemma AllFoldCanonical(c: Configuration, es: seq<Entry>, fs: seq<Entry>, frozen: set<string>)
    requires Valid(c) && Parsed(es) && Parsed(fs) && SameEntries(es, fs) && Thawed(es, frozen) && DistinctDiscovered(c)
    requires AllFold(Start(c, es, frozen), es)
    ensures AllFold(Start(c, fs, frozen), fs)
  {
    StartKeyed(c, es, frozen);
    StartKeyed(c, fs, frozen);
    var ss, ts := Start(c, es, frozen), Start(c, fs, frozen);
    AllFoldByKey(ss, es);
    AllFoldByKey(ts, fs);
    forall d, p | SlotAt(ts, d, p).Some? ensures Fold(SlotAt(ts, d, p).value, d, fs).Ok? {
      StartTwin(c, es, fs, frozen, d, p);
      StartSoundAt(c, es, frozen, d, p);
      TwinFinish(SlotAt(ss, d, p).value, SlotAt(ts, d, p).value, d, es, fs, frozen);
    }
  }

  /** Validity does not depend on the order of hosts and routes. */
  lemma ValidView(a: Configuration, b: Configuration)
    requires SameView(a, b) && Valid(a)
    requires DistinctDomains(b.hosts) && forall k :: 0 <= k < |b.hosts| ==> DistinctPaths(b.hosts[k].routes)
    ensures Valid(b)
  {
    forall k | 0 <= k < |b.hosts| ensures ValidHost(b.hosts[k]) {
      var i :| 0 <= i < |a.hosts| && SameHost(b.hosts[k], a.hosts[i]);
      assert ValidHost(a.hosts[i]);
      forall l | 0 <= l < |b.hosts[k].routes| ensures ValidRoute(b.hosts[k].routes[l]) {
        assert b.hosts[k].routes[l] in a.hosts[i].routes;
      }
    }
    DistinctIdsView(a.hosts, b.hosts);
  }

  lemma DistinctIdsView(a: seq<Host>, b: seq<Host>)
    requires DistinctIds(a) && DistinctDomains(b)
    requires forall k :: 0 <= k < |b| ==> DistinctPaths(b[k].routes)
    requires forall k :: 0 <= k < |b| ==> Listed(b[k], a)
    ensures DistinctIds(b)
  {
    hide SameHost, Listed;
    forall k, l | 0 <= k < l < |b| ensures b[k].id != b[l].id {
      var i := ListedAt(b[k], a);
      var j := ListedAt(b[l], a);
    }
    forall k, l, w | 0 <= k < |b| && 0 <= l < |b| && 0 <= w < |b[l].routes| ensures b[k].id != b[l].routes[w].id {
      var i := ListedAt(b[k], a);
      var j := ListedAt(b[l], a);
      var y := RouteListed(b[l].routes[w], a[j].routes);
    }
    forall k, w, l, x | 0 <= k < |b| && 0 <= w < |b[k].routes| && 0 <= l < |b| && 0 <= x < |b[l].routes| &&
                        b[k].routes[w].id == b[l].routes[x].id
      ensures k == l && w == x
    {
      var i := ListedAt(b[k], a);
      var j := ListedAt(b[l], a);
      var y := RouteListed(b[k].routes[w], a[i].routes);
      var z := RouteListed(b[l].routes[x], a[j].routes);
      assert i == j && y == z;
      assert a[i].domain == b[k].domain == b[l].domain;
      assert k == l;
      assert b[k].routes[w].path == b[l].routes[x].path;
    }
  }

  lemma ListedAt(h: Host, hosts: seq<Host>) returns (i: nat)
    requires Listed(h, hosts)
    ensures i < |hosts| && hosts[i].id == h.id && hosts[i].domain == h.domain && forall r :: r in h.routes ==> r in hosts[i].routes
  {
    i :| 0 <= i < |hosts| && SameHost(h, hosts[i]);
  }

  lemma RouteListed(r: Route, routes: seq<Route>) returns (i: nat)
    requires r in routes
    ensures i < |routes| && routes[i] == r
  {
    i :| 0 <= i < |routes| && routes[i] == r;
  }

  lemma ViewCanonical(c: Configuration, es: seq<Entry>, fs: seq<Entry>, frozen: set<string>)
    requires Valid(c) && Parsed(es) && Parsed(fs) && SameEntries(es, fs) && Thawed(es, frozen) && DistinctDiscovered(c)
    requires AllFold(Start(c, es, frozen), es) && AllFold(Start(c, fs, frozen), fs)
    ensures SameView(Rebuilt(c, es, frozen), Rebuilt(c, fs, frozen))
  {
    var a, b := Rebuilt(c, es, frozen), Rebuilt(c, fs, frozen);
    assert Thawed(fs, frozen);
    SameHostCount(c, es, fs, frozen);
    forall i | 0 <= i < |a.hosts| ensures Listed(a.hosts[i], b.hosts) {
      var k := CounterpartHost(c, es, fs, frozen, i);
    }
    forall k | 0 <= k < |b.hosts| ensures Listed(b.hosts[k], a.hosts) {
      var i := CounterpartHost(c, fs, es, frozen, k);
    }
  }

  /** Routes that existed keep their places; only created hosts and routes may be appended in another order. */
  ghost predicate SamePlaces(c: Configuration, a: Configuration, b: Configuration) {
    && |c.hosts| <= |a.hosts| && |c.hosts| <= |b.hosts|
    && forall i :: 0 <= i < |c.hosts| ==>
         && |c.hosts[i].routes| <= |a.hosts[i].routes| && |c.hosts[i].routes| <= |b.hosts[i].routes|
         && a.hosts[i].(routes := []) == b.hosts[i].(routes := []) == c.hosts[i].(routes := [])
         && forall j :: 0 <= j < |c.hosts[i].routes| ==> a.hosts[i].routes[j] == b.hosts[i].routes[j]
  }

  lemma PlacesCanonical(c: Configuration, es: seq<Entry>, fs: seq<Entry>, frozen: set<string>)
    requires Valid(c) && Parsed(es) && Parsed(fs) && SameEntries(es, fs) && Thawed(es, frozen) && DistinctDiscovered(c)
    requires AllFold(Start(c, es, frozen), es) && AllFold(Start(c, fs, frozen), fs)
    ensures SamePlaces(c, Rebuilt(c, es, frozen), Rebuilt(c, fs, frozen))
  {
    var a, b := Rebuilt(c, es, frozen), Rebuilt(c, fs, frozen);
    StartKeyed(c, es, frozen);
    StartKeyed(c, fs, frozen);
    forall i | 0 <= i < |c.hosts|
      ensures |c.hosts[i].routes| <= |a.hosts[i].routes| && |c.hosts[i].routes| <= |b.hosts[i].routes|
      ensures a.hosts[i].(routes := []) == b.hosts[i].(routes := []) == c.hosts[i].(routes := [])
      ensures forall j :: 0 <= j < |c.hosts[i].routes| ==> a.hosts[i].routes[j] == b.hosts[i].routes[j]
    {
      RebuiltHost(c, es, frozen, i);
      RebuiltHost(c, fs, frozen, i);
      forall j | 0 <= j < |c.hosts[i].routes| ensures a.hosts[i].routes[j] == b.hosts[i].routes[j] {
        RebuiltRoute(c, es, frozen, i, j);
        RebuiltRoute(c, fs, frozen, i, j);
        StartSlot(c, es, frozen, i, j);
        StartSlot(c, fs, frozen, i, j);
        StartSound(c, es, frozen, i, j);
        var s := Start(c, es, frozen)[i].slots[j];
        TwinFinish(s, s, Lower(c.hosts[i].domain), es, fs, frozen);
      }
    }
  }

  /** Reconciliation is canonical: reordering or repeating entries changes neither success nor any
      host or route, and moves none that already existed. */
  lemma ReconcileCanonical(c: Configuration, es: seq<Entry>, fs: seq<Entry>, frozen: set<string>)
    requires Valid(c) && Parsed(es) && SameEntries(es, fs) && Thawed(es, frozen) && DistinctDiscovered(c)
    ensures Succeeds(c, es, frozen) <==> Succeeds(c, fs, frozen)
    ensures Succeeds(c, es, frozen) ==>
              && SameView(Rebuilt(c, es, frozen), Rebuilt(c, fs, frozen))
              && SamePlaces(c, Rebuilt(c, es, frozen), Rebuilt(c, fs, frozen))
  {
    assert Parsed(fs) && Thawed(fs, frozen) && SameEntries(fs, es);
    if Succeeds(c, es, frozen) {
      AllFoldCanonical(c, es, fs, frozen);
      ViewCanonical(c, es, fs, frozen);
      PlacesCanonical(c, es, fs, frozen);
      RebuiltKeyed(c, fs, frozen);
      ValidView(Rebuilt(c, es, frozen), Rebuilt(c, fs, frozen));
    }
    if Succeeds(c, fs, frozen) {
      AllFoldCanonical(c, fs, es, frozen);
      ViewCanonical(c, fs, es, frozen);
      RebuiltKeyed(c, es, frozen);
      ValidView(Rebuilt(c, fs, frozen), Rebuilt(c, es, frozen));
    }
  }

  // ---- Idempotence ----

  lemma RebuiltSlot(c: Configuration, es: seq<Entry>, frozen: set<string>, i: nat, j: nat)
    requires Valid(c) && Parsed(es) && Thawed(es, frozen) && DistinctDiscovered(c) && Succeeds(c, es, frozen)
    requires i < |Start(c, es, frozen)| && j < |Start(c, es, frozen)[i].slots|
    ensures var domain, s, r := Lower(Start(c, es, frozen)[i].host.domain), Start(c, es, frozen)[i].slots[j], Rebuilt(c, es, frozen);
            && Fold(s, domain, es).Ok? && |r.hosts| == |Start(c, es, frozen)| && |r.hosts[i].routes| == |Start(c, es, frozen)[i].slots|
            && Prepare(r.hosts[i].routes[j], frozen) == Again(s, domain, es, frozen)
            && Fold(Prepare(r.hosts[i].routes[j], frozen), domain, es).Ok?
            && Finish(Fold(Prepare(r.hosts[i].routes[j], frozen), domain, es).value) == r.hosts[i].routes[j]
  {
    var s, domain, r := Start(c, es, frozen)[i].slots[j], Lower(Start(c, es, frozen)[i].host.domain), Rebuilt(c, es, frozen);
    RebuiltRoute(c, es, frozen, i, j);
    StartSound(c, es, frozen, i, j);
    assert ValidHost(r.hosts[i]) && ValidRoute(r.hosts[i].routes[j]);
    AgainFinish(s, domain, es, frozen);
  }

  lemma NothingCreated(c: Configuration, es: seq<Entry>, frozen: set<string>)
    requires Valid(c) && Parsed(es) && Thawed(es, frozen) && DistinctDiscovered(c) && Succeeds(c, es, frozen)
    ensures var r := Rebuilt(c, es, frozen); Start(r, es, frozen) == PrepareAll(r.hosts, frozen)
  {
    var r, cs := Rebuilt(c, es, frozen), Start(c, es, frozen);
    var bs := PrepareAll(r.hosts, frozen);
    StartKeyed(c, es, frozen);
    StartKeyed(r, es, frozen);
    forall e | e in es && Direct(e) ensures SlotAt(bs, e.spec.host, e.spec.path).Some? {
      ShapeLookup(PrepareAll(c.hosts, frozen), es, e.spec.host, e.spec.path);
      assert Names(e, e.spec.host, e.spec.path);
      var i := HostIndex(cs, e.spec.host).value;
      var j := PathIndex(cs[i].slots, e.spec.path).value;
      RebuiltRoute(c, es, frozen, i, j);
      RebuiltHost(c, es, frozen, i);
      assert bs[i].slots[j].route.path == e.spec.path;
      SlotAtIndex(bs, i, j);
    }
    ShapeStable(bs, es);
  }

  /** Reconciling the result with the same entries returns exactly the same configuration. */
  lemma ReconcileIdempotent(c: Configuration, es: seq<Entry>, frozen: set<string>)
    requires Valid(c) && Parsed(es) && Thawed(es, frozen) && DistinctDiscovered(c) && Succeeds(c, es, frozen)
    ensures var r := Rebuilt(c, es, frozen); Succeeds(r, es, frozen) && Rebuilt(r, es, frozen) == r
  {
    var r, cs := Rebuilt(c, es, frozen), Start(c, es, frozen);
    var bs := Start(r, es, frozen);
    NothingCreated(c, es, frozen);
    forall i, j | 0 <= i < |bs| && 0 <= j < |bs[i].slots|
      ensures Fold(bs[i].slots[j], Lower(bs[i].host.domain), es).Ok?
      ensures Finish(Fold(bs[i].slots[j], Lower(bs[i].host.domain), es).value) == r.hosts[i].routes[j]
    {
      RebuiltHost(c, es, frozen, i);
      RebuiltSlot(c, es, frozen, i, j);
    }
    var again := Rebuilt(r, es, frozen);
    forall i | 0 <= i < |bs| ensures again.hosts[i] == r.hosts[i] {
      RebuiltHost(r, es, frozen, i);
      assert again.hosts[i].routes == r.hosts[i].routes;
    }
    assert again.hosts == r.hosts;
  }

  // ---- Ownership ----

  /** What the source recorded for the route at this place before, if the route existed. */
  function Prior(c: Configuration, i: nat, j: nat, k: string): seq<Target> {
    if i < |c.hosts| && j < |c.hosts[i].routes| && c.hosts[i].routes[j].docker.Some?
    then Members(RecordedSources(c.hosts[i].routes[j].docker.value), k) else []
  }

  lemma {:induction false} FoldOwned(s: Slot, domain: string, es: seq<Entry>, frozen: set<string>, t: Target)
    requires Sound(s, frozen) && Fold(s, domain, es).Ok? && s.route.docker.Some?
    ensures var v := Fold(s, domain, es).value; t in Discovered(v.route) <==> Owned(v.owned, t)
    ensures t in Discovered(Fold(s, domain, es).value.route) ==> t !in s.route.targets
  {
    var v := Fold(s, domain, es).value;
    FoldTargets(s, domain, es, t);
    FoldNames(s, domain, es);
    if Owned(s.owned, t) {
      var k := OwnedUnder(s.owned, t);
      FoldMembers(s, domain, es, k);
      MemberOwned(v.owned, k, t);
    }
    if t !in s.route.targets && Aimed(s, domain, es, t) {
      var e :| e in es && Aims(e, domain, s.route) && e.target == t;
      FoldMembers(s, domain, es, e.source);
      assert Contributed(s, domain, es, e.source, t);
      MemberOwned(v.owned, e.source, t);
    }
    if Owned(v.owned, t) {
      var k := OwnedUnder(v.owned, t);
      FoldMembers(s, domain, es, k);
      if t in Members(s.owned, k) { MemberOwned(s.owned, k, t); }
    }
  }

  /** Reading the written form back recovers who owns what, in the compact form too. */
  lemma ReadBack(s: Slot, domain: string, es: seq<Entry>, frozen: set<string>, k: string, t: Target)
    requires Sound(s, frozen) && Fold(s, domain, es).Ok? && s.route.docker.Some?
    ensures var v := Fold(s, domain, es).value; var r := Finish(v);
            && r.docker.Some? && DistinctNames(RecordedSources(r.docker.value))
            && (t in Members(RecordedSources(r.docker.value), k) <==> t in Members(v.owned, k))
  {
    var v := Fold(s, domain, es).value;
    var r := Finish(v);
    FoldFrame(s, domain, es);
    FoldNames(s, domain, es);
    if r.docker.value.sources.Some? {
      SortSourcesEffect(v.owned, k);
      SortedNamesDistinct(SortSources(v.owned));
      SortMembers(Members(v.owned, k));
    } else {
      ForeignNamed(v.owned);
      SortMembers(Discovered(v.route));
      FoldOwned(s, domain, es, frozen, t);
      if Owned(v.owned, t) {
        var l := OwnedUnder(v.owned, t);
      }
      if t in Members(v.owned, k) {
        MembersNamed(v.owned, k, t);
        MemberOwned(v.owned, k, t);
      }
    }
  }

  lemma StartPrior(c: Configuration, es: seq<Entry>, frozen: set<string>, i: nat, j: nat, k: string, t: Target)
    requires Valid(c) && Parsed(es)
    requires i < |Start(c, es, frozen)| && j < |Start(c, es, frozen)[i].slots|
    ensures var s := Start(c, es, frozen)[i].slots[j];
            t in Members(s.owned, k) <==> k in frozen && t in Prior(c, i, j, k) && t !in s.route.targets
  {
    StartSlot(c, es, frozen, i, j);
    if i < |c.hosts| && j < |c.hosts[i].routes| {
      var r := c.hosts[i].routes[j];
      assert ValidHost(c.hosts[i]) && ValidRoute(r);
      PrepareOwns(r, frozen, k);
      if r.docker.Some? && k in frozen {
        WithoutMembers(Members(RecordedSources(r.docker.value), k), r.targets, t);
      }
    }
  }

  /** Ownership is exact. In every rebuilt Docker route a source owns, outside the manual targets,
      what it already owned if it is frozen, and what entries that aim at the route report for it;
      the discovered targets are the union of the owned ones and disjoint from the manual ones. */
  lemma OwnershipExact(c: Configuration, es: seq<Entry>, frozen: set<string>, i: nat, j: nat, k: string, t: Target)
    requires Valid(c) && Parsed(es) && AllFold(Start(c, es, frozen), es)
    requires i < |Rebuilt(c, es, frozen).hosts| && j < |Rebuilt(c, es, frozen).hosts[i].routes|
    requires Rebuilt(c, es, frozen).hosts[i].routes[j].docker.Some?
    ensures var host := Rebuilt(c, es, frozen).hosts[i]; var r := host.routes[j]; var d := r.docker.value;
            && (t in Members(RecordedSources(d), k) <==>
                  && t !in r.targets
                  && (|| (k in frozen && t in Prior(c, i, j, k))
                      || exists e :: e in es && Aims(e, Lower(host.domain), r) && e.source == k && e.target == t))
            && (t in d.targets <==> Owned(RecordedSources(d), t))
            && (t in d.targets ==> t !in r.targets)
            && DistinctNames(RecordedSources(d))
  {
    RebuiltHost(c, es, frozen, i);
    RebuiltRoute(c, es, frozen, i, j);
    var b := Start(c, es, frozen)[i];
    var s, domain := b.slots[j], Lower(b.host.domain);
    var r := Rebuilt(c, es, frozen).hosts[i].routes[j];
    var v := Fold(s, domain, es).value;
    StartSound(c, es, frozen, i, j);
    FoldFrame(s, domain, es);
    StartPrior(c, es, frozen, i, j, k, t);
    ReadBack(s, domain, es, frozen, k, t);
    FoldMembers(s, domain, es, k);
    forall e ensures Aims(e, domain, s.route) <==> Aims(e, domain, r) {}
    FoldOwned(s, domain, es, frozen, t);
    SortMembers(Discovered(v.route));
    OwnedReadBack(s, domain, es, frozen, t);
  }

  lemma OwnedReadBack(s: Slot, domain: string, es: seq<Entry>, frozen: set<string>, t: Target)
    requires Sound(s, frozen) && Fold(s, domain, es).Ok? && s.route.docker.Some?
    ensures var v := Fold(s, domain, es).value; var r := Finish(v);
            r.docker.Some? && (Owned(RecordedSources(r.docker.value), t) <==> Owned(v.owned, t))
  {
    var v := Fold(s, domain, es).value;
    var r := Finish(v);
    ReadBack(s, domain, es, frozen, "", t);
    FoldNames(s, domain, es);
    if Owned(v.owned, t) {
      var k := OwnedUnder(v.owned, t);
      ReadBack(s, domain, es, frozen, k, t);
      MemberOwned(RecordedSources(r.docker.value), k, t);
    }
    if Owned(RecordedSources(r.docker.value), t) {
      var k := OwnedUnder(RecordedSources(r.docker.value), t);
      ReadBack(s, domain, es, frozen, k, t);
      MemberOwned(v.owned, k, t);
    }
  }

  /** The clauses of `validate` about recorded sources can never reject what was rebuilt. */
  lemma CoverageHolds(c: Configuration, es: seq<Entry>, frozen: set<string>, i: nat, j: nat)
    requires Valid(c) && Parsed(es) && AllFold(Start(c, es, frozen), es)
    requires i < |Rebuilt(c, es, frozen).hosts| && j < |Rebuilt(c, es, frozen).hosts[i].routes|
    requires Rebuilt(c, es, frozen).hosts[i].routes[j].docker.Some?
    ensures var d := Rebuilt(c, es, frozen).hosts[i].routes[j].docker.value;
            MembersDiscovered(RecordedSources(d), d.targets) && Covered(RecordedSources(d), d.targets) && DistinctNames(RecordedSources(d))
  {
    var d := Rebuilt(c, es, frozen).hosts[i].routes[j].docker.value;
    var recorded := RecordedSources(d);
    OwnershipExact(c, es, frozen, i, j, "", Target(Plain(""), 0, 0, false, None));
    forall t ensures t in d.targets <==> Owned(recorded, t) {
      OwnershipExact(c, es, frozen, i, j, "", t);
    }
    forall x, t | 0 <= x < |recorded| && t in recorded[x].members ensures t in d.targets {
      assert Owned(recorded, t);
    }
  }
}
