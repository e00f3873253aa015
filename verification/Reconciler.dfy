/** The loops of `reconcile`, proved to compute the route-by-route specification. */
module Reconciler {
  import opened Text
  import opened Config
  import opened Endpoints
  import opened Labels
  import opened Ownership
  import opened Shapes
  import opened Records
  import opened Canonical
  import opened Reconciliation
  import opened Outcome
  import Validator

  ghost predicate AllVisit(bs: seq<Bench>, e: Entry) {
    forall i, j :: 0 <= i < |bs| && 0 <= j < |bs[i].slots| ==> Visit(bs[i].slots[j], Lower(bs[i].host.domain), e).Ok?
  }

  /** `cs` is `bs` with every slot visited by the entry. */
  ghost predicate Visited(bs: seq<Bench>, e: Entry, cs: seq<Bench>) {
    && |cs| == |bs|
    && forall i :: 0 <= i < |bs| ==> VisitedBench(bs[i], e, cs[i])
  }

  ghost predicate VisitedBench(b: Bench, e: Entry, c: Bench) {
    && c.host == b.host && |c.slots| == |b.slots|
    && forall j :: 0 <= j < |b.slots| ==> Visit(b.slots[j], Lower(b.host.domain), e) == Ok(c.slots[j])
  }

  /** A group entry is admitted to every route of its group; an unused group is skipped. */
  method JoinGroup(bs: seq<Bench>, e: Entry) returns (r: Result<seq<Bench>>)
    requires e.spec.group != ""
    ensures r.Ok? <==> AllVisit(bs, e)
    ensures r.Ok? ==> Visited(bs, e, r.value)
    ensures r.Err? ==> r.error == Conflict
  {
    var cs := bs;
    for i := 0 to |bs|
      invariant |cs| == |bs|
      invariant forall k :: 0 <= k < i ==> VisitedBench(bs[k], e, cs[k])
      invariant forall k :: i <= k < |bs| ==> cs[k] == bs[k]
    {
      for j := 0 to |bs[i].slots|
        invariant |cs| == |bs| && cs[i].host == bs[i].host && |cs[i].slots| == |bs[i].slots|
        invariant forall k :: 0 <= k < i ==> VisitedBench(bs[k], e, cs[k])
        invariant forall k :: i < k < |bs| ==> cs[k] == bs[k]
        invariant forall l :: 0 <= l < j ==> Visit(bs[i].slots[l], Lower(bs[i].host.domain), e) == Ok(cs[i].slots[l])
        invariant forall l :: j <= l < |bs[i].slots| ==> cs[i].slots[l] == bs[i].slots[l]
      {
        var slot := cs[i].slots[j];
        var docker := slot.route.docker;
        if docker.Some? && !docker.value.managed && docker.value.group == e.spec.group {
          var admitted := Admit(slot, e);
          if admitted.Err? {
            assert Visit(bs[i].slots[j], Lower(bs[i].host.domain), e).Err?;
            return Err(admitted.error);
          }
          cs := cs[i := cs[i].(slots := cs[i].slots[j := admitted.value])];
        }
      }
    }
    assert forall i :: 0 <= i < |bs| ==> VisitedBench(bs[i], e, cs[i]);
    return Ok(cs);
  }

  /** An entry that names a host and path creates what is missing and is admitted to that route alone. */
  method Address(bs: seq<Bench>, e: Entry) returns (r: Result<seq<Bench>>)
    requires e.spec.group == "" && Keyed(bs) && Lower(e.spec.host) == e.spec.host
    ensures r.Ok? <==> AllVisit(Extend(bs, e), e)
    ensures r.Ok? ==> Visited(Extend(bs, e), e, r.value)
    ensures r.Err? ==> r.error != Invalid
    ensures r.Err? ==> SlotAt(bs, e.spec.host, e.spec.path).Some? && !Accepts(SlotAt(bs, e.spec.host, e.spec.path).value, e)
    ensures r.Ok? ==> exists i, j :: 0 <= i < |r.value| && 0 <= j < |r.value[i].slots| && Lower(r.value[i].host.domain) == e.spec.host
                                     && Entered(r.value[i].slots[j].route, e)
  {
    var cs, i, j := Locate(bs, e);
    var slot := cs[i].slots[j];
    ExtendLookup(bs, e, e.spec.host, e.spec.path);
    SlotAtIndex(cs, i, j);
    AimsHere(cs, e, i, j);
    var met := Meet(slot, Lower(cs[i].host.domain), e);
    hide Visit, Accepts, Extend, Aims;
    if met.Err? {
      assert Visit(cs[i].slots[j], Lower(cs[i].host.domain), e).Err?;
      return Err(met.error);
    }
    r := Ok(cs[i := cs[i].(slots := cs[i].slots[j := met.value])]);
    OnlyHere(cs, e, i, j);
    VisitedHere(cs, e, i, j, met.value);
  }

  /** An entry meets the route it names: the options must agree with those of the entries before it, and the route must be
      managed by Docker. */
  method Meet(slot: Slot, domain: string, e: Entry) returns (r: Result<Slot>)
    requires e.spec.group == "" && Aims(e, domain, slot.route)
    ensures r == Visit(slot, domain, e)
    ensures r.Err? ==> r.error != Invalid && !Accepts(slot, e)
    ensures r.Ok? ==> Entered(r.value.route, e)
  {
    if slot.settled && slot.route.options != e.spec.options {
      return Err(Disagree);
    }
    if slot.route.docker.None? || !slot.route.docker.value.managed {
      return Err(ManualRoute);
    }
    r := Admit(slot.(route := slot.route.(options := e.spec.options), settled := true), e);
  }

  /** The route that an entry named has its options and, manual or discovered, its target. */
  predicate Entered(r: Route, e: Entry) {
    && r.path == e.spec.path && r.docker.Some? && r.docker.value.managed && r.options == e.spec.options && e.target in RouteTargets(r)
  }

  lemma AimsHere(cs: seq<Bench>, e: Entry, i: nat, j: nat)
    requires e.spec.group == "" && i < |cs| && j < |cs[i].slots|
    requires Lower(cs[i].host.domain) == e.spec.host && cs[i].slots[j].route.path == e.spec.path
    ensures Aims(e, Lower(cs[i].host.domain), cs[i].slots[j].route)
  {
  }

  lemma VisitedHere(cs: seq<Bench>, e: Entry, i: nat, j: nat, s: Slot)
    requires i < |cs| && j < |cs[i].slots| && Visit(cs[i].slots[j], Lower(cs[i].host.domain), e) == Ok(s)
    requires forall k, l :: 0 <= k < |cs| && 0 <= l < |cs[k].slots| && (k != i || l != j) ==>
               Visit(cs[k].slots[l], Lower(cs[k].host.domain), e) == Ok(cs[k].slots[l])
    ensures AllVisit(cs, e) && Visited(cs, e, cs[i := cs[i].(slots := cs[i].slots[j := s])])
  {
    hide Visit;
    var ds := cs[i := cs[i].(slots := cs[i].slots[j := s])];
    forall k | 0 <= k < |cs| ensures VisitedBench(cs[k], e, ds[k]) {}
  }

  /** Finds the addressed route, creating the host and the route that are missing. */
  method Locate(bs: seq<Bench>, e: Entry) returns (cs: seq<Bench>, i: nat, j: nat)
    requires e.spec.group == "" && Keyed(bs) && Lower(e.spec.host) == e.spec.host
    ensures cs == Extend(bs, e) && Keyed(cs)
    ensures i < |cs| && j < |cs[i].slots|
    ensures Lower(cs[i].host.domain) == e.spec.host && cs[i].slots[j].route.path == e.spec.path
  {
    ExtendKeyed(bs, e);
    cs := bs;
    var host := HostIndex(cs, e.spec.host);
    if host.None? {
      HostAppended(bs, NewBench(e.spec.host), e.spec.host);
      cs := cs + [NewBench(e.spec.host)];
      host := HostIndex(cs, e.spec.host);
    }
    i := host.value;
    var path := PathIndex(cs[i].slots, e.spec.path);
    if path.None? {
      j := |cs[i].slots|;
      cs := cs[i := cs[i].(slots := cs[i].slots + [NewSlot(e.spec)])];
    } else {
      j := path.value;
    }
  }

  /** With distinct domains and paths, no other route is addressed. */
  lemma OnlyHere(cs: seq<Bench>, e: Entry, i: nat, j: nat)
    requires Keyed(cs) && e.spec.group == "" && i < |cs| && j < |cs[i].slots|
    requires Lower(cs[i].host.domain) == e.spec.host && cs[i].slots[j].route.path == e.spec.path
    ensures forall k, l :: 0 <= k < |cs| && 0 <= l < |cs[k].slots| && (k != i || l != j) ==>
              Visit(cs[k].slots[l], Lower(cs[k].host.domain), e) == Ok(cs[k].slots[l])
  {
    forall k, l | 0 <= k < |cs| && 0 <= l < |cs[k].slots| && (k != i || l != j)
      ensures Visit(cs[k].slots[l], Lower(cs[k].host.domain), e) == Ok(cs[k].slots[l])
    {
      SlotAtIndex(cs, k, l);
      HostAtIndex(cs, k);
      HostAtIndex(cs, i);
      assert KeyedSlots(cs[i].slots);
      assert !Aims(e, Lower(cs[k].host.domain), cs[k].slots[l].route);
    }
  }

  // ---- Interleaved creation and folding is creation first, folding after ----

  /** Where the loop stands after the entries `es`. */
  ghost predicate Reached(bs: seq<Bench>, es: seq<Entry>, work: seq<Bench>) {
    && AllFold(Shape(bs, es), es) && work == FoldAll(Shape(bs, es), es)
  }

  lemma FoldAllKeyed(bs: seq<Bench>, es: seq<Entry>)
    requires Keyed(bs) && AllFold(bs, es)
    ensures Keyed(FoldAll(bs, es))
  {
    var cs := FoldAll(bs, es);
    forall i | 0 <= i < |cs| ensures KeyedSlots(cs[i].slots) && cs[i].host == bs[i].host {
      assert KeyedSlots(bs[i].slots);
      forall j | 0 <= j < |cs[i].slots| ensures cs[i].slots[j].route.path == bs[i].slots[j].route.path {
        FoldFrame(bs[i].slots[j], Lower(bs[i].host.domain), es);
      }
    }
  }

  /** What an entry creates was aimed at by none before it. */
  lemma CreatedIdle(bs: seq<Bench>, es: seq<Entry>, e: Entry)
    requires Keyed(bs) && Parsed(es) && Direct(e) && Lower(e.spec.host) == e.spec.host
    requires SlotAt(Shape(bs, es), e.spec.host, e.spec.path).None?
    ensures Fold(NewSlot(e.spec), e.spec.host, es) == Ok(NewSlot(e.spec))
  {
    ShapeLookup(bs, es, e.spec.host, e.spec.path);
    forall x | x in es ensures !Aims(x, e.spec.host, NewSlot(e.spec).route) {
      assert !Names(x, e.spec.host, e.spec.path);
    }
    FoldIdle(NewSlot(e.spec), e.spec.host, es);
  }

  lemma ExtendFolded(bs: seq<Bench>, es: seq<Entry>, e: Entry)
    requires Keyed(bs) && Parsed(es) && Lower(e.spec.host) == e.spec.host
    requires AllFold(Shape(bs, es), es)
    ensures AllFold(Extend(Shape(bs, es), e), es)
    ensures FoldAll(Extend(Shape(bs, es), e), es) == Extend(FoldAll(Shape(bs, es), es), e)
  {
    var ss := Shape(bs, es);
    var ts := Extend(ss, e);
    ShapeKeyed(bs, es);
    ExtendKeyed(ss, e);
    FoldAllKeyed(ss, es);
    var fs := FoldAll(ss, es);
    if Direct(e) {
      FoldedIndex(ss, es, e.spec.host, e.spec.path);
      if SlotAt(ss, e.spec.host, e.spec.path).None? {
        CreatedIdle(bs, es, e);
      }
    }
    ExtendFoldedAll(ss, es, e);
  }

  lemma ExtendFoldedAll(ss: seq<Bench>, es: seq<Entry>, e: Entry)
    requires Keyed(ss) && Lower(e.spec.host) == e.spec.host && AllFold(ss, es)
    requires Direct(e) && SlotAt(ss, e.spec.host, e.spec.path).None? ==> Fold(NewSlot(e.spec), e.spec.host, es) == Ok(NewSlot(e.spec))
    requires Direct(e) ==> HostIndex(FoldAll(ss, es), e.spec.host) == HostIndex(ss, e.spec.host)
    requires Direct(e) && HostIndex(ss, e.spec.host).Some? ==>
               var h := HostIndex(ss, e.spec.host).value;
               PathIndex(FoldAll(ss, es)[h].slots, e.spec.path) == PathIndex(ss[h].slots, e.spec.path)
    ensures AllFold(Extend(ss, e), es)
    ensures FoldAll(Extend(ss, e), es) == Extend(FoldAll(ss, es), e)
  {
    if Direct(e) {
      if HostIndex(ss, e.spec.host).None? {
        NewHostFolded(ss, es, e);
      } else if PathIndex(ss[HostIndex(ss, e.spec.host).value].slots, e.spec.path).None? {
        NewRouteFolded(ss, es, e);
      }
    }
  }

  lemma NewHostFolded(ss: seq<Bench>, es: seq<Entry>, e: Entry)
    requires AllFold(ss, es) && Direct(e) && Lower(e.spec.host) == e.spec.host
    requires HostIndex(ss, e.spec.host).None? && HostIndex(FoldAll(ss, es), e.spec.host).None?
    requires Fold(NewSlot(e.spec), e.spec.host, es) == Ok(NewSlot(e.spec))
    ensures AllFold(Extend(ss, e), es)
    ensures FoldAll(Extend(ss, e), es) == Extend(FoldAll(ss, es), e)
  {
    hide Fold, Lower;
    var fs := FoldAll(ss, es);
    var made := Bench(NewBench(e.spec.host).host, [NewSlot(e.spec)]);
    ExtendHost(ss, e);
    ExtendHost(fs, e);
    FoldNewBench(made, es, NewSlot(e.spec));
    assert FoldAll(ss + [made], es) == fs + [made];
  }

  lemma ExtendHost(bs: seq<Bench>, e: Entry)
    requires Direct(e) && Lower(e.spec.host) == e.spec.host && HostIndex(bs, e.spec.host).None?
    ensures Extend(bs, e) == bs + [Bench(NewBench(e.spec.host).host, [NewSlot(e.spec)])]
  {
    HostAppended(bs, NewBench(e.spec.host), e.spec.host);
    var cs := bs + [NewBench(e.spec.host)];
    assert HostIndex(cs, e.spec.host) == Some(|bs|) && PathIndex(cs[|bs|].slots, e.spec.path).None?;
    var made := cs[|bs|].(slots := cs[|bs|].slots + [NewSlot(e.spec)]);
    assert made.slots == [NewSlot(e.spec)];
    assert Extend(bs, e) == cs[|bs| := made] == bs + [made];
  }

  lemma GroupCreatesNothing(bs: seq<Bench>, e: Entry)
    requires !Direct(e)
    ensures Extend(bs, e) == bs
  {
  }

  lemma NewRouteFolded(ss: seq<Bench>, es: seq<Entry>, e: Entry)
    requires AllFold(ss, es) && Direct(e) && HostIndex(ss, e.spec.host).Some?
    requires var h := HostIndex(ss, e.spec.host).value;
             && HostIndex(FoldAll(ss, es), e.spec.host) == Some(h)
             && PathIndex(ss[h].slots, e.spec.path).None? && PathIndex(FoldAll(ss, es)[h].slots, e.spec.path).None?
    requires Fold(NewSlot(e.spec), e.spec.host, es) == Ok(NewSlot(e.spec))
    ensures AllFold(Extend(ss, e), es)
    ensures FoldAll(Extend(ss, e), es) == Extend(FoldAll(ss, es), e)
  {
    hide Fold, Lower;
    var h, fs := HostIndex(ss, e.spec.host).value, FoldAll(ss, es);
    var made := ss[h].(slots := ss[h].slots + [NewSlot(e.spec)]);
    var ts := ss[h := made];
    assert Extend(ss, e) == ts;
    assert AllFold(ts, es);
    assert FoldBench(made, es).slots == fs[h].slots + [NewSlot(e.spec)];
    assert FoldAll(ts, es) == fs[h := fs[h].(slots := fs[h].slots + [NewSlot(e.spec)])];
  }

  lemma FoldNewBench(b: Bench, es: seq<Entry>, s: Slot)
    requires b.slots == [s] && Fold(s, Lower(b.host.domain), es) == Ok(s)
    ensures FoldBench(b, es) == b
  {
  }

  lemma HostAppended(bs: seq<Bench>, b: Bench, domain: string)
    requires HostIndex(bs, domain).None? && Lower(b.host.domain) == domain
    ensures HostIndex(bs + [b], domain) == Some(|bs|)
  {
    var r := HostIndex(bs + [b], domain);
    assert (bs + [b])[|bs|] == b;
    assert forall i :: 0 <= i < |bs| ==> (bs + [b])[i] == bs[i];
  }

  lemma FoldedIndex(ss: seq<Bench>, es: seq<Entry>, domain: string, path: string)
    requires Keyed(ss) && AllFold(ss, es)
    ensures HostIndex(FoldAll(ss, es), domain) == HostIndex(ss, domain)
    ensures HostIndex(ss, domain).Some? ==>
              PathIndex(FoldAll(ss, es)[HostIndex(ss, domain).value].slots, path) == PathIndex(ss[HostIndex(ss, domain).value].slots, path)
  {
    FoldAllKeyed(ss, es);
    var fs := FoldAll(ss, es);
    if HostIndex(ss, domain).Some? {
      var i := HostIndex(ss, domain).value;
      HostAtIndex(fs, i);
      FoldedPath(ss[i], es, fs[i], path);
    }
  }

  lemma FoldedPath(b: Bench, es: seq<Entry>, f: Bench, path: string)
    requires forall j :: 0 <= j < |b.slots| ==> Fold(b.slots[j], Lower(b.host.domain), es).Ok?
    requires f == FoldBench(b, es) && KeyedSlots(b.slots) && KeyedSlots(f.slots)
    ensures PathIndex(f.slots, path) == PathIndex(b.slots, path)
  {
    forall j | 0 <= j < |b.slots| ensures f.slots[j].route.path == b.slots[j].route.path {
      FoldFrame(b.slots[j], Lower(b.host.domain), es);
    }
  }

  lemma ReachedStep(bs: seq<Bench>, es: seq<Entry>, work: seq<Bench>, e: Entry)
    requires Keyed(bs) && Parsed(es) && Lower(e.spec.host) == e.spec.host && Reached(bs, es, work)
    ensures Keyed(work)
    ensures AllVisit(Extend(work, e), e) <==> AllFold(Shape(bs, es + [e]), es + [e])
    ensures forall cs :: AllVisit(Extend(work, e), e) && Visited(Extend(work, e), e, cs) ==> Reached(bs, es + [e], cs)
  {
    ShapeKeyed(bs, es);
    FoldAllKeyed(Shape(bs, es), es);
    ExtendFolded(bs, es, e);
    var fs := es + [e];
    assert fs[..|fs| - 1] == es;
    var ts, ws := Shape(bs, fs), Extend(work, e);
    assert ts == Extend(Shape(bs, es), e) && ws == FoldAll(ts, es);
    forall i, j | 0 <= i < |ts| && 0 <= j < |ts[i].slots|
      ensures ws[i].slots[j] == Fold(ts[i].slots[j], Lower(ts[i].host.domain), es).value
      ensures Fold(ts[i].slots[j], Lower(ts[i].host.domain), fs) == Visit(ws[i].slots[j], Lower(ws[i].host.domain), e)
    {
    }
    forall cs: seq<Bench> | AllVisit(ws, e) && Visited(ws, e, cs) ensures Reached(bs, fs, cs) {
      var goal := FoldAll(ts, fs);
      forall i | 0 <= i < |cs| ensures cs[i] == goal[i] {
        assert VisitedBench(ws[i], e, cs[i]);
        assert cs[i].slots == goal[i].slots;
      }
    }
  }

  /** A failure is never undone by later entries. */
  lemma {:induction false} FailureStays(bs: seq<Bench>, es: seq<Entry>, n: nat)
    requires Keyed(bs) && Parsed(es) && n <= |es| && AllFold(Shape(bs, es), es)
    ensures AllFold(Shape(bs, es[..n]), es[..n])
    decreases |es| - n
  {
    if n == |es| {
      assert es[..n] == es;
    } else {
      FailureStays(bs, es, n + 1);
      var before, fs := es[..n], es[..n + 1];
      assert fs[..|fs| - 1] == before;
      ShapeKeyed(bs, before);
      assert fs[|fs| - 1] == es[n];
      ExtendKeyed(Shape(bs, before), es[n]);
      var ss, ts := Shape(bs, before), Shape(bs, fs);
      forall i, j | 0 <= i < |ss| && 0 <= j < |ss[i].slots|
        ensures Fold(ss[i].slots[j], Lower(ss[i].host.domain), before).Ok?
      {
        assert ts[i].slots[j] == ss[i].slots[j];
        assert Fold(ts[i].slots[j], Lower(ts[i].host.domain), fs).Ok?;
      }
    }
  }

  lemma NothingYet(bs: seq<Bench>)
    ensures Reached(bs, [], bs)
  {
    forall i | 0 <= i < |bs| ensures bs[i] == FoldBench(bs[i], []) {
      assert bs[i].slots == FoldBench(bs[i], []).slots;
    }
  }

  method PrepareRoutes(c: Configuration, frozen: set<string>) returns (bs: seq<Bench>)
    ensures bs == PrepareAll(c.hosts, frozen)
  {
    bs := [];
    for i := 0 to |c.hosts|
      invariant bs == PrepareAll(c.hosts[..i], frozen)
    {
      var slots := [];
      for j := 0 to |c.hosts[i].routes|
        invariant |slots| == j && forall l :: 0 <= l < j ==> slots[l] == Prepare(c.hosts[i].routes[l], frozen)
      {
        slots := slots + [Prepare(c.hosts[i].routes[j], frozen)];
      }
      assert slots == PrepareBench(c.hosts[i], frozen).slots;
      bs := bs + [Bench(c.hosts[i], slots)];
    }
    assert c.hosts[..|c.hosts|] == c.hosts;
  }

  method WriteBack(work: seq<Bench>) returns (hosts: seq<Host>)
    ensures hosts == FinishAll(work)
  {
    hosts := [];
    for i := 0 to |work|
      invariant hosts == FinishAll(work[..i])
    {
      var routes := [];
      for j := 0 to |work[i].slots|
        invariant |routes| == j && forall l :: 0 <= l < j ==> routes[l] == Finish(work[i].slots[l])
      {
        routes := routes + [Finish(work[i].slots[j])];
      }
      assert routes == FinishBench(work[i]).routes;
      hosts := hosts + [work[i].host.(routes := routes)];
    }
    assert work[..|work|] == work;
  }

  /** `reconcile` succeeds exactly when the specification does, and computes what it says: every route the entries name is
      there, the missing ones created for them and the existing ones updated, and everything else is as it was. */
  method Reconcile(c: Configuration, entries: seq<Entry>, frozen: set<string>) returns (r: Result<Configuration>)
    requires Valid(c) && Parsed(entries)
    ensures r.Ok? <==> Succeeds(c, entries, frozen)
    ensures r.Ok? ==> r.value == Rebuilt(c, entries, frozen)
    ensures r.Err? ==> (r.error == Invalid <==> AllFold(Start(c, entries, frozen), entries))
    ensures r.Ok? ==> Framed(c, entries, frozen, r.value) && Created(c, entries, r.value)
    ensures DistinctDiscovered(c) ==> (r.Err? && r.error != Invalid <==> !Absorbable(c, entries, frozen))
  {
    hide Fold, Visit, Extend, Shape, Valid, Framed, Created, Absorbable, DistinctDiscovered;
    if DistinctDiscovered(c) {
      AbsorbableExactly(c, entries, frozen);
    }
    if AllFold(Start(c, entries, frozen), entries) {
      FramedExactly(c, entries, frozen);
      CreatedExactly(c, entries, frozen);
    }
    StartKeyed(c, entries, frozen);
    var bs := PrepareRoutes(c, frozen);
    var work := bs;
    NothingYet(bs);
    assert entries[..0] == [];
    assert entries[..|entries|] == entries;
    for n := 0 to |entries|
      invariant Reached(bs, entries[..n], work)
    {
      var e := entries[n];
      assert entries[..n + 1] == entries[..n] + [e];
      ReachedStep(bs, entries[..n], work, e);
      var next;
      if e.spec.group != "" {
        GroupCreatesNothing(work, e);
        next := JoinGroup(work, e);
      } else {
        next := Address(work, e);
      }
      if next.Err? {
        if AllFold(Start(c, entries, frozen), entries) {
          FailureStays(bs, entries, n + 1);
        }
        return Err(next.error);
      }
      work := next.value;
    }
    var hosts := WriteBack(work);
    var result := c.(hosts := hosts);
    var ok := Validator.Validate(result);
    return if ok then Ok(result) else Err(Invalid);
  }
}
