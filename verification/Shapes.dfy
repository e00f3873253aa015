/** Which hosts and routes exist after reconciliation, looked up by lower-case domain and path. */
module Shapes {
  import opened Text
  import opened Config
  import opened Labels
  import opened Ownership

  predicate Keyed(bs: seq<Bench>) {
    && (forall i, j :: 0 <= i < j < |bs| ==> Lower(bs[i].host.domain) != Lower(bs[j].host.domain))
    && (forall i :: 0 <= i < |bs| ==> KeyedSlots(bs[i].slots))
  }

  predicate KeyedSlots(slots: seq<Slot>) {
    forall j, l :: 0 <= j < l < |slots| ==> slots[j].route.path != slots[l].route.path
  }

  function SlotAt(bs: seq<Bench>, domain: string, path: string): Option<Slot> {
    var h := HostIndex(bs, domain);
    if h.None? then None
    else
      var p := PathIndex(bs[h.value].slots, path);
      if p.None? then None else Some(bs[h.value].slots[p.value])
  }

  function HostAt(bs: seq<Bench>, domain: string): Option<Host> {
    var h := HostIndex(bs, domain);
    if h.None? then None else Some(bs[h.value].host)
  }

  lemma SlotAtIndex(bs: seq<Bench>, i: int, j: int)
    requires Keyed(bs) && 0 <= i < |bs| && 0 <= j < |bs[i].slots|
    ensures SlotAt(bs, Lower(bs[i].host.domain), bs[i].slots[j].route.path) == Some(bs[i].slots[j])
  {
  }

  lemma HostAtIndex(bs: seq<Bench>, i: int)
    requires Keyed(bs) && 0 <= i < |bs|
    ensures HostIndex(bs, Lower(bs[i].host.domain)) == Some(i)
  {
  }

  lemma IndexFound(bs: seq<Bench>, cs: seq<Bench>, domain: string)
    requires Keyed(bs) && Keyed(cs) && |bs| <= |cs|
    requires forall i :: 0 <= i < |bs| ==> cs[i].host == bs[i].host
    requires HostIndex(bs, domain).Some?
    ensures HostIndex(cs, domain) == HostIndex(bs, domain)
  {
  }

  ghost predicate Names(e: Entry, domain: string, path: string) {
    Direct(e) && e.spec.host == domain && e.spec.path == path
  }

  /** `cs` is `bs` with hosts appended, and routes appended to hosts. */
  predicate Grown(bs: seq<Bench>, cs: seq<Bench>) {
    && |bs| <= |cs|
    && forall i :: 0 <= i < |bs| ==> cs[i].host == bs[i].host && bs[i].slots <= cs[i].slots
  }

  function WithSlot(bs: seq<Bench>, i: nat, slot: Slot): seq<Bench>
    requires i < |bs|
  {
    bs[i := bs[i].(slots := bs[i].slots + [slot])]
  }

  lemma HostAdded(bs: seq<Bench>, added: string, domain: string, path: string)
    requires Keyed(bs) && HostIndex(bs, added).None? && Lower(added) == added
    ensures var cs := bs + [NewBench(added)];
            && Keyed(cs) && Grown(bs, cs) && HostIndex(cs, added) == Some(|bs|)
            && SlotAt(cs, domain, path) == SlotAt(bs, domain, path)
            && HostAt(cs, domain) == if domain == added then Some(NewBench(added).host) else HostAt(bs, domain)
  {
    var cs := bs + [NewBench(added)];
    HostAtIndex(cs, |bs|);
    if HostIndex(bs, domain).Some? {
      IndexFound(bs, cs, domain);
    }
  }

  lemma SlotAdded(bs: seq<Bench>, i: nat, slot: Slot, domain: string, path: string)
    requires Keyed(bs) && i < |bs| && PathIndex(bs[i].slots, slot.route.path).None?
    ensures var cs := WithSlot(bs, i, slot);
            && Keyed(cs) && Grown(bs, cs)
            && SlotAt(cs, domain, path) == (if Lower(bs[i].host.domain) == domain && slot.route.path == path then Some(slot) else SlotAt(bs, domain, path))
            && HostAt(cs, domain) == HostAt(bs, domain)
  {
    var cs := WithSlot(bs, i, slot);
    assert KeyedSlots(cs[i].slots);
    assert Keyed(cs);
    if HostIndex(bs, domain).Some? {
      IndexFound(bs, cs, domain);
      var k := HostIndex(bs, domain).value;
      if k == i {
        HostAtIndex(bs, i);
        SlotFound(bs[i].slots, slot, path);
      }
    }
  }

  lemma SlotFound(slots: seq<Slot>, slot: Slot, path: string)
    requires KeyedSlots(slots) && PathIndex(slots, slot.route.path).None?
    ensures var after := slots + [slot]; var found := PathIndex(after, path);
            found == if slot.route.path == path then Some(|slots|) else PathIndex(slots, path)
  {
    var after := slots + [slot];
    assert KeyedSlots(after);
    if slot.route.path == path {
      PathFound(after, |slots|);
    } else if PathIndex(slots, path).Some? {
      PathFound(after, PathIndex(slots, path).value);
    }
  }

  lemma PathFound(slots: seq<Slot>, i: nat)
    requires KeyedSlots(slots) && i < |slots|
    ensures PathIndex(slots, slots[i].route.path) == Some(i)
  {
  }

  lemma ExtendKeyed(bs: seq<Bench>, e: Entry)
    requires Keyed(bs) && Lower(e.spec.host) == e.spec.host
    ensures Keyed(Extend(bs, e)) && Grown(bs, Extend(bs, e))
  {
    ExtendLookup(bs, e, "", "");
  }

  lemma ExtendLookup(bs: seq<Bench>, e: Entry, domain: string, path: string)
    requires Keyed(bs) && Lower(e.spec.host) == e.spec.host
    ensures Keyed(Extend(bs, e)) && Grown(bs, Extend(bs, e))
    ensures SlotAt(Extend(bs, e), domain, path) ==
            if SlotAt(bs, domain, path).None? && Names(e, domain, path) then Some(NewSlot(e.spec)) else SlotAt(bs, domain, path)
    ensures HostAt(Extend(bs, e), domain) ==
            if HostAt(bs, domain).None? && Direct(e) && e.spec.host == domain then Some(NewBench(domain).host) else HostAt(bs, domain)
  {
    hide Keyed, HostIndex, PathIndex;
    if Direct(e) {
      var missing := HostIndex(bs, e.spec.host).None?;
      var cs := if missing then bs + [NewBench(e.spec.host)] else bs;
      if missing {
        HostAdded(bs, e.spec.host, domain, path);
      }
      var h := HostIndex(cs, e.spec.host).value;
      if PathIndex(cs[h].slots, e.spec.path).None? {
        SlotAdded(cs, h, NewSlot(e.spec), domain, path);
        assert Extend(bs, e) == WithSlot(cs, h, NewSlot(e.spec));
      }
    }
  }

  lemma {:induction false} ShapeKeyed(bs: seq<Bench>, es: seq<Entry>)
    requires Keyed(bs) && Parsed(es)
    ensures Keyed(Shape(bs, es)) && Grown(bs, Shape(bs, es))
  {
    if es != [] {
      ShapeKeyed(bs, es[..|es| - 1]);
      ExtendKeyed(Shape(bs, es[..|es| - 1]), es[|es| - 1]);
    }
  }

  /** A route that was missing is created exactly when an entry names it. */
  lemma {:induction false} ShapeLookup(bs: seq<Bench>, es: seq<Entry>, domain: string, path: string)
    requires Keyed(bs) && Parsed(es)
    ensures var was, now := SlotAt(bs, domain, path), SlotAt(Shape(bs, es), domain, path);
            && (was.Some? ==> now == was)
            && (was.None? && now.Some? ==> exists e :: e in es && Names(e, domain, path) && now.value == NewSlot(e.spec))
            && ((exists e :: e in es && Names(e, domain, path)) ==> now.Some?)
    ensures var was, now := HostAt(bs, domain), HostAt(Shape(bs, es), domain);
            && (was.Some? ==> now == was)
            && (was.None? && now.Some? ==> now.value == NewBench(domain).host && exists e :: e in es && Direct(e) && e.spec.host == domain)
            && ((exists e :: e in es && Direct(e) && e.spec.host == domain) ==> now.Some?)
  {
    if es != [] {
      var before, e := es[..|es| - 1], es[|es| - 1];
      assert forall x :: x in es <==> x in before || x == e;
      ShapeKeyed(bs, before);
      ShapeLookup(bs, before, domain, path);
      ExtendLookup(Shape(bs, before), e, domain, path);
    }
  }

  /** Nothing is created when every route that is named exists. */
  lemma {:induction false} ShapeStable(bs: seq<Bench>, es: seq<Entry>)
    requires forall e :: e in es && Direct(e) ==> SlotAt(bs, e.spec.host, e.spec.path).Some?
    ensures Shape(bs, es) == bs
  {
    if es != [] {
      assert forall x :: x in es[..|es| - 1] ==> x in es;
      ShapeStable(bs, es[..|es| - 1]);
      assert es[|es| - 1] in es;
    }
  }

  /** Folding every slot is folding every slot that can be looked up. */
  lemma AllFoldByKey(bs: seq<Bench>, es: seq<Entry>)
    requires Keyed(bs)
    ensures AllFold(bs, es) <==>
            forall d, p :: SlotAt(bs, d, p).Some? ==> Fold(SlotAt(bs, d, p).value, d, es).Ok?
  {
    if forall d, p :: SlotAt(bs, d, p).Some? ==> Fold(SlotAt(bs, d, p).value, d, es).Ok? {
      forall i, j | 0 <= i < |bs| && 0 <= j < |bs[i].slots|
        ensures Fold(bs[i].slots[j], Lower(bs[i].host.domain), es).Ok?
      {
        SlotAtIndex(bs, i, j);
      }
    }
    if AllFold(bs, es) {
      forall d, p | SlotAt(bs, d, p).Some? ensures Fold(SlotAt(bs, d, p).value, d, es).Ok? {
        var h := HostIndex(bs, d).value;
        var j := PathIndex(bs[h].slots, p).value;
        assert Fold(bs[h].slots[j], Lower(bs[h].host.domain), es).Ok?;
      }
    }
  }
}
