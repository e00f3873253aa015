/** What folding entries over one route adds to it, stated by membership alone. */
module Ownership {
  import opened Text
  import opened Config
  import opened Endpoints
  import opened Labels

  predicate Direct(e: Entry) {
    e.spec.group == ""
  }

  function Base(s: Slot): seq<Target> {
    RouteTargets(s.route)
  }

  predicate Named(owned: seq<Source>, name: string) {
    exists i :: 0 <= i < |owned| && owned[i].name == name
  }

  function Members(owned: seq<Source>, name: string): seq<Target> {
    if owned == [] then [] else if owned[0].name == name then owned[0].members else Members(owned[1..], name)
  }

  /** Some entry of `es` aims at the slot with this target on behalf of `name`. */
  ghost predicate Contributed(s: Slot, domain: string, es: seq<Entry>, name: string, t: Target) {
    exists e :: e in es && Aims(e, domain, s.route) && e.source == name && e.target == t
  }

  ghost predicate Aimed(s: Slot, domain: string, es: seq<Entry>, t: Target) {
    exists e :: e in es && Aims(e, domain, s.route) && e.target == t
  }

  // ---- The frame: what an entry cannot change ----

  predicate SameRoute(a: Route, b: Route) {
    && b == a.(options := b.options, docker := b.docker)
    && a.docker.Some? == b.docker.Some?
    && (a.docker.Some? ==> b.docker.value == a.docker.value.(targets := b.docker.value.targets))
  }

  lemma {:induction false} FoldFrame(s: Slot, domain: string, es: seq<Entry>)
    requires Fold(s, domain, es).Ok?
    ensures SameRoute(s.route, Fold(s, domain, es).value.route)
  {
    if es != [] {
      FoldFrame(s, domain, es[..|es| - 1]);
    }
  }

  lemma FoldStep(s: Slot, domain: string, es: seq<Entry>)
    requires es != []
    ensures Fold(s, domain, es).Ok? ==> Fold(s, domain, es[..|es| - 1]).Ok?
    ensures Fold(s, domain, es).Ok? ==>
              Fold(s, domain, es) == Visit(Fold(s, domain, es[..|es| - 1]).value, domain, es[|es| - 1])
    ensures forall e :: e in es <==> e in es[..|es| - 1] || e == es[|es| - 1]
  {
    assert es == es[..|es| - 1] + [es[|es| - 1]];
  }

  // ---- Options ----

  lemma {:induction false} FoldOptions(s: Slot, domain: string, es: seq<Entry>)
    requires Fold(s, domain, es).Ok?
    ensures var v := Fold(s, domain, es).value;
            && (forall e :: e in es && Aims(e, domain, s.route) && Direct(e) ==> v.settled && v.route.options == e.spec.options)
            && (s.settled ==> v.settled && v.route.options == s.route.options)
            && (v.settled ==> s.settled || exists e :: e in es && Aims(e, domain, s.route) && Direct(e))
            && ((forall e :: e in es && Aims(e, domain, s.route) ==> !Direct(e)) ==> v.route.options == s.route.options)
  {
    if es != [] {
      var before := es[..|es| - 1];
      FoldStep(s, domain, es);
      FoldOptions(s, domain, before);
      FoldFrame(s, domain, before);
    }
  }

  // ---- Endpoints and discovered targets ----

  lemma {:induction false} FoldLookups(s: Slot, domain: string, es: seq<Entry>, ep: Endpoint)
    requires Fold(s, domain, es).Ok?
    ensures var v := Fold(s, domain, es).value;
            && (Find(Base(s), ep).Some? ==> Find(Base(v), ep) == Find(Base(s), ep))
            && (Find(Base(s), ep).None? && Find(Base(v), ep).Some? ==> Aimed(s, domain, es, Find(Base(v), ep).value))
            && (forall e :: e in es && Aims(e, domain, s.route) && At(e.target) == ep ==> Find(Base(v), ep) == Some(e.target))
  {
    if es != [] {
      var before, e := es[..|es| - 1], es[|es| - 1];
      FoldStep(s, domain, es);
      FoldLookups(s, domain, before, ep);
      FoldFrame(s, domain, before);
      var u, v := Fold(s, domain, before).value, Fold(s, domain, es).value;
      if Aims(e, domain, s.route) && Find(Base(u), At(e.target)).None? {
        assert Base(v) == Base(u) + [e.target];
        FindConcat(Base(u), [e.target], ep);
      } else {
        assert Base(v) == Base(u);
      }
    }
  }

  lemma {:induction false} FoldTargets(s: Slot, domain: string, es: seq<Entry>, t: Target)
    requires Fold(s, domain, es).Ok?
    ensures var v := Fold(s, domain, es).value;
            t in Discovered(v.route) <==> t in Discovered(s.route) || (t !in s.route.targets && Aimed(s, domain, es, t))
  {
    if es != [] {
      var before, e := es[..|es| - 1], es[|es| - 1];
      FoldStep(s, domain, es);
      FoldTargets(s, domain, before, t);
      FoldFrame(s, domain, before);
      var u := Fold(s, domain, before).value;
      assert Aimed(s, domain, es, t) <==> Aimed(s, domain, before, t) || (Aims(e, domain, s.route) && e.target == t);
    }
  }

  lemma {:induction false} FoldDistinct(s: Slot, domain: string, es: seq<Entry>)
    requires Fold(s, domain, es).Ok?
    requires DistinctEndpoints(Discovered(s.route))
    ensures DistinctEndpoints(Discovered(Fold(s, domain, es).value.route))
  {
    if es != [] {
      FoldStep(s, domain, es);
      FoldDistinct(s, domain, es[..|es| - 1]);
      FoldFrame(s, domain, es[..|es| - 1]);
    }
  }

  // ---- Success, by membership ----

  predicate Accepts(s: Slot, e: Entry) {
    && s.route.docker.Some?
    && (Direct(e) ==> s.route.docker.value.managed && (s.settled ==> s.route.options == e.spec.options))
    && (Find(Base(s), At(e.target)).Some? ==> Find(Base(s), At(e.target)).value == e.target)
  }

  predicate Agree(a: Entry, b: Entry) {
    && (At(a.target) == At(b.target) ==> a.target == b.target)
    && (Direct(a) && Direct(b) ==> a.spec.options == b.spec.options)
  }

  ghost predicate Compatible(s: Slot, domain: string, es: seq<Entry>) {
    && (forall e :: e in es && Aims(e, domain, s.route) ==> Accepts(s, e))
    && (forall a, b :: a in es && b in es && Aims(a, domain, s.route) && Aims(b, domain, s.route) ==> Agree(a, b))
  }

  /** Folding succeeds exactly when every aimed entry suits the route and every two of them agree. */
  lemma {:induction false} FoldSucceeds(s: Slot, domain: string, es: seq<Entry>)
    ensures Fold(s, domain, es).Ok? <==> Compatible(s, domain, es)
  {
    if es != [] {
      var before, e := es[..|es| - 1], es[|es| - 1];
      assert es == before + [e];
      FoldSucceeds(s, domain, before);
      CompatibleSnoc(s, domain, before, e);
      if Fold(s, domain, before).Ok? {
        FoldFrame(s, domain, before);
        if Aims(e, domain, s.route) {
          LastEntry(s, domain, before, e);
        }
      }
    }
  }

  lemma CompatibleSnoc(s: Slot, domain: string, before: seq<Entry>, e: Entry)
    ensures Compatible(s, domain, before + [e]) <==>
            && Compatible(s, domain, before)
            && (Aims(e, domain, s.route) ==>
                  Accepts(s, e) && forall a :: a in before && Aims(a, domain, s.route) ==> Agree(a, e))
  {
    var es := before + [e];
    assert forall a :: a in es <==> a in before || a == e;
  }

  lemma LastEntry(s: Slot, domain: string, before: seq<Entry>, e: Entry)
    requires Fold(s, domain, before).Ok? && Aims(e, domain, s.route)
    ensures Visit(Fold(s, domain, before).value, domain, e).Ok? <==>
            Accepts(s, e) && forall a :: a in before && Aims(a, domain, s.route) ==> Agree(a, e)
  {
    FoldFrame(s, domain, before);
    FoldOptions(s, domain, before);
    FoldLookups(s, domain, before, At(e.target));
    var u := Fold(s, domain, before).value;
    var here := Find(Base(u), At(e.target));
    if here.Some? && Find(Base(s), At(e.target)).None? {
      var a :| a in before && Aims(a, domain, s.route) && a.target == here.value;
    }
  }

  // ---- Owned members ----

  lemma {:induction false} AddMemberEffect(owned: seq<Source>, name: string, t: Target, k: string)
    ensures Members(AddMember(owned, name, t), k) ==
            if k == name && t !in Members(owned, name) then Members(owned, k) + [t] else Members(owned, k)
    ensures Named(AddMember(owned, name, t), k) <==> Named(owned, k) || k == name
  {
    var after := AddMember(owned, name, t);
    if owned == [] {
      assert after[0].name == name;
    } else if owned[0].name == name {
      assert after[0].name == name;
      if Named(owned, k) {
        var i :| 0 <= i < |owned| && owned[i].name == k;
        assert after[i].name == k;
      }
      if Named(after, k) {
        var i :| 0 <= i < |after| && after[i].name == k;
        assert owned[i].name == k;
      }
    } else {
      AddMemberEffect(owned[1..], name, t, k);
      NamedTail(owned, k);
      NamedTail(after, k);
      assert after[1..] == AddMember(owned[1..], name, t);
    }
  }

  lemma NamedTail(owned: seq<Source>, k: string)
    requires owned != []
    ensures Named(owned, k) <==> owned[0].name == k || Named(owned[1..], k)
  {
    if Named(owned, k) && owned[0].name != k {
      var i :| 0 <= i < |owned| && owned[i].name == k;
      assert owned[1..][i - 1].name == k;
    }
    if Named(owned[1..], k) {
      var i :| 0 <= i < |owned[1..]| && owned[1..][i].name == k;
      assert owned[i + 1].name == k;
    }
  }

  lemma {:induction false} AddMemberDistinct(owned: seq<Source>, name: string, t: Target)
    requires DistinctNames(owned)
    ensures DistinctNames(AddMember(owned, name, t))
  {
    if owned != [] && owned[0].name != name {
      AddMemberDistinct(owned[1..], name, t);
      var rest := AddMember(owned[1..], name, t);
      forall j | 0 <= j < |rest| ensures rest[j].name != owned[0].name {
        assert Named(rest, rest[j].name);
        AddMemberEffect(owned[1..], name, t, rest[j].name);
        if rest[j].name != name {
          var i :| 0 <= i < |owned[1..]| && owned[1..][i].name == rest[j].name;
          assert owned[i + 1].name == rest[j].name;
        }
      }
    }
  }

  lemma {:induction false} FoldMembers(s: Slot, domain: string, es: seq<Entry>, k: string)
    requires Fold(s, domain, es).Ok?
    ensures var v := Fold(s, domain, es).value;
            && (forall t :: t in Members(v.owned, k) <==>
                  t in Members(s.owned, k) || (t !in s.route.targets && Contributed(s, domain, es, k, t)))
            && (Named(v.owned, k) <==> Named(s.owned, k) || exists t :: t !in s.route.targets && Contributed(s, domain, es, k, t))
            && ((forall t :: !Contributed(s, domain, es, k, t)) ==> Members(v.owned, k) == Members(s.owned, k))
  {
    if es != [] {
      var before, e := es[..|es| - 1], es[|es| - 1];
      FoldStep(s, domain, es);
      FoldMembers(s, domain, before, k);
      FoldFrame(s, domain, before);
      var u, v := Fold(s, domain, before).value, Fold(s, domain, es).value;
      var hit := Aims(e, domain, s.route) && e.source == k;
      forall t ensures Contributed(s, domain, es, k, t) <==> Contributed(s, domain, before, k, t) || (hit && e.target == t) {
        if Contributed(s, domain, es, k, t) {
          var x :| x in es && Aims(x, domain, s.route) && x.source == k && x.target == t;
        }
      }
      if Aims(e, domain, s.route) && e.target !in s.route.targets {
        assert v.owned == AddMember(u.owned, e.source, e.target);
        AddMemberEffect(u.owned, e.source, e.target, k);
      } else {
        assert v.owned == u.owned;
      }
    }
  }

  lemma {:induction false} FoldNames(s: Slot, domain: string, es: seq<Entry>)
    requires Fold(s, domain, es).Ok? && DistinctNames(s.owned)
    ensures DistinctNames(Fold(s, domain, es).value.owned)
  {
    if es != [] {
      var before, e := es[..|es| - 1], es[|es| - 1];
      FoldStep(s, domain, es);
      FoldNames(s, domain, before);
      AddMemberDistinct(Fold(s, domain, before).value.owned, e.source, e.target);
    }
  }

  /** Members recorded from entries alone have distinct endpoints. */
  lemma DistinctSnoc(ts: seq<Target>, t: Target)
    requires DistinctEndpoints(ts) && forall x :: x in ts ==> At(x) != At(t)
    ensures DistinctEndpoints(ts + [t])
  {
  }

  /** A new member of a source stands apart from those it has, since the entries agree. */
  lemma MemberApart(s: Slot, domain: string, es: seq<Entry>, k: string)
    requires es != [] && Fold(s, domain, es).Ok? && Members(s.owned, k) == []
    requires var e := es[|es| - 1]; Aims(e, domain, s.route)
    ensures Fold(s, domain, es[..|es| - 1]).Ok?
    ensures var u, t := Fold(s, domain, es[..|es| - 1]).value, es[|es| - 1].target;
            forall x :: x in Members(u.owned, k) && x != t ==> At(x) != At(t)
  {
    hide Fold, Members;
    var before, e := es[..|es| - 1], es[|es| - 1];
    FoldStep(s, domain, es);
    FoldMembers(s, domain, before, k);
    FoldSucceeds(s, domain, es);
    var u := Fold(s, domain, before).value;
    forall x | x in Members(u.owned, k) && x != e.target ensures At(x) != At(e.target) {
      var a :| a in before && Aims(a, domain, s.route) && a.source == k && a.target == x;
      assert a in es && e in es && Agree(a, e);
    }
  }

  lemma FoldMemberStep(s: Slot, domain: string, es: seq<Entry>)
    requires es != [] && Fold(s, domain, es).Ok?
    ensures Fold(s, domain, es[..|es| - 1]).Ok?
    ensures var u, e := Fold(s, domain, es[..|es| - 1]).value, es[|es| - 1];
            Fold(s, domain, es).value.owned
            == if Aims(e, domain, s.route) && e.target !in s.route.targets then AddMember(u.owned, e.source, e.target) else u.owned
  {
    hide AddMember, Find;
    FoldStep(s, domain, es);
    FoldFrame(s, domain, es[..|es| - 1]);
  }

  lemma {:induction false} FoldMembersDistinct(s: Slot, domain: string, es: seq<Entry>, k: string)
    requires Fold(s, domain, es).Ok?
    requires Members(s.owned, k) == []
    ensures DistinctEndpoints(Members(Fold(s, domain, es).value.owned, k))
  {
    if es == [] {
      assert Fold(s, domain, es).value == s;
      NoneDistinct();
    } else {
      hide DistinctEndpoints, Aims, Fold, AddMember, Members;
      var before, e := es[..|es| - 1], es[|es| - 1];
      FoldMemberStep(s, domain, es);
      FoldMembersDistinct(s, domain, before, k);
      var u := Fold(s, domain, before).value;
      AddMemberEffect(u.owned, e.source, e.target, k);
      if Aims(e, domain, s.route) && e.source == k && e.target !in Members(u.owned, k) {
        MemberApart(s, domain, es, k);
        DistinctSnoc(Members(u.owned, k), e.target);
      }
    }
  }

  lemma NoneDistinct()
    ensures DistinctEndpoints([])
  {
  }

  /** Entries that aim elsewhere leave a route alone. */
  lemma {:induction false} FoldIdle(s: Slot, domain: string, es: seq<Entry>)
    requires forall e :: e in es ==> !Aims(e, domain, s.route)
    ensures Fold(s, domain, es) == Ok(s)
  {
    if es != [] {
      assert forall e :: e in es[..|es| - 1] ==> e in es;
      FoldIdle(s, domain, es[..|es| - 1]);
      assert es[|es| - 1] in es;
    }
  }
}
