/** A reconciled route, prepared and folded with the same entries again, is written back unchanged. */
module Idempotence {
  import opened Text
  import opened Config
  import opened Endpoints
  import opened Labels
  import opened Ownership
  import opened Records
  import opened Canonical

  /** A slot, folded successfully and written back to a valid route. */
  ghost predicate Written(s: Slot, domain: string, es: seq<Entry>, frozen: set<string>) {
    && Clean(s, frozen) && Thawed(es, frozen)
    && Fold(s, domain, es).Ok?
    && var r := Finish(Fold(s, domain, es).value);
       r.docker.Some? ==> ValidDocker(r.docker.value, r.targets)
  }

  function Again(s: Slot, domain: string, es: seq<Entry>, frozen: set<string>): Slot
    requires Fold(s, domain, es).Ok?
  {
    Prepare(Finish(Fold(s, domain, es).value), frozen)
  }

  lemma FrozenMembers(s: Slot, domain: string, es: seq<Entry>, frozen: set<string>, k: string)
    requires Clean(s, frozen) && Thawed(es, frozen) && Fold(s, domain, es).Ok? && k in frozen
    ensures var v := Fold(s, domain, es).value;
            Members(v.owned, k) == Members(s.owned, k) && (Named(v.owned, k) <==> Named(s.owned, k))
  {
    FoldMembers(s, domain, es, k);
    forall t ensures !Contributed(s, domain, es, k, t) {}
  }

  /** In the explicit form each frozen source is read back as it was written. */
  lemma ReadBackExplicit(s: Slot, domain: string, es: seq<Entry>, frozen: set<string>, k: string)
    requires Written(s, domain, es, frozen)
    requires var r := Finish(Fold(s, domain, es).value); r.docker.Some? && r.docker.value.sources.Some?
    ensures var again := Again(s, domain, es, frozen);
            && (Named(again.owned, k) <==> Named(s.owned, k))
            && (k in frozen ==> Members(again.owned, k) == Sort(Members(s.owned, k)))
  {
    var v := Fold(s, domain, es).value;
    var r := Finish(v);
    FoldFrame(s, domain, es);
    FoldNames(s, domain, es);
    SortSourcesEffect(v.owned, k);
    PrepareOwns(r, frozen, k);
    if k in frozen {
      FrozenMembers(s, domain, es, frozen, k);
      SortMembers(Members(s.owned, k));
      WithoutIdle(Sort(Members(s.owned, k)), r.targets);
    }
  }

  lemma AgainTargetsExplicit(s: Slot, domain: string, es: seq<Entry>, frozen: set<string>, t: Target)
    requires Written(s, domain, es, frozen)
    requires var r := Finish(Fold(s, domain, es).value); r.docker.Some? && r.docker.value.sources.Some?
    ensures t in Discovered(Again(s, domain, es, frozen).route) <==> t in Discovered(s.route)
  {
    var again := Again(s, domain, es, frozen);
    var r := Finish(Fold(s, domain, es).value);
    FoldFrame(s, domain, es);
    PreparePool(r, frozen, t);
    PrepareOwns(r, frozen, "");
    if Owned(again.owned, t) {
      var k := OwnedUnder(again.owned, t);
      PrepareOwns(r, frozen, k);
      ReadBackExplicit(s, domain, es, frozen, k);
      SortMembers(Members(s.owned, k));
      MemberOwned(s.owned, k, t);
    }
    if Owned(s.owned, t) {
      var k := OwnedUnder(s.owned, t);
      ReadBackExplicit(s, domain, es, frozen, k);
      SortMembers(Members(s.owned, k));
      MemberOwned(again.owned, k, t);
    }
  }

  /** In the compact form only the local source owns anything, and a frozen one gained nothing. */
  lemma CompactLocal(s: Slot, domain: string, es: seq<Entry>, frozen: set<string>, t: Target)
    requires Written(s, domain, es, frozen)
    requires var r := Finish(Fold(s, domain, es).value); r.docker.Some? && r.docker.value.sources.None?
    ensures var v := Fold(s, domain, es).value;
            && (LOCAL in frozen ==> (t in Discovered(v.route) <==> t in Discovered(s.route)))
            && (LOCAL !in frozen ==> t !in Discovered(s.route))
  {
    var v := Fold(s, domain, es).value;
    FoldFrame(s, domain, es);
    ForeignNamed(v.owned);
    if LOCAL in frozen {
      FoldTargets(s, domain, es, t);
      if t !in s.route.targets && Aimed(s, domain, es, t) {
        var e :| e in es && Aims(e, domain, s.route) && e.target == t;
        FoldMembers(s, domain, es, e.source);
        assert Contributed(s, domain, es, e.source, t);
        assert Named(v.owned, e.source);
      }
    } else if t in Discovered(s.route) {
      var k := OwnedUnder(s.owned, t);
      FrozenMembers(s, domain, es, frozen, k);
    }
  }

  lemma AgainTargetsCompact(s: Slot, domain: string, es: seq<Entry>, frozen: set<string>, t: Target)
    requires Written(s, domain, es, frozen)
    requires var r := Finish(Fold(s, domain, es).value); r.docker.Some? && r.docker.value.sources.None?
    ensures t in Discovered(Again(s, domain, es, frozen).route) <==> t in Discovered(s.route)
  {
    var v := Fold(s, domain, es).value;
    var r, again := Finish(v), Again(s, domain, es, frozen);
    FoldFrame(s, domain, es);
    CompactLocal(s, domain, es, frozen, t);
    PreparePool(r, frozen, t);
    PrepareOwns(r, frozen, LOCAL);
    SortMembers(Discovered(v.route));
    if LOCAL in frozen {
      var recorded := RecordedSources(r.docker.value);
      assert Members(recorded, LOCAL) == Sort(Discovered(v.route));
      WithoutMembers(Members(recorded, LOCAL), r.targets, t);
      if t in Discovered(s.route) {
        assert t in Members(again.owned, LOCAL);
        MemberOwned(again.owned, LOCAL, t);
      }
      if Owned(again.owned, t) {
        assert t in r.docker.value.targets;
      }
    } else if Owned(again.owned, t) {
      var k := OwnedUnder(again.owned, t);
      PrepareOwns(r, frozen, k);
    }
  }

  lemma AgainTargets(s: Slot, domain: string, es: seq<Entry>, frozen: set<string>, t: Target)
    requires Written(s, domain, es, frozen)
    ensures t in Discovered(Again(s, domain, es, frozen).route) <==> t in Discovered(s.route)
  {
    var r := Finish(Fold(s, domain, es).value);
    FoldFrame(s, domain, es);
    if r.docker.Some? {
      if r.docker.value.sources.Some? {
        AgainTargetsExplicit(s, domain, es, frozen, t);
      } else {
        AgainTargetsCompact(s, domain, es, frozen, t);
      }
    }
  }

  lemma AgainClean(s: Slot, domain: string, es: seq<Entry>, frozen: set<string>)
    requires Written(s, domain, es, frozen)
    ensures var v, again := Fold(s, domain, es).value, Again(s, domain, es, frozen);
            && Clean(again, frozen)
            && SameRoute(Finish(v), again.route) && again.route.options == v.route.options
            && again.settled == s.settled
            && (forall t :: t in Discovered(again.route) <==> t in Discovered(s.route))
  {
    var v, again := Fold(s, domain, es).value, Again(s, domain, es, frozen);
    FoldFrame(s, domain, es);
    FoldDistinct(s, domain, es);
    SortDistinct(Discovered(v.route));
    PrepareClean(Finish(v), frozen);
    PrepareOwns(Finish(v), frozen, "");
    forall t ensures t in Discovered(again.route) <==> t in Discovered(s.route) {
      AgainTargets(s, domain, es, frozen, t);
    }
    var a, b := Discovered(again.route), Discovered(s.route);
    assert a == [] <==> b == [] by {
      if a != [] { assert a[0] in b; }
      if b != [] { assert b[0] in a; }
    }
  }

  lemma AgainFolds(s: Slot, domain: string, es: seq<Entry>, frozen: set<string>)
    requires Written(s, domain, es, frozen)
    ensures Fold(Again(s, domain, es, frozen), domain, es).Ok?
  {
    var v, again := Fold(s, domain, es).value, Again(s, domain, es, frozen);
    AgainClean(s, domain, es, frozen);
    FoldFrame(s, domain, es);
    FoldSucceeds(s, domain, es);
    FoldSucceeds(again, domain, es);
    FoldOptions(s, domain, es);
    forall e ensures Aims(e, domain, again.route) <==> Aims(e, domain, s.route) {}
    forall e | e in es && Aims(e, domain, again.route) ensures Accepts(again, e) {
      assert Accepts(s, e);
      FindConcat(s.route.targets, Discovered(s.route), At(e.target));
      FindConcat(s.route.targets, Discovered(again.route), At(e.target));
      FindCanonical(Discovered(s.route), Discovered(again.route), At(e.target));
    }
  }

  lemma AgainMembers(s: Slot, domain: string, es: seq<Entry>, frozen: set<string>, k: string)
    requires Written(s, domain, es, frozen) && Fold(Again(s, domain, es, frozen), domain, es).Ok?
    requires var r := Finish(Fold(s, domain, es).value); r.docker.Some? && r.docker.value.sources.Some?
    ensures var a, b := Fold(s, domain, es).value.owned, Fold(Again(s, domain, es, frozen), domain, es).value.owned;
            (Named(a, k) <==> Named(b, k)) && Sort(Members(a, k)) == Sort(Members(b, k))
  {
    var again := Again(s, domain, es, frozen);
    AgainClean(s, domain, es, frozen);
    FoldFrame(s, domain, es);
    ReadBackExplicit(s, domain, es, frozen, k);
    FoldMembers(s, domain, es, k);
    FoldMembers(again, domain, es, k);
    forall t ensures Contributed(s, domain, es, k, t) <==> Contributed(again, domain, es, k, t) {
      forall e ensures Aims(e, domain, s.route) <==> Aims(e, domain, again.route) {}
    }
    if k in frozen {
      FrozenMembers(s, domain, es, frozen, k);
      FrozenMembers(again, domain, es, frozen, k);
      SortKeeps(Members(s.owned, k));
      SortSorted(Sort(Members(s.owned, k)));
    } else {
      FoldMembersDistinct(s, domain, es, k);
      FoldMembersDistinct(again, domain, es, k);
      SortCanonical(Members(Fold(s, domain, es).value.owned, k), Members(Fold(again, domain, es).value.owned, k));
    }
  }

  lemma AgainNotForeign(s: Slot, domain: string, es: seq<Entry>, frozen: set<string>)
    requires Written(s, domain, es, frozen) && Fold(Again(s, domain, es, frozen), domain, es).Ok?
    requires var r := Finish(Fold(s, domain, es).value); r.docker.Some? && r.docker.value.sources.None?
    ensures !Foreign(Fold(Again(s, domain, es, frozen), domain, es).value.owned)
  {
    var v, again := Fold(s, domain, es).value, Again(s, domain, es, frozen);
    var w := Fold(again, domain, es).value;
    AgainClean(s, domain, es, frozen);
    FoldFrame(s, domain, es);
    ForeignNamed(v.owned);
    ForeignNamed(w.owned);
    forall e ensures Aims(e, domain, s.route) <==> Aims(e, domain, again.route) {}
    forall k | k != LOCAL ensures !Named(w.owned, k) {
      FoldMembers(s, domain, es, k);
      FoldMembers(again, domain, es, k);
      PrepareOwns(Finish(v), frozen, k);
      forall t ensures Contributed(again, domain, es, k, t) ==> Contributed(s, domain, es, k, t) {}
    }
  }

  /** Writing a route back twice is writing it back once. */
  lemma AgainFinish(s: Slot, domain: string, es: seq<Entry>, frozen: set<string>)
    requires Written(s, domain, es, frozen)
    ensures var again := Again(s, domain, es, frozen);
            && Fold(again, domain, es).Ok?
            && Finish(Fold(again, domain, es).value) == Finish(Fold(s, domain, es).value)
  {
    var again := Again(s, domain, es, frozen);
    AgainFolds(s, domain, es, frozen);
    AgainClean(s, domain, es, frozen);
    var v, w := Fold(s, domain, es).value, Fold(again, domain, es).value;
    FoldFrame(s, domain, es);
    FoldFrame(again, domain, es);
    AgainOptions(s, domain, es, frozen);
    AgainSort(s, domain, es, frozen);
    if v.route.docker.Some? {
      if Finish(v).docker.value.sources.Some? {
        forall k ensures (Named(v.owned, k) <==> Named(w.owned, k)) && Sort(Members(v.owned, k)) == Sort(Members(w.owned, k)) {
          AgainMembers(s, domain, es, frozen, k);
        }
        FoldNames(s, domain, es);
        FoldNames(again, domain, es);
        SortSourcesCanonical(v.owned, w.owned);
      } else {
        AgainNotForeign(s, domain, es, frozen);
      }
    }
  }

  lemma AgainOptions(s: Slot, domain: string, es: seq<Entry>, frozen: set<string>)
    requires Written(s, domain, es, frozen) && Fold(Again(s, domain, es, frozen), domain, es).Ok?
    ensures Fold(Again(s, domain, es, frozen), domain, es).value.route.options == Fold(s, domain, es).value.route.options
  {
    var again := Again(s, domain, es, frozen);
    AgainClean(s, domain, es, frozen);
    FoldFrame(s, domain, es);
    FoldOptions(s, domain, es);
    FoldOptions(again, domain, es);
    forall e ensures Aims(e, domain, s.route) <==> Aims(e, domain, again.route) {}
    if e :| e in es && Aims(e, domain, s.route) && Direct(e) {
      assert Aims(e, domain, again.route);
    }
  }

  lemma AgainSort(s: Slot, domain: string, es: seq<Entry>, frozen: set<string>)
    requires Written(s, domain, es, frozen) && Fold(Again(s, domain, es, frozen), domain, es).Ok?
    ensures Sort(Discovered(Fold(Again(s, domain, es, frozen), domain, es).value.route)) == Sort(Discovered(Fold(s, domain, es).value.route))
  {
    var again := Again(s, domain, es, frozen);
    AgainClean(s, domain, es, frozen);
    FoldFrame(s, domain, es);
    FoldDistinct(s, domain, es);
    FoldDistinct(again, domain, es);
    var a, b := Discovered(Fold(again, domain, es).value.route), Discovered(Fold(s, domain, es).value.route);
    forall x ensures x in a <==> x in b {
      FoldTargets(s, domain, es, x);
      FoldTargets(again, domain, es, x);
      forall e ensures Aims(e, domain, s.route) <==> Aims(e, domain, again.route) {}
    }
    SortCanonical(a, b);
  }
}
