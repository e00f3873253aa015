/** Reconciliation depends only on which entries there are, and running it again changes nothing. */
module Canonical {
  import opened Text
  import opened Config
  import opened Endpoints
  import opened Labels
  import opened Ownership
  import opened Shapes
  import opened Records

  ghost predicate SameEntries(es: seq<Entry>, fs: seq<Entry>) {
    forall e :: e in es <==> e in fs
  }

  /** No entry speaks for a frozen source. */
  predicate Thawed(es: seq<Entry>, frozen: set<string>) {
    forall e :: e in es ==> e.source !in frozen
  }

  predicate DistinctDiscovered(c: Configuration) {
    forall i, j :: 0 <= i < |c.hosts| && 0 <= j < |c.hosts[i].routes| ==> DistinctEndpoints(Discovered(c.hosts[i].routes[j]))
  }

  /** Equal slots, or slots just created for the same route by entries that may disagree on options. */
  ghost predicate Twin(s: Slot, t: Slot, domain: string, es: seq<Entry>) {
    || s == t
    || (&& !s.settled && t == s.(route := s.route.(options := t.route.options))
        && exists e :: e in es && Aims(e, domain, s.route) && Direct(e))
  }

  lemma TwinCompatible(s: Slot, t: Slot, domain: string, es: seq<Entry>, fs: seq<Entry>)
    requires Twin(s, t, domain, es) && SameEntries(es, fs)
    ensures Compatible(s, domain, es) <==> Compatible(t, domain, fs)
  {
    forall e ensures Aims(e, domain, s.route) <==> Aims(e, domain, t.route) {}
    forall e ensures Accepts(s, e) <==> Accepts(t, e) {}
  }

  lemma TwinOptions(s: Slot, t: Slot, domain: string, es: seq<Entry>, fs: seq<Entry>)
    requires Twin(s, t, domain, es) && SameEntries(es, fs)
    requires Fold(s, domain, es).Ok? && Fold(t, domain, fs).Ok?
    ensures Fold(s, domain, es).value.route.options == Fold(t, domain, fs).value.route.options
  {
    FoldOptions(s, domain, es);
    FoldOptions(t, domain, fs);
    forall e ensures Aims(e, domain, s.route) <==> Aims(e, domain, t.route) {}
    if e :| e in es && Aims(e, domain, s.route) && Direct(e) {
      assert e in fs && Aims(e, domain, t.route);
    }
  }

  lemma TwinTargets(s: Slot, t: Slot, domain: string, es: seq<Entry>, fs: seq<Entry>)
    requires Twin(s, t, domain, es) && SameEntries(es, fs)
    requires Fold(s, domain, es).Ok? && Fold(t, domain, fs).Ok?
    requires DistinctEndpoints(Discovered(s.route))
    ensures Sort(Discovered(Fold(s, domain, es).value.route)) == Sort(Discovered(Fold(t, domain, fs).value.route))
  {
    FoldDistinct(s, domain, es);
    FoldDistinct(t, domain, fs);
    var a, b := Discovered(Fold(s, domain, es).value.route), Discovered(Fold(t, domain, fs).value.route);
    forall x ensures x in a <==> x in b {
      FoldTargets(s, domain, es, x);
      FoldTargets(t, domain, fs, x);
      TwinAimed(s, t, domain, es, fs, x);
    }
    SortCanonical(a, b);
  }

  lemma TwinAimed(s: Slot, t: Slot, domain: string, es: seq<Entry>, fs: seq<Entry>, x: Target)
    requires Twin(s, t, domain, es) && SameEntries(es, fs)
    ensures Aimed(s, domain, es, x) <==> Aimed(t, domain, fs, x)
    ensures forall k :: Contributed(s, domain, es, k, x) <==> Contributed(t, domain, fs, k, x)
  {
    forall e ensures Aims(e, domain, s.route) <==> Aims(e, domain, t.route) {}
  }

  /** The members of one source, as far as sorting tells them apart. */
  lemma TwinMembers(s: Slot, t: Slot, domain: string, es: seq<Entry>, fs: seq<Entry>, frozen: set<string>, k: string)
    requires Twin(s, t, domain, es) && SameEntries(es, fs)
    requires Fold(s, domain, es).Ok? && Fold(t, domain, fs).Ok?
    requires Clean(s, frozen) && Thawed(es, frozen)
    ensures var a, b := Fold(s, domain, es).value.owned, Fold(t, domain, fs).value.owned;
            (Named(a, k) <==> Named(b, k)) && Sort(Members(a, k)) == Sort(Members(b, k))
  {
    FoldMembers(s, domain, es, k);
    FoldMembers(t, domain, fs, k);
    forall x ensures Contributed(s, domain, es, k, x) <==> Contributed(t, domain, fs, k, x) {
      TwinAimed(s, t, domain, es, fs, x);
    }
    if k !in frozen {
      FoldMembersDistinct(s, domain, es, k);
      FoldMembersDistinct(t, domain, fs, k);
      SortCanonical(Members(Fold(s, domain, es).value.owned, k), Members(Fold(t, domain, fs).value.owned, k));
    }
  }

  lemma TwinFinish(s: Slot, t: Slot, domain: string, es: seq<Entry>, fs: seq<Entry>, frozen: set<string>)
    requires Twin(s, t, domain, es) && SameEntries(es, fs)
    requires Clean(s, frozen) && Thawed(es, frozen)
    ensures Fold(s, domain, es).Ok? <==> Fold(t, domain, fs).Ok?
    ensures Fold(s, domain, es).Ok? ==> Finish(Fold(s, domain, es).value) == Finish(Fold(t, domain, fs).value)
  {
    TwinCompatible(s, t, domain, es, fs);
    FoldSucceeds(s, domain, es);
    FoldSucceeds(t, domain, fs);
    if Fold(s, domain, es).Ok? {
      var v, w := Fold(s, domain, es).value, Fold(t, domain, fs).value;
      FoldFrame(s, domain, es);
      FoldFrame(t, domain, fs);
      TwinOptions(s, t, domain, es, fs);
      TwinTargets(s, t, domain, es, fs);
      forall k ensures (Named(v.owned, k) <==> Named(w.owned, k)) && Sort(Members(v.owned, k)) == Sort(Members(w.owned, k)) {
        TwinMembers(s, t, domain, es, fs, frozen, k);
      }
      FoldNames(s, domain, es);
      FoldNames(t, domain, fs);
      SortSourcesCanonical(v.owned, w.owned);
      ForeignNamed(v.owned);
      ForeignNamed(w.owned);
    }
  }
}
