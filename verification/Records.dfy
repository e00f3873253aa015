/** Preparing a route and writing it back: the pools, the recorded sources and their canonical order. */
module Records {
  import opened Text
  import opened Config
  import opened Endpoints
  import opened Labels
  import opened Ownership

  predicate Unique(s: seq<Target>) {
    forall i, j :: 0 <= i < j < |s| ==> s[i] != s[j]
  }

  lemma {:induction false} WithoutMembers(ts: seq<Target>, manual: seq<Target>, t: Target)
    ensures t in Without(ts, manual) <==> t in ts && t !in manual
  {
    if ts != [] {
      assert t in ts <==> t == ts[0] || t in ts[1..];
      WithoutMembers(ts[1..], manual, t);
    }
  }

  lemma {:induction false} WithoutIdle(ts: seq<Target>, manual: seq<Target>)
    requires forall t :: t in ts ==> t !in manual
    ensures Without(ts, manual) == ts
  {
    if ts != [] {
      assert ts == [ts[0]] + ts[1..];
      WithoutIdle(ts[1..], manual);
    }
  }

  lemma {:induction false} KeptMembers(sources: seq<Source>, manual: seq<Target>, frozen: set<string>, k: string)
    ensures Named(Kept(sources, manual, frozen), k) <==> Named(sources, k) && k in frozen
    ensures k in frozen ==> Members(Kept(sources, manual, frozen), k) == Without(Members(sources, k), manual)
    ensures k !in frozen ==> Members(Kept(sources, manual, frozen), k) == []
  {
    if sources != [] {
      KeptMembers(sources[1..], manual, frozen, k);
      NamedTail(sources, k);
      var kept := Kept(sources, manual, frozen);
      if sources[0].name in frozen {
        assert kept[1..] == Kept(sources[1..], manual, frozen);
        NamedTail(kept, k);
      } else {
        assert kept == Kept(sources[1..], manual, frozen);
      }
    }
  }

  lemma {:induction false} KeptNames(sources: seq<Source>, manual: seq<Target>, frozen: set<string>)
    requires DistinctNames(sources)
    ensures DistinctNames(Kept(sources, manual, frozen))
  {
    if sources != [] {
      KeptNames(sources[1..], manual, frozen);
      var rest := Kept(sources[1..], manual, frozen);
      forall j | 0 <= j < |rest| ensures rest[j].name != sources[0].name {
        assert Named(rest, rest[j].name);
        KeptMembers(sources[1..], manual, frozen, rest[j].name);
        var i :| 0 <= i < |sources[1..]| && sources[1..][i].name == rest[j].name;
        assert sources[i + 1].name == rest[j].name;
      }
    }
  }

  lemma {:induction false} AddNewMembers(acc: seq<Target>, ts: seq<Target>, t: Target)
    ensures t in AddNew(acc, ts) <==> t in acc || t in ts
    decreases ts
  {
    if ts != [] {
      assert t in ts <==> t == ts[0] || t in ts[1..];
      AddNewMembers(if ts[0] in acc then acc else acc + [ts[0]], ts[1..], t);
    }
  }

  predicate Owned(owned: seq<Source>, t: Target) {
    exists i :: 0 <= i < |owned| && t in owned[i].members
  }

  lemma OwnedTail(owned: seq<Source>, t: Target)
    requires owned != []
    ensures Owned(owned, t) <==> t in owned[0].members || Owned(owned[1..], t)
  {
    if Owned(owned, t) && t !in owned[0].members {
      var i :| 0 <= i < |owned| && t in owned[i].members;
      assert t in owned[1..][i - 1].members;
    }
    if Owned(owned[1..], t) {
      var i :| 0 <= i < |owned[1..]| && t in owned[1..][i].members;
      assert t in owned[i + 1].members;
    }
  }

  lemma {:induction false} PoolMembers(acc: seq<Target>, owned: seq<Source>, t: Target)
    ensures t in Pool(acc, owned) <==> t in acc || Owned(owned, t)
    decreases owned
  {
    if owned != [] {
      AddNewMembers(acc, owned[0].members, t);
      PoolMembers(AddNew(acc, owned[0].members), owned[1..], t);
      OwnedTail(owned, t);
    }
  }

  lemma {:induction false} AddNewUnique(acc: seq<Target>, ts: seq<Target>)
    requires Unique(acc)
    ensures Unique(AddNew(acc, ts))
    decreases ts
  {
    if ts != [] {
      AddNewUnique(if ts[0] in acc then acc else acc + [ts[0]], ts[1..]);
    }
  }

  lemma {:induction false} PoolUnique(acc: seq<Target>, owned: seq<Source>)
    requires Unique(acc)
    ensures Unique(Pool(acc, owned))
    decreases owned
  {
    if owned != [] {
      AddNewUnique(acc, owned[0].members);
      PoolUnique(AddNew(acc, owned[0].members), owned[1..]);
    }
  }

  /** With distinct names, an owned target is a member under some name. */
  lemma {:induction false} OwnedUnder(owned: seq<Source>, t: Target) returns (k: string)
    requires DistinctNames(owned) && Owned(owned, t)
    ensures t in Members(owned, k) && Named(owned, k)
  {
    OwnedTail(owned, t);
    if t in owned[0].members {
      k := owned[0].name;
    } else {
      k := OwnedUnder(owned[1..], t);
      var i :| 0 <= i < |owned[1..]| && owned[1..][i].name == k;
      assert owned[i + 1].name == k;
    }
  }

  lemma {:induction false} MemberOwned(owned: seq<Source>, k: string, t: Target)
    requires t in Members(owned, k)
    ensures Owned(owned, t)
  {
    OwnedTail(owned, t);
    if owned[0].name != k {
      MemberOwned(owned[1..], k, t);
    }
  }

  lemma {:induction false} MembersNamed(owned: seq<Source>, k: string, t: Target)
    requires t in Members(owned, k)
    ensures Named(owned, k)
  {
    if owned[0].name != k {
      MembersNamed(owned[1..], k, t);
      NamedTail(owned, k);
    } else {
      assert owned[0].name == k;
    }
  }

  lemma {:induction false} MembersIn(owned: seq<Source>, k: string)
    requires Named(owned, k)
    ensures exists i :: 0 <= i < |owned| && owned[i].name == k && owned[i].members == Members(owned, k)
  {
    if owned[0].name != k {
      NamedTail(owned, k);
      MembersIn(owned[1..], k);
      var i :| 0 <= i < |owned[1..]| && owned[1..][i].name == k && owned[1..][i].members == Members(owned[1..], k);
      assert owned[i + 1].name == k && owned[i + 1].members == Members(owned, k);
    } else {
      assert owned[0].name == k && owned[0].members == Members(owned, k);
    }
  }

  /** A unique list drawn from a list with distinct endpoints has distinct endpoints. */
  lemma UniqueWithin(s: seq<Target>, whole: seq<Target>)
    requires Unique(s) && DistinctEndpoints(whole) && forall t :: t in s ==> t in whole
    ensures DistinctEndpoints(s)
  {
    forall i, j | 0 <= i < j < |s| ensures At(s[i]) != At(s[j]) {
      assert s[i] in whole && s[j] in whole;
      var k :| 0 <= k < |whole| && whole[k] == s[i];
      var l :| 0 <= l < |whole| && whole[l] == s[j];
      assert k != l;
    }
  }

  /** The recorded sources of a valid route own exactly its discovered targets. */
  lemma RecordedOwn(d: Docker, manual: seq<Target>, t: Target)
    requires ValidDocker(d, manual)
    ensures DistinctNames(RecordedSources(d))
    ensures Owned(RecordedSources(d), t) <==> t in d.targets
  {
    var sources := RecordedSources(d);
    if d.sources.None? && t in d.targets {
      assert t in sources[0].members;
    }
  }

  // ---- Prepared slots ----

  /** What preparation establishes: only frozen sources own anything, and only what is discovered. */
  ghost predicate Sound(s: Slot, frozen: set<string>) {
    && DistinctNames(s.owned)
    && (forall k :: k !in frozen ==> !Named(s.owned, k) && Members(s.owned, k) == [])
    && (s.route.docker.Some? ==> forall t :: t in Discovered(s.route) <==> Owned(s.owned, t))
    && (forall t :: t in Discovered(s.route) ==> t !in s.route.targets)
    && (forall k, t :: t in Members(s.owned, k) ==> t !in s.route.targets)
    && (s.settled <==> s.route.docker.Some? && s.route.docker.value.managed && s.route.docker.value.targets != [])
  }

  ghost predicate Clean(s: Slot, frozen: set<string>) {
    Sound(s, frozen) && DistinctEndpoints(Discovered(s.route))
  }

  lemma PrepareOwns(r: Route, frozen: set<string>, k: string)
    requires r.docker.Some? ==> ValidDocker(r.docker.value, r.targets)
    ensures var s := Prepare(r, frozen);
            && SameRoute(r, s.route) && s.route.options == r.options
            && DistinctNames(s.owned)
            && (s.settled <==> s.route.docker.Some? && s.route.docker.value.managed && s.route.docker.value.targets != [])
            && (r.docker.Some? && k in frozen ==> Members(s.owned, k) == Without(Members(RecordedSources(r.docker.value), k), r.targets))
            && (k !in frozen ==> !Named(s.owned, k) && Members(s.owned, k) == [])
            && (Named(s.owned, k) <==> k in frozen && r.docker.Some? && Named(RecordedSources(r.docker.value), k))
  {
    if r.docker.Some? {
      var sources := RecordedSources(r.docker.value);
      assert DistinctNames(sources);
      KeptNames(sources, r.targets, frozen);
      KeptMembers(sources, r.targets, frozen, k);
    }
  }

  lemma PreparePool(r: Route, frozen: set<string>, t: Target)
    requires r.docker.Some? && ValidDocker(r.docker.value, r.targets)
    ensures var s := Prepare(r, frozen);
            && (t in Discovered(s.route) <==> Owned(s.owned, t))
            && (Owned(s.owned, t) ==> t !in r.targets && t in r.docker.value.targets)
  {
    var s := Prepare(r, frozen);
    PoolMembers([], s.owned, t);
    if Owned(s.owned, t) {
      PrepareOwns(r, frozen, "");
      var k := OwnedUnder(s.owned, t);
      PrepareOwns(r, frozen, k);
      var sources := RecordedSources(r.docker.value);
      WithoutMembers(Members(sources, k), r.targets, t);
      MembersNamed(sources, k, t);
      MembersIn(sources, k);
      RecordedOwn(r.docker.value, r.targets, t);
    }
  }

  lemma PrepareSound(r: Route, frozen: set<string>)
    requires r.docker.Some? ==> ValidDocker(r.docker.value, r.targets)
    ensures Sound(Prepare(r, frozen), frozen)
  {
    var s := Prepare(r, frozen);
    PrepareOwns(r, frozen, "");
    forall k | k !in frozen ensures !Named(s.owned, k) && Members(s.owned, k) == [] {
      PrepareOwns(r, frozen, k);
    }
    if r.docker.Some? {
      forall t ensures t in Discovered(s.route) <==> Owned(s.owned, t)
        ensures t in Discovered(s.route) ==> t !in r.targets
      {
        PreparePool(r, frozen, t);
      }
    }
    forall k, t | t in Members(s.owned, k) ensures t !in r.targets {
      PrepareOwns(r, frozen, k);
      if r.docker.Some? && k in frozen {
        WithoutMembers(Members(RecordedSources(r.docker.value), k), r.targets, t);
      }
    }
  }

  lemma PrepareClean(r: Route, frozen: set<string>)
    requires r.docker.Some? ==> ValidDocker(r.docker.value, r.targets)
    requires DistinctEndpoints(Discovered(r))
    ensures Clean(Prepare(r, frozen), frozen)
  {
    PrepareSound(r, frozen);
    if r.docker.Some? {
      var s := Prepare(r, frozen);
      PoolUnique([], s.owned);
      forall t | t in Discovered(s.route) ensures t in r.docker.value.targets {
        PreparePool(r, frozen, t);
      }
      UniqueWithin(Discovered(s.route), r.docker.value.targets);
    }
  }

  // ---- The written form of the sources ----

  predicate SortedNames(sources: seq<Source>) {
    forall i, j :: 0 <= i < j < |sources| ==> Compare(sources[i].name, sources[j].name) < 0
  }

  lemma SortedNamesDistinct(sources: seq<Source>)
    requires SortedNames(sources)
    ensures DistinctNames(sources)
  {
    forall i, j | 0 <= i < j < |sources| ensures sources[i].name != sources[j].name {
      CompareZero(sources[i].name, sources[j].name);
    }
  }

  lemma {:induction false} InsertSourceEffect(s: Source, sources: seq<Source>, k: string)
    requires !Named(sources, s.name)
    ensures var r := InsertSource(s, sources);
            && (Named(r, k) <==> s.name == k || Named(sources, k))
            && Members(r, k) == (if k == s.name then s.members else Members(sources, k))
  {
    hide Compare;
    var r := InsertSource(s, sources);
    NamedTail(r, k);
    if sources != [] && Compare(s.name, sources[0].name) <= 0 {
      assert r[1..] == sources;
    } else if sources != [] {
      NamedTail(sources, s.name);
      InsertSourceEffect(s, sources[1..], k);
      NamedTail(sources, k);
      assert r[1..] == InsertSource(s, sources[1..]);
    }
  }

  lemma {:induction false} InsertSourceFrom(s: Source, sources: seq<Source>, x: Source)
    requires x in InsertSource(s, sources)
    ensures x == s || x in sources
  {
    if sources != [] && Compare(s.name, sources[0].name) > 0 && x != sources[0] {
      InsertSourceFrom(s, sources[1..], x);
    }
  }

  lemma {:induction false} InsertSourceSorted(s: Source, sources: seq<Source>)
    requires SortedNames(sources) && !Named(sources, s.name)
    ensures SortedNames(InsertSource(s, sources))
  {
    hide Compare;
    var r := InsertSource(s, sources);
    if sources != [] && Compare(s.name, sources[0].name) <= 0 {
      assert sources[0].name != s.name;
      CompareZero(s.name, sources[0].name);
      forall j | 0 <= j < |sources| ensures Compare(s.name, sources[j].name) < 0 {
        if j > 0 {
          TextTransitive(s.name, sources[0].name, sources[j].name);
        }
      }
    } else if sources != [] {
      NamedTail(sources, s.name);
      InsertSourceSorted(s, sources[1..]);
      var rest := InsertSource(s, sources[1..]);
      CompareFlip(s.name, sources[0].name);
      forall x | x in rest ensures Compare(sources[0].name, x.name) < 0 {
        InsertSourceFrom(s, sources[1..], x);
        if x != s {
          var i :| 1 <= i < |sources| && sources[i] == x;
        }
      }
      assert r == [sources[0]] + rest;
    }
  }

  lemma {:induction false} SortSourcesEffect(sources: seq<Source>, k: string)
    requires DistinctNames(sources)
    ensures Named(SortSources(sources), k) <==> Named(sources, k)
    ensures Members(SortSources(sources), k) == Sort(Members(sources, k))
    ensures SortedNames(SortSources(sources))
  {
    if sources != [] {
      var first := Source(sources[0].name, Sort(sources[0].members));
      SortSourcesEffect(sources[1..], k);
      SortSourcesEffect(sources[1..], first.name);
      assert !Named(sources[1..], first.name);
      NamedTail(sources, k);
      InsertSourceEffect(first, SortSources(sources[1..]), k);
      InsertSourceSorted(first, SortSources(sources[1..]));
    }
  }

  /** Sources sorted by name are determined by their names and the members of each. */
  lemma {:induction false} SourcesUnique(a: seq<Source>, b: seq<Source>)
    requires SortedNames(a) && SortedNames(b)
    requires forall k :: (Named(a, k) <==> Named(b, k)) && Members(a, k) == Members(b, k)
    ensures a == b
  {
    hide Compare, SortedNames;
    assert a != [] ==> Named(a, a[0].name) && b != [];
    assert b != [] ==> Named(b, b[0].name);
    if a != [] {
      SameHead(a, b);
      assert Members(a, a[0].name) == a[0].members && Members(b, a[0].name) == b[0].members;
      assert a[0] == b[0];
      SortedNamesDistinct(a);
      SortedNamesDistinct(b);
      forall k ensures (Named(a[1..], k) <==> Named(b[1..], k)) && Members(a[1..], k) == Members(b[1..], k) {
        NamedTail(a, k);
        NamedTail(b, k);
        HeadGone(a, k);
        HeadGone(b, k);
      }
      SortedTail(a);
      SortedTail(b);
      SourcesUnique(a[1..], b[1..]);
      assert a == [a[0]] + a[1..] && b == [b[0]] + b[1..];
    }
  }

  lemma SortedTail(a: seq<Source>)
    requires SortedNames(a) && a != []
    ensures SortedNames(a[1..])
  {
  }

  /** The least name comes first. */
  lemma SameHead(a: seq<Source>, b: seq<Source>)
    requires SortedNames(a) && SortedNames(b) && a != [] && b != []
    requires Named(b, a[0].name) && Named(a, b[0].name)
    ensures a[0].name == b[0].name
  {
    hide Compare;
    var j :| 0 <= j < |b| && b[j].name == a[0].name;
    var i :| 0 <= i < |a| && a[i].name == b[0].name;
    LeastName(a, i);
    LeastName(b, j);
    CompareFlip(a[0].name, b[0].name);
    CompareZero(a[0].name, b[0].name);
  }

  lemma LeastName(a: seq<Source>, i: nat)
    requires SortedNames(a) && i < |a|
    ensures Compare(a[0].name, a[i].name) <= 0
  {
    CompareZero(a[0].name, a[i].name);
  }

  lemma HeadGone(a: seq<Source>, k: string)
    requires a != [] && DistinctNames(a)
    ensures k == a[0].name ==> !Named(a[1..], k) && Members(a[1..], k) == []
    ensures k != a[0].name ==> Members(a, k) == Members(a[1..], k)
  {
    if k == a[0].name {
      assert !Named(a[1..], k);
      if Members(a[1..], k) != [] {
        MembersNamed(a[1..], k, Members(a[1..], k)[0]);
      }
    }
  }

  lemma SortSourcesCanonical(a: seq<Source>, b: seq<Source>)
    requires DistinctNames(a) && DistinctNames(b)
    requires forall k :: (Named(a, k) <==> Named(b, k)) && Sort(Members(a, k)) == Sort(Members(b, k))
    ensures SortSources(a) == SortSources(b)
  {
    forall k
      ensures Named(SortSources(a), k) <==> Named(SortSources(b), k)
      ensures Members(SortSources(a), k) == Members(SortSources(b), k)
    {
      SortSourcesEffect(a, k);
      SortSourcesEffect(b, k);
    }
    SortSourcesEffect(a, "");
    SortSourcesEffect(b, "");
    SourcesUnique(SortSources(a), SortSources(b));
  }

  lemma ForeignNamed(owned: seq<Source>)
    ensures Foreign(owned) <==> exists k :: k != LOCAL && Named(owned, k)
  {
    if Foreign(owned) {
      var i :| 0 <= i < |owned| && owned[i].name != LOCAL;
      assert Named(owned, owned[i].name);
    }
    if exists k :: k != LOCAL && Named(owned, k) {
      var k :| k != LOCAL && Named(owned, k);
      var i :| 0 <= i < |owned| && owned[i].name == k;
    }
  }

  /** The written sources stand in the order of their names. */
  lemma SourcesOrder(sources: seq<Source>, i: nat, j: nat)
    requires DistinctNames(sources) && i < j < |SortSources(sources)|
    ensures var a, b := SortSources(sources)[i].name, SortSources(sources)[j].name;
            exists n :: 0 <= n <= |a| && n < |b| && a[..n] == b[..n] && (n == |a| || a[n] < b[n])
  {
    SortSourcesEffect(sources, "");
    CompareExactly(SortSources(sources)[i].name, SortSources(sources)[j].name);
    hide SortSources, Compare;
  }
}
