/** Targets ordered by endpoint, the sort key `(address, port)` of the discovered lists. */
module Endpoints {
  import opened Text
  import opened Config

  datatype Endpoint = Endpoint(address: Address, port: int)

  function At(t: Target): Endpoint {
    Endpoint(t.address, t.port)
  }

  function CompareAddress(a: Address, b: Address): int {
    match (a, b)
    case (Plain(s), Plain(t)) => Compare(s, t)
    case (Plain(_), Pending(_)) => -1
    case (Pending(_), Plain(_)) => 1
    case (Pending(k), Pending(l)) =>
      Then(Compare(k.agent, l.agent), Then(Compare(k.container, l.container), Sign(k.port - l.port)))
  }

  function CompareEndpoint(a: Endpoint, b: Endpoint): int {
    Then(CompareAddress(a.address, b.address), Sign(a.port - b.port))
  }

  lemma AddressOrder(a: Address, b: Address)
    ensures CompareAddress(a, b) == 0 <==> a == b
    ensures CompareAddress(b, a) == -CompareAddress(a, b)
  {
    match (a, b) {
      case (Plain(s), Plain(t)) => CompareZero(s, t); CompareFlip(s, t);
      case (Pending(k), Pending(l)) =>
        CompareZero(k.agent, l.agent); CompareFlip(k.agent, l.agent);
        CompareZero(k.container, l.container); CompareFlip(k.container, l.container);
      case _ =>
    }
  }

  lemma TextTransitive(a: string, b: string, c: string)
    requires Compare(a, b) <= 0 && Compare(b, c) <= 0
    ensures Compare(a, c) <= 0
    ensures Compare(a, c) == 0 ==> Compare(a, b) == 0 && Compare(b, c) == 0
  {
    CompareTransitive(a, b, c);
    if Compare(a, c) == 0 {
      CompareZero(a, c);
      CompareFlip(a, b);
    }
  }

  lemma AddressTransitive(a: Address, b: Address, c: Address)
    requires CompareAddress(a, b) <= 0 && CompareAddress(b, c) <= 0
    ensures CompareAddress(a, c) <= 0
  {
    match (a, b, c) {
      case (Plain(s), Plain(t), Plain(u)) => CompareTransitive(s, t, u);
      case (Pending(k), Pending(l), Pending(m)) =>
        TextTransitive(k.agent, l.agent, m.agent);
        CompareZero(k.agent, l.agent); CompareZero(l.agent, m.agent); CompareZero(k.agent, m.agent);
        if k.agent == l.agent == m.agent {
          TextTransitive(k.container, l.container, m.container);
        }
      case _ =>
    }
  }

  lemma EndpointOrder(a: Endpoint, b: Endpoint)
    ensures CompareEndpoint(a, b) == 0 <==> a == b
    ensures CompareEndpoint(b, a) == -CompareEndpoint(a, b)
  {
    AddressOrder(a.address, b.address);
  }

  lemma EndpointTransitive(a: Endpoint, b: Endpoint, c: Endpoint)
    requires CompareEndpoint(a, b) <= 0 && CompareEndpoint(b, c) <= 0
    ensures CompareEndpoint(a, c) <= 0
  {
    AddressTransitive(a.address, b.address, c.address);
    AddressOrder(a.address, b.address);
    AddressOrder(b.address, c.address);
    AddressOrder(a.address, c.address);
  }

  predicate Precedes(x: Target, y: Target) {
    CompareEndpoint(At(x), At(y)) <= 0
  }

  predicate Sorted(s: seq<Target>) {
    forall i, j :: 0 <= i < j < |s| ==> Precedes(s[i], s[j])
  }

  /** No two different positions hold the same endpoint. */
  predicate DistinctEndpoints(s: seq<Target>) {
    forall i, j :: 0 <= i < j < |s| ==> At(s[i]) != At(s[j])
  }

  function Insert(t: Target, s: seq<Target>): seq<Target> {
    if s == [] then [t]
    else if Precedes(t, s[0]) then [t] + s
    else [s[0]] + Insert(t, s[1..])
  }

  /** A stable sort by endpoint. */
  function Sort(s: seq<Target>): seq<Target> {
    if s == [] then [] else Insert(s[0], Sort(s[1..]))
  }

  lemma {:induction false} InsertBag(t: Target, s: seq<Target>)
    ensures multiset(Insert(t, s)) == multiset{t} + multiset(s)
  {
    hide Precedes;
    if s != [] {
      assert s == [s[0]] + s[1..];
      if !Precedes(t, s[0]) {
        InsertBag(t, s[1..]);
      }
    }
  }

  lemma {:induction false} InsertKeeps(t: Target, s: seq<Target>)
    ensures multiset(Insert(t, s)) == multiset{t} + multiset(s)
    ensures Sorted(s) ==> Sorted(Insert(t, s))
  {
    InsertBag(t, s);
    if s != [] && Sorted(s) {
      if !Precedes(t, s[0]) {
        InsertKeeps(t, s[1..]);
        InsertBag(t, s[1..]);
        var rest := Insert(t, s[1..]);
        EndpointOrder(At(s[0]), At(t));
        forall k | 0 <= k < |rest| ensures Precedes(s[0], rest[k]) {
          assert rest[k] in multiset(rest);
          assert rest[k] == t || rest[k] in s[1..];
        }
      } else {
        forall k | 0 <= k < |s| ensures Precedes(t, s[k]) {
          if k > 0 { EndpointTransitive(At(t), At(s[0]), At(s[k])); }
        }
      }
    }
  }

  lemma {:induction false} SortKeeps(s: seq<Target>)
    ensures multiset(Sort(s)) == multiset(s)
    ensures Sorted(Sort(s))
  {
    if s != [] {
      assert s == [s[0]] + s[1..];
      SortKeeps(s[1..]);
      InsertKeeps(s[0], Sort(s[1..]));
    }
  }

  lemma SortMembers(s: seq<Target>)
    ensures |Sort(s)| == |s|
    ensures forall t :: t in Sort(s) <==> t in s
  {
    SortKeeps(s);
    assert |multiset(Sort(s))| == |multiset(s)|;
    forall t ensures t in Sort(s) <==> t in s {
      assert t in Sort(s) <==> t in multiset(Sort(s));
      assert t in s <==> t in multiset(s);
    }
  }

  /** An endpoint is held by at most one value of the set, and each value occurs once. */
  lemma {:induction false} DistinctMultiset(a: seq<Target>, b: seq<Target>)
    requires multiset(a) == multiset(b) && DistinctEndpoints(a)
    ensures DistinctEndpoints(b)
  {
    assert |multiset(a)| == |a| && |multiset(b)| == |b|;
    forall i, j | 0 <= i < j < |b| ensures At(b[i]) != At(b[j]) {
      if b[i] == b[j] {
        assert b == b[..i] + [b[i]] + b[i + 1..j] + [b[j]] + b[j + 1..];
        assert multiset(b)[b[i]] >= 2;
        CountOne(a, b[i]);
      } else {
        assert b[i] in multiset(a) && b[j] in multiset(a);
        var k :| 0 <= k < |a| && a[k] == b[i];
        var l :| 0 <= l < |a| && a[l] == b[j];
        assert k != l;
        if k < l { assert At(a[k]) != At(a[l]); } else { assert At(a[l]) != At(a[k]); }
      }
    }
  }

  lemma {:induction false} CountOne(a: seq<Target>, t: Target)
    requires DistinctEndpoints(a)
    ensures multiset(a)[t] <= 1
  {
    if a != [] {
      assert a == [a[0]] + a[1..];
      CountOne(a[1..], t);
      if a[0] == t {
        assert t !in a[1..];
      }
    }
  }

  lemma SortDistinct(s: seq<Target>)
    requires DistinctEndpoints(s)
    ensures DistinctEndpoints(Sort(s))
  {
    SortKeeps(s);
    DistinctMultiset(s, Sort(s));
  }

  /** A sorted list with distinct endpoints is determined by its set of targets. */
  lemma {:induction false} SortedUnique(a: seq<Target>, b: seq<Target>)
    requires Sorted(a) && Sorted(b) && DistinctEndpoints(a) && DistinctEndpoints(b)
    requires forall t :: t in a <==> t in b
    ensures a == b
  {
    if a == [] {
      assert forall k :: 0 <= k < |b| ==> b[k] in b;
    } else {
      assert a[0] in b;
      assert b != [];
      assert b[0] in a;
      EndpointOrder(At(a[0]), At(b[0]));
      assert a[0] == b[0] by {
        var i :| 0 <= i < |a| && a[i] == b[0];
        var j :| 0 <= j < |b| && b[j] == a[0];
        if i > 0 && j > 0 {
          assert Precedes(a[0], a[i]) && Precedes(b[0], b[j]);
        }
      }
      forall t ensures t in a[1..] <==> t in b[1..] {
        assert t in a <==> t == a[0] || t in a[1..];
        assert t in b <==> t == b[0] || t in b[1..];
        assert a[0] !in a[1..];
        assert b[0] !in b[1..];
      }
      SortedUnique(a[1..], b[1..]);
    }
  }

  /** Sorting lists with the same targets and distinct endpoints gives the same list. */
  lemma SortCanonical(a: seq<Target>, b: seq<Target>)
    requires DistinctEndpoints(a) && DistinctEndpoints(b)
    requires forall t :: t in a <==> t in b
    ensures Sort(a) == Sort(b)
  {
    SortKeeps(a);
    SortKeeps(b);
    SortDistinct(a);
    SortDistinct(b);
    SortMembers(a);
    SortMembers(b);
    SortedUnique(Sort(a), Sort(b));
  }

  /** Sorting leaves a sorted list alone, whatever its ties: the sort is stable. */
  lemma {:induction false} SortSorted(s: seq<Target>)
    requires Sorted(s)
    ensures Sort(s) == s
  {
    if s != [] {
      SortSorted(s[1..]);
      assert s == [s[0]] + s[1..];
    }
  }

  /** The first target at an endpoint. */
  function Find(s: seq<Target>, e: Endpoint): (r: Option<Target>)
    ensures r.Some? ==> r.value in s && At(r.value) == e
    ensures r.None? ==> forall t :: t in s ==> At(t) != e
  {
    if s == [] then None
    else if At(s[0]) == e then Some(s[0])
    else Find(s[1..], e)
  }

  lemma {:induction false} FindConcat(a: seq<Target>, b: seq<Target>, e: Endpoint)
    ensures Find(a + b, e) == if Find(a, e).Some? then Find(a, e) else Find(b, e)
  {
    if a == [] {
      assert a + b == b;
    } else {
      assert (a + b)[1..] == a[1..] + b;
      FindConcat(a[1..], b, e);
    }
  }

  lemma {:induction false} FindDistinct(a: seq<Target>, t: Target)
    requires DistinctEndpoints(a) && t in a
    ensures Find(a, At(t)) == Some(t)
  {
    if a[0] != t {
      assert t in a[1..];
      var j :| 0 <= j < |a[1..]| && a[1..][j] == t;
      assert At(a[0]) != At(a[j + 1]);
      FindDistinct(a[1..], t);
    }
  }

  /** Lists with the same targets and distinct endpoints answer every lookup alike. */
  lemma FindCanonical(a: seq<Target>, b: seq<Target>, e: Endpoint)
    requires DistinctEndpoints(a) && DistinctEndpoints(b)
    requires forall t :: t in a <==> t in b
    ensures Find(a, e) == Find(b, e)
  {
    if Find(a, e).Some? { FindDistinct(b, Find(a, e).value); }
    if Find(b, e).Some? { FindDistinct(a, Find(b, e).value); }
  }

  /** The order of the sorted list: by address as Python compares strings, then by port. */
  lemma SortOrder(s: seq<Target>, i: nat, j: nat)
    requires i < j < |Sort(s)| && Sort(s)[i].address.Plain? && Sort(s)[j].address.Plain?
    ensures var a, b, p, q := Sort(s)[i].address.text, Sort(s)[j].address.text, Sort(s)[i].port, Sort(s)[j].port;
            if a == b then p <= q
            else exists n :: 0 <= n <= |a| && n < |b| && a[..n] == b[..n] && (n == |a| || a[n] < b[n])
  {
    SortKeeps(s);
    assert Precedes(Sort(s)[i], Sort(s)[j]);
    CompareExactly(Sort(s)[i].address.text, Sort(s)[j].address.text);
    hide Sort, Compare;
  }
}
