/** The loops of `validate`, growing the sets of identities, domains and paths seen so far. */
module Validator {
  import opened Text
  import opened Config

  function IdsOf(h: Host): set<Id> {
    {h.id} + (set r | r in h.routes :: r.id)
  }

  function AllIds(hosts: seq<Host>): set<Id> {
    set i, x | 0 <= i < |hosts| && x in IdsOf(hosts[i]) :: x
  }

  /** The identities of a host are new and distinct. */
  predicate FreshIds(h: Host, ids: set<Id>) {
    && h.id !in ids
    && (forall j :: 0 <= j < |h.routes| ==> h.routes[j].id !in ids && h.routes[j].id != h.id)
    && (forall j, l :: 0 <= j < l < |h.routes| ==> h.routes[j].id != h.routes[l].id)
  }

  /** `check_id`: a well-formed identity not seen before joins the set. */
  method CheckId(id: Id, ids: set<Id>) returns (ok: bool, seen: set<Id>)
    ensures ok <==> ValidId(id) && id !in ids
    ensures seen == ids + {id}
  {
    return ValidId(id) && id !in ids, ids + {id};
  }

  method ValidateHost(h: Host, ids: set<Id>) returns (ok: bool, seen: set<Id>)
    ensures ok <==> ValidHost(h) && FreshIds(h, ids)
    ensures ok ==> seen == ids + IdsOf(h)
  {
    hide ValidRoute, FreshIds, IdsOf;
    NoRoutes(h, ids);
    ok, seen := CheckId(h.id, ids);
    if !ok || |h.routes| > 50 {
      return false, ids;
    }
    var paths: set<string> := {};
    for j := 0 to |h.routes|
      invariant ValidId(h.id) && FreshIds(h.(routes := h.routes[..j]), ids)
      invariant seen == ids + IdsOf(h.(routes := h.routes[..j]))
      invariant paths == set r | r in h.routes[..j] :: r.path
      invariant DistinctPaths(h.routes[..j])
      invariant forall l :: 0 <= l < j ==> ValidRoute(h.routes[l])
    {
      var r := h.routes[j];
      var was := seen;
      ok, seen := CheckId(r.id, seen);
      assert h.routes[..j + 1] == h.routes[..j] + [r];
      RouteIdJoins(h, ids, j);
      if !ok {
        RouteIdTaken(h, ids, j);
        return false, ids;
      }
      if r.path in paths {
        var l :| 0 <= l < j && h.routes[..j][l].path == r.path;
        assert h.routes[l].path == h.routes[j].path;
        return false, ids;
      }
      if !ValidRoute(r) {
        return false, ids;
      }
      paths := paths + {r.path};
    }
    assert h.routes[..|h.routes|] == h.routes;
    return true, seen;
  }

  lemma NoRoutes(h: Host, ids: set<Id>)
    ensures IdsOf(h.(routes := h.routes[..0])) == {h.id}
    ensures FreshIds(h.(routes := h.routes[..0]), ids) <==> h.id !in ids
    ensures FreshIds(h, ids) ==> h.id !in ids
  {
  }

  lemma RouteIdJoins(h: Host, ids: set<Id>, j: nat)
    requires j < |h.routes|
    ensures var before, after := h.(routes := h.routes[..j]), h.(routes := h.routes[..j + 1]);
            && IdsOf(after) == IdsOf(before) + {h.routes[j].id}
            && (FreshIds(after, ids) <==> FreshIds(before, ids) && h.routes[j].id !in ids + IdsOf(before))
  {
    assert h.routes[..j + 1] == h.routes[..j] + [h.routes[j]];
    IdsSnoc(h, h.routes[..j], h.routes[j]);
    FreshSnoc(h, h.routes[..j], h.routes[j], ids);
  }

  lemma IdsSnoc(h: Host, routes: seq<Route>, r: Route)
    ensures IdsOf(h.(routes := routes + [r])) == IdsOf(h.(routes := routes)) + {r.id}
  {
  }

  lemma FreshSnoc(h: Host, routes: seq<Route>, r: Route, ids: set<Id>)
    ensures FreshIds(h.(routes := routes + [r]), ids) <==>
            FreshIds(h.(routes := routes), ids) && r.id !in ids + IdsOf(h.(routes := routes))
  {
    var all, n := routes + [r], |routes|;
    assert all[n] == r && forall l :: 0 <= l < n ==> all[l] == routes[l];
    if FreshIds(h.(routes := all), ids) {
      assert FreshIds(h.(routes := routes), ids) by {
        assert forall l :: 0 <= l < n ==> all[l].id !in ids && all[l].id != h.id;
        assert forall l, m :: 0 <= l < m < n ==> all[l].id != all[m].id;
      }
      forall x | x in routes ensures x.id != r.id {
        var l :| 0 <= l < n && routes[l] == x;
        assert all[l].id != all[n].id;
      }
    }
  }

  lemma RouteIdTaken(h: Host, ids: set<Id>, j: nat)
    requires j < |h.routes|
    requires !(ValidId(h.routes[j].id) && h.routes[j].id !in ids + IdsOf(h.(routes := h.routes[..j])))
    ensures !(ValidHost(h) && FreshIds(h, ids))
  {
    var before := h.routes[..j];
    assert forall r :: r in before ==> exists l :: 0 <= l < j && h.routes[l] == r;
    assert ValidRoute(h.routes[j]) ==> ValidId(h.routes[j].id);
  }

  lemma DistinctIdsSnoc(hosts: seq<Host>, h: Host)
    ensures DistinctIds(hosts + [h]) <==> DistinctIds(hosts) && FreshIds(h, AllIds(hosts))
  {
    var all := hosts + [h];
    var n := |hosts|;
    assert all[n] == h;
    assert forall i :: 0 <= i < n ==> all[i] == hosts[i];
    if DistinctIds(all) {
      assert DistinctIds(hosts) by { DistinctIdsPrefix(hosts, h); }
      forall x | x in AllIds(hosts) ensures x != h.id && forall j :: 0 <= j < |h.routes| ==> h.routes[j].id != x {
        var i :| 0 <= i < n && x in IdsOf(hosts[i]);
        if x != hosts[i].id {
          var q :| 0 <= q < |hosts[i].routes| && hosts[i].routes[q].id == x;
          assert all[i].routes[q].id == x;
        } else {
          assert all[i].id == x;
        }
      }
      forall j | 0 <= j < |h.routes| ensures h.routes[j].id != h.id {
        assert all[n].routes[j].id != all[n].id;
      }
      forall j, l | 0 <= j < l < |h.routes| ensures h.routes[j].id != h.routes[l].id {
        assert all[n].routes[j].id != all[n].routes[l].id;
      }
    }
    if DistinctIds(hosts) && FreshIds(h, AllIds(hosts)) {
      forall i | 0 <= i < n ensures hosts[i].id in AllIds(hosts) {
        assert hosts[i].id in IdsOf(hosts[i]);
      }
      forall i, q | 0 <= i < n && 0 <= q < |hosts[i].routes| ensures hosts[i].routes[q].id in AllIds(hosts) {
        assert hosts[i].routes[q].id in IdsOf(hosts[i]);
      }
      DistinctIdsGrow(hosts, h, AllIds(hosts));
    }
  }

  lemma DistinctIdsPrefix(hosts: seq<Host>, h: Host)
    requires DistinctIds(hosts + [h])
    ensures DistinctIds(hosts)
  {
    var all := hosts + [h];
    assert forall i :: 0 <= i < |hosts| ==> all[i] == hosts[i];
  }

  ghost predicate Gathered(hosts: seq<Host>, ids: set<Id>) {
    && (forall i :: 0 <= i < |hosts| ==> hosts[i].id in ids)
    && (forall i, q :: 0 <= i < |hosts| && 0 <= q < |hosts[i].routes| ==> hosts[i].routes[q].id in ids)
  }

  lemma DistinctIdsGrow(hosts: seq<Host>, h: Host, ids: set<Id>)
    requires DistinctIds(hosts) && FreshIds(h, ids) && Gathered(hosts, ids)
    ensures DistinctIds(hosts + [h])
  {
    var all := hosts + [h];
    hide FreshIds, Gathered;
    forall i, j | 0 <= i < j < |all| ensures all[i].id != all[j].id {
      HostIdsApart(hosts, h, ids, i, j);
    }
    forall i, j, q | 0 <= i < |all| && 0 <= j < |all| && 0 <= q < |all[j].routes| ensures all[i].id != all[j].routes[q].id {
      HostAndRouteApart(hosts, h, ids, i, j, q);
    }
    forall i, q, j, w | 0 <= i < |all| && 0 <= q < |all[i].routes| && 0 <= j < |all| && 0 <= w < |all[j].routes| &&
                        all[i].routes[q].id == all[j].routes[w].id
      ensures i == j && q == w
    {
      RouteIdsApart(hosts, h, ids, i, q, j, w);
    }
  }

  lemma HostIdsApart(hosts: seq<Host>, h: Host, ids: set<Id>, i: nat, j: nat)
    requires DistinctIds(hosts) && FreshIds(h, ids) && Gathered(hosts, ids) && i < j <= |hosts|
    ensures (hosts + [h])[i].id != (hosts + [h])[j].id
  {
  }

  lemma HostAndRouteApart(hosts: seq<Host>, h: Host, ids: set<Id>, i: nat, j: nat, q: nat)
    requires DistinctIds(hosts) && FreshIds(h, ids) && Gathered(hosts, ids) && i <= |hosts| && j <= |hosts|
    requires q < |(hosts + [h])[j].routes|
    ensures (hosts + [h])[i].id != (hosts + [h])[j].routes[q].id
  {
  }

  lemma RouteIdsApart(hosts: seq<Host>, h: Host, ids: set<Id>, i: nat, q: nat, j: nat, w: nat)
    requires DistinctIds(hosts) && FreshIds(h, ids) && Gathered(hosts, ids)
    requires var all := hosts + [h]; i < |all| && j < |all| && q < |all[i].routes| && w < |all[j].routes|
    requires var all := hosts + [h]; all[i].routes[q].id == all[j].routes[w].id
    ensures i == j && q == w
  {
  }

  lemma NoIds()
    ensures DistinctIds([]) && AllIds([]) == {}
  {
  }

  /** `validate` accepts exactly the valid configurations. */
  method Validate(c: Configuration) returns (ok: bool)
    ensures ok <==> Valid(c)
  {
    hide ValidRoute, ValidHost, DistinctIds;
    if !(0 <= c.settings.rateRps <= 100000 && 0 <= c.settings.rateBurst <= 100000) || |c.hosts| > 100 {
      return false;
    }
    var ids, domains: set<string> := {}, {};
    NoIds();
    assert c.hosts[..0] == [];
    for i := 0 to |c.hosts|
      invariant DistinctIds(c.hosts[..i]) && DistinctDomains(c.hosts[..i])
      invariant ids == AllIds(c.hosts[..i])
      invariant domains == set h | h in c.hosts[..i] :: Lower(h.domain)
      invariant forall k :: 0 <= k < i ==> ValidHost(c.hosts[k])
    {
      var h := c.hosts[i];
      assert c.hosts[..i + 1] == c.hosts[..i] + [h];
      DistinctIdsSnoc(c.hosts[..i], h);
      var seen;
      ok, seen := ValidateHost(h, ids);
      if !ok {
        if Valid(c) {
          assert c.hosts == c.hosts[..i + 1] + c.hosts[i + 1..];
          PrefixDistinctIds(c.hosts, i + 1);
        }
        return false;
      }
      if Lower(h.domain) in domains {
        var k :| 0 <= k < i && Lower(c.hosts[..i][k].domain) == Lower(h.domain);
        assert Lower(c.hosts[k].domain) == Lower(c.hosts[i].domain);
        return false;
      }
      domains := domains + {Lower(h.domain)};
      AllIdsSnoc(c.hosts[..i], h);
      ids := seen;
    }
    assert c.hosts[..|c.hosts|] == c.hosts;
    return true;
  }

  lemma PrefixDistinctIds(hosts: seq<Host>, n: nat)
    requires n <= |hosts| && DistinctIds(hosts)
    ensures DistinctIds(hosts[..n])
  {
    var some := hosts[..n];
    assert forall i :: 0 <= i < n ==> some[i] == hosts[i];
  }

  lemma AllIdsSnoc(hosts: seq<Host>, h: Host)
    ensures AllIds(hosts + [h]) == AllIds(hosts) + IdsOf(h)
  {
    var all := hosts + [h];
    forall x ensures x in AllIds(all) <==> x in AllIds(hosts) || x in IdsOf(h) {
      if x in AllIds(hosts) {
        var i :| 0 <= i < |hosts| && x in IdsOf(hosts[i]);
        assert x in IdsOf(all[i]);
      }
      if x in IdsOf(h) {
        assert x in IdsOf(all[|hosts|]);
      }
      if x in AllIds(all) {
        var i :| 0 <= i < |all| && x in IdsOf(all[i]);
        assert i < |hosts| ==> x in IdsOf(hosts[i]);
      }
    }
  }
}
