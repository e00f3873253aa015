/** Bounded admission of HTTP connections, and the client identity behind trusted proxies. */
module Admission {
  import opened Text

  type Connection = nat
  type Address = string

  datatype Source = Peer(address: Address) | Client(address: Address)

  datatype Kind = Pending | Admin | Agent | Report

  datatype Request = Request(source: Source, kind: Kind, started: real)

  type Requests = map<Connection, Request>

  const CLIENT_LIMIT := 8
  const TRUSTED_LIMIT := 64

  function Limit(kind: Kind): nat {
    match kind
    case Pending => 64
    case Admin => 32
    case Agent => 160
    case Report => 16
  }

  function OfKind(requests: Requests, kind: Kind): set<Connection> {
    set c | c in requests && requests[c].kind == kind
  }

  /** The pending connections charged to a source. */
  function Charged(requests: Requests, source: Source): set<Connection> {
    set c | c in requests && requests[c].kind == Pending && requests[c].source == source
  }

  lemma Charges(requests: Requests, k: Kind, s: Source)
    ensures OfKind(requests, k) == set c | c in requests && requests[c].kind == k
    ensures Charged(requests, s) == set c | c in requests && requests[c].kind == Pending && requests[c].source == s
  {
  }

  function Unit(b: bool): nat {
    if b then 1 else 0
  }

  /** Counting a record adds one to its kind and, while pending, to its source. */
  lemma Recorded(requests: Requests, c: Connection, r: Request, k: Kind, s: Source)
    requires c !in requests
    ensures |OfKind(requests[c := r], k)| == |OfKind(requests, k)| + Unit(k == r.kind)
    ensures |Charged(requests[c := r], s)| == |Charged(requests, s)| + Unit(r.kind == Pending && s == r.source)
  {
    KindRecorded(requests, c, r, k);
    SourceRecorded(requests, c, r, s);
  }

  lemma KindRecorded(requests: Requests, c: Connection, r: Request, k: Kind)
    requires c !in requests
    ensures |OfKind(requests[c := r], k)| == |OfKind(requests, k)| + Unit(k == r.kind)
  {
    if k == r.kind {
      assert OfKind(requests[c := r], k) == OfKind(requests, k) + {c};
    } else {
      assert OfKind(requests[c := r], k) == OfKind(requests, k);
    }
  }

  lemma SourceRecorded(requests: Requests, c: Connection, r: Request, s: Source)
    requires c !in requests
    ensures |Charged(requests[c := r], s)| == |Charged(requests, s)| + Unit(r.kind == Pending && s == r.source)
  {
    if r.kind == Pending && s == r.source {
      assert Charged(requests[c := r], s) == Charged(requests, s) + {c};
    } else {
      assert Charged(requests[c := r], s) == Charged(requests, s);
    }
  }

  /** Taking a record out undoes that. */
  lemma Removed(requests: Requests, c: Connection, k: Kind, s: Source)
    requires c in requests
    ensures var r := requests[c];
            && |OfKind(requests - {c}, k)| == |OfKind(requests, k)| - Unit(k == r.kind)
            && |Charged(requests - {c}, s)| == |Charged(requests, s)| - Unit(r.kind == Pending && s == r.source)
  {
    var rest := requests - {c};
    assert rest[c := requests[c]] == requests;
    Recorded(rest, c, requests[c], k, s);
  }

  class Gate {
    const trusted: Address -> bool
    var requests: Requests
    var sources: map<Source, nat>
    var counts: map<Kind, nat>

    predicate KindCounted(k: Kind)
      reads `requests, `counts
    {
      k in counts && counts[k] == |OfKind(requests, k)| <= Limit(k)
    }

    /** A source is counted exactly while it has pending connections, and never beyond its limit. */
    predicate SourceCounted(s: Source)
      reads `requests, `sources
    {
      && (if s in sources then sources[s] == |Charged(requests, s)| > 0 else |Charged(requests, s)| == 0)
      && |Charged(requests, s)| <= SourceLimit(s)
    }

    function SourceLimit(s: Source): nat {
      if s.Peer? && trusted(s.address) then TRUSTED_LIMIT else CLIENT_LIMIT
    }

    ghost predicate Valid()
      reads this
    {
      (forall k :: KindCounted(k)) && (forall s :: SourceCounted(s))
    }

    constructor (trusted: Address -> bool)
      ensures Valid() && requests == map[] && this.trusted == trusted
    {
      this.trusted := trusted;
      requests, sources := map[], map[];
      counts := map[Pending := 0, Admin := 0, Agent := 0, Report := 0];
      new;
      forall k ensures KindCounted(k) {
        assert OfKind(requests, k) == {} && (k == Pending || k == Admin || k == Agent || k == Report);
      }
      forall s ensures SourceCounted(s) {
        assert Charged(requests, s) == {};
      }
    }

    /** `enter`: a pending connection is charged to its peer. */
    method Enter(c: Connection, address: Address, now: real) returns (ok: bool)
      requires Valid() && c !in requests
      modifies this
      ensures Valid()
      ensures ok <==> |OfKind(old(requests), Pending)| < Limit(Pending)
                      && |Charged(old(requests), Peer(address))| < if trusted(address) then 64 else 8
      ensures ok <==> && |set x | x in old(requests) && old(requests)[x].kind == Pending| < 64
                      && |set x | x in old(requests) && old(requests)[x].kind == Pending && old(requests)[x].source == Peer(address)|
                         < if trusted(address) then 64 else 8
      ensures requests == if ok then old(requests)[c := Request(Peer(address), Pending, now)] else old(requests)
    {
      var limit := if trusted(address) then TRUSTED_LIMIT else CLIENT_LIMIT;
      var source := Peer(address);
      assert KindCounted(Pending) && SourceCounted(source);
      Charges(requests, Pending, source);
      if counts[Pending] >= Limit(Pending) || (source in sources && sources[source] >= limit) {
        return false;
      }
      Add(c, Request(source, Pending, now));
      ok := true;
    }

    /** Counting a connection that is not counted yet. */
    method Add(c: Connection, r: Request)
      requires Valid() && c !in requests && |OfKind(requests, r.kind)| < Limit(r.kind)
      requires r.kind == Pending ==> |Charged(requests, r.source)| < SourceLimit(r.source)
      modifies this
      ensures Valid() && requests == old(requests)[c := r]
    {
      hide OfKind, Charged;
      assert KindCounted(r.kind) && SourceCounted(r.source);
      requests := requests[c := r];
      counts := counts[r.kind := counts[r.kind] + 1];
      if r.kind == Pending {
        sources := sources[r.source := (if r.source in sources then sources[r.source] else 0) + 1];
      }
      forall k ensures KindCounted(k) {
        assert old(KindCounted(k));
        Recorded(old(requests), c, r, k, r.source);
      }
      forall s ensures SourceCounted(s) {
        assert old(SourceCounted(s));
        Recorded(old(requests), c, r, r.kind, s);
      }
    }

    /** `_release`, with the record taken out. */
    method Drop(c: Connection) returns (r: Request)
      requires Valid() && c in requests
      modifies this
      ensures Valid() && r == old(requests)[c] && requests == old(requests) - {c}
    {
      hide OfKind, Charged;
      r := requests[c];
      Removed(requests, c, r.kind, r.source);
      assert KindCounted(r.kind) && SourceCounted(r.source);
      requests := requests - {c};
      counts := counts[r.kind := counts[r.kind] - 1];
      if r.kind == Pending {
        var left := sources[r.source] - 1;
        sources := if left == 0 then sources - {r.source} else sources[r.source := left];
      }
      forall k ensures KindCounted(k) {
        assert old(KindCounted(k));
        Removed(old(requests), c, k, r.source);
      }
      forall s ensures SourceCounted(s) {
        assert old(SourceCounted(s));
        Removed(old(requests), c, r.kind, s);
      }
    }

    /** `identify`: a pending connection moves from its peer's charge to its client's, if the client has room. */
    method Identify(c: Connection, client: Address) returns (ok: bool)
      requires Valid() && c in requests
      modifies this
      ensures Valid()
      ensures var r, target := old(requests)[c], Client(client);
              if r.kind != Pending || r.source == target then ok && requests == old(requests)
              else && (ok <==> |Charged(old(requests), target)| < 8)
                   && (ok <==> |set x | x in old(requests) && old(requests)[x].kind == Pending && old(requests)[x].source == target| < 8)
                   && requests == if ok then old(requests)[c := r.(source := target)] else old(requests)
    {
      var r, target := requests[c], Client(client);
      Charges(requests, Pending, target);
      if r.kind != Pending || r.source == target {
        return true;
      }
      assert SourceCounted(target);
      if target in sources && sources[target] >= CLIENT_LIMIT {
        return false;
      }
      assert KindCounted(Pending);
      Moved(requests, c, r.(source := target));
      var _ := Drop(c);
      Add(c, r.(source := target));
      ok := true;
    }

    /** `promote`: a connection takes a place of another kind, and leaves its source's charge. */
    method Promote(c: Connection, kind: Kind) returns (ok: bool)
      requires Valid() && c in requests && kind != Pending
      modifies this
      ensures Valid()
      ensures var r := old(requests)[c];
              && (ok <==> r.kind == kind || |OfKind(old(requests), kind)| < Limit(kind))
              && requests == if ok then old(requests)[c := r.(kind := kind)] else old(requests)
      ensures ok <==> old(requests)[c].kind == kind
                      || |set x | x in old(requests) && old(requests)[x].kind == kind| < if kind == Admin then 32 else if kind == Agent then 160 else 16
    {
      var r := requests[c];
      Charges(requests, kind, r.source);
      if r.kind == kind {
        assert requests[c := r.(kind := kind)] == requests;
        return true;
      }
      assert KindCounted(kind);
      if counts[kind] >= Limit(kind) {
        return false;
      }
      Moved(requests, c, r.(kind := kind));
      var _ := Drop(c);
      Add(c, r.(kind := kind));
      ok := true;
    }

    method Leave(c: Connection)
      requires Valid()
      modifies this
      ensures Valid() && requests == old(requests) - {c}
    {
      if c in requests {
        var _ := Drop(c);
      } else {
        assert requests - {c} == requests;
      }
    }

    /** The source counts add up to the pending count. */
    lemma SourcesSum()
      requires Valid()
      ensures Pending in counts && Sum(sources, sources.Keys) == counts[Pending]
    {
      assert KindCounted(Pending);
      forall s | s in sources.Keys ensures sources[s] == |Charged(requests, s)| {
        assert SourceCounted(s);
      }
      SumCharged(requests, sources, sources.Keys);
      forall c | c in OfKind(requests, Pending) ensures requests[c].source in sources.Keys {
        assert SourceCounted(requests[c].source);
        assert c in Charged(requests, requests[c].source);
      }
      assert ChargedTo(requests, sources.Keys) == OfKind(requests, Pending);
    }
  }

  /** Taking a record out and putting it back in another place replaces it and makes no room run out. */
  lemma Moved(requests: Requests, c: Connection, r: Request)
    requires c in requests
    ensures (requests - {c})[c := r] == requests[c := r]
    ensures |OfKind(requests - {c}, r.kind)| <= |OfKind(requests, r.kind)|
    ensures requests[c].kind == r.kind ==> |OfKind(requests - {c}, r.kind)| < |OfKind(requests, r.kind)|
    ensures |Charged(requests - {c}, r.source)| <= |Charged(requests, r.source)|
  {
    Removed(requests, c, r.kind, r.source);
  }

  ghost function Sum(sources: map<Source, nat>, keys: set<Source>): nat
    requires keys <= sources.Keys
  {
    if keys == {} then 0
    else
      var s :| s in keys;
      sources[s] + Sum(sources, keys - {s})
  }

  function ChargedTo(requests: Requests, keys: set<Source>): set<Connection> {
    set c | c in requests && requests[c].kind == Pending && requests[c].source in keys
  }

  lemma {:induction false} SumCharged(requests: Requests, sources: map<Source, nat>, keys: set<Source>)
    requires keys <= sources.Keys && forall s :: s in keys ==> sources[s] == |Charged(requests, s)|
    ensures Sum(sources, keys) == |ChargedTo(requests, keys)|
    decreases |keys|
  {
    if keys == {} {
      assert ChargedTo(requests, keys) == {};
    } else {
      var s :| s in keys && Sum(sources, keys) == sources[s] + Sum(sources, keys - {s});
      SumCharged(requests, sources, keys - {s});
      assert ChargedTo(requests, keys) == ChargedTo(requests, keys - {s}) + Charged(requests, s);
      assert ChargedTo(requests, keys - {s}) !! Charged(requests, s);
    }
  }

  // ---- The client behind trusted proxies ----

  /** One forwarding header: its length, whether an item names a zone, and its items, unreadable ones missing. */
  datatype Header = Header(length: nat, zoned: bool, chain: seq<Option<Address>>)

  predicate Readable(h: Header) {
    h.length <= 2048 && |h.chain| <= 32 && !h.zoned && forall i :: 0 <= i < |h.chain| ==> h.chain[i].Some?
  }

  function Items(h: Header): (r: seq<Address>)
    requires Readable(h)
    ensures |r| == |h.chain|
  {
    seq(|h.chain|, i requires 0 <= i < |h.chain| => h.chain[i].value)
  }

  /** Walk the chain from its near end while the hop reached is trusted. */
  function Walk(trusted: Address -> bool, current: Address, chain: seq<Address>): Address
    decreases |chain|
  {
    if chain == [] || !trusted(current) then current
    else Walk(trusted, chain[|chain| - 1], chain[..|chain| - 1])
  }

  /** `client`, of the canonical form of the peer. */
  method FindClient(trusted: Address -> bool, peer: Address, canonical: Address, headers: seq<Header>) returns (client: Address)
    ensures !trusted(peer) ==> client == canonical
    ensures trusted(peer) && (|headers| != 1 || !Readable(headers[0])) ==> client == peer
    ensures trusted(peer) && |headers| == 1 && Readable(headers[0]) ==> client == Walk(trusted, peer, Items(headers[0]))
    ensures trusted(peer) && |headers| == 1 && client != peer ==>
              headers[0].length <= 2048 && |headers[0].chain| <= 32 && !headers[0].zoned && forall x :: x in headers[0].chain ==> x.Some?
  {
    if !trusted(peer) {
      return canonical;
    }
    if |headers| != 1 || !Readable(headers[0]) {
      return peer;
    }
    var chain := Items(headers[0]);
    client := peer;
    var i := |chain|;
    assert chain[..i] == chain;
    while i > 0
      invariant 0 <= i <= |chain|
      invariant Walk(trusted, client, chain[..i]) == Walk(trusted, peer, chain)
    {
      if !trusted(client) {
        break;
      }
      assert chain[..i][..i - 1] == chain[..i - 1];
      client := chain[i - 1];
      i := i - 1;
    }
  }

  /** The address found is the peer, or one that a trusted hop vouched for: everything after it in the chain is
      trusted. */
  lemma {:induction false} VouchedFor(trusted: Address -> bool, peer: Address, chain: seq<Address>) returns (i: nat)
    ensures i <= |chain| && Walk(trusted, peer, chain) == if i == |chain| then peer else chain[i]
    ensures i < |chain| ==> trusted(peer)
    ensures forall j :: i < j < |chain| ==> trusted(chain[j])
    ensures 0 < i ==> !trusted(Walk(trusted, peer, chain))
    decreases |chain|
  {
    if chain == [] || !trusted(peer) {
      i := |chain|;
    } else {
      var rest := chain[..|chain| - 1];
      i := VouchedFor(trusted, chain[|chain| - 1], rest);
    }
  }

  /** What a client puts in front of the chain matters exactly if every hop up to it is trusted: once an untrusted
      hop is reached, forged items change nothing. */
  lemma {:induction false} ForgeryIgnored(trusted: Address -> bool, peer: Address, forged: seq<Address>, chain: seq<Address>)
    ensures Walk(trusted, peer, forged + chain) == Walk(trusted, Walk(trusted, peer, chain), forged)
    ensures !trusted(Walk(trusted, peer, chain)) ==> Walk(trusted, peer, forged + chain) == Walk(trusted, peer, chain)
    decreases |chain|
  {
    if chain == [] {
      assert forged + chain == forged;
    } else if trusted(peer) {
      var rest := chain[..|chain| - 1];
      ForgeryIgnored(trusted, chain[|chain| - 1], forged, rest);
      assert (forged + chain)[..|forged + chain| - 1] == forged + rest;
    }
  }
}
