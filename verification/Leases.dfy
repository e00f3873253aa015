/** Tunnel targets under a lease: what the hub lets through, and how both ends resolve it. */
module Leases {
  import opened Text
  import opened Config
  import Labels
  import opened Reservations

  datatype Kind = Dns | Ip | Namespace
  datatype Endpoint = Endpoint(address: string, kind: Kind)

  /** A route label after parsing; `network` says that it asks for a private container port. */
  datatype Label = Malformed | Parsed(network: bool, port: int, spec: Labels.Spec, weight: int, backup: bool)

  datatype Container = Container(id: string, name: string, running: bool, gateway: bool, shared: bool,
                                 endpoints: seq<Endpoint>, labels: seq<Label>)

  datatype Inventory = Inventory(connected: bool, truncated: bool, containers: seq<Container>)

  /** A route of an inventory: where it leads, and what its label asks for. */
  datatype Forwarded = Forwarded(container: string, address: string, port: int, token: Token, spec: Labels.Spec, weight: int, backup: bool)

  datatype Report = Report(validAt: real, seenAt: real, inventory: Inventory, routes: seq<Forwarded>, manualRouting: bool)

  datatype Agent = Agent(enabled: bool, timeout: real)

  const NO_REPORT := Report(0.0, 0.0, Inventory(false, false, []), [], false)

  /** The clauses of `inventory` that resolution rests on. */
  predicate ValidInventory(inv: Inventory) {
    && (forall i, j :: 0 <= i < j < |inv.containers| ==> inv.containers[i].id != inv.containers[j].id)
    && (forall i, j :: 0 <= i < j < |inv.containers| ==> inv.containers[i].name != inv.containers[j].name)
    && (forall i, l :: 0 <= i < |inv.containers| && l in inv.containers[i].labels && l.Parsed? ==> 1 <= l.port <= 65535)
  }

  predicate Serving(c: Container) {
    c.running && !c.gateway
  }

  predicate Reachable(c: Container) {
    c.endpoints != [] && (c.shared || c.endpoints[0].kind == Namespace)
  }

  // ---- Routes of an inventory ----

  predicate Usable(c: Container, l: Label) {
    l.Parsed? && l.network && c.endpoints != []
  }

  function RouteOf(c: Container, l: Label): Forwarded
    requires Usable(c, l)
  {
    Forwarded(c.name, c.endpoints[0].address, l.port, Hashed(c.id, l.port), l.spec, l.weight, l.backup)
  }

  function LabelRoutes(c: Container, labels: seq<Label>): seq<Forwarded> {
    if labels == [] then []
    else
      var last := labels[|labels| - 1];
      LabelRoutes(c, labels[..|labels| - 1]) + if Usable(c, last) then [RouteOf(c, last)] else []
  }

  function Routes(containers: seq<Container>): seq<Forwarded> {
    if containers == [] then []
    else
      var last := containers[|containers| - 1];
      Routes(containers[..|containers| - 1]) + if Serving(last) then LabelRoutes(last, last.labels) else []
  }

  predicate Faulty(containers: seq<Container>) {
    exists i :: 0 <= i < |containers| && FaultyLabels(containers[i])
  }

  predicate FaultyLabels(c: Container) {
    Serving(c) && exists j :: 0 <= j < |c.labels| && !Usable(c, c.labels[j])
  }

  /** Which routes an inventory has, written out: one for each label of a running container that is no gateway, if the label
      parses, asks for a private port, and the container has an endpoint. */
  lemma {:induction false} RoutesExactly(containers: seq<Container>, f: Forwarded)
    ensures f in Routes(containers) <==>
            exists c, l :: && c in containers && c.running && !c.gateway && c.endpoints != [] && l in c.labels && l.Parsed? && l.network
                           && f == Forwarded(c.name, c.endpoints[0].address, l.port, Hashed(c.id, l.port), l.spec, l.weight, l.backup)
    decreases |containers|
  {
    if containers != [] {
      var last, before := containers[|containers| - 1], containers[..|containers| - 1];
      assert containers == before + [last];
      RoutesExactly(before, f);
      LabelRouteOrigin(last, last.labels, f);
      hide LabelRoutes;
    }
  }

  /** Containers contribute in turn, and their labels in turn. */
  lemma {:induction false} RoutesJoin(a: seq<Container>, b: seq<Container>)
    ensures Routes(a + b) == Routes(a) + Routes(b)
    decreases |b|
  {
    hide LabelRoutes;
    if b == [] {
      assert a + b == a;
    } else {
      var last := |b| - 1;
      assert (a + b)[..|a + b| - 1] == a + b[..last] && (a + b)[|a + b| - 1] == b[last];
      RoutesJoin(a, b[..last]);
    }
  }

  lemma {:induction false} LabelsJoin(c: Container, a: seq<Label>, b: seq<Label>)
    ensures LabelRoutes(c, a + b) == LabelRoutes(c, a) + LabelRoutes(c, b)
    decreases |b|
  {
    if b == [] {
      assert a + b == a;
    } else {
      var last := |b| - 1;
      assert (a + b)[..|a + b| - 1] == a + b[..last] && (a + b)[|a + b| - 1] == b[last];
      LabelsJoin(c, a, b[..last]);
      hide Usable;
    }
  }

  /** The routes of one container follow its labels. */
  lemma OneContainer(c: Container, l: Label)
    ensures Routes([c]) == if c.running && !c.gateway then LabelRoutes(c, c.labels) else []
    ensures LabelRoutes(c, [l]) == if c.endpoints != [] && l.Parsed? && l.network
                                   then [Forwarded(c.name, c.endpoints[0].address, l.port, Hashed(c.id, l.port), l.spec, l.weight, l.backup)]
                                   else []
  {
    assert [c][..0] == [] && [l][..0] == [];
    assert Routes([]) == [] && LabelRoutes(c, []) == [];
  }

  /** When a label had to be rejected, written out. */
  lemma FaultyExactly(containers: seq<Container>)
    ensures Faulty(containers) <==>
            exists c, l :: c in containers && c.running && !c.gateway && l in c.labels && !(l.Parsed? && l.network && c.endpoints != [])
  {
    if Faulty(containers) {
      var i :| 0 <= i < |containers| && FaultyLabels(containers[i]);
      var j :| 0 <= j < |containers[i].labels| && !Usable(containers[i], containers[i].labels[j]);
      assert containers[i] in containers && containers[i].labels[j] in containers[i].labels;
    }
    if c, l :| c in containers && c.running && !c.gateway && l in c.labels && !(l.Parsed? && l.network && c.endpoints != []) {
      var i :| 0 <= i < |containers| && containers[i] == c;
      var j :| 0 <= j < |c.labels| && c.labels[j] == l;
      assert !Usable(containers[i], containers[i].labels[j]);
      assert FaultyLabels(containers[i]);
    }
  }

  /** `agent_routes`: the usable labels of the serving containers, and whether any label had to be rejected. */
  method AgentRoutes(containers: seq<Container>) returns (routes: seq<Forwarded>, errors: bool)
    ensures routes == Routes(containers)
    ensures errors == Faulty(containers)
  {
    hide FaultyLabels, LabelRoutes;
    routes, errors := [], false;
    for i := 0 to |containers|
      invariant routes == Routes(containers[..i])
      invariant errors == exists k :: 0 <= k < i && FaultyLabels(containers[k])
    {
      assert containers[..i + 1][..i] == containers[..i];
      var some, wrong := ContainerRoutes(containers[i]);
      routes, errors := routes + some, errors || wrong;
    }
    assert containers[..|containers|] == containers;
  }

  /** The labels of one container; those of a stopped one or of a gateway are not looked at. */
  method ContainerRoutes(c: Container) returns (routes: seq<Forwarded>, errors: bool)
    ensures routes == if Serving(c) then LabelRoutes(c, c.labels) else []
    ensures errors == FaultyLabels(c)
  {
    hide Usable;
    routes, errors := [], false;
    if !Serving(c) {
      return;
    }
    for j := 0 to |c.labels|
      invariant routes == LabelRoutes(c, c.labels[..j])
      invariant errors == exists k :: 0 <= k < j && !Usable(c, c.labels[k])
    {
      assert c.labels[..j + 1][..j] == c.labels[..j];
      if Usable(c, c.labels[j]) {
        routes := routes + [RouteOf(c, c.labels[j])];
      } else {
        errors := true;
      }
    }
    assert c.labels[..|c.labels|] == c.labels;
  }

  lemma {:induction false} LabelRouteOrigin(c: Container, labels: seq<Label>, r: Forwarded)
    ensures r in LabelRoutes(c, labels) <==> exists l :: l in labels && Usable(c, l) && r == RouteOf(c, l)
    decreases |labels|
  {
    if labels != [] {
      var last := labels[|labels| - 1];
      LabelRouteOrigin(c, labels[..|labels| - 1], r);
      if Usable(c, last) && r == RouteOf(c, last) {
        assert last in labels;
      }
      if l :| l in labels && Usable(c, l) && r == RouteOf(c, l) {
        assert l == last || l in labels[..|labels| - 1];
      }
    }
  }

  predicate Names(c: Container, r: Forwarded) {
    && Serving(c) && c.endpoints != [] && r.container == c.name && r.address == c.endpoints[0].address
    && r.token == Hashed(c.id, r.port)
  }

  /** Every route names a serving container of the inventory, its first endpoint and its token. */
  lemma {:induction false} RouteOrigin(containers: seq<Container>, r: Forwarded) returns (i: nat)
    requires r in Routes(containers)
    ensures i < |containers| && Names(containers[i], r) && exists l :: l in containers[i].labels && Usable(containers[i], l) && l.port == r.port
    decreases |containers|
  {
    var last := containers[|containers| - 1];
    if r in Routes(containers[..|containers| - 1]) {
      i := RouteOrigin(containers[..|containers| - 1], r);
    } else {
      i := |containers| - 1;
      LabelRouteOrigin(last, last.labels, r);
    }
  }

  // ---- The agent's end ----

  class AgentView {
    var targets: map<Token, (string, int)>
    var containers: map<string, string>

    constructor ()
      ensures targets == map[] && containers == map[]
    {
      targets, containers := map[], map[];
    }

    /** `collect`: the tables the agent answers from. */
    method Collect(inv: Inventory)
      modifies this
      ensures targets == Targets(Routes(inv.containers))
      ensures containers == if inv.connected && !inv.truncated then Addresses(inv.containers) else map[]
    {
      var routes, _ := AgentRoutes(inv.containers);
      targets := map[];
      for i := 0 to |routes|
        invariant targets == Targets(routes[..i])
      {
        assert routes[..i + 1][..i] == routes[..i];
        targets := targets[routes[i].token := (routes[i].address, routes[i].port)];
      }
      assert routes[..|routes|] == routes;
      containers := map[];
      for i := 0 to |inv.containers|
        invariant containers == Addresses(inv.containers[..i])
        invariant targets == Targets(Routes(inv.containers))
      {
        var c := inv.containers[i];
        assert inv.containers[..i + 1][..i] == inv.containers[..i];
        if Serving(c) && Reachable(c) {
          containers := containers[c.id := c.endpoints[0].address];
        }
      }
      assert inv.containers[..|inv.containers|] == inv.containers;
      if !inv.connected || inv.truncated {
        containers := map[];
      }
    }

    /** `destination`: the hub may name a container and a port, never an address. */
    function Destination(token: Token): Option<(string, int)>
      reads this
    {
      Resolved(targets, containers, token)
    }
  }

  function Resolved(targets: map<Token, (string, int)>, containers: map<string, string>, token: Token): Option<(string, int)> {
    if token.Named? then
      if token.container in containers && token.port <= 65535 then Some((containers[token.container], token.port)) else None
    else if token in targets then Some(targets[token]) else None
  }

  function Targets(routes: seq<Forwarded>): map<Token, (string, int)> {
    if routes == [] then map[]
    else
      var last := routes[|routes| - 1];
      Targets(routes[..|routes| - 1])[last.token := (last.address, last.port)]
  }

  function Addresses(containers: seq<Container>): map<string, string> {
    if containers == [] then map[]
    else
      var last := containers[|containers| - 1];
      var rest := Addresses(containers[..|containers| - 1]);
      if Serving(last) && Reachable(last) then rest[last.id := last.endpoints[0].address] else rest
  }

  lemma {:induction false} TargetOrigin(routes: seq<Forwarded>, token: Token) returns (i: nat)
    requires token in Targets(routes)
    ensures i < |routes| && routes[i].token == token && Targets(routes)[token] == (routes[i].address, routes[i].port)
    decreases |routes|
  {
    var last := routes[|routes| - 1];
    if token == last.token {
      i := |routes| - 1;
    } else {
      i := TargetOrigin(routes[..|routes| - 1], token);
    }
  }

  lemma {:induction false} TargetKnown(routes: seq<Forwarded>, r: Forwarded)
    requires r in routes
    ensures r.token in Targets(routes)
    decreases |routes|
  {
    var last := routes[|routes| - 1];
    if r != last {
      TargetKnown(routes[..|routes| - 1], r);
    }
  }

  lemma {:induction false} AddressKnown(containers: seq<Container>, i: nat)
    requires i < |containers| && Serving(containers[i]) && Reachable(containers[i])
    requires forall j, k :: 0 <= j < k < |containers| ==> containers[j].id != containers[k].id
    ensures containers[i].id in Addresses(containers) && Addresses(containers)[containers[i].id] == containers[i].endpoints[0].address
    decreases |containers|
  {
    if i < |containers| - 1 {
      AddressKnown(containers[..|containers| - 1], i);
    }
  }

  /** The containers an agent resolves by identity, written out: the running ones that are no gateway and that a tunnel can
      reach, each by its first endpoint. */
  lemma {:induction false} AddressesExactly(containers: seq<Container>, id: string)
    ensures id in Addresses(containers) <==>
            exists c :: c in containers && c.id == id && c.running && !c.gateway && c.endpoints != [] && (c.shared || c.endpoints[0].kind == Namespace)
    ensures id in Addresses(containers) ==>
              exists c :: c in containers && c.id == id && c.endpoints != [] && Addresses(containers)[id] == c.endpoints[0].address
    decreases |containers|
  {
    if containers != [] {
      var last, before := containers[|containers| - 1], containers[..|containers| - 1];
      assert containers == before + [last];
      AddressesExactly(before, id);
    }
  }

  // ---- The hub's end ----

  predicate LabelLive(r: Report, a: Agent, now: real) {
    0.0 <= now - r.validAt < a.timeout
  }

  predicate ManualLive(r: Report, a: Agent, now: real) {
    && a.enabled && r.manualRouting && r.inventory.connected && !r.inventory.truncated
    && 0.0 <= now - r.seenAt < a.timeout
  }

  function Later(a: real, b: real): real {
    if a < b then b else a
  }

  /** When the lease of a refresh at `now` ends. */
  function LeaseEnd(r: Report, a: Agent, now: real): real {
    Later(r.validAt, if ManualLive(r, a, now) then r.seenAt else 0.0) + a.timeout
  }

  function KeyOf(agent: string, r: Forwarded): Key {
    Key(agent, r.container, r.port)
  }

  function Labelled(agent: string, routes: seq<Forwarded>, held: set<Key>): map<Key, Token> {
    if routes == [] then map[]
    else
      var last, rest := routes[|routes| - 1], Labelled(agent, routes[..|routes| - 1], held);
      if KeyOf(agent, last) in held then rest[KeyOf(agent, last) := last.token] else rest
  }

  /** The serving, reachable containers by name, as a dictionary. */
  function Rows(containers: seq<Container>): map<string, Container> {
    if containers == [] then map[]
    else
      var last, rest := containers[|containers| - 1], Rows(containers[..|containers| - 1]);
      if Serving(last) && Reachable(last) then rest[last.name := last] else rest
  }

  function Selected(agent: string, manual: seq<AgentRef>, rows: map<string, Container>, held: set<Key>, start: map<Key, Token>): map<Key, Token> {
    if manual == [] then start
    else
      var last, rest := manual[|manual| - 1], Selected(agent, manual[..|manual| - 1], rows, held, start);
      if last.id == agent && last.container in rows && Key(agent, last.container, last.port) in held
      then rest[Key(agent, last.container, last.port) := Named(rows[last.container].id, last.port)] else rest
  }

  function Destinations(agent: string, r: Report, a: Agent, manual: seq<AgentRef>, held: set<Key>, now: real): map<Key, Token> {
    if !a.enabled then map[]
    else
      var labelled := if LabelLive(r, a, now) then Labelled(agent, r.routes, held) else map[];
      if ManualLive(r, a, now) then Selected(agent, manual, Rows(r.inventory.containers), held, labelled) else labelled
  }

  lemma {:induction false} LabelledOrigin(agent: string, routes: seq<Forwarded>, held: set<Key>, k: Key) returns (i: nat)
    requires k in Labelled(agent, routes, held)
    ensures i < |routes| && KeyOf(agent, routes[i]) == k && k in held && Labelled(agent, routes, held)[k] == routes[i].token
    decreases |routes|
  {
    var last := routes[|routes| - 1];
    if KeyOf(agent, last) == k && k in held {
      i := |routes| - 1;
    } else {
      i := LabelledOrigin(agent, routes[..|routes| - 1], held, k);
    }
  }

  lemma {:induction false} RowOrigin(containers: seq<Container>, name: string) returns (i: nat)
    requires name in Rows(containers)
    ensures i < |containers| && Rows(containers)[name] == containers[i] && containers[i].name == name
    ensures Serving(containers[i]) && Reachable(containers[i])
    decreases |containers|
  {
    var last := containers[|containers| - 1];
    if Serving(last) && Reachable(last) && last.name == name {
      i := |containers| - 1;
    } else {
      i := RowOrigin(containers[..|containers| - 1], name);
    }
  }

  lemma {:induction false} SelectedOrigin(agent: string, manual: seq<AgentRef>, rows: map<string, Container>, held: set<Key>,
                                          start: map<Key, Token>, k: Key)
    requires k in Selected(agent, manual, rows, held, start)
    ensures var token := Selected(agent, manual, rows, held, start)[k];
            || (k.agent == agent && k.container in rows && k in held && token == Named(rows[k.container].id, k.port)
                && AgentRef(agent, k.container, k.port) in manual)
            || (k in start && token == start[k])
    decreases |manual|
  {
    if manual != [] {
      var last := manual[|manual| - 1];
      if !(last.id == agent && last.container in rows && Key(agent, last.container, last.port) in held
           && Key(agent, last.container, last.port) == k) {
        SelectedOrigin(agent, manual[..|manual| - 1], rows, held, start, k);
      } else {
        assert last == AgentRef(agent, k.container, k.port);
      }
    }
  }

  // ---- Which keys are targets, said of the report alone ----

  /** The last of some routes for a key. */
  predicate LastRoute(routes: seq<Forwarded>, i: int, k: Key) {
    && 0 <= i < |routes| && routes[i].container == k.container && routes[i].port == k.port
    && forall j :: i < j < |routes| ==> !(routes[j].container == k.container && routes[j].port == k.port)
  }

  /** The last running container of a name that is no gateway and that a tunnel can reach. */
  predicate LastRow(containers: seq<Container>, i: int, name: string) {
    && 0 <= i < |containers| && containers[i].name == name && Tunnelled(containers[i])
    && forall j :: i < j < |containers| ==> !(containers[j].name == name && Tunnelled(containers[j]))
  }

  predicate Tunnelled(c: Container) {
    c.running && !c.gateway && c.endpoints != [] && (c.shared || c.endpoints[0].kind == Namespace)
  }

  lemma {:induction false} LabelledExactly(agent: string, routes: seq<Forwarded>, held: set<Key>, k: Key)
    ensures k in Labelled(agent, routes, held) <==>
            k.agent == agent && k in held && exists f :: f in routes && f.container == k.container && f.port == k.port
    ensures k in Labelled(agent, routes, held) ==>
              exists i :: LastRoute(routes, i, k) && Labelled(agent, routes, held)[k] == routes[i].token
    decreases |routes|
  {
    if routes != [] {
      var last, before := routes[|routes| - 1], routes[..|routes| - 1];
      assert routes == before + [last];
      LabelledExactly(agent, before, held, k);
      if k.agent == agent && k in held {
        if last.container == k.container && last.port == k.port {
          assert last in routes && LastRoute(routes, |routes| - 1, k);
        } else if k in Labelled(agent, before, held) {
          var i :| LastRoute(before, i, k) && Labelled(agent, before, held)[k] == before[i].token;
          assert routes[i] == before[i] && routes[i] in routes && LastRoute(routes, i, k);
        }
      }
    }
  }

  lemma {:induction false} RowsExactly(containers: seq<Container>, name: string)
    ensures name in Rows(containers) <==> exists c :: c in containers && c.name == name && Tunnelled(c)
    ensures name in Rows(containers) ==> exists i :: LastRow(containers, i, name) && Rows(containers)[name] == containers[i]
    decreases |containers|
  {
    if containers != [] {
      var last, before := containers[|containers| - 1], containers[..|containers| - 1];
      assert containers == before + [last];
      RowsExactly(before, name);
      if Tunnelled(last) && last.name == name {
        assert last in containers && LastRow(containers, |containers| - 1, name);
      } else if name in Rows(before) {
        var i :| LastRow(before, i, name) && Rows(before)[name] == before[i];
        assert containers[i] == before[i] && containers[i] in containers && LastRow(containers, i, name);
      }
    }
  }

  lemma {:induction false} SelectedExactly(agent: string, manual: seq<AgentRef>, rows: map<string, Container>, held: set<Key>,
                                           start: map<Key, Token>, k: Key)
    ensures var all := Selected(agent, manual, rows, held, start);
            var selected := k.agent == agent && k.container in rows && k in held && AgentRef(agent, k.container, k.port) in manual;
            && (k in all <==> selected || k in start)
            && (selected ==> all[k] == Named(rows[k.container].id, k.port))
            && (!selected && k in start ==> all[k] == start[k])
    decreases |manual|
  {
    if manual != [] {
      var last, before := manual[|manual| - 1], manual[..|manual| - 1];
      assert manual == before + [last];
      SelectedExactly(agent, before, rows, held, start, k);
    }
  }

  /** `refresh_targets`, exactly. A key is a target if the agent is enabled, the key is the agent's and mapped, and either
      the label lease runs and a route of the report has the key, or the manual lease runs, the key was selected, and a
      running, reachable container has its name. A selected key leads to that container by name, any other to the token
      of its last route. */
  lemma TargetExactly(agent: string, r: Report, a: Agent, manual: seq<AgentRef>, held: set<Key>, now: real, k: Key)
    ensures var found := Destinations(agent, r, a, manual, held, now);
            var labelled := 0.0 <= now - r.validAt < a.timeout && exists f :: f in r.routes && f.container == k.container && f.port == k.port;
            var selected :=
              && r.manualRouting && r.inventory.connected && !r.inventory.truncated && 0.0 <= now - r.seenAt < a.timeout
              && AgentRef(agent, k.container, k.port) in manual
              && exists c :: c in r.inventory.containers && c.name == k.container && c.running && !c.gateway && c.endpoints != []
                             && (c.shared || c.endpoints[0].kind == Namespace);
            && (k in found <==> a.enabled && k.agent == agent && k in held && (labelled || selected))
            && (k in found && selected ==> exists i :: LastRow(r.inventory.containers, i, k.container)
                                                       && found[k] == Named(r.inventory.containers[i].id, k.port))
            && (k in found && !selected ==> exists i :: LastRoute(r.routes, i, k) && found[k] == r.routes[i].token)
  {
    hide Labelled, Selected, Rows;
    var labelled := if LabelLive(r, a, now) then Labelled(agent, r.routes, held) else map[];
    LabelledExactly(agent, r.routes, held, k);
    RowsExactly(r.inventory.containers, k.container);
    SelectedExactly(agent, manual, Rows(r.inventory.containers), held, labelled, k);
    forall c | c in r.inventory.containers
      ensures Tunnelled(c) <==> c.running && !c.gateway && c.endpoints != [] && (c.shared || c.endpoints[0].kind == Namespace) {}
  }

  /** The container a hub key names in an inventory. */
  predicate KeyNames(inv: Inventory, k: Key, i: nat) {
    i < |inv.containers| && inv.containers[i].name == k.container && Serving(inv.containers[i]) && inv.containers[i].endpoints != []
  }

  /** Both ends resolve alike: for one inventory, whatever token the hub has for a key, the agent maps it to the
      first endpoint of the container the key names and to the key's port. */
  lemma ResolveAlike(agent: string, r: Report, a: Agent, manual: seq<AgentRef>, held: set<Key>, now: real, k: Key) returns (i: nat)
    requires ValidInventory(r.inventory) && k in Destinations(agent, r, a, manual, held, now)
    requires forall f :: f in r.routes ==> f in Routes(r.inventory.containers)
    requires forall m :: m in manual ==> 1 <= m.port <= 65535
    ensures k.agent == agent && k in held && KeyNames(r.inventory, k, i)
    ensures var inv := r.inventory;
            var containers := if inv.connected && !inv.truncated then Addresses(inv.containers) else map[];
            Resolved(Targets(Routes(inv.containers)), containers, Destinations(agent, r, a, manual, held, now)[k])
            == Some((inv.containers[i].endpoints[0].address, k.port))
  {
    var labelled := if LabelLive(r, a, now) then Labelled(agent, r.routes, held) else map[];
    if ManualLive(r, a, now) {
      var rows := Rows(r.inventory.containers);
      SelectedOrigin(agent, manual, rows, held, labelled, k);
      var token := Selected(agent, manual, rows, held, labelled)[k];
      if token.Named? && !(k in labelled && token == labelled[k]) {
        i := RowOrigin(r.inventory.containers, k.container);
        AddressKnown(r.inventory.containers, i);
      } else {
        i := LabelResolves(agent, r, held, k);
      }
    } else {
      i := LabelResolves(agent, r, held, k);
    }
  }

  lemma LabelResolves(agent: string, r: Report, held: set<Key>, k: Key) returns (i: nat)
    requires ValidInventory(r.inventory) && k in Labelled(agent, r.routes, held)
    requires forall f :: f in r.routes ==> f in Routes(r.inventory.containers)
    ensures k.agent == agent && k in held && KeyNames(r.inventory, k, i)
    ensures Labelled(agent, r.routes, held)[k].Hashed?
    ensures Labelled(agent, r.routes, held)[k] in Targets(Routes(r.inventory.containers))
    ensures Targets(Routes(r.inventory.containers))[Labelled(agent, r.routes, held)[k]]
            == (r.inventory.containers[i].endpoints[0].address, k.port)
  {
    var containers := r.inventory.containers;
    var at := LabelledOrigin(agent, r.routes, held, k);
    var route := r.routes[at];
    i := RouteOrigin(containers, route);
    TargetKnown(Routes(containers), route);
    var other := TargetOrigin(Routes(containers), route.token);
    var j := RouteOrigin(containers, Routes(containers)[other]);
    assert containers[i].id == containers[j].id;
    assert i == j;
  }

  /** A token that an agent knows names one of its serving containers by identity, whichever inventory the hub took it
      from: a stale one leads to that container or nowhere. */
  lemma StaleToken(containers: seq<Container>, id: string, port: int)
    requires forall i, j :: 0 <= i < j < |containers| ==> containers[i].id != containers[j].id
    ensures Hashed(id, port) in Targets(Routes(containers)) <==>
            exists i, l :: 0 <= i < |containers| && containers[i].id == id && containers[i].running && !containers[i].gateway
                           && l in containers[i].labels && l.Parsed? && l.network && containers[i].endpoints != [] && l.port == port
    ensures forall i :: 0 <= i < |containers| && containers[i].id == id && Hashed(id, port) in Targets(Routes(containers)) ==>
              containers[i].endpoints != [] && Targets(Routes(containers))[Hashed(id, port)] == (containers[i].endpoints[0].address, port)
  {
    hide Routes, Targets;
    if Hashed(id, port) in Targets(Routes(containers)) {
      var at := TargetOrigin(Routes(containers), Hashed(id, port));
      var route := Routes(containers)[at];
      var i := RouteOrigin(containers, route);
    }
    if i, l :| 0 <= i < |containers| && containers[i].id == id && Serving(containers[i])
                && l in containers[i].labels && Usable(containers[i], l) && l.port == port {
      LabelListed(containers, i, l);
      TargetKnown(Routes(containers), RouteOf(containers[i], l));
    }
  }

  lemma {:induction false} LabelListed(containers: seq<Container>, i: nat, l: Label)
    requires i < |containers| && Serving(containers[i]) && l in containers[i].labels && Usable(containers[i], l)
    ensures RouteOf(containers[i], l) in Routes(containers)
    decreases |containers|
  {
    if i < |containers| - 1 {
      LabelListed(containers[..|containers| - 1], i, l);
    } else {
      LabelRouteOrigin(containers[i], containers[i].labels, RouteOf(containers[i], l));
    }
  }

  /** When the routes come from an older inventory, a token either leads to the container it was made for, as the agent
      knows it now, or nowhere. */
  lemma ResolveStale(agent: string, r: Report, a: Agent, manual: seq<AgentRef>, held: set<Key>, now: real, k: Key, older: Inventory)
    requires ValidInventory(r.inventory) && k in Destinations(agent, r, a, manual, held, now)
    requires ValidInventory(older) && forall f :: f in r.routes ==> f in Routes(older.containers)
    ensures var inv := r.inventory;
            var containers := if inv.connected && !inv.truncated then Addresses(inv.containers) else map[];
            var token := Destinations(agent, r, a, manual, held, now)[k];
            var to := Resolved(Targets(Routes(inv.containers)), containers, token);
            to.Some? ==> exists i :: 0 <= i < |inv.containers| && inv.containers[i].id == token.container && inv.containers[i].endpoints != []
                                     && to.value == (inv.containers[i].endpoints[0].address, k.port)
  {
    var labelled := if LabelLive(r, a, now) then Labelled(agent, r.routes, held) else map[];
    var token := Destinations(agent, r, a, manual, held, now)[k];
    var inv := r.inventory;
    if ManualLive(r, a, now) {
      SelectedOrigin(agent, manual, Rows(inv.containers), held, labelled, k);
    }
    if ManualLive(r, a, now) && token.Named? && k.container in Rows(inv.containers) && token == Named(Rows(inv.containers)[k.container].id, k.port) {
      var i := RowOrigin(inv.containers, k.container);
      AddressKnown(inv.containers, i);
    } else {
      var at := LabelledOrigin(agent, r.routes, held, k);
      var i := RouteOrigin(older.containers, r.routes[at]);
      StaleToken(inv.containers, token.container, k.port);
    }
  }

  // ---- How long a lease lasts ----

  /** A forward at `t` is under the lease of the refresh before it. */
  predicate Leased(r: Report, a: Agent, refreshed: real, t: real) {
    refreshed <= t < LeaseEnd(r, a, refreshed)
  }

  /** Label and manual targets share one expiry. A label target passes only while the label lease of `validAt`
      runs exactly when no later manual lease stretches it: the agent takes no manual targets, or its last report
      was also its last valid one. */
  lemma LabelLeaseExact(r: Report, a: Agent, refreshed: real)
    requires LabelLive(r, a, refreshed) && 0.0 <= r.validAt <= r.seenAt
    ensures (forall t :: Leased(r, a, refreshed, t) ==> t < r.validAt + a.timeout)
            <==> (!ManualLive(r, a, refreshed) || r.seenAt == r.validAt)
  {
    if ManualLive(r, a, refreshed) && r.seenAt > r.validAt {
      var t := r.validAt + a.timeout;
      assert Leased(r, a, refreshed, t);
    }
  }

  /** When the targets of a refresh expire: the label lease from the last report that renewed it, or the manual one from the
      last report while it runs, whichever ends later, and never before the refresh. */
  lemma ExpiryExactly(r: Report, a: Agent, now: real)
    requires 0.0 <= r.validAt
    ensures var end := Later(now, LeaseEnd(r, a, now));
            var manual := a.enabled && r.manualRouting && r.inventory.connected && !r.inventory.truncated && 0.0 <= now - r.seenAt < a.timeout;
            && now <= end && r.validAt + a.timeout <= end && (manual ==> r.seenAt + a.timeout <= end)
            && (end == now || end == r.validAt + a.timeout || (manual && end == r.seenAt + a.timeout))
  {
  }

  // ---- Reports ----

  function KeysOf(agent: string, routes: seq<Forwarded>): set<Key> {
    set f | f in routes :: KeyOf(agent, f)
  }

  /** An inventory renews the label lease if it is complete, all its labels are usable, and the tunnel is up. */
  predicate Renews(inv: Inventory, online: bool) {
    !Faulty(inv.containers) && inv.connected && !inv.truncated && online
  }

  /** Which inventories renew the label lease, written out. */
  lemma RenewsExactly(inv: Inventory, online: bool)
    ensures Renews(inv, online) <==>
            && inv.connected && !inv.truncated && online
            && forall c, l :: c in inv.containers && c.running && !c.gateway && l in c.labels ==> l.Parsed? && l.network && c.endpoints != []
  {
    FaultyExactly(inv.containers);
    hide Faulty;
  }

  function NextReport(last: Report, agent: string, inv: Inventory, manualRouting: bool, online: bool, held: set<Key>, quota: nat, now: real): Report {
    var seen := last.(seenAt := now, inventory := inv, manualRouting := manualRouting);
    var routes := Routes(inv.containers);
    if !Renews(inv, online) then seen
    else if WithinQuota(held, KeysOf(agent, routes), quota) then seen.(validAt := now, routes := routes)
    else seen.(validAt := now, routes := Held(agent, routes, held))
  }

  lemma NextReportTimes(last: Report, agent: string, inv: Inventory, manualRouting: bool, online: bool, held: set<Key>, quota: nat, now: real)
    requires 0.0 <= last.validAt <= now
    ensures var r := NextReport(last, agent, inv, manualRouting, online, held, quota, now); 0.0 <= r.validAt <= r.seenAt == now
  {
  }

  /** Every accepted report renews the manual lease. The label lease is renewed only by an inventory that renews it,
      and then for exactly the routes that have a port, or all of them if the quota allows; otherwise it keeps
      running with the routes it had. */
  lemma RenewalExact(last: Report, agent: string, inv: Inventory, manualRouting: bool, online: bool, held: set<Key>, quota: nat,
                     now: real, f: Forwarded)
    ensures var r := NextReport(last, agent, inv, manualRouting, online, held, quota, now);
            var routes := Routes(inv.containers);
            && r.seenAt == now && r.inventory == inv && r.manualRouting == manualRouting
            && (if Renews(inv, online) then
                  && r.validAt == now
                  && (f in r.routes <==>
                        f in routes && (Key(agent, f.container, f.port) in held
                                        || WithinQuota(held, set g | g in routes :: Key(agent, g.container, g.port), quota)))
                else r.validAt == last.validAt && r.routes == last.routes)
  {
    hide Routes, Renews, WithinQuota, Held;
    assert KeysOf(agent, Routes(inv.containers)) == set g | g in Routes(inv.containers) :: Key(agent, g.container, g.port);
    HeldRoutes(agent, Routes(inv.containers), held, f);
  }

  function Held(agent: string, routes: seq<Forwarded>, held: set<Key>): seq<Forwarded> {
    if routes == [] then []
    else (if KeyOf(agent, routes[0]) in held then [routes[0]] else []) + Held(agent, routes[1..], held)
  }

  lemma DestinationKeys(agent: string, r: Report, a: Agent, manual: seq<AgentRef>, held: set<Key>, now: real)
    ensures forall k :: k in Destinations(agent, r, a, manual, held, now) ==> k.agent == agent && k in held
  {
    forall k | k in Destinations(agent, r, a, manual, held, now) ensures k.agent == agent && k in held {
      var labelled := if LabelLive(r, a, now) then Labelled(agent, r.routes, held) else map[];
      if ManualLive(r, a, now) {
        SelectedOrigin(agent, manual, Rows(r.inventory.containers), held, labelled, k);
      }
      if k in labelled {
        var i := LabelledOrigin(agent, r.routes, held, k);
      }
    }
  }

  lemma NoReportNoTargets(agent: string, a: Agent, manual: seq<AgentRef>, held: set<Key>, now: real)
    ensures Destinations(agent, NO_REPORT, a, manual, held, now) == map[]
  {
  }

  /** A renewal over quota keeps exactly the routes whose target has a port. */
  lemma {:induction false} HeldRoutes(agent: string, routes: seq<Forwarded>, held: set<Key>, f: Forwarded)
    ensures f in Held(agent, routes, held) <==> f in routes && KeyOf(agent, f) in held
  {
    if routes != [] {
      HeldRoutes(agent, routes[1..], held, f);
    }
  }

  /** An accepted report, and what it met. */
  datatype Met = Met(inv: Inventory, manualRouting: bool, online: bool, held: set<Key>, quota: nat, now: real)

  function After(agent: string, history: seq<Met>): Report {
    if history == [] then NO_REPORT
    else
      var last := history[|history| - 1];
      NextReport(After(agent, history[..|history| - 1]), agent, last.inv, last.manualRouting, last.online, last.held, last.quota, last.now)
  }

  /** Over any run of reports the label lease counts from the last report that renewed it, with the routes of that
      report's inventory, however many came after it. */
  lemma {:induction false} RenewalHistory(agent: string, history: seq<Met>, i: nat)
    requires i < |history| && Renews(history[i].inv, history[i].online)
    requires forall j :: i < j < |history| ==> !Renews(history[j].inv, history[j].online)
    ensures var r, m, last := After(agent, history), history[i], history[|history| - 1];
            && r.validAt == m.now && r.seenAt == last.now && r.inventory == last.inv
            && forall f :: f in r.routes <==>
                           f in Routes(m.inv.containers)
                           && (KeyOf(agent, f) in m.held || WithinQuota(m.held, KeysOf(agent, Routes(m.inv.containers)), m.quota))
    decreases |history|
  {
    hide Routes, Faulty, WithinQuota;
    var before := history[..|history| - 1];
    if i < |history| - 1 {
      RenewalHistory(agent, before, i);
    } else {
      forall f ensures f in Held(agent, Routes(history[i].inv.containers), history[i].held)
                       <==> f in Routes(history[i].inv.containers) && KeyOf(agent, f) in history[i].held {
        HeldRoutes(agent, Routes(history[i].inv.containers), history[i].held, f);
      }
    }
  }

  // ---- A label target that outlives its lease ----

  const WEB := Parsed(true, 80, Labels.Spec("a.example", "/", "", Options(false, RoundRobin, false, 60, false, 60, 0, 0, 0)), 1, false)

  /** One container with a usable label, and the same with a second label that cannot be parsed. */
  function Sample(broken: bool): Inventory {
    Inventory(true, false, [Container("c", "web", true, false, true, [Endpoint("10.0.0.2", Ip)], if broken then [WEB, Malformed] else [WEB])])
  }

  lemma SampleRoutes(broken: bool)
    ensures ValidInventory(Sample(broken)) && (Renews(Sample(broken), true) <==> !broken)
    ensures Routes(Sample(false).containers) == [RouteOf(Sample(false).containers[0], WEB)]
  {
    var c := Sample(broken).containers[0];
    assert Serving(c) && Usable(c, WEB);
    assert c.labels[0] == WEB;
    if broken {
      assert !Usable(c, c.labels[1]);
      assert FaultyLabels(c);
    }
    var d := Sample(false).containers[0];
    assert [d][..0] == [] && d.labels[..0] == [];
    assert LabelRoutes(d, []) == [];
    assert LabelRoutes(d, d.labels) == [RouteOf(d, WEB)];
    assert Routes([d][..0]) == [];
  }

  /** The report of time 110 has a label that cannot be used and does not renew the label lease of time 100, but it renews
      the manual one, and the shared expiry follows that: at time 135 the label target is still forwarded to, although
      its own lease ended at 130. */
  lemma LabelOutlivesItsLease(mapped: set<Key>, refreshed: real)
    requires mapped <= {Key("a", "web", 80)} && 110.0 <= refreshed <= 111.0
    ensures var a, k := Agent(true, 30.0), Key("a", "web", 80);
            var first := NextReport(NO_REPORT, "a", Sample(false), true, true, mapped, 128, 100.0);
            var second := NextReport(first, "a", Sample(true), true, true, {k}, 128, 110.0);
            && second.validAt == 100.0 && second.seenAt == 110.0
            && k in Destinations("a", second, a, [], {k}, refreshed)
            && Leased(second, a, refreshed, 135.0) && !LabelLive(second, a, 135.0)
  {
    SampleRoutes(false);
    SampleRoutes(true);
    var k := Key("a", "web", 80);
    var route := RouteOf(Sample(false).containers[0], WEB);
    var routes := Routes(Sample(false).containers);
    assert KeyOf("a", route) == k;
    assert KeysOf("a", routes) == {k};
    OneKey(mapped, k);
    hide Sample, Routes, Renews, WithinQuota;
    assert routes[..0] == [];
    assert Labelled("a", routes[..0], {k}) == map[];
    assert k in Labelled("a", routes, {k});
  }

  lemma OneKey(mapped: set<Key>, k: Key)
    requires mapped <= {k}
    ensures WithinQuota(mapped, {k}, 128)
  {
    assert mapped == {} || mapped == {k};
    assert mapped + {k} == {k};
    assert Of({k}, k.agent) == {k};
  }
}
