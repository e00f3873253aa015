/** `reconcile`: rebuild the discovered targets of every Docker route from a bag of entries. */
module Labels {
  import opened Text
  import opened Config
  import opened Endpoints

  datatype Spec = Spec(host: string, path: string, group: string, options: Options)

  datatype Entry = Entry(spec: Spec, target: Target, source: string)

  datatype Failure = Disagree | ManualRoute | Conflict | Invalid

  datatype Result<+T> = Ok(value: T) | Err(error: Failure)

  /** A route under reconciliation with the members recorded for it so far. `settled` says that
      the table of agreed options has an entry for the route, which then equals `route.options`. */
  datatype Slot = Slot(route: Route, owned: seq<Source>, settled: bool)

  datatype Bench = Bench(host: Host, slots: seq<Slot>)

  /** Parsed labels carry a lower-case host; discovered targets name no agent. */
  predicate Parsed(es: seq<Entry>) {
    forall e :: e in es ==> Lower(e.spec.host) == e.spec.host && e.target.agent.None?
  }

  // ---- Preparing a route: keep only what frozen sources own ----

  function Without(ts: seq<Target>, manual: seq<Target>): seq<Target> {
    if ts == [] then []
    else (if ts[0] in manual then [] else [ts[0]]) + Without(ts[1..], manual)
  }

  function RecordedSources(d: Docker): seq<Source> {
    if d.sources.Some? then d.sources.value else [Source(LOCAL, d.targets)]
  }

  function Kept(sources: seq<Source>, manual: seq<Target>, frozen: set<string>): seq<Source> {
    if sources == [] then []
    else (if sources[0].name in frozen then [Source(sources[0].name, Without(sources[0].members, manual))] else [])
         + Kept(sources[1..], manual, frozen)
  }

  /** Adds the targets of `ts` that are not yet listed, in order. */
  function AddNew(acc: seq<Target>, ts: seq<Target>): seq<Target>
    decreases ts
  {
    if ts == [] then acc
    else AddNew(if ts[0] in acc then acc else acc + [ts[0]], ts[1..])
  }

  function Pool(acc: seq<Target>, owned: seq<Source>): seq<Target>
    decreases owned
  {
    if owned == [] then acc else Pool(AddNew(acc, owned[0].members), owned[1..])
  }

  function Prepare(r: Route, frozen: set<string>): Slot {
    if r.docker.None? then Slot(r, [], false)
    else
      var owned := Kept(RecordedSources(r.docker.value), r.targets, frozen);
      var targets := Pool([], owned);
      Slot(r.(docker := Some(r.docker.value.(targets := targets))), owned, r.docker.value.managed && targets != [])
  }

  // ---- One entry meeting one route ----

  predicate Aims(e: Entry, domain: string, r: Route) {
    if e.spec.group != "" then r.docker.Some? && !r.docker.value.managed && r.docker.value.group == e.spec.group
    else domain == e.spec.host && r.path == e.spec.path
  }

  function AddMember(owned: seq<Source>, name: string, t: Target): seq<Source> {
    if owned == [] then [Source(name, [t])]
    else if owned[0].name == name then
      [if t in owned[0].members then owned[0] else owned[0].(members := owned[0].members + [t])] + owned[1..]
    else [owned[0]] + AddMember(owned[1..], name, t)
  }

  function Admit(s: Slot, e: Entry): Result<Slot>
    requires s.route.docker.Some?
  {
    var d := s.route.docker.value;
    var existing := Find(s.route.targets + d.targets, At(e.target));
    if existing.Some? && existing.value != e.target then Err(Conflict)
    else
      var targets := if existing.Some? then d.targets else d.targets + [e.target];
      var owned := if e.target in s.route.targets then s.owned else AddMember(s.owned, e.source, e.target);
      Ok(s.(route := s.route.(docker := Some(d.(targets := targets))), owned := owned))
  }

  function Visit(s: Slot, domain: string, e: Entry): Result<Slot> {
    if !Aims(e, domain, s.route) then Ok(s)
    else if e.spec.group != "" then Admit(s, e)
    else if s.settled && s.route.options != e.spec.options then Err(Disagree)
    else if s.route.docker.None? || !s.route.docker.value.managed then Err(ManualRoute)
    else Admit(s.(route := s.route.(options := e.spec.options), settled := true), e)
  }

  /** A slot after the entries, in order. */
  function Fold(s: Slot, domain: string, es: seq<Entry>): Result<Slot> {
    if es == [] then Ok(s)
    else
      var before := Fold(s, domain, es[..|es| - 1]);
      if before.Err? then before else Visit(before.value, domain, es[|es| - 1])
  }

  // ---- Hosts and routes created on demand ----

  function HostIndex(bs: seq<Bench>, domain: string): (r: Option<nat>)
    ensures r.Some? ==> r.value < |bs| && Lower(bs[r.value].host.domain) == domain
    ensures r.None? ==> forall i :: 0 <= i < |bs| ==> Lower(bs[i].host.domain) != domain
  {
    if bs == [] then None
    else if Lower(bs[0].host.domain) == domain then Some(0)
    else
      var r := HostIndex(bs[1..], domain);
      if r.Some? then Some(r.value + 1) else None
  }

  function PathIndex(slots: seq<Slot>, path: string): (r: Option<nat>)
    ensures r.Some? ==> r.value < |slots| && slots[r.value].route.path == path
    ensures r.None? ==> forall i :: 0 <= i < |slots| ==> slots[i].route.path != path
  {
    if slots == [] then None
    else if slots[0].route.path == path then Some(0)
    else
      var r := PathIndex(slots[1..], path);
      if r.Some? then Some(r.value + 1) else None
  }

  function NewRoute(spec: Spec): Route {
    Route(DockerRoute(spec.host, spec.path), "Docker " + (if |spec.path| > 73 then spec.path[..73] else spec.path),
          spec.path, spec.options, [], Some(Docker(true, "", [], None)), None)
  }

  function NewSlot(spec: Spec): Slot {
    Slot(NewRoute(spec), [], false)
  }

  function NewBench(domain: string): Bench {
    Bench(Host(DockerHost(domain), domain, true, None, []), [])
  }

  /** Creates the host and the route an entry names, when they are missing. */
  function Extend(bs: seq<Bench>, e: Entry): seq<Bench> {
    if e.spec.group != "" then bs
    else
      var cs := if HostIndex(bs, e.spec.host).Some? then bs else bs + [NewBench(e.spec.host)];
      var h := HostIndex(cs, e.spec.host);
      if h.None? || PathIndex(cs[h.value].slots, e.spec.path).Some? then cs
      else cs[h.value := cs[h.value].(slots := cs[h.value].slots + [NewSlot(e.spec)])]
  }

  function Shape(bs: seq<Bench>, es: seq<Entry>): seq<Bench> {
    if es == [] then bs else Extend(Shape(bs, es[..|es| - 1]), es[|es| - 1])
  }

  // ---- The specification: every slot folded on its own ----

  ghost predicate AllFold(bs: seq<Bench>, es: seq<Entry>) {
    forall i, j :: 0 <= i < |bs| && 0 <= j < |bs[i].slots| ==> Fold(bs[i].slots[j], Lower(bs[i].host.domain), es).Ok?
  }

  ghost function FoldBench(b: Bench, es: seq<Entry>): Bench
    requires forall j :: 0 <= j < |b.slots| ==> Fold(b.slots[j], Lower(b.host.domain), es).Ok?
  {
    Bench(b.host, seq(|b.slots|, j requires 0 <= j < |b.slots| => Fold(b.slots[j], Lower(b.host.domain), es).value))
  }

  ghost function FoldAll(bs: seq<Bench>, es: seq<Entry>): seq<Bench>
    requires AllFold(bs, es)
  {
    seq(|bs|, i requires 0 <= i < |bs| => FoldBench(bs[i], es))
  }

  // ---- Writing the routes back ----

  function SortSources(sources: seq<Source>): seq<Source> {
    if sources == [] then [] else InsertSource(Source(sources[0].name, Sort(sources[0].members)), SortSources(sources[1..]))
  }

  function InsertSource(s: Source, sources: seq<Source>): seq<Source> {
    if sources == [] then [s]
    else if Compare(s.name, sources[0].name) <= 0 then [s] + sources
    else [sources[0]] + InsertSource(s, sources[1..])
  }

  predicate Foreign(owned: seq<Source>) {
    exists i :: 0 <= i < |owned| && owned[i].name != LOCAL
  }

  function Finish(s: Slot): Route {
    if s.route.docker.None? then s.route
    else
      var d := s.route.docker.value;
      s.route.(docker := Some(Docker(d.managed, d.group, Sort(d.targets),
                                     if d.sources.Some? || Foreign(s.owned) then Some(SortSources(s.owned)) else None)))
  }

  function FinishBench(b: Bench): Host {
    b.host.(routes := seq(|b.slots|, j requires 0 <= j < |b.slots| => Finish(b.slots[j])))
  }

  function FinishAll(bs: seq<Bench>): seq<Host> {
    seq(|bs|, i requires 0 <= i < |bs| => FinishBench(bs[i]))
  }

  function PrepareBench(h: Host, frozen: set<string>): Bench {
    Bench(h, seq(|h.routes|, j requires 0 <= j < |h.routes| => Prepare(h.routes[j], frozen)))
  }

  function PrepareAll(hosts: seq<Host>, frozen: set<string>): seq<Bench> {
    seq(|hosts|, i requires 0 <= i < |hosts| => PrepareBench(hosts[i], frozen))
  }

  /** The benches whose slots absorb the entries. */
  function Start(c: Configuration, es: seq<Entry>, frozen: set<string>): seq<Bench> {
    Shape(PrepareAll(c.hosts, frozen), es)
  }

  ghost predicate Succeeds(c: Configuration, es: seq<Entry>, frozen: set<string>) {
    && AllFold(Start(c, es, frozen), es)
    && Valid(Rebuilt(c, es, frozen))
  }

  /** The rebuilt configuration, before it is validated. */
  ghost function Rebuilt(c: Configuration, es: seq<Entry>, frozen: set<string>): Configuration
    requires AllFold(Start(c, es, frozen), es)
  {
    c.(hosts := FinishAll(FoldAll(Start(c, es, frozen), es)))
  }
}
