/** A label scan end to end: what an applied scan leaves behind. */
module Scan {
  import opened Text
  import opened Config
  import Labels
  import opened Placeholders
  import opened Freshness
  import opened PortTable
  import opened Reservations
  import opened Storage
  import opened Transactions
  import opened Leases
  import opened Routing
  import Reconciler

  type Entry = Labels.Entry

  /** A scan that a reconciliation or its validation stops, one with nothing to do, and one that applies. */
  datatype Outcome = Rejected | Idle | Ended(verdict: Verdict)

  // ---- The entries of a scan ----

  /** Ports that agents report are ports. */
  predicate Sane(agents: seq<Reporter>) {
    forall i, f :: 0 <= i < |agents| && f in agents[i].report.routes ==> 1 <= f.port <= 65535
  }

  /** Local discovery yields addresses, never placeholders. */
  predicate Local(local: Option<seq<Entry>>) {
    local.Some? ==> forall e :: e in local.value ==> e.target.address.Plain?
  }

  predicate LocalUnused(local: Option<seq<Entry>>, ports: set<int>) {
    local.Some? ==> Unused(local.value, ports)
  }

  function ScanEntries(local: Option<seq<Entry>>, agents: seq<Reporter>, ports: Ports, now: real): seq<Entry> {
    Scanned(local, Entries(agents, ports, now)).0
  }

  function Frozen(local: Option<seq<Entry>>): set<string> {
    Scanned(local, []).1
  }

  /** An entry of an agent stands on its loopback port, or on a placeholder whose key has none. */
  lemma AgentEntry(agents: seq<Reporter>, ports: Ports, now: real, e: Entry)
    requires Sane(agents) && e in Entries(agents, ports, now)
    ensures if e.target.address.Pending?
            then e.target.address.key !in ports && e.target.port == e.target.address.key.port && 1 <= e.target.port <= 65535
            else e.target.address == Plain(LOOPBACK) && e.target.port in ports.Values
  {
    var i, j := EntryOrigin(agents, ports, now, e);
  }

  lemma EntriesFit(local: Option<seq<Entry>>, agents: seq<Reporter>, ports: Ports, now: real, used: set<int>)
    requires Sane(agents) && Local(local) && LocalUnused(local, used) && used !! ports.Values
    ensures var es := ScanEntries(local, agents, ports, now);
            WellPlaced(es) && Unused(es, used) && forall e :: e in es && e.target.address.Pending? ==> e.target.address.key !in ports
  {
    var es := ScanEntries(local, agents, ports, now);
    forall e | e in es
      ensures e.target.address.Pending? ==> e.target.port == e.target.address.key.port && 1 <= e.target.port <= 65535 && e.target.address.key !in ports
      ensures e.target.address == Plain(LOOPBACK) ==> e.target.port !in used
    {
      if e in Entries(agents, ports, now) {
        AgentEntry(agents, ports, now, e);
      }
    }
  }

  /** Substituting newly reserved ports into the entries gives the entries on the grown table. */
  lemma EntriesGrow(local: Option<seq<Entry>>, agents: seq<Reporter>, ports: Ports, reserved: Ports, now: real)
    requires Sane(agents) && Local(local) && reserved.Keys !! ports.Keys
    ensures ResolveEntries(ScanEntries(local, agents, ports, now), reserved) == ScanEntries(local, agents, ports + reserved, now)
  {
    var es, grown := ScanEntries(local, agents, ports, now), ports + reserved;
    EntriesFit(local, agents, ports, now, {});
    RoutingAfterReservation(agents, ports, grown, now);
    var remote := Entries(agents, ports, now);
    if local.Some? {
      JoinResolve(local.value, remote, grown);
      assert ResolveEntries(local.value, grown) == local.value;
    }
    assert ResolveEntries(es, grown) == ScanEntries(local, agents, grown, now);
    forall i | 0 <= i < |es| ensures Resolve(es[i].target, reserved) == Resolve(es[i].target, grown) {
      assert es[i] in es;
    }
  }

  /** The reserved ports are fresh: nothing that the scan reads mentions one of them. */
  predicate Offered(c: Configuration, local: Option<seq<Entry>>, ports: Ports, reserved: Ports) {
    && OneToOne(reserved) && (forall k :: k in reserved ==> 1 <= reserved[k] <= 65535)
    && reserved.Keys !! ports.Keys && reserved.Values !! ports.Values
    && PortsOf(c) !! reserved.Values && LocalUnused(local, reserved.Values)
  }

  /** What `reconcile` accepts: a valid configuration without placeholders, and parsed entries. */
  predicate Readable(c: Configuration, local: Option<seq<Entry>>, agents: seq<Reporter>, ports: Ports, now: real) {
    && Config.Valid(c) && PendingKeys(c) == {} && Sane(agents) && Local(local)
    && Labels.Parsed(ScanEntries(local, agents, ports, now))
  }

  /** Placeholders of what a scan rebuilt are keys that `materialize` knows at the same time, and they have no port yet. */
  lemma ScanPending(c: Configuration, local: Option<seq<Entry>>, agents: seq<Reporter>, ports: Ports, now: real, k: Key)
    requires Readable(c, local, agents, ports, now)
    requires var es := ScanEntries(local, agents, ports, now);
             Labels.AllFold(Labels.Start(c, es, Frozen(local)), es) && k in PendingKeys(Labels.Rebuilt(c, es, Frozen(local)))
    ensures k in Known(agents, now) && k !in ports
  {
    hide Config.Valid, PendingKeys;
    var es := ScanEntries(local, agents, ports, now);
    EntriesFit(local, agents, ports, now, {});
    RebuiltPending(c, es, Frozen(local), k);
    var e :| e in es && e.target.address == Pending(k);
    assert e in Entries(agents, ports, now);
    PlaceholdersKnown(agents, ports, now, e);
  }

  /** Reconciling on placeholders and substituting the ports reserved afterwards gives, up to the order inside target and
      source lists, what reconciling the entries on the grown table gives. */
  lemma ScanCommutes(c: Configuration, local: Option<seq<Entry>>, agents: seq<Reporter>, ports: Ports, reserved: Ports, now: real)
    requires Readable(c, local, agents, ports, now) && Offered(c, local, ports, reserved)
    requires Labels.Succeeds(c, ScanEntries(local, agents, ports, now), Frozen(local))
    ensures var fs := ScanEntries(local, agents, ports + reserved, now);
            && Labels.Succeeds(c, fs, Frozen(local))
            && Alike(ResolveConfig(Labels.Rebuilt(c, ScanEntries(local, agents, ports, now), Frozen(local)), ports + reserved),
                     Labels.Rebuilt(c, fs, Frozen(local)))
  {
    hide Config.Valid, PendingKeys, PortsOf, Alike, ScanEntries;
    var es := ScanEntries(local, agents, ports, now);
    EntriesFit(local, agents, ports, now, reserved.Values);
    UnusedFresh(c, es, Frozen(local), reserved);
    MaterializeCommutes(c, es, Frozen(local), reserved);
    EntriesGrow(local, agents, ports, reserved, now);
    var candidate := Labels.Rebuilt(c, es, Frozen(local));
    forall k | k in PendingKeys(candidate) ensures k !in ports {
      ScanPending(c, local, agents, ports, now, k);
    }
    ConfigAgrees(candidate, reserved, ports + reserved);
  }

  lemma AlikeSelf(c: Configuration)
    ensures Alike(c, c)
  {
  }

  /** What a scan's environment offers: ports that nothing it reads mentions. */
  predicate Fits(active: Configuration, draft: Configuration, local: Option<seq<Entry>>, ports: Ports, binds: Ports) {
    && OneToOne(binds) && binds.Values !! ports.Values && (forall k :: k in binds ==> 1 <= binds[k] <= 65535)
    && PortsOf(active) !! binds.Values && PortsOf(draft) !! binds.Values && LocalUnused(local, binds.Values)
  }

  lemma ChosenOffered(c: Configuration, local: Option<seq<Entry>>, ports: Ports, binds: Ports, keys: set<Key>)
    requires OneToOne(binds) && binds.Values !! ports.Values && (forall k :: k in binds ==> 1 <= binds[k] <= 65535)
    requires PortsOf(c) !! binds.Values && LocalUnused(local, binds.Values)
    ensures Offered(c, local, ports, Chosen(binds, keys - ports.Keys))
  {
    hide PortsOf;
    var reserved := Chosen(binds, keys - ports.Keys);
    forall p | p in reserved.Values ensures p in binds.Values {
      var k :| k in reserved && reserved[k] == p;
      assert binds[k] == p;
    }
  }

  lemma KeysKnown(active: Configuration, draft: Configuration, local: Option<seq<Entry>>, agents: seq<Reporter>, ports: Ports, now: real)
    requires Readable(active, local, agents, ports, now) && Readable(draft, local, agents, ports, now)
    requires var es := ScanEntries(local, agents, ports, now); Labels.Succeeds(active, es, Frozen(local)) && Labels.Succeeds(draft, es, Frozen(local))
    ensures var es := ScanEntries(local, agents, ports, now);
            PendingKeys(Labels.Rebuilt(active, es, Frozen(local))) + PendingKeys(Labels.Rebuilt(draft, es, Frozen(local))) <= Known(agents, now)
  {
    hide Config.Valid, PendingKeys, Known, ScanEntries;
    var es := ScanEntries(local, agents, ports, now);
    forall k | k in PendingKeys(Labels.Rebuilt(active, es, Frozen(local))) ensures k in Known(agents, now) {
      ScanPending(active, local, agents, ports, now, k);
    }
    forall k | k in PendingKeys(Labels.Rebuilt(draft, es, Frozen(local))) ensures k in Known(agents, now) {
      ScanPending(draft, local, agents, ports, now, k);
    }
  }

  /** `scan` with `apply`: reconcile the active configuration and the draft separately, each against the same entries, and
      apply the result. The keys that `materialize` knows are those of the routes live at `later`. After an applied scan,
      and when there was nothing to apply, both are, up to the order inside target and source lists, what reconciling
      gives on the entries that `routing` would return now. */
  method Scan(hub: TunnelHub, store: Store, local: Option<seq<Entry>>, agents: seq<Reporter>, now: real, later: real, gen: Name, w: Weather)
    returns (outcome: Outcome)
    requires hub.Valid() && store.Valid() && gen !in store.revisions && NoRepeats(w.store.listing)
    requires Readable(store.ActiveConfig(), local, agents, hub.ports, now) && Readable(store.draft, local, agents, hub.ports, now)
    requires Fits(store.ActiveConfig(), store.draft, local, hub.ports, w.binds)
    modifies hub, store
    ensures hub.Valid() && store.Valid()
    ensures outcome == Rejected <==>
              var es := ScanEntries(local, agents, old(hub.ports), now);
              !(Labels.Succeeds(old(store.ActiveConfig()), es, Frozen(local)) && Labels.Succeeds(old(store.draft), es, Frozen(local)))
    ensures outcome == Rejected || outcome == Idle || outcome == Ended(Refused) ==>
              hub.ports == old(hub.ports) && store.draft == old(store.draft) && store.active == old(store.active) && store.revisions == old(store.revisions)
    ensures outcome == Ended(Refused) && later == now ==>
              var es := ScanEntries(local, agents, old(hub.ports), now);
              var keys := PendingKeys(Labels.Rebuilt(old(store.ActiveConfig()), es, Frozen(local))) + PendingKeys(Labels.Rebuilt(old(store.draft), es, Frozen(local)));
              !Bindable(old(hub.ports), keys, w.binds, hub.quota) || w.table.write.Raises()
    ensures outcome == Idle || outcome == Ended(Applied) ==>
              var fs := ScanEntries(local, agents, hub.ports, now);
              && Labels.Succeeds(old(store.ActiveConfig()), fs, Frozen(local)) && Labels.Succeeds(old(store.draft), fs, Frozen(local))
              && Alike(store.ActiveConfig(), Labels.Rebuilt(old(store.ActiveConfig()), fs, Frozen(local)))
              && Alike(store.draft, Labels.Rebuilt(old(store.draft), fs, Frozen(local)))
  {
    hide Config.Valid, PendingKeys, PortsOf, Alike, Labels.Succeeds, Labels.Rebuilt, ResolveConfig, Bindable, OneToOne, Settled, Chosen, Known;
    var remote := Collect(agents, hub.ports, now);
    var (entries, frozen) := Scanned(local, remote);
    var candidate := Reconciler.Reconcile(store.ActiveConfig(), entries, frozen);
    if candidate.Err? {
      return Rejected;
    }
    var nextDraft := Reconciler.Reconcile(store.draft, entries, frozen);
    if nextDraft.Err? {
      return Rejected;
    }
    if store.ActiveConfig() == candidate.value && store.draft == nextDraft.value {
      AlikeSelf(store.ActiveConfig());
      AlikeSelf(store.draft);
      return Idle;
    }
    ghost var ports, active, draft := hub.ports, store.ActiveConfig(), store.draft;
    var verdict;
    ghost var reserved;
    verdict, reserved := ApplyLabels(hub, store, candidate.value, nextDraft.value, Known(agents, later), gen, w);
    outcome := Ended(verdict);
    SettledApplied(old(hub.View()), reserved, w.table, verdict, hub.View(), store.References());
    if later == now {
      KeysKnown(active, draft, local, agents, ports, now);
    }
    if verdict == Applied {
      ChosenOffered(active, local, ports, w.binds, PendingKeys(candidate.value) + PendingKeys(nextDraft.value));
      ChosenOffered(draft, local, ports, w.binds, PendingKeys(candidate.value) + PendingKeys(nextDraft.value));
      ScanCommutes(active, local, agents, ports, reserved, now);
      ScanCommutes(draft, local, agents, ports, reserved, now);
    }
  }
}
