/** Reservations nested in label applies and manual selections: what survives a failure at any point. */
module Transactions {
  import opened Text
  import opened Config
  import opened Labels
  import opened Placeholders
  import opened PortTable
  import opened Reservations
  import opened Storage

  datatype Verdict = Applied | Refused | Failed

  /** What the writes of the port table and the reading of the references answer. */
  datatype TableIo = TableIo(write: Io, readable: bool, abortWrite: Io)

  /** The environment of a label apply: the ports the kernel offers, and what every write and read answers. */
  datatype Weather = Weather(binds: map<Key, int>, table: TableIo, refreshed: bool, draftWrite: Io, store: Answers, draftRestore: Io)

  /** Each placeholder stands on the port of its key. */
  lemma ResolvedPorts(c: Configuration, ports: map<Key, int>, k: Key)
    requires k in PendingKeys(c) && k in ports
    ensures ports[k] in PortsOf(ResolveConfig(c, ports))
  {
    var i, j :| 0 <= i < |c.hosts| && 0 <= j < |c.hosts[i].routes| && k in PendingOf(c.hosts[i].routes[j]);
    ResolvedRoutePort(c.hosts[i].routes[j], ports, k);
    assert ResolveConfig(c, ports).hosts[i].routes[j] == ResolveRoute(c.hosts[i].routes[j], ports);
    hide ResolveRoute, RoutePorts, PendingOf;
  }

  lemma ResolvedRoutePort(r: Route, ports: map<Key, int>, k: Key)
    requires k in PendingOf(r) && k in ports
    ensures ports[k] in RoutePorts(ResolveRoute(r, ports))
  {
    var q := ResolveRoute(r, ports);
    if k in PendingIn(RouteTargets(r)) {
      var t :| t in RouteTargets(r) && t.address.Pending? && t.address.key == k;
      assert RouteTargets(q) == ResolveAll(RouteTargets(r), ports);
      ResolveMembers(RouteTargets(r), ports, Resolve(t, ports));
      assert Resolve(t, ports) in RouteTargets(q);
    } else {
      var sources := r.docker.value.sources.value;
      var x, t :| 0 <= x < |sources| && t in sources[x].members && t.address.Pending? && t.address.key == k;
      ResolveMembers(sources[x].members, ports, Resolve(t, ports));
      assert Resolve(t, ports) in q.docker.value.sources.value[x].members;
    }
  }

  // ---- A label apply ----

  /** The reservation goes through: every key is live, the quota admits the batch, the kernel has ports for the new
      keys, and the table is written if there are any. */
  predicate Grants(ports: Ports, quota: nat, keys: set<Key>, known: set<Key>, w: Weather) {
    && keys <= known && Bindable(ports, keys, w.binds, quota)
    && (keys - ports.Keys != {} ==> !w.table.write.Raises())
  }

  /** The draft is written, and the candidate is active already or its application goes through. */
  predicate Installs(active: Configuration, revisions: map<Name, Revision>, ready: Configuration, gen: Name, w: Weather) {
    w.draftWrite == Done && (active == ready || GoesThrough(revisions, ready, gen, w.store))
  }

  /** The active link ends on the candidate. */
  predicate Advances(active: Configuration, ready: Configuration, w: Weather) {
    w.draftWrite == Done && active != ready && Moves(ready, w.store)
  }

  /** The draft afterwards: a failed application restores it, if it can. */
  function DraftAfter(draft: Configuration, next: Configuration, installed: bool, w: Weather): Configuration {
    match w.draftWrite
    case Lost => draft
    case Late => next
    case Done => if installed || !w.draftRestore.Replaces() then next else draft
  }

  /** The body of the reservation: save the draft, apply the candidate, restore the draft if that fails. */
  method Install(store: Store, ready: Configuration, next: Configuration, gen: Name, w: Weather) returns (ok: bool)
    requires store.Valid() && gen !in store.revisions && NoRepeats(w.store.listing)
    modifies store
    ensures store.Valid()
    ensures ok <==> Installs(old(store.ActiveConfig()), old(store.revisions), ready, gen, w)
    ensures ok ==> store.ActiveConfig() == ready && store.draft == next
    ensures store.active == if Advances(old(store.ActiveConfig()), ready, w) then gen else old(store.active)
    ensures store.active == gen ==> store.ActiveConfig() == ready
    ensures store.draft == DraftAfter(old(store.draft), next, ok, w)
    ensures store.draft == old(store.draft) || store.draft == next
    ensures ok ==> store.draft == next
    ensures ok <==> w.draftWrite == Done && (old(store.ActiveConfig()) == ready || GoesThrough(old(store.revisions), ready, gen, w.store))
    ensures store.active == if w.draftWrite == Done && old(store.ActiveConfig()) != ready && Moves(ready, w.store) then gen else old(store.active)
    ensures !ok ==> (store.draft == old(store.draft) <==>
                     w.draftWrite == Lost || (w.draftWrite == Done && (w.draftRestore == Done || w.draftRestore == Late)) || old(store.draft) == next)
    ensures w.draftWrite != Done ==> store.revisions == old(store.revisions)
  {
    hide Doomed, History, Config.Valid, Moves, GoesThrough, Extended;
    var draft := store.draft;
    if w.draftWrite.Replaces() {
      store.draft := next;
    }
    if w.draftWrite.Raises() {
      return false;
    }
    if store.ActiveConfig() == ready {
      return true;
    }
    var outcome := store.ApplyConfig(ready, gen, w.store);
    if outcome == Returned {
      return true;
    }
    if w.draftRestore.Replaces() {
      store.draft := draft;
    }
    return false;
  }

  /** What a rollback keeps: what is still referred to, if that can be read. */
  function Consulted(references: set<int>, io: TableIo): Option<set<int>> {
    if io.readable then Some(references) else None
  }

  /** Earlier mappings stay as they are, and only reserved ones join them. */
  ghost predicate Earlier(before: Ports, after: Ports, reserved: Ports) {
    && (forall k :: k in before ==> k in after && after[k] == before[k])
    && (forall k :: k in after ==> k in before || (k in reserved && after[k] == reserved[k]))
  }

  /** How an attempt with the ports `grown` ends: its verdict, the active link and its configuration, and the draft. */
  ghost predicate Attempted(grown: Ports, candidate: Configuration, nextDraft: Configuration, gen: Name, w: Weather,
                            activeConfig: Configuration, revisions: map<Name, Revision>, active: Name, draft: Configuration,
                            verdict: Verdict, newActive: Name, newConfig: Configuration, newDraft: Configuration)
  {
    var ready, next := ResolveConfig(candidate, grown), ResolveConfig(nextDraft, grown);
    && (verdict == Applied <==> w.refreshed && Installs(activeConfig, revisions, ready, gen, w))
    && newActive == (if w.refreshed && Advances(activeConfig, ready, w) then gen else active)
    && (newActive == gen || verdict == Applied ==> newConfig == ready)
    && newDraft == (if w.refreshed then DraftAfter(draft, next, verdict == Applied, w) else draft)
  }

  /** How the port table ends. Earlier mappings survive unchanged; every reserved one that the store refers to survives;
      the others are dropped, if the references could be read and the table written. From a saved table every
      referenced mapping in use is in the file as well; all of them are, unless the rollback dropped some and its write
      replaced the file but failed. */
  ghost predicate Settled(before: Table, reserved: Ports, io: TableIo, verdict: Verdict, after: Table, references: set<int>) {
    && Earlier(before.ports, after.ports, reserved)
    && (verdict == Refused ==> after.ports == before.ports)
    && (verdict == Applied ==> after == Recorded(before, reserved, io.write) && after.ports == before.ports + reserved)
    && (verdict == Failed ==> after == Aborted(Recorded(before, reserved, io.write), reserved, Consulted(references, io), io.abortWrite))
    && (forall k :: k in reserved && reserved[k] in references ==> k in after.ports && after.ports[k] == reserved[k])
    && (verdict == Failed && io.readable && io.abortWrite == Done ==>
          forall k :: k in after.ports && k !in before.ports ==> after.ports[k] in references)
    && (Saved(before) ==>
          && Anchored(after, references)
          && (Saved(after) <==> verdict != Failed || io.abortWrite != Late || Orphans(reserved, Consulted(references, io)) == {}))
  }

  lemma UntouchedTable(t: Table, io: TableIo, references: set<int>)
    ensures Settled(t, map[], io, Refused, t, references)
  {
  }

  lemma RefusedTable(t: Table, made: Ports, io: TableIo, references: set<int>)
    ensures made.Keys !! t.ports.Keys && (made == map[] || io.write.Raises()) ==>
              Settled(t, map[], io, Refused, Recorded(t, made, io.write), references)
  {
  }

  lemma NotEntered(before: Table, after: Table, made: Ports, io: TableIo, references: set<int>)
    requires made.Keys !! before.ports.Keys
    requires after == before || (io.write.Raises() && after == Recorded(before, made, io.write))
    ensures Settled(before, map[], io, Refused, after, references)
  {
    UntouchedTable(before, io, references);
    RefusedTable(before, made, io, references);
    hide Settled, Recorded;
  }

  lemma AppliedTable(t: Table, made: Ports, io: TableIo, references: set<int>)
    requires made.Keys !! t.ports.Keys && (made == map[] || !io.write.Raises())
    ensures Settled(t, made, io, Applied, Recorded(t, made, io.write), references)
  {
    assert made == map[] ==> t.ports + made == t.ports;
  }

  /** A reservation that was recorded and then rolled back against the references. */
  lemma RolledBackTable(t: Table, made: Ports, io: TableIo, references: set<int>)
    requires made.Keys !! t.ports.Keys && (made == map[] || !io.write.Raises())
    ensures var during := Recorded(t, made, io.write);
            during.ports == t.ports + made
            && Settled(t, made, io, Failed, Aborted(during, made, Consulted(references, io), io.abortWrite), references)
  {
    var during, keep := Recorded(t, made, io.write), Consulted(references, io);
    var after := Aborted(during, made, keep, io.abortWrite);
    assert during.ports == t.ports + made;
    forall k
      ensures k in after.ports ==> k in during.ports && after.ports[k] == during.ports[k]
      ensures k in during.ports && k !in made ==> k in after.ports
      ensures k in made ==> (k in after.ports <==> keep.None? || made[k] in keep.value || io.abortWrite.Raises())
    {
      AbortedPorts(during, made, keep, io.abortWrite, k);
    }
    if Saved(t) {
      assert Saved(during);
      StepSaved(during, Abort(made, keep, io.abortWrite));
    }
  }

  /** The rollback, said of each mapping. */
  lemma SettledExactly(before: Table, reserved: Ports, io: TableIo, after: Table, references: set<int>, k: Key)
    requires Settled(before, reserved, io, Failed, after, references) && reserved.Keys !! before.ports.Keys
    requires reserved == map[] || !io.write.Raises()
    ensures k in after.ports <==>
            k in before.ports || (k in reserved && (!io.readable || reserved[k] in references || io.abortWrite != Done))
    ensures k in before.ports ==> k in after.ports && after.ports[k] == before.ports[k]
    ensures k in reserved && k in after.ports ==> after.ports[k] == reserved[k]
  {
    var during := Recorded(before, reserved, io.write);
    assert during.ports == before.ports + reserved;
    AbortedPorts(during, reserved, Consulted(references, io), io.abortWrite, k);
  }

  /** The apply path of a label scan, exactly: when it is refused, applied or fails; where the active link and the draft
      end; and what becomes of the port table in memory and in its file. `known` are the keys of the live inventory. */
  method ApplyLabels(hub: TunnelHub, store: Store, candidate: Configuration, nextDraft: Configuration,
                     known: set<Key>, gen: Name, w: Weather)
    returns (verdict: Verdict, ghost reserved: map<Key, int>)
    requires hub.Valid() && store.Valid() && gen !in store.revisions && NoRepeats(w.store.listing)
    requires OneToOne(w.binds) && w.binds.Values !! hub.ports.Values
    modifies hub, store
    ensures hub.Valid() && store.Valid()
    ensures verdict == Refused <==> !Grants(old(hub.ports), hub.quota, PendingKeys(candidate) + PendingKeys(nextDraft), known, w)
    ensures verdict != Refused <==>
              var keys := PendingKeys(candidate) + PendingKeys(nextDraft);
              && keys <= known && WithinQuota(old(hub.ports.Keys), keys, hub.quota)
              && forall k :: k in keys && k !in old(hub.ports) ==> k in w.binds && w.table.write == Done
    ensures verdict == Applied <==>
              && verdict != Refused && w.refreshed && w.draftWrite == Done
              && var ready := ResolveConfig(candidate, old(hub.ports) + reserved);
                 old(store.ActiveConfig()) == ready || GoesThrough(old(store.revisions), ready, gen, w.store)
    ensures verdict != Refused ==>
              var ready := ResolveConfig(candidate, old(hub.ports) + reserved);
              store.active == if w.refreshed && w.draftWrite == Done && old(store.ActiveConfig()) != ready && Moves(ready, w.store) then gen
                              else old(store.active)
    ensures verdict != Refused ==> reserved == Chosen(w.binds, PendingKeys(candidate) + PendingKeys(nextDraft) - old(hub.ports.Keys))
    ensures verdict == Refused ==>
              && reserved == map[] && hub.ports == old(hub.ports)
              && store.draft == old(store.draft) && store.active == old(store.active) && store.revisions == old(store.revisions)
    ensures verdict != Refused ==>
              && Attempted(old(hub.ports) + reserved, candidate, nextDraft, gen, w, old(store.ActiveConfig()), old(store.revisions),
                           old(store.active), old(store.draft), verdict, store.active, store.ActiveConfig(), store.draft)
    ensures verdict == Applied ==>
              w.refreshed && store.draft == ResolveConfig(nextDraft, hub.ports) && store.ActiveConfig() == ResolveConfig(candidate, hub.ports)
    ensures verdict == Failed && !w.refreshed ==> store.draft == old(store.draft)
    ensures verdict == Failed && w.refreshed ==>
              var next := ResolveConfig(nextDraft, old(hub.ports) + reserved);
              && (store.draft == old(store.draft) || store.draft == next)
              && (store.draft == old(store.draft) <==>
                  w.draftWrite == Lost || (w.draftWrite == Done && (w.draftRestore == Done || w.draftRestore == Late)) || old(store.draft) == next)
    ensures !w.refreshed || w.draftWrite != Done ==> store.revisions == old(store.revisions)
    ensures Settled(old(hub.View()), reserved, w.table, verdict, hub.View(), store.References())
    ensures verdict == Applied ==> hub.ports == old(hub.ports) + reserved && reserved.Keys == PendingKeys(candidate) + PendingKeys(nextDraft) - old(hub.ports.Keys)
    ensures verdict == Failed ==>
              && (forall k :: k in hub.ports <==>
                    k in old(hub.ports) || (k in reserved && (!w.table.readable || reserved[k] in store.References() || w.table.abortWrite != Done)))
              && forall k :: k in hub.ports ==> hub.ports[k] == if k in old(hub.ports) then old(hub.ports)[k] else reserved[k]
    ensures verdict == Applied ==>
              PendingKeys(candidate) + PendingKeys(nextDraft) <= hub.ports.Keys
              && PendingKeys(store.ActiveConfig()) == {} && PendingKeys(store.draft) == {}
  {
    hide OneToOne, Bindable, PortsOf, RevisionPorts, PendingKeys, Of, Chosen, Recorded, Attempted, Settled, ResolveConfig, GoesThrough, Moves, WithinQuota;
    reserved := map[];
    var keys := PendingKeys(candidate) + PendingKeys(nextDraft);
    if !(keys <= known) {
      UntouchedTable(old(hub.View()), w.table, store.References());
      return Refused, reserved;
    }
    ReservedWithin(hub.ports, keys, w.binds, hub.quota, w.table.write);
    var added := hub.Begin(keys, w.binds, w.table.write);
    if added.None? {
      RefusedTable(old(hub.View()), Chosen(w.binds, keys - old(hub.ports.Keys)), w.table, store.References());
      UntouchedTable(old(hub.View()), w.table, store.References());
      return Refused, reserved;
    }
    reserved := added.value;
    verdict := Proceed(hub, store, candidate, nextDraft, added.value, gen, w, old(hub.View()));
  }

  /** The part of a label apply behind the reservation, which grew the table `before` by `added`. */
  method Proceed(hub: TunnelHub, store: Store, candidate: Configuration, nextDraft: Configuration, added: Ports, gen: Name, w: Weather,
                 ghost before: Table)
    returns (verdict: Verdict)
    requires hub.Valid() && store.Valid() && gen !in store.revisions && NoRepeats(w.store.listing)
    requires hub.View() == Recorded(before, added, w.table.write) && hub.ports == before.ports + added
    requires added.Keys !! before.ports.Keys && (added == map[] || !w.table.write.Raises())
    requires PendingKeys(candidate) + PendingKeys(nextDraft) <= hub.ports.Keys
    modifies hub, store
    ensures hub.Valid() && store.Valid() && verdict != Refused
    ensures Attempted(before.ports + added, candidate, nextDraft, gen, w, old(store.ActiveConfig()), old(store.revisions), old(store.active),
                      old(store.draft), verdict, store.active, store.ActiveConfig(), store.draft)
    ensures var ready := ResolveConfig(candidate, before.ports + added);
            && (verdict == Applied <==>
                  && w.refreshed && w.draftWrite == Done
                  && (old(store.ActiveConfig()) == ready || GoesThrough(old(store.revisions), ready, gen, w.store)))
            && store.active == if w.refreshed && w.draftWrite == Done && old(store.ActiveConfig()) != ready && Moves(ready, w.store) then gen
                               else old(store.active)
    ensures verdict == Applied ==>
              w.refreshed && store.draft == ResolveConfig(nextDraft, hub.ports) && store.ActiveConfig() == ResolveConfig(candidate, hub.ports)
    ensures verdict == Failed && !w.refreshed ==> store.draft == old(store.draft)
    ensures verdict == Failed && w.refreshed ==>
              var next := ResolveConfig(nextDraft, before.ports + added);
              && (store.draft == old(store.draft) || store.draft == next)
              && (store.draft == old(store.draft) <==>
                  w.draftWrite == Lost || (w.draftWrite == Done && (w.draftRestore == Done || w.draftRestore == Late)) || old(store.draft) == next)
    ensures !w.refreshed || w.draftWrite != Done ==> store.revisions == old(store.revisions)
    ensures Settled(before, added, w.table, verdict, hub.View(), store.References())
    ensures verdict == Failed ==>
              && (forall k :: k in hub.ports <==>
                    k in before.ports || (k in added && (!w.table.readable || added[k] in store.References() || w.table.abortWrite != Done)))
              && forall k :: k in hub.ports ==> hub.ports[k] == if k in before.ports then before.ports[k] else added[k]
    ensures verdict == Applied ==> hub.View() == old(hub.View()) && PendingKeys(store.ActiveConfig()) == {} && PendingKeys(store.draft) == {}
  {
    hide PortsOf, RevisionPorts, ResolveConfig, PendingKeys, Recorded, Aborted, Installs, Advances, Settled, GoesThrough, Moves;
    var ready, next := ResolveConfig(candidate, hub.ports), ResolveConfig(nextDraft, hub.ports);
    var ok := w.refreshed;
    if ok {
      ok := Install(store, ready, next, gen, w);
    }
    if ok {
      NoPlaceholderSurvives(candidate, hub.ports);
      NoPlaceholderSurvives(nextDraft, hub.ports);
      AppliedTable(before, added, w.table, store.References());
      return Applied;
    }
    Undo(hub, store, added, w, before);
    return Failed;
  }

  /** The rollback of a reservation that started from the table `before`. */
  method Undo(hub: TunnelHub, store: Store, added: Ports, w: Weather, ghost before: Table)
    requires hub.Valid() && hub.View() == Recorded(before, added, w.table.write)
    requires added.Keys !! before.ports.Keys && (added == map[] || !w.table.write.Raises())
    modifies hub
    ensures hub.Valid() && hub.View() == Aborted(old(hub.View()), added, Consulted(store.References(), w.table), w.table.abortWrite)
    ensures Settled(before, added, w.table, Failed, hub.View(), store.References())
    ensures forall k :: k in hub.ports <==>
              k in before.ports || (k in added && (!w.table.readable || added[k] in store.References() || w.table.abortWrite != Done))
    ensures forall k :: k in hub.ports ==> hub.ports[k] == if k in before.ports then before.ports[k] else added[k]
  {
    hide PortsOf, RevisionPorts, OneToOne, Recorded, Aborted, Settled;
    var keep := store.ReferencedAgentPorts(w.table.readable);
    RolledBackTable(before, added, w.table, store.References());
    hub.Abort(added, keep, w.table.abortWrite);
    forall k { SettledExactly(before, added, w.table, hub.View(), store.References(), k); }
  }

  /** The manual selections: the list in memory and the file behind it. */
  class Selections {
    var manual: seq<Key>
    var file: seq<Key>

    constructor (manual: seq<Key>)
      ensures this.manual == manual && file == manual
    {
      this.manual, this.file := manual, manual;
    }

    /** Reserves ports for selected containers and records the new ones. After a failure only mappings
        absent from the file are dropped. */
    method Select(hub: TunnelHub, selected: seq<Key>, binds: map<Key, int>, write: Io, refreshed: bool, io: TableIo)
      returns (verdict: Verdict, ports: map<Key, int>)
      requires hub.Valid()
      requires OneToOne(binds) && binds.Values !! hub.ports.Values
      modifies this, hub
      ensures hub.Valid()
      ensures verdict == Refused <==> |old(manual)| + |New(selected, old(manual))| > 1024
                                      || !Bindable(old(hub.ports), KeySet(selected), binds, hub.quota)
                                      || (KeySet(selected) - old(hub.ports.Keys) != {} && io.write.Raises())
      ensures verdict != Refused <==>
                && |old(manual)| + |New(selected, old(manual))| <= 1024
                && WithinQuota(old(hub.ports.Keys), (set k | k in selected), hub.quota)
                && forall k :: k in selected && k !in old(hub.ports) ==> k in binds && io.write == Done
      ensures verdict == Refused ==> hub.ports == old(hub.ports) && manual == old(manual) && file == old(file)
      ensures verdict == Applied <==> verdict != Refused && (New(selected, old(manual)) == [] || write == Done) && refreshed
      ensures verdict == Applied ==> ports.Keys == KeySet(selected) && forall k :: k in selected ==> k in hub.ports && k in ports && ports[k] == hub.ports[k]
      ensures verdict == Applied ==> forall k :: k in selected ==> k in manual
      ensures verdict != Refused ==>
                && file == (if New(selected, old(manual)) != [] && write.Replaces() then old(manual) + New(selected, old(manual)) else old(file))
                && manual == (if New(selected, old(manual)) == [] || write == Done then old(manual) + New(selected, old(manual)) else old(manual))
      ensures verdict != Refused ==> forall k :: k in selected && k in file ==> k in hub.ports
      ensures verdict == Failed && io.readable && io.abortWrite == Done ==>
                forall k :: k in hub.ports && k !in old(hub.ports) ==> k in file
      ensures Settled(old(hub.View()), Chosen(binds, if verdict == Refused then {} else KeySet(selected) - old(hub.ports.Keys)), io, verdict, hub.View(),
                      SelectedPorts(file, old(hub.ports) + Chosen(binds, KeySet(selected) - old(hub.ports.Keys))))
    {
      hide New, KeySet, Answered, Settled, Chosen, SelectedPorts, Bindable, Recorded, OneToOne, WithinQuota;
      ports := map[];
      ghost var references := SelectedPorts(file, old(hub.ports) + Chosen(binds, KeySet(selected) - hub.ports.Keys));
      assert Chosen(binds, {}) == map[];
      var added := Enter(hub, selected, binds, io.write);
      if added.None? {
        NotEntered(old(hub.View()), hub.View(), Chosen(binds, KeySet(selected) - old(hub.ports.Keys)), io, references);
        return Refused, ports;
      }
      ports := Answered(KeySet(selected), hub.ports);
      SelectedRecorded(selected, manual);
      var ok := Complete(hub, added.value, New(selected, manual), write, refreshed, io, old(hub.View()));
      return if ok then Applied else Failed, ports;
    }

    /** The limit on selections, then the reservation; a refusal changes nothing. */
    method Enter(hub: TunnelHub, selected: seq<Key>, binds: map<Key, int>, portsWrite: Io) returns (added: Option<map<Key, int>>)
      requires hub.Valid()
      requires OneToOne(binds) && binds.Values !! hub.ports.Values
      modifies hub
      ensures hub.Valid()
      ensures added.Some? <==> |manual| + |New(selected, manual)| <= 1024 && Bindable(old(hub.ports), KeySet(selected), binds, hub.quota)
                               && (KeySet(selected) - old(hub.ports.Keys) != {} ==> !portsWrite.Raises())
      ensures added.Some? <==>
                && |manual| + |New(selected, manual)| <= 1024
                && WithinQuota(old(hub.ports.Keys), (set k | k in selected), hub.quota)
                && forall k :: k in selected && k !in old(hub.ports) ==> k in binds && portsWrite == Done
      ensures added.None? ==> hub.ports == old(hub.ports)
      ensures added.None? ==> hub.View() == old(hub.View())
                              || (portsWrite.Raises() && hub.View() == Recorded(old(hub.View()), Chosen(binds, KeySet(selected) - old(hub.ports.Keys)), portsWrite))
      ensures added.Some? ==> added.value == Chosen(binds, KeySet(selected) - old(hub.ports.Keys)) && added.value.Keys !! old(hub.ports.Keys)
      ensures added.Some? ==> hub.View() == Recorded(old(hub.View()), added.value, portsWrite) && hub.ports == old(hub.ports) + added.value
      ensures added.Some? ==> (added.value == map[] || !portsWrite.Raises()) && KeySet(selected) <= hub.ports.Keys
    {
      hide OneToOne, Bindable, Of, New, Chosen, Recorded, KeySet, WithinQuota;
      assert KeySet(selected) == set k | k in selected;
      if |manual| + |New(selected, manual)| > 1024 {
        return None;
      }
      ReservedWithin(hub.ports, KeySet(selected), binds, hub.quota, portsWrite);
      added := hub.Begin(KeySet(selected), binds, portsWrite);
    }

    /** The body of the reservation, and its rollback against the file when the body fails. */
    method Complete(hub: TunnelHub, added: map<Key, int>, additions: seq<Key>, write: Io, refreshed: bool, io: TableIo, ghost before: Table)
      returns (ok: bool)
      requires hub.Valid() && hub.View() == Recorded(before, added, io.write) && hub.ports == before.ports + added
      requires added.Keys !! before.ports.Keys && (added == map[] || !io.write.Raises())
      modifies this, hub
      ensures hub.Valid()
      ensures ok <==> (additions == [] || write == Done) && refreshed
      ensures ok ==> hub.View() == old(hub.View())
      ensures manual == if additions == [] || write == Done then old(manual) + additions else old(manual)
      ensures file == if additions != [] && write.Replaces() then old(manual) + additions else old(file)
      ensures Settled(before, added, io, if ok then Applied else Failed, hub.View(), SelectedPorts(file, before.ports + added))
      ensures forall k :: k in old(hub.ports) && k in file ==> k in hub.ports
      ensures !ok && io.readable && io.abortWrite == Done ==> forall k :: k in hub.ports && k !in before.ports ==> k in file
    {
      hide Recorded, Aborted, Settled, OneToOne, SelectedPorts;
      ok := Remember(additions, write);
      ghost var references := SelectedPorts(file, hub.ports);
      if ok && refreshed {
        AppliedTable(before, added, io, references);
        return true;
      }
      var keep := Retained(hub, io.readable);
      RolledBackTable(before, added, io, references);
      forall k | k in hub.ports ensures hub.ports[k] in references <==> k in file {
        KeptSelections(hub.ports, file, k);
      }
      hub.Abort(added, keep, io.abortWrite);
      SettledKeeps(before, added, io, hub.View(), references);
      return false;
    }

    /** Appends the new selections to the file and then to the list. */
    method Remember(additions: seq<Key>, write: Io) returns (ok: bool)
      modifies this
      ensures ok <==> additions == [] || write == Done
      ensures manual == if additions == [] || write == Done then old(manual) + additions else old(manual)
      ensures file == if additions != [] && write.Replaces() then old(manual) + additions else old(file)
    {
      if additions == [] {
        return true;
      }
      if write.Replaces() {
        file := manual + additions;
      }
      if write.Raises() {
        return false;
      }
      manual := manual + additions;
      return true;
    }

    /** The ports of the selections recorded in the file. */
    method Retained(hub: TunnelHub, readable: bool) returns (keep: Option<set<int>>)
      ensures keep.Some? == readable
      ensures readable ==> keep.value == SelectedPorts(file, hub.ports)
    {
      return if readable then Some(SelectedPorts(file, hub.ports)) else None;
    }
  }

  /** The ports of the keys in a list. */
  function SelectedPorts(keys: seq<Key>, ports: Ports): set<int> {
    set k | k in keys && k in ports :: ports[k]
  }

  /** With one port per key, a mapping's port is among those of a list exactly when its key is in the list: a rollback
      against the file drops only mappings absent from it. */
  lemma KeptSelections(ports: Ports, file: seq<Key>, k: Key)
    requires OneToOne(ports) && k in ports
    ensures ports[k] in SelectedPorts(file, ports) <==> k in file
  {
  }

  lemma SettledApplied(before: Table, added: Ports, io: TableIo, verdict: Verdict, after: Table, references: set<int>)
    requires Settled(before, added, io, verdict, after, references)
    ensures verdict == Applied ==> after.ports == before.ports + added
    ensures verdict == Refused ==> after.ports == before.ports
  {
  }

  lemma SettledKeeps(before: Table, added: Ports, io: TableIo, after: Table, references: set<int>)
    requires Settled(before, added, io, Failed, after, references)
    ensures forall k :: k in before.ports + added && (before.ports + added)[k] in references ==> k in after.ports
    ensures io.readable && io.abortWrite == Done ==>
              forall k :: k in after.ports && k !in before.ports ==> k in before.ports + added && (before.ports + added)[k] in references
  {
  }

  function KeySet(keys: seq<Key>): (r: set<Key>)
    ensures forall k :: k in r <==> k in keys
  {
    set k | k in keys
  }

  /** Every selected key is among the recorded ones, old or new. */
  lemma SelectedRecorded(selected: seq<Key>, manual: seq<Key>)
    ensures forall k :: k in selected ==> k in manual + New(selected, manual)
  {
    hide New;
    NewMembers(selected, manual);
  }

  /** The port of every key that has one. */
  function Answered(keys: set<Key>, table: map<Key, int>): (r: map<Key, int>)
    ensures forall k :: k in r <==> k in keys && k in table
    ensures forall k :: k in r ==> r[k] == table[k]
  {
    map k | k in keys && k in table :: table[k]
  }

  function New(selected: seq<Key>, manual: seq<Key>): seq<Key> {
    if selected == [] then []
    else (if selected[0] in manual then [] else [selected[0]]) + New(selected[1..], manual)
  }

  lemma NewOne(k: Key, manual: seq<Key>)
    ensures New([k], manual) == if k in manual then [] else [k]
  {
    assert [k][1..] == [];
  }

  /** The new selections are those not yet in the list, in order and as often as they are asked for. */
  lemma {:induction false} NewJoin(a: seq<Key>, b: seq<Key>, manual: seq<Key>)
    ensures New(a + b, manual) == New(a, manual) + New(b, manual)
  {
    if a == [] {
      assert a + b == b;
    } else {
      assert (a + b)[0] == a[0] && (a + b)[1..] == a[1..] + b;
      NewJoin(a[1..], b, manual);
    }
  }

  lemma {:induction false} NewMembers(selected: seq<Key>, manual: seq<Key>)
    ensures forall k :: k in New(selected, manual) <==> k in selected && k !in manual
  {
    if selected != [] {
      NewMembers(selected[1..], manual);
      assert selected == [selected[0]] + selected[1..];
    }
  }
}
