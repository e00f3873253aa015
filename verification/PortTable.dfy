/** The tunnel port table in memory and in its file: what reservations, rollbacks and restarts do to both. */
module PortTable {
  import opened Text
  import opened Config

  /** An atomic file write: done, failed before the file was replaced, or failed after it
      (the directory could not be synchronized). */
  datatype Io = Done | Lost | Late {
    predicate Raises() { this != Done }
    predicate Replaces() { this != Lost }
  }

  datatype Table = Table(ports: Ports, file: Ports)

  /** Every mapping in use would be found again after a restart. */
  predicate Saved(t: Table) {
    forall k :: k in t.ports ==> k in t.file && t.file[k] == t.ports[k]
  }

  /** Every mapping in use whose port is referenced would be found again after a restart. */
  predicate Anchored(t: Table, references: set<int>) {
    forall k :: k in t.ports && t.ports[k] in references ==> k in t.file && t.file[k] == t.ports[k]
  }

  /** The table grown by a reservation; nothing is written when there is nothing new. */
  function Recorded(t: Table, made: Ports, write: Io): Table {
    if made == map[] then t
    else Table(if write.Raises() then t.ports else t.ports + made, if write.Replaces() then t.ports + made else t.file)
  }

  /** The new mappings that nothing refers to; none, when that is unknown. */
  function Orphans(added: Ports, keep: Option<set<int>>): set<Key> {
    if keep.None? then {} else set k | k in added && added[k] !in keep.value
  }

  /** The table after a reservation whose body failed. */
  function Aborted(t: Table, added: Ports, keep: Option<set<int>>, write: Io): Table {
    var dropped := Orphans(added, keep);
    if dropped == {} then t
    else Table(if write.Raises() then t.ports else t.ports - dropped, if write.Replaces() then t.ports - dropped else t.file)
  }

  /** A rollback touches no earlier mapping and renumbers none; of the new ones it keeps those referred to, and drops the
      others unless its write fails. */
  lemma AbortedPorts(t: Table, added: Ports, keep: Option<set<int>>, write: Io, k: Key)
    requires forall k :: k in added ==> k in t.ports && t.ports[k] == added[k]
    ensures var after := Aborted(t, added, keep, write).ports;
            && (k in after ==> k in t.ports && after[k] == t.ports[k])
            && (k in t.ports && k !in added ==> k in after)
            && (k in added ==> (k in after <==> keep.None? || added[k] in keep.value || write.Raises()))
  {
    var dropped := Orphans(added, keep);
    assert k in dropped <==> k in added && keep.Some? && added[k] !in keep.value;
    hide Orphans;
    assert k in Aborted(t, added, keep, write).ports <==> k in t.ports && (k !in dropped || write.Raises());
  }

  /** And the file: it is rewritten, if a mapping is dropped, with those that stay. */
  lemma AbortedFile(t: Table, added: Ports, keep: Option<set<int>>, write: Io)
    ensures var after := Aborted(t, added, keep, write).file;
            if write == Lost || keep.None? || (forall k :: k in added ==> added[k] in keep.value) then after == t.file
            else forall k :: (k in after <==> k in t.ports && (k in added ==> added[k] in keep.value)) && (k in after ==> after[k] == t.ports[k])
  {
    var dropped := Orphans(added, keep);
    assert forall k :: k in dropped <==> k in added && keep.Some? && added[k] !in keep.value;
    hide Orphans;
  }

  /** Startup keeps a saved mapping when a retained configuration names its port or it was selected by hand. */
  function Pruned(saved: Ports, referenced: set<int>, selected: set<Key>): Ports {
    map k | k in saved && (saved[k] in referenced || k in selected) :: saved[k]
  }

  // ---- Runs ----

  datatype Event =
    | Reserve(made: Ports, write: Io)
    | Abort(added: Ports, keep: Option<set<int>>, abortWrite: Io)
    | Restart(referenced: set<int>, selected: set<Key>)

  predicate Enabled(t: Table, e: Event) {
    match e
    case Reserve(made, _) => made.Keys !! t.ports.Keys
    case Abort(added, _, _) => forall k :: k in added ==> k in t.ports && t.ports[k] == added[k]
    case Restart(_, _) => true
  }

  function Next(t: Table, e: Event): Table {
    match e
    case Reserve(made, write) => Recorded(t, made, write)
    case Abort(added, keep, write) => Aborted(t, added, keep, write)
    case Restart(referenced, selected) =>
      var kept := Pruned(t.file, referenced, selected);
      Table(kept, kept)
  }

  /** The event leaves a new file behind. */
  predicate Rewrites(e: Event) {
    match e
    case Reserve(made, write) => made != map[] && write.Replaces()
    case Abort(added, keep, write) => Orphans(added, keep) != {} && write.Replaces()
    case Restart(_, _) => true
  }

  /** The rollback wrote the smaller file, but failed before memory followed. */
  predicate Diverges(e: Event) {
    e.Abort? && Orphans(e.added, e.keep) != {} && e.abortWrite == Late
  }

  function After(t: Table, events: seq<Event>): Table {
    if events == [] then t else Next(After(t, events[..|events| - 1]), events[|events| - 1])
  }

  ghost predicate Run(t: Table, events: seq<Event>) {
    forall i :: 0 <= i < |events| ==> Enabled(After(t, events[..i]), events[i])
  }

  /** Whether the last event of the run that left a new file behind also brought memory along. */
  predicate LastWriteFollowed(events: seq<Event>) {
    if events == [] then true
    else
      var e := events[|events| - 1];
      if Rewrites(e) then !Diverges(e) else LastWriteFollowed(events[..|events| - 1])
  }

  lemma StepSaved(t: Table, e: Event)
    requires Enabled(t, e)
    ensures Rewrites(e) ==> (Saved(Next(t, e)) <==> !Diverges(e))
    ensures !Rewrites(e) ==> Next(t, e) == t
  {
    if Diverges(e) {
      var dropped := Orphans(e.added, e.keep);
      var k :| k in dropped;
      assert k in Next(t, e).ports && k !in Next(t, e).file;
    }
  }

  /** From a saved table, every mapping in use is in the file after a run exactly if the last write of the file was
      not a rollback that replaced it and then failed. */
  lemma {:induction false} RunSavedExactly(t: Table, events: seq<Event>)
    requires Saved(t) && Run(t, events)
    ensures Saved(After(t, events)) <==> LastWriteFollowed(events)
  {
    if events != [] {
      var last := |events| - 1;
      assert forall i :: 0 <= i < last ==> events[..last][..i] == events[..i];
      RunSavedExactly(t, events[..last]);
      StepSaved(After(t, events[..last]), events[last]);
    }
  }

  /** A restart keeps a referenced or selected mapping on its port exactly if the file has it so. */
  lemma RestartKeeps(t: Table, referenced: set<int>, selected: set<Key>, k: Key)
    requires k in t.ports && (t.ports[k] in referenced || k in selected)
    ensures var after := Next(t, Restart(referenced, selected)).ports;
            (k in after && after[k] == t.ports[k]) <==> (k in t.file && t.file[k] == t.ports[k])
  {
  }

  /** So over whole runs no referenced or selected mapping is lost by a restart, unless the last write of the file was
      such a rollback; and then some mapping in use is lost, whatever refers to it. */
  lemma RestartAfterRun(t: Table, events: seq<Event>, referenced: set<int>, selected: set<Key>)
    requires Saved(t) && Run(t, events)
    ensures var now := After(t, events); var after := Next(now, Restart(referenced, selected)).ports;
            && (LastWriteFollowed(events) ==>
                  forall k :: k in now.ports && (now.ports[k] in referenced || k in selected) ==> k in after && after[k] == now.ports[k])
            && (!LastWriteFollowed(events) ==> exists k :: k in now.ports && !(k in after && after[k] == now.ports[k]))
  {
    RunSavedExactly(t, events);
    var now := After(t, events);
    if LastWriteFollowed(events) {
      forall k | k in now.ports && (now.ports[k] in referenced || k in selected)
        ensures var after := Next(now, Restart(referenced, selected)).ports; k in after && after[k] == now.ports[k]
      {
        RestartKeeps(now, referenced, selected, k);
      }
    } else {
      var k :| k in now.ports && !(k in now.file && now.file[k] == now.ports[k]);
      var after := Next(now, Restart(referenced, selected)).ports;
      assert !(k in after && after[k] == now.ports[k]);
    }
  }

  /** What is referenced when a rollback consults the references survives it, in memory and in the file, whatever
      becomes of its write. */
  lemma AbortKeepsReferenced(t: Table, added: Ports, referenced: set<int>, write: Io, k: Key)
    requires Saved(t) && Enabled(t, Abort(added, Some(referenced), write)) && k in t.ports && t.ports[k] in referenced
    ensures var after := Aborted(t, added, Some(referenced), write);
            k in after.ports && after.ports[k] == t.ports[k] && k in after.file && after.file[k] == t.ports[k]
  {
  }
}
