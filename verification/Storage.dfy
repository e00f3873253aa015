/** The store's revisions: prepare, activate, confirm, roll back and clean up. */
module Storage {
  import opened Text
  import opened Config
  import opened PortTable

  type Name = nat

  datatype Meta = Meta(created: int, applied: bool)

  /** A revision directory; a failed preparation leaves it without some of its files. */
  datatype Revision = Revision(config: Option<Configuration>, conf: bool, meta: Option<Meta>)

  datatype Outcome = Returned | ApplyError | OtherError

  /** Removing a directory tree succeeds, or leaves part of it behind. */
  datatype Removal = Whole | Broken(left: Revision)

  /** What the file system, `nginx -t`, the process and the confirmation probe answer, in order of use. */
  datatype Answers = Answers(mkdir: bool, configWrite: Io, confWrite: Io, metaWrite: Io, synced: bool,
                             passes: bool, alive: bool, activate: Io, signalled: bool, confirmed: bool,
                             restore: Io, stillAlive: bool, signalledBack: bool, removal: Removal,
                             metaReadable: bool, mark: Io, readable: bool, listing: seq<Name>, removals: seq<Removal>,
                             described: bool, now: int)

  const KEEP := 20

  function LoopbackPorts(ts: seq<Target>): set<int> {
    set t | t in ts && t.address == Plain(LOOPBACK) :: t.port
  }

  function RoutePorts(r: Route): set<int> {
    LoopbackPorts(RouteTargets(r))
    + (if r.docker.Some? && r.docker.value.sources.Some?
       then set i, t | 0 <= i < |r.docker.value.sources.value| && t in r.docker.value.sources.value[i].members && t.address == Plain(LOOPBACK) :: t.port
       else {})
  }

  /** Every loopback port a configuration mentions anywhere. */
  function PortsOf(c: Configuration): set<int> {
    set i, j, p | 0 <= i < |c.hosts| && 0 <= j < |c.hosts[i].routes| && p in RoutePorts(c.hosts[i].routes[j]) :: p
  }

  function RevisionPorts(revisions: map<Name, Revision>): set<int> {
    set g, p | g in revisions && revisions[g].config.Some? && p in PortsOf(revisions[g].config.value) :: p
  }

  /** A port is referenced when some manual, discovered or recorded target has it on the loopback address. */
  lemma PortsExactly(c: Configuration, p: int)
    ensures p in PortsOf(c) <==>
            exists i, j, t :: && 0 <= i < |c.hosts| && 0 <= j < |c.hosts[i].routes| && t in Mentioned(c.hosts[i].routes[j])
                              && t.address == Plain("127.0.0.1") && t.port == p
  {
    forall i, j | 0 <= i < |c.hosts| && 0 <= j < |c.hosts[i].routes|
      ensures p in RoutePorts(c.hosts[i].routes[j]) <==> exists t :: t in Mentioned(c.hosts[i].routes[j]) && t.address == Plain("127.0.0.1") && t.port == p
    {
      MentionedPorts(c.hosts[i].routes[j], p);
    }
    hide RoutePorts, Mentioned;
  }

  /** The targets of a route: manual, discovered and recorded ones. */
  function Mentioned(r: Route): (ts: set<Target>)
    ensures forall t :: t in ts <==>
                        || t in r.targets
                        || (r.docker.Some? && t in r.docker.value.targets)
                        || (r.docker.Some? && r.docker.value.sources.Some? && exists s :: s in r.docker.value.sources.value && t in s.members)
  {
    (set t | t in RouteTargets(r))
    + if r.docker.Some? && r.docker.value.sources.Some? then set s, t | s in r.docker.value.sources.value && t in s.members :: t else {}
  }

  lemma MentionedPorts(r: Route, p: int)
    ensures p in RoutePorts(r) <==> exists t :: t in Mentioned(r) && t.address == Plain("127.0.0.1") && t.port == p
  {
    if t :| t in Mentioned(r) && t.address == Plain("127.0.0.1") && t.port == p {
      if t !in RouteTargets(r) {
        var s :| s in r.docker.value.sources.value && t in s.members;
        var i :| 0 <= i < |r.docker.value.sources.value| && r.docker.value.sources.value[i] == s;
        assert t in r.docker.value.sources.value[i].members;
      }
    }
    if p in RoutePorts(r) && p !in LoopbackPorts(RouteTargets(r)) {
      var i, t :| 0 <= i < |r.docker.value.sources.value| && t in r.docker.value.sources.value[i].members && t.address == Plain(LOOPBACK) && t.port == p;
      assert r.docker.value.sources.value[i] in r.docker.value.sources.value && t in Mentioned(r);
    }
  }

  // ---- History: newest first, ties in listing order ----

  predicate Listed(revisions: map<Name, Revision>, active: Name, g: Name) {
    g in revisions && revisions[g].meta.Some? && (revisions[g].meta.value.applied || g == active)
  }

  function Created(revisions: map<Name, Revision>, g: Name): int {
    if g in revisions && revisions[g].meta.Some? then revisions[g].meta.value.created else 0
  }

  function Place(revisions: map<Name, Revision>, g: Name, s: seq<Name>): seq<Name> {
    if s == [] then [g]
    else if Created(revisions, g) >= Created(revisions, s[0]) then [g] + s
    else [s[0]] + Place(revisions, g, s[1..])
  }

  function History(revisions: map<Name, Revision>, active: Name, listing: seq<Name>): seq<Name> {
    if listing == [] then []
    else
      var rest := History(revisions, active, listing[1..]);
      if Listed(revisions, active, listing[0]) then Place(revisions, listing[0], rest) else rest
  }

  predicate NewestFirst(revisions: map<Name, Revision>, s: seq<Name>) {
    forall i, j :: 0 <= i < j < |s| ==> Created(revisions, s[i]) >= Created(revisions, s[j])
  }

  predicate NoRepeats(s: seq<Name>) {
    forall i, j :: 0 <= i < j < |s| ==> s[i] != s[j]
  }

  lemma {:induction false} PlaceMembers(revisions: map<Name, Revision>, g: Name, s: seq<Name>)
    ensures forall x :: x in Place(revisions, g, s) <==> x == g || x in s
  {
    hide Created;
    if s != [] {
      PlaceMembers(revisions, g, s[1..]);
      assert s == [s[0]] + s[1..];
    }
  }

  lemma {:induction false} PlaceOrdered(revisions: map<Name, Revision>, g: Name, s: seq<Name>)
    requires NewestFirst(revisions, s)
    ensures NewestFirst(revisions, Place(revisions, g, s))
  {
    hide Created;
    if s != [] && Created(revisions, g) >= Created(revisions, s[0]) {
      forall k | 0 <= k < |s| ensures Created(revisions, g) >= Created(revisions, s[k]) {
        assert k > 0 ==> Created(revisions, s[0]) >= Created(revisions, s[k]);
      }
    } else if s != [] {
      PlaceOrdered(revisions, g, s[1..]);
      PlaceMembers(revisions, g, s[1..]);
      var rest := Place(revisions, g, s[1..]);
      forall k | 0 <= k < |rest| ensures Created(revisions, s[0]) >= Created(revisions, rest[k]) {
        assert rest[k] in rest;
        if rest[k] != g {
          var n :| 1 <= n < |s| && s[n] == rest[k];
        }
      }
    }
  }

  lemma {:induction false} PlaceOnce(revisions: map<Name, Revision>, g: Name, s: seq<Name>)
    requires NoRepeats(s) && g !in s
    ensures NoRepeats(Place(revisions, g, s))
  {
    hide Created;
    if s != [] && Created(revisions, g) < Created(revisions, s[0]) {
      PlaceOnce(revisions, g, s[1..]);
      PlaceMembers(revisions, g, s[1..]);
      assert s[0] !in s[1..];
      assert s[0] !in Place(revisions, g, s[1..]);
    }
  }

  /** The history lists exactly the applied revisions and the active one, newest first. */
  lemma {:induction false} HistoryOrder(revisions: map<Name, Revision>, active: Name, listing: seq<Name>)
    ensures forall g :: g in History(revisions, active, listing) <==> g in listing && Listed(revisions, active, g)
    ensures NewestFirst(revisions, History(revisions, active, listing))
    ensures NoRepeats(listing) ==> NoRepeats(History(revisions, active, listing))
  {
    if listing != [] {
      HistoryOrder(revisions, active, listing[1..]);
      assert listing == [listing[0]] + listing[1..];
      var rest := History(revisions, active, listing[1..]);
      PlaceMembers(revisions, listing[0], rest);
      PlaceOrdered(revisions, listing[0], rest);
      if NoRepeats(listing) {
        assert listing[0] !in listing[1..];
        PlaceOnce(revisions, listing[0], rest);
      }
    }
  }

  /** Placing a revision puts it in front of the first that is no newer. */
  lemma {:induction false} PlaceShape(revisions: map<Name, Revision>, g: Name, s: seq<Name>) returns (p: nat)
    ensures p <= |s| && Place(revisions, g, s) == s[..p] + [g] + s[p..]
    ensures forall k :: 0 <= k < p ==> Created(revisions, g) < Created(revisions, s[k])
  {
    hide Created;
    if s == [] || Created(revisions, g) >= Created(revisions, s[0]) {
      p := 0;
    } else {
      var q := PlaceShape(revisions, g, s[1..]);
      p := q + 1;
      assert s[1..][..q] == s[1..p] && s[1..][q..] == s[p..];
      assert forall k :: 0 < k < p ==> s[k] == s[1..][k - 1];
    }
  }

  /** The history, written out: the revisions of the listing that were applied, or are active, the newest first, and those
      of one age in the order of the listing. */
  lemma {:induction false} HistoryExactly(revisions: map<Name, Revision>, active: Name, listing: seq<Name>)
    ensures var h := History(revisions, active, listing);
            && (forall g :: g in h <==> g in listing && g in revisions && revisions[g].meta.Some? && (revisions[g].meta.value.applied || g == active))
            && (forall i :: 0 <= i < |h| ==> h[i] in revisions && revisions[h[i]].meta.Some?)
            && forall i, j :: 0 <= i < j < |h| ==>
                 var a, b := revisions[h[i]].meta.value.created, revisions[h[j]].meta.value.created;
                 a > b || (a == b && exists x, y :: 0 <= x < y < |listing| && listing[x] == h[i] && listing[y] == h[j])
  {
    var h := History(revisions, active, listing);
    HistoryOrder(revisions, active, listing);
    forall i | 0 <= i < |h| ensures h[i] in revisions && revisions[h[i]].meta.Some? {
      assert h[i] in h;
    }
    forall i, j | 0 <= i < j < |h|
      ensures Created(revisions, h[i]) > Created(revisions, h[j])
              || (Created(revisions, h[i]) == Created(revisions, h[j]) && exists x, y :: 0 <= x < y < |listing| && listing[x] == h[i] && listing[y] == h[j])
    {
      if Created(revisions, h[i]) == Created(revisions, h[j]) {
        HistoryStable(revisions, active, listing, i, j);
      }
    }
  }

  lemma {:induction false} HistoryStable(revisions: map<Name, Revision>, active: Name, listing: seq<Name>, i: nat, j: nat)
    requires i < j < |History(revisions, active, listing)|
    requires var h := History(revisions, active, listing); Created(revisions, h[i]) == Created(revisions, h[j])
    ensures var h := History(revisions, active, listing); exists x, y :: 0 <= x < y < |listing| && listing[x] == h[i] && listing[y] == h[j]
    decreases |listing|
  {
    hide Created, Place;
    var h, rest := History(revisions, active, listing), History(revisions, active, listing[1..]);
    var k, l := i, j;
    if Listed(revisions, active, listing[0]) {
      var p := PlaceShape(revisions, listing[0], rest);
      k, l := if i < p then i else i - 1, if j < p then j else j - 1;
      if i == p {
        HistoryOrder(revisions, active, listing[1..]);
        assert rest[l] in rest;
        var y :| 0 <= y < |listing[1..]| && listing[1..][y] == rest[l];
        assert listing[0] == h[i] && listing[y + 1] == h[j];
        return;
      }
    }
    HistoryStable(revisions, active, listing[1..], k, l);
    var x, y :| 0 <= x < y < |listing[1..]| && listing[1..][x] == rest[k] && listing[1..][y] == rest[l];
    assert listing[x + 1] == h[i] && listing[y + 1] == h[j];
  }

  /** What cleanup removes: history entries after the newest twenty, except the active one. */
  predicate Doomed(history: seq<Name>, active: Name, g: Name) {
    g != active && |history| > KEEP && g in history[KEEP..]
  }

  /** Of the history, cleanup leaves exactly the twenty newest entries and the active one. */
  lemma CleanupKeepsNewest(revisions: map<Name, Revision>, active: Name, listing: seq<Name>, g: Name)
    requires NoRepeats(listing) && g in listing && Listed(revisions, active, g)
    ensures var history := History(revisions, active, listing);
            && (!Doomed(history, active, g) <==> g == active || |history| <= KEEP || g in history[..KEEP])
            && (Doomed(history, active, g) ==> |history| > KEEP && forall h :: h in history[..KEEP] ==> Created(revisions, h) >= Created(revisions, g))
  {
    var history := History(revisions, active, listing);
    HistoryOrder(revisions, active, listing);
    if |history| > KEEP {
      assert history == history[..KEEP] + history[KEEP..];
      if g in history[KEEP..] {
        var j :| 0 <= j < |history[KEEP..]| && history[KEEP..][j] == g;
        assert history[KEEP + j] == g;
      }
    }
  }

  // ---- When an application goes through ----

  /** The candidate validates and every file of it is written. */
  predicate Prepared(config: Configuration, a: Answers) {
    && Config.Valid(config) && a.mkdir
    && !a.configWrite.Raises() && !a.confWrite.Raises() && !a.metaWrite.Raises() && a.synced
  }

  /** The check passes and the process is alive. */
  predicate Runnable(a: Answers) {
    a.passes && a.alive
  }

  /** The link is swung, and the reload is confirmed. */
  predicate Confirmed(a: Answers) {
    a.activate == Done && a.signalled && a.confirmed
  }

  /** The active link ends on the candidate: it was swung, and either the reload was confirmed or the link could not be
      swung back. */
  predicate Moves(config: Configuration, a: Answers) {
    Prepared(config, a) && Runnable(a) && a.activate.Replaces() && (Confirmed(a) || a.restore == Lost)
  }

  /** The old revisions are deleted without a failure. */
  predicate Cleans(history: seq<Name>, active: Name, a: Answers) {
    a.readable && forall n :: KEEP <= n < |history| && history[n] != active && n - KEEP < |a.removals| ==> a.removals[n - KEEP].Whole?
  }

  /** Every step succeeds, those after the activation included. */
  predicate GoesThrough(revisions: map<Name, Revision>, config: Configuration, gen: Name, a: Answers) {
    && Prepared(config, a) && Runnable(a) && Confirmed(a)
    && a.metaReadable && a.mark == Done
    && Cleans(History(Extended(revisions, config, gen, a), gen, a.listing), gen, a) && a.described
  }

  /** The revisions with the applied candidate among them. */
  function Extended(revisions: map<Name, Revision>, config: Configuration, gen: Name, a: Answers): map<Name, Revision> {
    revisions[gen := Revision(Some(config), true, Some(Meta(a.now, true)))]
  }

  class Store {
    var draft: Configuration
    var active: Name
    var revisions: map<Name, Revision>
    var failed: bool

    /** The active link names a revision that holds a configuration. */
    predicate Valid()
      reads this
    {
      active in revisions && revisions[active].config.Some? && revisions[active].meta.Some?
    }

    function References(): set<int>
      reads this
    {
      PortsOf(draft) + RevisionPorts(revisions)
    }

    function ActiveConfig(): Configuration
      requires Valid()
      reads this
    {
      revisions[active].config.value
    }

    constructor (config: Configuration, created: int)
      ensures Valid() && draft == config && active == 0 && revisions == map[0 := Revision(Some(config), true, Some(Meta(created, true)))]
    {
      draft, active, failed := config, 0, false;
      revisions := map[0 := Revision(Some(config), true, Some(Meta(created, true)))];
    }

    /** `referenced_agent_ports` reads the draft and every revision, partial ones included; an unreadable file raises. */
    method ReferencedAgentPorts(readable: bool) returns (ports: Option<set<int>>)
      ensures ports == if readable then Some(References()) else None
      ensures readable ==> forall p :: p in ports.value <==>
                p in PortsOf(draft) || exists g :: g in revisions && revisions[g].config.Some? && p in PortsOf(revisions[g].config.value)
    {
      if !readable {
        return None;
      }
      var found, todo := PortsOf(draft), revisions.Keys;
      while todo != {}
        invariant todo <= revisions.Keys
        invariant found == PortsOf(draft) + RevisionPorts(revisions - todo)
      {
        var g :| g in todo;
        RevisionPortsStep(revisions, todo, g);
        if revisions[g].config.Some? {
          found := found + PortsOf(revisions[g].config.value);
        }
        todo := todo - {g};
      }
      assert revisions - {} == revisions;
      return Some(found);
    }

    method Prepare(config: Configuration, gen: Name, a: Answers) returns (ok: bool)
      requires gen !in revisions
      modifies `revisions
      ensures ok <==> Prepared(config, a)
      ensures ok ==> revisions == old(revisions)[gen := Revision(Some(config), true, Some(Meta(a.now, false)))]
      ensures !ok ==> revisions == old(revisions) || (gen in revisions && revisions == old(revisions)[gen := revisions[gen]])
      ensures gen in revisions && revisions[gen].config.Some? ==> revisions[gen].config.value == config
    {
      if !Config.Valid(config) || !a.mkdir {
        return false;
      }
      revisions := revisions[gen := Revision(None, false, None)];
      if a.configWrite.Replaces() {
        revisions := revisions[gen := revisions[gen].(config := Some(config))];
      }
      if a.configWrite.Raises() {
        return false;
      }
      if a.confWrite.Replaces() {
        revisions := revisions[gen := revisions[gen].(conf := true)];
      }
      if a.confWrite.Raises() {
        return false;
      }
      if a.metaWrite.Replaces() {
        revisions := revisions[gen := revisions[gen].(meta := Some(Meta(a.now, false)))];
      }
      return !a.metaWrite.Raises() && a.synced;
    }

    /** Swings the active link; only a failure after the swing leaves it moved. */
    method Activate(gen: Name, io: Io) returns (ok: bool)
      modifies `active
      ensures ok <==> io == Done
      ensures active == if io.Replaces() then gen else old(active)
    {
      if io.Replaces() {
        active := gen;
      }
      return !io.Raises();
    }

    method Remove(gen: Name, removal: Removal) returns (ok: bool)
      modifies `revisions
      ensures ok <==> removal.Whole?
      ensures revisions == if ok then old(revisions) - {gen} else old(revisions)[gen := removal.left]
    {
      if removal.Broken? {
        revisions := revisions[gen := removal.left];
        return false;
      }
      revisions := revisions - {gen};
      return true;
    }

    /** Check, activate, reload and confirm. */
    method Commit(gen: Name, a: Answers) returns (ok: bool)
      modifies `active
      ensures ok <==> Runnable(a) && Confirmed(a)
      ensures active == if Runnable(a) && a.activate.Replaces() then gen else old(active)
    {
      if !a.passes || !a.alive {
        return false;
      }
      ok := Activate(gen, a.activate);
      if ok {
        ok := a.signalled && a.confirmed;
      }
    }

    /** After a failure: swing the active link back if it moved, then remove the candidate. */
    method RollBack(previous: Name, gen: Name, a: Answers) returns (r: Outcome)
      requires previous != gen
      modifies `active, `revisions, `failed
      ensures r != Returned
      ensures r == ApplyError <==> (old(active) == gen ==> a.restore == Done && (a.stillAlive ==> a.signalledBack)) && a.removal.Whole?
      ensures r == ApplyError ==> failed && revisions == old(revisions) - {gen}
      ensures active == if old(active) == gen && a.restore.Replaces() then previous else old(active)
      ensures revisions == old(revisions) || revisions == old(revisions) - {gen}
              || (a.removal.Broken? && revisions == old(revisions)[gen := a.removal.left])
      ensures active == gen ==> revisions == old(revisions)
    {
      if active == gen {
        var ok := Activate(previous, a.restore);
        if !ok || (a.stillAlive && !a.signalledBack) {
          return OtherError;
        }
      }
      failed := true;
      var ok := Remove(gen, a.removal);
      return if ok then ApplyError else OtherError;
    }

    /** Deletes the doomed revisions one by one, stopping at the first removal that fails. */
    method Cleanup(a: Answers) returns (ok: bool)
      requires Valid()
      requires NoRepeats(a.listing)
      modifies `revisions
      ensures Valid()
      ensures var history := History(old(revisions), active, a.listing);
              && (forall g :: g in old(revisions) && !Doomed(history, active, g) ==> g in revisions && revisions[g] == old(revisions)[g])
              && (forall g :: g in revisions ==> g in old(revisions) || Doomed(history, active, g))
              && (ok ==> forall g :: g in revisions <==> g in old(revisions) && !Doomed(history, active, g))
              && (ok <==> Cleans(history, active, a))
    {
      if !a.readable {
        return false;
      }
      var history := History(revisions, active, a.listing);
      HistoryOrder(revisions, active, a.listing);
      if |history| <= KEEP {
        return true;
      }
      ok := RemoveFrom(history, a);
    }

    /** The deletions themselves. Whatever was deleted or damaged lies behind the newest twenty. */
    method RemoveFrom(history: seq<Name>, a: Answers) returns (ok: bool)
      requires Valid() && |history| > KEEP && a.readable
      modifies `revisions
      ensures Valid()
      ensures forall g :: g in old(revisions) && !Doomed(history, active, g) ==> g in revisions && revisions[g] == old(revisions)[g]
      ensures forall g :: g in revisions ==> g in old(revisions) || Doomed(history, active, g)
      ensures ok ==> forall g :: g in revisions <==> g in old(revisions) && !Doomed(history, active, g)
      ensures ok <==> Cleans(history, active, a)
    {
      for n := KEEP to |history|
        invariant active in revisions && revisions[active] == old(revisions)[active]
        invariant forall g :: g in revisions <==> g in old(revisions) && !(g != active && g in history[KEEP..n])
        invariant forall g :: g in revisions ==> revisions[g] == old(revisions)[g]
        invariant forall m :: KEEP <= m < n && history[m] != active && m - KEEP < |a.removals| ==> a.removals[m - KEEP].Whole?
      {
        assert history[KEEP..n + 1] == history[KEEP..n] + [history[n]];
        if history[n] != active {
          var removal := if n - KEEP < |a.removals| then a.removals[n - KEEP] else Whole;
          assert history[n] in history[KEEP..];
          ok := Remove(history[n], removal);
          if !ok {
            assert forall g :: g in history[KEEP..n] ==> g in history[KEEP..];
            return false;
          }
        }
      }
      assert history[KEEP..|history|] == history[KEEP..];
      return true;
    }

    /** Records that a revision was applied. */
    method MarkApplied(gen: Name, a: Answers) returns (ok: bool)
      requires gen in revisions && revisions[gen].meta.Some?
      modifies `revisions
      ensures ok <==> a.metaReadable && (old(revisions)[gen].meta.value.applied || a.mark == Done)
      ensures exists applied :: revisions == old(revisions)[gen := old(revisions)[gen].(meta := Some(old(revisions)[gen].meta.value.(applied := applied)))]
      ensures gen in revisions && (ok ==> revisions[gen].meta == Some(old(revisions)[gen].meta.value.(applied := true)))
    {
      ghost var was := revisions[gen];
      assert revisions == revisions[gen := was.(meta := Some(was.meta.value.(applied := was.meta.value.applied)))];
      if !a.metaReadable {
        return false;
      }
      if revisions[gen].meta.value.applied {
        return true;
      }
      if a.mark.Replaces() {
        revisions := revisions[gen := revisions[gen].(meta := Some(revisions[gen].meta.value.(applied := true)))];
      }
      return !a.mark.Raises();
    }

    /** Activates a candidate. A normal return means that the active revision holds exactly the validated
        candidate and was confirmed running; an ApplyError means that nothing changed. Whatever happens
        the draft is untouched and the active link names a complete revision; it stays on the candidate
        exactly when the reload was confirmed, or the active link could not be swung back. */
    method ApplyConfig(config: Configuration, gen: Name, a: Answers) returns (r: Outcome)
      requires Valid() && gen !in revisions && NoRepeats(a.listing)
      modifies `active, `revisions, `failed
      ensures Valid()
      ensures r == Returned <==> GoesThrough(old(revisions), config, gen, a)
      ensures var history := History(old(revisions)[gen := Revision(Some(config), true, Some(Meta(a.now, true)))], gen, a.listing);
              && (r == Returned <==>
                    && Config.Valid(config) && a.mkdir && a.configWrite == Done && a.confWrite == Done && a.metaWrite == Done && a.synced
                    && a.passes && a.alive && a.activate == Done && a.signalled && a.confirmed
                    && a.metaReadable && a.mark == Done && a.readable && a.described
                    && forall n :: 20 <= n < |history| && history[n] != gen && n - 20 < |a.removals| ==> a.removals[n - 20].Whole?)
              && (r == Returned ==>
                    && gen in revisions && revisions[gen] == Revision(Some(config), true, Some(Meta(a.now, true)))
                    && (forall g :: g in revisions && g != gen ==> g in old(revisions) && revisions[g] == old(revisions)[g])
                    && forall g :: g in old(revisions) ==> (g in revisions <==> !(|history| > 20 && g in history[20..])))
      ensures r == ApplyError <==>
                && Config.Valid(config) && a.mkdir && a.configWrite == Done && a.confWrite == Done && a.metaWrite == Done && a.synced
                && !(a.passes && a.alive && a.activate == Done && a.signalled && a.confirmed)
                && (a.passes && a.alive && a.activate != Lost ==> a.restore == Done && (a.stillAlive ==> a.signalledBack))
                && a.removal.Whole?
      ensures active == gen <==>
                && Config.Valid(config) && a.mkdir && a.configWrite == Done && a.confWrite == Done && a.metaWrite == Done && a.synced
                && a.passes && a.alive && a.activate != Lost
                && ((a.activate == Done && a.signalled && a.confirmed) || a.restore == Lost)
      ensures r == Returned ==> active == gen && Config.Valid(config) && a.confirmed && !failed && revisions[gen].meta.value.applied
      ensures r == ApplyError ==> active == old(active) && revisions == old(revisions) && failed
      ensures active == if Moves(config, a) then gen else old(active)
      ensures active == gen ==> ActiveConfig() == config
      ensures active != gen ==> forall g :: g in old(revisions) ==> g in revisions && revisions[g] == old(revisions)[g]
      ensures r == Returned ==>
                var all := Extended(old(revisions), config, gen, a);
                forall g :: g in revisions <==> g in all && !Doomed(History(all, gen, a.listing), gen, g)
    {
      var previous := active;
      var ok := Prepare(config, gen, a);
      if !ok {
        return OtherError;
      }
      ok := Commit(gen, a);
      if !ok {
        r := RollBack(previous, gen, a);
        if r == ApplyError {
          assert revisions == old(revisions);
        }
        return;
      }
      ok := MarkApplied(gen, a);
      if !ok {
        return OtherError;
      }
      failed := false;
      assert revisions == Extended(old(revisions), config, gen, a);
      ok := Cleanup(a);
      return if ok && a.described then Returned else OtherError;
    }
  }

  lemma RevisionPortsStep(revisions: map<Name, Revision>, todo: set<Name>, g: Name)
    requires g in todo && todo <= revisions.Keys
    ensures RevisionPorts(revisions - (todo - {g})) ==
            RevisionPorts(revisions - todo) + if revisions[g].config.Some? then PortsOf(revisions[g].config.value) else {}
  {
    var before, after := revisions - todo, revisions - (todo - {g});
    forall p ensures p in RevisionPorts(after) <==>
                     p in RevisionPorts(before) || (revisions[g].config.Some? && p in PortsOf(revisions[g].config.value))
    {
      if p in RevisionPorts(before) {
        var h :| h in before && before[h].config.Some? && p in PortsOf(before[h].config.value);
        assert h in after && after[h] == before[h];
      }
      if p in RevisionPorts(after) {
        var h :| h in after && after[h].config.Some? && p in PortsOf(after[h].config.value);
        assert h == g || h in before;
      }
      if revisions[g].config.Some? && p in PortsOf(revisions[g].config.value) {
        assert g in after;
      }
    }
  }
}
