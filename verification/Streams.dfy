/** The tunnel stream protocol as steps: every locked block and every `finish` is one step. */
module Streams {
  import opened Sets
  import opened Text

  type Agent = string
  type Stream = nat
  type Socket = nat
  type Hash = nat

  const SLOTS := 128
  const PER_AGENT := 32

  datatype Definition = Definition(enabled: bool, hash: Hash)

  /** A control connection with the token hash it authenticated with. */
  datatype Control = Control(ws: Socket, hash: Hash)

  /** A tunnel request. `hash` is what the control connection it was opened on had authenticated with. */
  datatype Request = Request(agent: Agent, hash: Hash, claimed: bool, ws: Option<Socket>, done: bool)

  /** A forwarding thread: before registration, waiting on its request, after finishing it, and after
      dropping it from the table but before giving its slot back. */
  datatype Phase = Starting | Waiting | Finished | Dropped

  datatype Hub = Hub(controls: map<Agent, Control>, requests: map<Stream, Request>, registered: set<Stream>,
                     forwards: map<Stream, Phase>, slots: nat, closed: set<Socket>)

  /** Who holds the registry lock across several steps, and the requests it has yet to finish. */
  datatype Holder =
    | Free
    | Attaching(agent: Agent, hash: Hash, ws: Socket, todo: set<Stream>)
    | Revoking(agent: Agent, cleared: bool, todo: set<Stream>)

  datatype State = State(definitions: map<Agent, Definition>, hub: Hub, holder: Holder, stopping: bool)

  datatype Change = Delete | Rotate(hash: Hash) | Disable

  datatype Action =
    | Accept(id: Stream)
    | Register(id: Stream, agent: Agent, leased: bool)
    | Expire(id: Stream)
    | Drop(id: Stream)
    | Release(id: Stream)
    | Claim(agent: Agent, hash: Hash, id: Stream)
    | Data(id: Stream, ws: Socket)
    | Finish(id: Stream)
    | Report(agent: Agent, id: Stream)
    | Lose(agent: Agent, ws: Socket)
    | AttachBegin(agent: Agent, hash: Hash, ws: Socket)
    | AttachEnd
    | Define(agent: Agent, definition: Definition)
    | RevokeBegin(agent: Agent, change: Change)
    | RevokeClear
    | RevokeEnd
    | Stop
    | Sever(agent: Agent)

  // ---- The locked blocks of the hub ----

  function RegisteredOf(h: Hub, agent: Agent): set<Stream> {
    set id | id in h.registered && id in h.requests && h.requests[id].agent == agent
  }

  predicate Admits(h: Hub, agent: Agent, leased: bool) {
    && agent in h.controls && h.controls[agent].ws !in h.closed && leased
    && |RegisteredOf(h, agent)| < PER_AGENT
  }

  /** `forward`, first block: register a request, or turn the connection away. */
  function Registered(h: Hub, id: Stream, agent: Agent, leased: bool): Hub {
    if Admits(h, agent, leased) then
      h.(requests := h.requests[id := Request(agent, h.controls[agent].hash, false, None, false)],
         registered := h.registered + {id}, forwards := h.forwards[id := Waiting])
    else h.(forwards := h.forwards[id := Finished])
  }

  /** `finish`: the first call closes what there is to close. */
  function Ended(h: Hub, id: Stream): Hub {
    if id !in h.requests || h.requests[id].done then h
    else
      var r := h.requests[id];
      h.(requests := h.requests[id := r.(done := true)], closed := h.closed + if r.ws.Some? then {r.ws.value} else {})
  }

  predicate Claimable(h: Hub, agent: Agent, id: Stream) {
    && id in h.registered && id in h.requests
    && h.requests[id].agent == agent && !h.requests[id].claimed && !h.requests[id].done
  }

  function Claimed(h: Hub, id: Stream): Hub
    requires id in h.requests
  {
    h.(requests := h.requests[id := h.requests[id].(claimed := true)])
  }

  /** `data`, first block: a finished request closes the arriving websocket instead of adopting it. */
  function Joined(h: Hub, id: Stream, ws: Socket): Hub
    requires id in h.requests
  {
    if h.requests[id].done then h.(closed := h.closed + {ws})
    else h.(requests := h.requests[id := h.requests[id].(ws := Some(ws))])
  }

  /** `disconnect`, locked block: forget the control connection; its requests are finished one by one later. */
  function Cut(h: Hub, agent: Agent): Hub {
    h.(controls := h.controls - {agent}, closed := h.closed + if agent in h.controls then {h.controls[agent].ws} else {})
  }

  // ---- Steps ----

  predicate Authenticated(s: State, agent: Agent, hash: Hash) {
    agent in s.definitions && s.definitions[agent].enabled && s.definitions[agent].hash == hash
  }

  function Changed(d: Definition, change: Change): Option<Definition> {
    match change
    case Delete => None
    case Rotate(hash) => Some(d.(hash := hash))
    case Disable => Some(d.(enabled := false))
  }

  function Step(s: State, a: Action): Option<State> {
    var h := s.hub;
    match a
    case Accept(id) =>
      if h.slots < SLOTS && id !in h.forwards && id !in h.requests
      then Some(s.(hub := h.(forwards := h.forwards[id := Starting], slots := h.slots + 1))) else None
    case Register(id, agent, leased) =>
      if id in h.forwards && h.forwards[id] == Starting then Some(s.(hub := Registered(h, id, agent, leased))) else None
    case Expire(id) =>
      if id in h.forwards && h.forwards[id] == Waiting
      then Some(s.(hub := Ended(h, id).(forwards := h.forwards[id := Finished]))) else None
    case Drop(id) =>
      if id in h.forwards && h.forwards[id] == Finished
      then Some(s.(hub := h.(registered := h.registered - {id}, forwards := h.forwards[id := Dropped]))) else None
    case Release(id) =>
      if id in h.forwards && h.forwards[id] == Dropped && h.slots > 0
      then Some(s.(hub := h.(forwards := h.forwards - {id}, slots := h.slots - 1))) else None
    case Claim(agent, hash, id) =>
      if s.holder == Free && Authenticated(s, agent, hash) && Claimable(h, agent, id) then Some(s.(hub := Claimed(h, id))) else None
    case Data(id, ws) =>
      if id in h.requests && h.requests[id].claimed then Some(s.(hub := Joined(h, id, ws))) else None
    case Finish(id) => Some(s.(hub := Ended(h, id)))
    case Report(agent, id) =>
      if id in h.registered && id in h.requests && h.requests[id].agent == agent then Some(s.(hub := Ended(h, id))) else Some(s)
    case Lose(agent, ws) =>
      if agent in h.controls && h.controls[agent].ws == ws then Some(s.(hub := Cut(h, agent))) else Some(s)
    case AttachBegin(agent, hash, ws) =>
      if s.holder == Free && Authenticated(s, agent, hash)
      then Some(s.(hub := Cut(h, agent), holder := Attaching(agent, hash, ws, RegisteredOf(h, agent)))) else None
    case AttachEnd =>
      if s.holder.Attaching? && AllDone(h, s.holder.todo)
      then Some(s.(hub := if s.stopping then h.(closed := h.closed + {s.holder.ws})
                          else h.(controls := h.controls[s.holder.agent := Control(s.holder.ws, s.holder.hash)]), holder := Free)) else None
    case Define(agent, definition) =>
      if s.holder == Free && (agent in s.definitions ==> definition.hash == s.definitions[agent].hash && (s.definitions[agent].enabled ==> definition.enabled))
      then Some(s.(definitions := s.definitions[agent := definition])) else None
    case RevokeBegin(agent, change) =>
      if s.holder == Free && agent in s.definitions
      then
        var next := Changed(s.definitions[agent], change);
        Some(s.(definitions := if next.Some? then s.definitions[agent := next.value] else s.definitions - {agent},
                holder := Revoking(agent, false, {})))
      else None
    case RevokeClear =>
      if s.holder.Revoking? && !s.holder.cleared
      then Some(s.(hub := Cut(h, s.holder.agent), holder := Revoking(s.holder.agent, true, RegisteredOf(h, s.holder.agent)))) else None
    case RevokeEnd =>
      if s.holder.Revoking? && s.holder.cleared && AllDone(h, s.holder.todo) then Some(s.(holder := Free)) else None
    case Stop => Some(s.(stopping := true))
    case Sever(agent) => if s.stopping then Some(s.(hub := Cut(h, agent))) else None
  }

  predicate AllDone(h: Hub, ids: set<Stream>) {
    forall id :: id in ids && id in h.requests ==> h.requests[id].done
  }

  ghost predicate Init(s: State) {
    && s.holder == Free && !s.stopping
    && s.hub == Hub(map[], map[], {}, map[], 0, {})
  }

  // ---- The invariant ----

  predicate Tables(h: Hub) {
    Agree(h) && Counted(h)
  }

  predicate Counted(h: Hub) {
    h.slots == |h.forwards| <= SLOTS
  }

  predicate Agree(h: Hub) {
    && h.registered <= h.requests.Keys
    && (forall id :: id in h.requests && !h.requests[id].done ==> id in h.forwards && h.forwards[id] == Waiting)
    && (forall id :: id in h.forwards && h.forwards[id] == Waiting ==> id in h.registered)
    && (forall id :: id in h.registered ==> id in h.forwards && h.forwards[id] in {Waiting, Finished})
    && (forall id :: id in h.forwards && h.forwards[id] == Starting ==> id !in h.requests)
    && (forall id :: id in h.requests && h.requests[id].done && h.requests[id].ws.Some? ==> h.requests[id].ws.value in h.closed)
    && (forall id :: id in h.requests && h.requests[id].ws.Some? ==> h.requests[id].claimed)
  }

  ghost predicate Bounded(h: Hub) {
    forall agent :: |RegisteredOf(h, agent)| <= PER_AGENT
  }

  /** The agent exists, is enabled, and holds the token hash in question. */
  predicate Current(s: State, agent: Agent, hash: Hash) {
    Authenticated(s, agent, hash)
  }

  /** The registry lock is held by a revocation of this agent that has yet to reach it. */
  predicate RevocationPending(s: State, agent: Agent) {
    s.holder.Revoking? && s.holder.agent == agent && !s.holder.cleared
  }

  /** An unfinished request is current, or a revocation in progress is about to finish it. */
  predicate Excused(s: State, id: Stream)
    requires id in s.hub.requests
  {
    || Current(s, s.hub.requests[id].agent, s.hub.requests[id].hash)
    || RevocationPending(s, s.hub.requests[id].agent)
    || (s.holder.Revoking? && s.holder.agent == s.hub.requests[id].agent && id in s.holder.todo)
  }

  predicate Identity(s: State) {
    && (forall agent :: agent in s.hub.controls ==>
          Current(s, agent, s.hub.controls[agent].hash) || RevocationPending(s, agent))
    && (forall id :: id in s.hub.requests && !s.hub.requests[id].done ==> Excused(s, id))
    && (s.holder.Attaching? ==> Current(s, s.holder.agent, s.holder.hash))
    && (s.holder.Revoking? && s.holder.cleared ==> s.holder.agent !in s.hub.controls)
    && (s.holder.Attaching? ==> s.holder.agent !in s.hub.controls)
    && (forall id :: id in s.hub.requests && !s.hub.requests[id].done ==> Listed(s, id))
  }

  /** Once the holder of the registry lock has cut an agent off, it knows every request left to finish. */
  predicate Listed(s: State, id: Stream)
    requires id in s.hub.requests
  {
    var agent := s.hub.requests[id].agent;
    && (s.holder.Attaching? && s.holder.agent == agent ==> id in s.holder.todo)
    && (s.holder.Revoking? && s.holder.cleared && s.holder.agent == agent ==> id in s.holder.todo)
  }

  ghost predicate Inv(s: State) {
    Tables(s.hub) && Bounded(s.hub) && Identity(s)
  }

  lemma InitInv(s: State)
    requires Init(s)
    ensures Inv(s)
  {
    forall agent ensures RegisteredOf(s.hub, agent) == {} {}
  }

  // ---- Preservation, one concern at a time ----

  lemma RegisteredTables(h: Hub, id: Stream, agent: Agent, leased: bool)
    requires Tables(h) && id in h.forwards && h.forwards[id] == Starting
    ensures Tables(Registered(h, id, agent, leased))
  {
    assert Registered(h, id, agent, leased).forwards.Keys == h.forwards.Keys;
  }

  lemma EndedTables(h: Hub, id: Stream)
    requires Tables(h)
    ensures Tables(Ended(h, id))
  {
  }

  lemma ExpiredTables(h: Hub, id: Stream)
    requires Tables(h) && id in h.forwards && h.forwards[id] == Waiting
    ensures Tables(Ended(h, id).(forwards := h.forwards[id := Finished]))
  {
    EndedTables(h, id);
    AddedSize(h.forwards, id, Finished);
    FinishedAgree(Ended(h, id), id);
    hide Agree, Ended;
  }

  lemma FinishedAgree(h: Hub, id: Stream)
    requires Agree(h) && id in h.forwards && h.forwards[id] == Waiting && id in h.requests && h.requests[id].done
    ensures Agree(h.(forwards := h.forwards[id := Finished]))
  {
  }

  lemma DroppedTables(h: Hub, id: Stream)
    requires Tables(h) && id in h.forwards && h.forwards[id] == Finished
    ensures Tables(h.(registered := h.registered - {id}, forwards := h.forwards[id := Dropped]))
  {
    assert h.forwards[id := Dropped].Keys == h.forwards.Keys;
  }

  lemma ReleasedTables(h: Hub, id: Stream)
    requires Tables(h) && id in h.forwards && h.forwards[id] == Dropped
    ensures h.slots > 0 && Tables(h.(forwards := h.forwards - {id}, slots := h.slots - 1))
  {
    assert (h.forwards - {id}).Keys == h.forwards.Keys - {id};
  }

  lemma AcceptedTables(h: Hub, id: Stream)
    requires Tables(h) && h.slots < SLOTS && id !in h.forwards && id !in h.requests
    ensures Tables(h.(forwards := h.forwards[id := Starting], slots := h.slots + 1))
  {
    AcceptedAgree(h, id);
    AddedSize(h.forwards, id, Starting);
    hide Agree;
  }

  lemma AddedSize(forwards: map<Stream, Phase>, id: Stream, phase: Phase)
    ensures |forwards[id := phase]| == |forwards| + if id in forwards then 0 else 1
  {
    assert forwards[id := phase].Keys == forwards.Keys + {id};
  }

  lemma AcceptedAgree(h: Hub, id: Stream)
    requires Agree(h) && id !in h.forwards && id !in h.requests
    ensures Agree(h.(forwards := h.forwards[id := Starting], slots := h.slots + 1))
  {
  }

  lemma JoinedTables(h: Hub, id: Stream, ws: Socket)
    requires Tables(h) && id in h.requests && h.requests[id].claimed
    ensures Tables(Joined(h, id, ws))
  {
  }

  lemma ClaimedTables(h: Hub, agent: Agent, id: Stream)
    requires Tables(h) && Claimable(h, agent, id)
    ensures Tables(Claimed(h, id))
  {
  }

  lemma TablesKept(s: State, a: Action)
    requires Tables(s.hub) && Step(s, a).Some?
    ensures Tables(Step(s, a).value.hub)
  {
    hide Tables, Registered, Ended, Joined, Claimed, Cut;
    var h := s.hub;
    match a {
      case Accept(id) => AcceptedTables(h, id);
      case Register(id, agent, leased) => RegisteredTables(h, id, agent, leased);
      case Expire(id) => ExpiredTables(h, id);
      case Drop(id) => DroppedTables(h, id);
      case Release(id) => ReleasedTables(h, id);
      case Claim(agent, _, id) => ClaimedTables(h, agent, id);
      case Data(id, ws) => JoinedTables(h, id, ws);
      case Finish(id) => EndedTables(h, id);
      case Report(_, id) => EndedTables(h, id);
      case Lose(agent, _) => CutTables(h, agent);
      case AttachBegin(agent, _, _) => CutTables(h, agent);
      case AttachEnd =>
        if s.holder.Attaching? {
          AttachedTables(h, s.holder.agent, Control(s.holder.ws, s.holder.hash));
          ClosedTables(h, s.holder.ws);
        }
      case Sever(agent) => CutTables(h, agent);
      case RevokeClear => if s.holder.Revoking? { CutTables(h, s.holder.agent); }
      case _ =>
    }
  }

  lemma CutTables(h: Hub, agent: Agent)
    requires Tables(h)
    ensures Tables(Cut(h, agent))
  {
  }

  lemma AttachedTables(h: Hub, agent: Agent, control: Control)
    requires Tables(h)
    ensures Tables(h.(controls := h.controls[agent := control]))
  {
  }

  lemma ClosedTables(h: Hub, ws: Socket)
    requires Tables(h)
    ensures Tables(h.(closed := h.closed + {ws}))
  {
  }

  lemma StartingUnknown(h: Hub, id: Stream)
    requires Tables(h) && id in h.forwards && h.forwards[id] == Starting
    ensures id !in h.requests && id !in h.registered
  {
  }

  /** What no step does to a request: lose it, move it to another agent, unclaim it, revive it, or
      give it a websocket once it is finished. */
  lemma RequestFrame(s: State, a: Action, id: Stream)
    requires Tables(s.hub) && Step(s, a).Some? && id in s.hub.requests
    ensures id in Step(s, a).value.hub.requests
    ensures var r, q := s.hub.requests[id], Step(s, a).value.hub.requests[id];
            && q.agent == r.agent && q.hash == r.hash
            && (r.claimed ==> q.claimed) && (q.claimed && !r.claimed ==> a.Claim? && a.id == id && a.agent == r.agent)
            && (r.done ==> q.done && q.ws == r.ws)
  {
    hide Step, Tables;
    RequestKept(s, a, id);
    RequestMarks(s, a, id);
  }

  lemma RequestKept(s: State, a: Action, id: Stream)
    requires Tables(s.hub) && Step(s, a).Some? && id in s.hub.requests
    ensures id in Step(s, a).value.hub.requests
    ensures var r, q := s.hub.requests[id], Step(s, a).value.hub.requests[id]; q.agent == r.agent && q.hash == r.hash
  {
    if a.Register? {
      StartingUnknown(s.hub, a.id);
    }
  }

  lemma RequestMarks(s: State, a: Action, id: Stream)
    requires Tables(s.hub) && Step(s, a).Some? && id in s.hub.requests && id in Step(s, a).value.hub.requests
    ensures var r, q := s.hub.requests[id], Step(s, a).value.hub.requests[id];
            && (r.claimed ==> q.claimed) && (q.claimed && !r.claimed ==> a.Claim? && a.id == id && a.agent == r.agent)
            && (r.done ==> q.done && q.ws == r.ws)
  {
    if a.Register? {
      StartingUnknown(s.hub, a.id);
    }
  }

  lemma RegisteredFrame(s: State, a: Action)
    requires Step(s, a).Some?
    ensures Step(s, a).value.hub.registered <= s.hub.registered + if a.Register? && Admits(s.hub, a.agent, a.leased) then {a.id} else {}
    ensures a.Register? && Admits(s.hub, a.agent, a.leased) ==>
              && Step(s, a).value.hub.registered == s.hub.registered + {a.id}
              && a.id in Step(s, a).value.hub.requests && Step(s, a).value.hub.requests[a.id].agent == a.agent
  {
  }

  /** Only a registration brings an agent a request, and only under the limit. */
  lemma RegisteredGrowth(s: State, a: Action, agent: Agent)
    requires Tables(s.hub) && Step(s, a).Some?
    ensures var h, g := s.hub, Step(s, a).value.hub;
            RegisteredOf(g, agent) <= RegisteredOf(h, agent)
            || (a.Register? && Admits(h, agent, a.leased) && RegisteredOf(g, agent) <= RegisteredOf(h, agent) + {a.id})
  {
    hide Step;
    var h, g := s.hub, Step(s, a).value.hub;
    RegisteredFrame(s, a);
    forall id | id in RegisteredOf(g, agent) && id in h.registered ensures id in RegisteredOf(h, agent) {
      assert id in h.requests;
      RequestFrame(s, a, id);
    }
  }

  lemma BoundedKept(s: State, a: Action)
    requires Tables(s.hub) && Bounded(s.hub) && Step(s, a).Some?
    ensures Bounded(Step(s, a).value.hub)
  {
    hide Tables, Step;
    var h, g := s.hub, Step(s, a).value.hub;
    forall agent ensures |RegisteredOf(g, agent)| <= PER_AGENT {
      RegisteredGrowth(s, a, agent);
      if RegisteredOf(g, agent) <= RegisteredOf(h, agent) {
        SubsetSize(RegisteredOf(g, agent), RegisteredOf(h, agent));
      } else {
        SubsetSize(RegisteredOf(g, agent), RegisteredOf(h, agent) + {a.id});
      }
    }
  }

  lemma ControlsKept(s: State, a: Action, agent: Agent)
    requires Identity(s) && Step(s, a).Some? && agent in Step(s, a).value.hub.controls
    ensures var t := Step(s, a).value; Current(t, agent, t.hub.controls[agent].hash) || RevocationPending(t, agent)
  {
  }

  /** The steps that hold the registry lock; every other one leaves the registry alone. */
  predicate OfRegistry(a: Action) {
    a.AttachBegin? || a.AttachEnd? || a.Define? || a.RevokeBegin? || a.RevokeClear? || a.RevokeEnd?
  }

  lemma RegistryFrame(s: State, a: Action)
    requires Step(s, a).Some?
    ensures !OfRegistry(a) ==> Step(s, a).value.definitions == s.definitions && Step(s, a).value.holder == s.holder
    ensures OfRegistry(a) ==> Step(s, a).value.hub.requests == s.hub.requests && Step(s, a).value.hub.registered == s.hub.registered
    ensures OfRegistry(a) || a.Claim? ==> s.holder == Free || a.AttachEnd? || a.RevokeClear? || a.RevokeEnd?
  {
  }

  /** A request that is unfinished now was unfinished before, or was just registered on a control connection. */
  lemma UnfinishedBefore(s: State, a: Action, id: Stream)
    requires Tables(s.hub) && Step(s, a).Some?
    requires var t := Step(s, a).value; id in t.hub.requests && !t.hub.requests[id].done
    ensures var r := Step(s, a).value.hub.requests[id];
            || (id in s.hub.requests && !s.hub.requests[id].done && s.hub.requests[id].agent == r.agent && s.hub.requests[id].hash == r.hash)
            || (a.Register? && id !in s.hub.requests && r.agent in s.hub.controls && r.hash == s.hub.controls[r.agent].hash)
  {
    if id in s.hub.requests {
      RequestFrame(s, a, id);
    }
  }

  lemma RequestsKept(s: State, a: Action, id: Stream)
    requires Tables(s.hub) && Identity(s) && Step(s, a).Some?
    requires var t := Step(s, a).value; id in t.hub.requests && !t.hub.requests[id].done
    ensures Excused(Step(s, a).value, id) && Listed(Step(s, a).value, id)
  {
    UnfinishedBefore(s, a, id);
    RegistryFrame(s, a);
    if id in s.hub.requests {
      UnfinishedRegistered(s.hub, id);
      assert Excused(s, id) && Listed(s, id);
      hide Tables, Step;
      if OfRegistry(a) {
        KeptByRegistry(s, a, id);
      }
    } else {
      assert a.agent == Step(s, a).value.hub.requests[id].agent;
      hide Tables, Step;
    }
  }

  lemma UnfinishedRegistered(h: Hub, id: Stream)
    requires Tables(h) && id in h.requests && !h.requests[id].done
    ensures id in h.registered
  {
  }

  lemma KeptByRegistry(s: State, a: Action, id: Stream)
    requires Step(s, a).Some? && OfRegistry(a) && id in s.hub.requests && !s.hub.requests[id].done && id in s.hub.registered
    requires Excused(s, id) && Listed(s, id)
    ensures id in Step(s, a).value.hub.requests && Excused(Step(s, a).value, id) && Listed(Step(s, a).value, id)
  {
  }

  lemma HolderKept(s: State, a: Action)
    requires Identity(s) && Step(s, a).Some?
    ensures var t := Step(s, a).value;
            && (t.holder.Attaching? ==> Current(t, t.holder.agent, t.holder.hash) && t.holder.agent !in t.hub.controls)
            && (t.holder.Revoking? && t.holder.cleared ==> t.holder.agent !in t.hub.controls)
  {
  }

  lemma IdentityKept(s: State, a: Action)
    requires Inv(s) && Step(s, a).Some?
    ensures Identity(Step(s, a).value)
  {
    hide Step, Tables, Bounded;
    var t := Step(s, a).value;
    forall agent | agent in t.hub.controls ensures Current(t, agent, t.hub.controls[agent].hash) || RevocationPending(t, agent) {
      ControlsKept(s, a, agent);
    }
    forall id | id in t.hub.requests && !t.hub.requests[id].done ensures Excused(t, id) && Listed(t, id) {
      RequestsKept(s, a, id);
    }
    HolderKept(s, a);
  }

  lemma InvKept(s: State, a: Action)
    requires Inv(s) && Step(s, a).Some?
    ensures Inv(Step(s, a).value)
  {
    TablesKept(s, a);
    BoundedKept(s, a);
    IdentityKept(s, a);
  }

  // ---- Whole runs ----

  /** A run: any interleaving of steps from the empty hub. */
  ghost predicate Run(states: seq<State>, actions: seq<Action>) {
    && |states| == |actions| + 1 && Init(states[0])
    && forall i :: 0 <= i < |actions| ==> StepAt(states, actions, i)
  }

  ghost predicate StepAt(states: seq<State>, actions: seq<Action>, i: nat)
    requires i < |actions| && i + 1 < |states|
  {
    Step(states[i], actions[i]) == Some(states[i + 1])
  }

  lemma {:induction false} RunInv(states: seq<State>, actions: seq<Action>, i: nat)
    requires Run(states, actions) && i < |states|
    ensures Inv(states[i])
  {
    if i == 0 {
      InitInv(states[0]);
    } else {
      RunInv(states, actions, i - 1);
      assert StepAt(states, actions, i - 1);
      InvKept(states[i - 1], actions[i - 1]);
    }
  }

  /** Slots in use are live forwards, at most 128; at most 32 requests are registered per agent; and every
      control connection and unfinished request belongs to an enabled agent with its current token hash,
      unless a revocation holding the registry lock is about to cut it off. */
  lemma RunSafe(states: seq<State>, actions: seq<Action>, i: nat, agent: Agent, id: Stream)
    requires Run(states, actions) && i < |states|
    ensures var s := states[i]; var h := s.hub;
            && h.slots == |h.forwards| <= 128 && |RegisteredOf(h, agent)| <= 32
            && (agent in h.controls && !s.holder.Revoking? ==> Authenticated(s, agent, h.controls[agent].hash))
            && (agent in h.controls && s.holder.Revoking? && s.holder.agent != agent ==> Authenticated(s, agent, h.controls[agent].hash))
            && (id in h.requests && !h.requests[id].done ==>
                  || Authenticated(s, h.requests[id].agent, h.requests[id].hash)
                  || (s.holder.Revoking? && s.holder.agent == h.requests[id].agent))
            && (id in h.requests && h.requests[id].done && h.requests[id].ws.Some? ==> h.requests[id].ws.value in h.closed)
  {
    RunInv(states, actions, i);
    var s := states[i];
    if id in s.hub.requests && !s.hub.requests[id].done {
      assert Excused(s, id);
    }
  }

  /** A request outlives every later step, with its agent; it is never unclaimed or revived, and once
      finished it never gains a websocket. */
  lemma {:induction false} RunFrame(states: seq<State>, actions: seq<Action>, i: nat, j: nat, id: Stream)
    requires Run(states, actions) && i <= j < |states| && id in states[i].hub.requests
    ensures id in states[j].hub.requests
    ensures var r, q := states[i].hub.requests[id], states[j].hub.requests[id];
            && q.agent == r.agent && (r.claimed ==> q.claimed) && (r.done ==> q.done && q.ws == r.ws)
    decreases j - i
  {
    if i < j {
      RunFrame(states, actions, i, j - 1, id);
      RunInv(states, actions, j - 1);
      assert StepAt(states, actions, j - 1);
      RequestFrame(states[j - 1], actions[j - 1], id);
    }
  }

  /** A request is claimed at most once, and only by the agent of its key. */
  lemma ClaimedOnce(states: seq<State>, actions: seq<Action>, i: nat, j: nat)
    requires Run(states, actions) && i < |actions| && j < |actions|
    requires actions[i].Claim? && actions[j].Claim? && actions[i].id == actions[j].id
    ensures i == j
    ensures actions[i].id in states[i].hub.requests && states[i].hub.requests[actions[i].id].agent == actions[i].agent
  {
    assert StepAt(states, actions, i) && StepAt(states, actions, j);
    if i < j {
      RunFrame(states, actions, i + 1, j, actions[i].id);
    } else if j < i {
      RunFrame(states, actions, j + 1, i, actions[i].id);
    }
  }

  ghost predicate Finishes(states: seq<State>, i: nat, id: Stream)
    requires i + 1 < |states|
  {
    && id in states[i].hub.requests && !states[i].hub.requests[id].done
    && id in states[i + 1].hub.requests && states[i + 1].hub.requests[id].done
  }

  /** A request is finished at most once. */
  lemma FinishedOnce(states: seq<State>, actions: seq<Action>, i: nat, j: nat, id: Stream)
    requires Run(states, actions) && i < |actions| && j < |actions|
    requires Finishes(states, i, id) && Finishes(states, j, id)
    ensures i == j
  {
    if i < j {
      RunFrame(states, actions, i + 1, j, id);
    } else if j < i {
      RunFrame(states, actions, j + 1, i, id);
    }
  }

  /** When a revocation lets go of the registry, the agent has no control connection and every request
      of it is finished. */
  lemma RevocationComplete(states: seq<State>, actions: seq<Action>, i: nat, id: Stream)
    requires Run(states, actions) && i < |actions| && actions[i].RevokeEnd?
    ensures states[i].holder.Revoking?
    ensures var agent, h := states[i].holder.agent, states[i + 1].hub;
            && agent !in h.controls
            && (id in h.requests && h.requests[id].agent == agent ==> h.requests[id].done)
  {
    RunInv(states, actions, i);
    assert StepAt(states, actions, i);
    var s := states[i];
    if id in s.hub.requests && !s.hub.requests[id].done {
      assert Listed(s, id);
    }
  }

  /** A control connection reappears only through an attach that was authenticated with the hash
      that is current when it takes effect. */
  lemma {:induction false} ReappearsByAttach(states: seq<State>, actions: seq<Action>, i: nat, j: nat, agent: Agent) returns (k: nat)
    requires Run(states, actions) && i <= j < |states|
    requires agent !in states[i].hub.controls && agent in states[j].hub.controls
    ensures i <= k < j && actions[k].AttachEnd? && states[k].holder.Attaching? && states[k].holder.agent == agent
    ensures Authenticated(states[k], agent, states[k].holder.hash) && !states[k].stopping
    decreases j - i
  {
    hide Step, Inv, Init;
    assert i < j;
    if agent in states[j - 1].hub.controls {
      k := ReappearsByAttach(states, actions, i, j - 1, agent);
    } else {
      k := j - 1;
      RunInv(states, actions, k);
      assert StepAt(states, actions, k);
      OnlyAttachAdds(states[k], actions[k], agent);
      AttachIsCurrent(states[k]);
    }
  }

  lemma AttachIsCurrent(s: State)
    requires Inv(s) && s.holder.Attaching?
    ensures Authenticated(s, s.holder.agent, s.holder.hash)
  {
  }

  lemma OnlyAttachAdds(s: State, a: Action, agent: Agent)
    requires Step(s, a).Some? && agent !in s.hub.controls && agent in Step(s, a).value.hub.controls
    ensures a.AttachEnd? && s.holder.Attaching? && s.holder.agent == agent && !s.stopping
  {
  }

  /** From the moment the hub stops no connection comes up any more, so those that stopping then severs are all there
      ever are. */
  lemma {:induction false} StoppedForGood(states: seq<State>, actions: seq<Action>, i: nat, j: nat)
    requires Run(states, actions) && i <= j < |states| && states[i].stopping
    ensures states[j].stopping && states[j].hub.controls.Keys <= states[i].hub.controls.Keys
    ensures forall k :: i <= k < j && actions[k].Sever? ==> actions[k].agent !in states[j].hub.controls
    decreases j - i
  {
    if i < j {
      StoppedForGood(states, actions, i, j - 1);
      assert StepAt(states, actions, j - 1);
      var s, t := states[j - 1], states[j];
      forall agent | agent in t.hub.controls ensures agent in s.hub.controls {
        if agent !in s.hub.controls {
          OnlyAttachAdds(s, actions[j - 1], agent);
        }
      }
      if actions[j - 1].Sever? {
        assert t.hub.controls == s.hub.controls - {actions[j - 1].agent};
      }
    }
  }

  // ---- What the steps admit, said of the tables alone ----

  /** A request appears exactly when a starting forward registers it: its agent is connected on an open socket, the target
      is leased, and fewer than 32 requests of the agent are registered. It belongs to that agent and carries the hash of
      that connection; nobody has claimed or finished it. */
  lemma AppearsExactly(s: State, a: Action, id: Stream)
    requires Step(s, a).Some? && id !in s.hub.requests
    ensures var h, g := s.hub, Step(s, a).value.hub;
            && (id in g.requests <==>
                  && a.Register? && a.id == id && id in h.forwards && h.forwards[id] == Starting
                  && a.agent in h.controls && h.controls[a.agent].ws !in h.closed && a.leased
                  && |set k | k in h.registered && k in h.requests && h.requests[k].agent == a.agent| < 32)
            && (id in g.requests ==>
                  && g.requests[id] == Request(a.agent, h.controls[a.agent].hash, false, None, false)
                  && id in g.registered && id in g.forwards && g.forwards[id] == Waiting)
  {
    if a.Register? {
      assert RegisteredOf(s.hub, a.agent) == set k | k in s.hub.registered && k in s.hub.requests && s.hub.requests[k].agent == a.agent;
    }
  }

  /** So every request of a run was registered once, under those conditions. */
  lemma {:induction false} AdmittedOnce(states: seq<State>, actions: seq<Action>, i: nat, id: Stream) returns (k: nat)
    requires Run(states, actions) && i < |states| && id in states[i].hub.requests
    ensures k < i && k < |actions| && actions[k].Register? && actions[k].id == id && id !in states[k].hub.requests
    ensures var h, agent := states[k].hub, actions[k].agent;
            && id in h.forwards && h.forwards[id] == Starting
            && agent in h.controls && h.controls[agent].ws !in h.closed && actions[k].leased
            && |set j | j in h.registered && j in h.requests && h.requests[j].agent == agent| < 32
            && states[i].hub.requests[id].agent == agent && states[i].hub.requests[id].hash == h.controls[agent].hash
  {
    hide Step;
    assert i > 0 by { if i == 0 { assert Init(states[0]); } }
    assert StepAt(states, actions, i - 1);
    if id in states[i - 1].hub.requests {
      k := AdmittedOnce(states, actions, i - 1, id);
      RunInv(states, actions, i - 1);
      RequestFrame(states[i - 1], actions[i - 1], id);
    } else {
      k := i - 1;
      AppearsExactly(states[k], actions[k], id);
    }
  }

  /** A request is claimed only by its own agent with the current token, while it is registered, unclaimed and unfinished;
      a websocket is adopted only by a claimed request that is not finished, and any other is closed. */
  lemma ClaimExactly(s: State, agent: Agent, hash: Hash, id: Stream, ws: Socket)
    ensures Step(s, Claim(agent, hash, id)).Some? <==>
            && s.holder == Free && agent in s.definitions && s.definitions[agent].enabled && s.definitions[agent].hash == hash
            && id in s.hub.registered && id in s.hub.requests && s.hub.requests[id].agent == agent
            && !s.hub.requests[id].claimed && !s.hub.requests[id].done
    ensures Step(s, Claim(agent, hash, id)).Some? ==>
              Step(s, Claim(agent, hash, id)).value == s.(hub := s.hub.(requests := s.hub.requests[id := s.hub.requests[id].(claimed := true)]))
    ensures Step(s, Data(id, ws)).Some? <==> id in s.hub.requests && s.hub.requests[id].claimed
    ensures Step(s, Data(id, ws)).Some? ==>
              Step(s, Data(id, ws)).value
              == s.(hub := if s.hub.requests[id].done then s.hub.(closed := s.hub.closed + {ws})
                           else s.hub.(requests := s.hub.requests[id := s.hub.requests[id].(ws := Some(ws))]))
  {
  }

  /** Who may attach, define and revoke, and when. */
  lemma RegistryExactly(s: State, agent: Agent, hash: Hash, ws: Socket, change: Change)
    ensures Step(s, AttachBegin(agent, hash, ws)).Some? <==>
            s.holder == Free && agent in s.definitions && s.definitions[agent].enabled && s.definitions[agent].hash == hash
    ensures Step(s, RevokeBegin(agent, change)).Some? <==> s.holder == Free && agent in s.definitions
    ensures Step(s, RevokeBegin(agent, change)).Some? ==>
              var t, d := Step(s, RevokeBegin(agent, change)).value, s.definitions[agent];
              && t.hub == s.hub && t.holder == Revoking(agent, false, {})
              && (change.Delete? ==> t.definitions == s.definitions - {agent})
              && (change.Rotate? ==> t.definitions == s.definitions[agent := Definition(d.enabled, change.hash)])
              && (change.Disable? ==> t.definitions == s.definitions[agent := Definition(false, d.hash)])
    ensures Step(s, AttachEnd).Some? <==>
            s.holder.Attaching? && forall id :: id in s.holder.todo && id in s.hub.requests ==> s.hub.requests[id].done
    ensures Step(s, RevokeEnd).Some? <==>
            s.holder.Revoking? && s.holder.cleared && forall id :: id in s.holder.todo && id in s.hub.requests ==> s.hub.requests[id].done
  {
  }
}
