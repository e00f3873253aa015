/** The hub's stream methods over its fields, proved against the steps of `Streams`. */
module StreamHub {
  import opened Text
  import opened Streams

  /** Every request of `ids` finished: what the loop of `disconnect` reaches in any order. */
  function AllEnded(h: Hub, ids: set<Stream>): Hub {
    h.(requests := map id | id in h.requests :: if id in ids then h.requests[id].(done := true) else h.requests[id],
       closed := h.closed + Adopted(h, ids))
  }

  /** The websockets that finishing these requests closes. */
  function Adopted(h: Hub, ids: set<Stream>): set<Socket> {
    set id | id in ids && id in h.requests && !h.requests[id].done && h.requests[id].ws.Some? :: h.requests[id].ws.value
  }

  /** One `finish` after another, in the order given. */
  function Sweep(h: Hub, ids: seq<Stream>): Hub
    decreases |ids|
  {
    if ids == [] then h else Sweep(Ended(h, ids[0]), ids[1..])
  }

  lemma EndedJoins(h: Hub, id: Stream, ids: set<Stream>)
    ensures AllEnded(Ended(h, id), ids) == AllEnded(h, {id} + ids)
  {
    var g := Ended(h, id);
    assert AllEnded(g, ids).requests == AllEnded(h, {id} + ids).requests;
    forall ws ensures ws in g.closed + Adopted(g, ids) <==> ws in h.closed + Adopted(h, {id} + ids) {
      EndedCloses(h, id, ids, ws);
    }
    assert AllEnded(g, ids).closed == AllEnded(h, {id} + ids).closed;
  }

  lemma EndedCloses(h: Hub, id: Stream, ids: set<Stream>, ws: Socket)
    ensures ws in Ended(h, id).closed + Adopted(Ended(h, id), ids) <==> ws in h.closed + Adopted(h, {id} + ids)
  {
    var g := Ended(h, id);
    if ws in Adopted(g, ids) {
      var k :| k in ids && k in g.requests && !g.requests[k].done && g.requests[k].ws == Some(ws);
      assert k != id && h.requests[k] == g.requests[k];
    }
    if ws in Adopted(h, {id} + ids) {
      var k :| k in {id} + ids && k in h.requests && !h.requests[k].done && h.requests[k].ws == Some(ws);
      if k != id {
        assert g.requests[k] == h.requests[k];
      }
    }
  }

  /** The order in which requests are finished does not matter, nor does finishing one twice. */
  lemma {:induction false} SweepAnyOrder(h: Hub, ids: seq<Stream>)
    ensures Sweep(h, ids) == AllEnded(h, set id | id in ids)
    decreases |ids|
  {
    if ids == [] {
      assert (set id | id in ids) == {};
      NothingEnded(h);
    } else {
      SweepAnyOrder(Ended(h, ids[0]), ids[1..]);
      assert (set id | id in ids) == {ids[0]} + (set id | id in ids[1..]);
      EndedJoins(h, ids[0], set id | id in ids[1..]);
    }
  }

  lemma NothingEnded(h: Hub)
    ensures AllEnded(h, {}) == h
  {
    assert AllEnded(h, {}).requests == h.requests;
    assert Adopted(h, {}) == {};
  }

  class TunnelStreams {
    var controls: map<Agent, Control>
    var requests: map<Stream, Request>
    var registered: set<Stream>
    var forwards: map<Stream, Phase>
    var slots: nat
    var closed: set<Socket>
    var stopping: bool

    ghost function View(): Hub
      reads this
    {
      Hub(controls, requests, registered, forwards, slots, closed)
    }

    constructor ()
      ensures View() == Hub(map[], map[], {}, map[], 0, {}) && !stopping
    {
      controls, requests, registered, forwards, slots, closed, stopping := map[], map[], {}, map[], 0, {}, false;
    }

    /** `run`: a connection is served in a free slot or turned away. */
    method Accept(id: Stream) returns (accepted: bool)
      requires id !in requests && id !in forwards
      modifies `forwards, `slots
      ensures accepted == (old(slots) < 128)
      ensures View() == if accepted then old(View()).(forwards := old(forwards)[id := Starting], slots := old(slots) + 1)
                        else old(View())
    {
      accepted := slots < SLOTS;
      if accepted {
        forwards, slots := forwards[id := Starting], slots + 1;
      }
    }

    /** `forward`, first block. */
    method Register(id: Stream, agent: Agent, leased: bool) returns (admitted: bool)
      requires id !in requests
      modifies `requests, `registered, `forwards
      ensures View() == Registered(old(View()), id, agent, leased)
      ensures admitted <==> && agent in controls && controls[agent].ws !in closed && leased
                            && |set k | k in old(registered) && k in old(requests) && old(requests)[k].agent == agent| < 32
      ensures admitted ==> && requests == old(requests)[id := Request(agent, controls[agent].hash, false, None, false)]
                           && registered == old(registered) + {id} && forwards == old(forwards)[id := Waiting]
      ensures !admitted ==> requests == old(requests) && registered == old(registered) && forwards == old(forwards)[id := Finished]
    {
      var count := 0;
      var todo := registered;
      while todo != {}
        invariant todo <= registered
        invariant count == |set k | k in registered - todo && k in requests && requests[k].agent == agent|
        decreases |todo|
      {
        var k :| k in todo;
        ghost var before := set j | j in registered - todo && j in requests && requests[j].agent == agent;
        todo := todo - {k};
        ghost var after := set j | j in registered - todo && j in requests && requests[j].agent == agent;
        if k in requests && requests[k].agent == agent {
          assert after == before + {k};
          count := count + 1;
        } else {
          assert after == before;
        }
      }
      assert (set k | k in registered - todo && k in requests && requests[k].agent == agent) == RegisteredOf(View(), agent);
      assert (set k | k in old(registered) && k in old(requests) && old(requests)[k].agent == agent) == RegisteredOf(old(View()), agent);
      admitted := agent in controls && controls[agent].ws !in closed && leased && count < PER_AGENT;
      if admitted {
        requests := requests[id := Request(agent, controls[agent].hash, false, None, false)];
        registered, forwards := registered + {id}, forwards[id := Waiting];
      } else {
        forwards := forwards[id := Finished];
      }
    }

    method Finish(id: Stream)
      modifies `requests, `closed
      ensures View() == Ended(old(View()), id)
      ensures requests == if id in old(requests) && !old(requests)[id].done then old(requests)[id := old(requests)[id].(done := true)] else old(requests)
      ensures closed == old(closed) + if id in old(requests) && !old(requests)[id].done && old(requests)[id].ws.Some? then {old(requests)[id].ws.value} else {}
    {
      if id in requests && !requests[id].done {
        if requests[id].ws.Some? {
          closed := closed + {requests[id].ws.value};
        }
        requests := requests[id := requests[id].(done := true)];
      }
    }

    /** `forward`, the closing block: finish the request, forget it, give the slot back. */
    method Leave(id: Stream)
      requires id in forwards && slots > 0
      modifies this
      ensures View() == Ended(old(View()), id).(registered := old(registered) - {id}, forwards := old(forwards) - {id},
                                                slots := old(slots) - 1)
      ensures stopping == old(stopping)
    {
      Finish(id);
      registered, forwards, slots := registered - {id}, forwards - {id}, slots - 1;
    }

    method Claim(agent: Agent, id: Stream) returns (ok: bool)
      modifies `requests
      ensures ok <==> && id in registered && id in old(requests) && old(requests)[id].agent == agent
                      && !old(requests)[id].claimed && !old(requests)[id].done
      ensures requests == if ok then old(requests)[id := old(requests)[id].(claimed := true)] else old(requests)
      ensures View() == if ok then Claimed(old(View()), id) else old(View())
    {
      ok := id in registered && id in requests && requests[id].agent == agent && !requests[id].claimed && !requests[id].done;
      if ok {
        requests := requests[id := requests[id].(claimed := true)];
      }
    }

    method Data(id: Stream, ws: Socket)
      requires id in requests
      modifies `requests, `closed
      ensures View() == Joined(old(View()), id, ws)
      ensures if old(requests)[id].done then requests == old(requests) && closed == old(closed) + {ws}
              else requests == old(requests)[id := old(requests)[id].(ws := Some(ws))] && closed == old(closed)
    {
      if requests[id].done {
        closed := closed + {ws};
      } else {
        requests := requests[id := requests[id].(ws := Some(ws))];
      }
    }

    /** The loop of `disconnect`, one `finish` at a time in whatever order. */
    method FinishAll(streams: set<Stream>)
      modifies `requests, `closed
      ensures View() == AllEnded(old(View()), streams)
    {
      hide AllEnded, Ended;
      ghost var start := View();
      var todo := streams;
      NothingEnded(start);
      assert streams - todo == {};
      while todo != {}
        invariant todo <= streams
        invariant View() == AllEnded(start, streams - todo)
        decreases |todo|
      {
        var id :| id in todo;
        EndedLater(start, streams - todo, id);
        assert streams - (todo - {id}) == (streams - todo) + {id};
        Finish(id);
        todo := todo - {id};
      }
      assert streams - todo == streams;
    }

    /** `disconnect`: with `current` given, a control connection that was already replaced is left alone. */
    method Disconnect(agent: Agent, current: Option<Socket>)
      modifies `controls, `requests, `closed
      ensures var h := old(View());
              View() == if current.Some? && (agent !in h.controls || h.controls[agent].ws != current.value) then h
                        else AllEnded(Cut(h, agent), RegisteredOf(h, agent))
      ensures current.Some? && (agent !in old(controls) || old(controls)[agent].ws != current.value) ==>
                controls == old(controls) && requests == old(requests) && closed == old(closed)
      ensures current.None? || (agent in old(controls) && old(controls)[agent].ws == current.value) ==>
                && controls == old(controls) - {agent} && requests.Keys == old(requests).Keys
                && (forall id :: id in old(requests) ==>
                      requests[id] == if id in registered && old(requests)[id].agent == agent then old(requests)[id].(done := true) else old(requests)[id])
                && (forall ws :: ws in closed <==>
                      || ws in old(closed) || (agent in old(controls) && old(controls)[agent].ws == ws)
                      || exists id :: id in registered && id in old(requests) && old(requests)[id].agent == agent && !old(requests)[id].done
                                      && old(requests)[id].ws == Some(ws))
    {
      if current.Some? && (agent !in controls || controls[agent].ws != current.value) {
        return;
      }
      var streams := set id | id in registered && id in requests && requests[id].agent == agent;
      if agent in controls {
        closed := closed + {controls[agent].ws};
      }
      controls := controls - {agent};
      FinishAll(streams);
    }

    method Attach(agent: Agent, hash: Hash, ws: Socket)
      modifies `controls, `requests, `closed
      ensures var h := AllEnded(Cut(old(View()), agent), RegisteredOf(old(View()), agent));
              View() == if stopping then h.(closed := h.closed + {ws}) else h.(controls := h.controls[agent := Control(ws, hash)])
    {
      Disconnect(agent, None);
      if stopping {
        closed := closed + {ws};
      } else {
        controls := controls[agent := Control(ws, hash)];
      }
    }

    /** `stop`: no connection is let in any more, and those there are go one by one. */
    method Stop()
      modifies `stopping, `controls, `requests, `closed
      ensures stopping && View() == Severed(old(View()), old(controls).Keys) && controls == map[]
    {
      hide Severed, AllEnded;
      stopping := true;
      ghost var start := View();
      var agents := controls.Keys;
      NoneSevered(start);
      assert controls.Keys - agents == {};
      while agents != {}
        invariant stopping && agents <= start.controls.Keys
        invariant View() == Severed(start, start.controls.Keys - agents)
        decreases |agents|
      {
        var agent :| agent in agents;
        SeveredMore(start, start.controls.Keys - agents, agent);
        assert start.controls.Keys - (agents - {agent}) == (start.controls.Keys - agents) + {agent};
        Disconnect(agent, None);
        agents := agents - {agent};
      }
      assert start.controls.Keys - {} == start.controls.Keys;
      AllSevered(start);
    }
  }

  /** One agent after another severed, with its requests finished. */
  function Severed(h: Hub, agents: set<Agent>): Hub {
    AllEnded(h, set id | id in h.registered && id in h.requests && h.requests[id].agent in agents)
    .(controls := h.controls - agents,
      closed := h.closed + Adopted(h, set id | id in h.registered && id in h.requests && h.requests[id].agent in agents)
                + set a | a in agents && a in h.controls :: h.controls[a].ws)
  }

  lemma NoneSevered(h: Hub)
    ensures Severed(h, {}) == h
  {
    assert AllEnded(h, {}).requests == h.requests;
    assert Severed(h, {}).closed == h.closed;
  }

  lemma AllSevered(h: Hub)
    ensures Severed(h, h.controls.Keys).controls == map[]
  {
  }

  lemma SeveredCloses(h: Hub, agents: set<Agent>, agent: Agent, ws: Socket)
    ensures var g := Severed(h, agents);
            ws in AllEnded(Cut(g, agent), RegisteredOf(g, agent)).closed <==> ws in Severed(h, agents + {agent}).closed
  {
    var g := Severed(h, agents);
    var these := set id | id in h.registered && id in h.requests && h.requests[id].agent in agents;
    var more := set id | id in h.registered && id in h.requests && h.requests[id].agent in agents + {agent};
    if ws in Adopted(h, these) {
      var k :| k in these && k in h.requests && !h.requests[k].done && h.requests[k].ws == Some(ws);
      assert k in more;
    }
    if ws in Adopted(h, more) && ws !in Adopted(h, these) {
      var k :| k in more && k in h.requests && !h.requests[k].done && h.requests[k].ws == Some(ws);
      assert k !in these;
      assert k in RegisteredOf(g, agent) && g.requests[k] == h.requests[k];
    }
    if ws in Adopted(Cut(g, agent), RegisteredOf(g, agent)) {
      var k :| k in RegisteredOf(g, agent) && k in g.requests && !g.requests[k].done && g.requests[k].ws == Some(ws);
      assert k in more && h.requests[k] == g.requests[k];
    }
    if a :| a in agents + {agent} && a in h.controls && h.controls[a].ws == ws {
      if a !in agents {
        assert a == agent && a in g.controls;
      }
    }
  }

  lemma SeveredMore(h: Hub, agents: set<Agent>, agent: Agent)
    ensures AllEnded(Cut(Severed(h, agents), agent), RegisteredOf(Severed(h, agents), agent)) == Severed(h, agents + {agent})
  {
    var g, f := Severed(h, agents), Severed(h, agents + {agent});
    var all := AllEnded(Cut(g, agent), RegisteredOf(g, agent));
    assert all.requests == f.requests;
    assert all.controls == f.controls;
    forall ws ensures ws in all.closed <==> ws in f.closed {
      SeveredCloses(h, agents, agent, ws);
    }
    assert all.closed == f.closed;
  }

  lemma EndedLater(h: Hub, ids: set<Stream>, id: Stream)
    ensures Ended(AllEnded(h, ids), id) == AllEnded(h, ids + {id})
  {
    var g, f := AllEnded(h, ids), AllEnded(h, ids + {id});
    assert Ended(g, id).requests == f.requests;
    forall ws ensures ws in Ended(g, id).closed <==> ws in f.closed {
      LaterCloses(h, ids, id, ws);
    }
    assert Ended(g, id).closed == f.closed;
  }

  lemma LaterCloses(h: Hub, ids: set<Stream>, id: Stream, ws: Socket)
    ensures ws in Ended(AllEnded(h, ids), id).closed <==> ws in AllEnded(h, ids + {id}).closed
  {
    if ws in Adopted(h, ids + {id}) && ws !in Adopted(h, ids) {
      var k :| k in ids + {id} && k in h.requests && !h.requests[k].done && h.requests[k].ws == Some(ws);
      assert k == id && k !in ids;
    }
    if ws in Adopted(h, ids) {
      var k :| k in ids && k in h.requests && !h.requests[k].done && h.requests[k].ws == Some(ws);
      assert k in ids + {id};
    }
    if id in h.requests && id !in ids && !h.requests[id].done && h.requests[id].ws == Some(ws) {
      assert id in ids + {id};
      assert ws in Adopted(h, ids + {id});
    }
  }

  /** The whole of `disconnect` at once: the agent is cut off, all of its registered requests are finished with
      their websockets closed, and nothing else changes. */
  lemma DisconnectCutsOff(h: Hub, agent: Agent, id: Stream)
    requires Tables(h) && id in h.requests
    ensures var g := AllEnded(Cut(h, agent), RegisteredOf(h, agent));
            && g.controls == h.controls - {agent} && g.requests.Keys == h.requests.Keys && g.registered == h.registered
            && (h.requests[id].agent == agent ==> g.requests[id] == h.requests[id].(done := true))
            && (h.requests[id].agent == agent && h.requests[id].ws.Some? ==> h.requests[id].ws.value in g.closed)
            && (h.requests[id].agent != agent ==> g.requests[id] == h.requests[id])
            && (agent in h.controls ==> h.controls[agent].ws in g.closed)
  {
    hide Tables, Adopted;
    var r := h.requests[id];
    if !r.done {
      UnfinishedRegistered(h, id);
    }
    if r.agent == agent && r.ws.Some? {
      AdoptedClosed(h, agent, id);
    }
  }

  lemma AdoptedClosed(h: Hub, agent: Agent, id: Stream)
    requires Tables(h) && id in h.requests && h.requests[id].agent == agent && h.requests[id].ws.Some?
    ensures h.requests[id].ws.value in AllEnded(Cut(h, agent), RegisteredOf(h, agent)).closed
  {
    if !h.requests[id].done {
      UnfinishedRegistered(h, id);
      hide Tables;
      assert id in RegisteredOf(h, agent);
      assert h.requests[id].ws.value in Adopted(Cut(h, agent), RegisteredOf(h, agent));
    }
  }

  // ---- The methods are runs of the protocol's steps ----

  function Steps(s: State, actions: seq<Action>): Option<State>
    decreases |actions|
  {
    if actions == [] then Some(s)
    else
      var t := Step(s, actions[0]);
      if t.None? then None else Steps(t.value, actions[1..])
  }

  lemma {:induction false} SweepBySteps(s: State, ids: seq<Stream>)
    ensures Steps(s, seq(|ids|, i requires 0 <= i < |ids| => Finish(ids[i]))) == Some(s.(hub := Sweep(s.hub, ids)))
    decreases |ids|
  {
    var actions := seq(|ids|, i requires 0 <= i < |ids| => Finish(ids[i]));
    if ids != [] {
      SweepBySteps(s.(hub := Ended(s.hub, ids[0])), ids[1..]);
      assert actions[1..] == seq(|ids[1..]|, i requires 0 <= i < |ids[1..]| => Finish(ids[1..][i]));
    }
  }

  /** `Leave` is the three steps by which a waiting forward ends. */
  lemma LeaveBySteps(s: State, id: Stream)
    requires id in s.hub.forwards && s.hub.forwards[id] == Waiting && s.hub.slots > 0
    ensures var h := s.hub;
            Steps(s, [Expire(id), Drop(id), Release(id)])
            == Some(s.(hub := Ended(h, id).(registered := h.registered - {id}, forwards := h.forwards - {id}, slots := h.slots - 1)))
  {
    var h := s.hub;
    var one := Step(s, Expire(id)).value;
    assert one.hub.forwards[id] == Finished;
    var two := Step(one, Drop(id)).value;
    assert two.hub.forwards[id] == Dropped;
    assert two.hub.forwards - {id} == h.forwards - {id};
    var three := Step(two, Release(id));
    assert Steps(s, [Expire(id), Drop(id), Release(id)]) == Steps(one, [Drop(id), Release(id)]) by {
      assert [Expire(id), Drop(id), Release(id)][1..] == [Drop(id), Release(id)];
    }
    assert Steps(one, [Drop(id), Release(id)]) == Steps(two, [Release(id)]) by {
      assert [Drop(id), Release(id)][1..] == [Release(id)];
    }
    assert Steps(two, [Release(id)]) == Some(three.value) by {
      assert [Release(id)][1..] == [];
    }
  }

  /** `Disconnect` under a revocation is the revocation's own steps: cut the agent off, finish its requests
      in any order, let go of the registry. */
  lemma DisconnectBySteps(s: State, ids: seq<Stream>)
    requires s.holder.Revoking? && !s.holder.cleared && (set id | id in ids) == RegisteredOf(s.hub, s.holder.agent)
    ensures var agent := s.holder.agent;
            var cut := Step(s, RevokeClear);
            var swept := AllEnded(Cut(s.hub, agent), RegisteredOf(s.hub, agent));
            && cut.Some?
            && Steps(cut.value, seq(|ids|, i requires 0 <= i < |ids| => Finish(ids[i]))) == Some(cut.value.(hub := swept))
            && Step(cut.value.(hub := swept), RevokeEnd) == Some(s.(hub := swept, holder := Free))
  {
    var cut := Step(s, RevokeClear).value;
    SweepBySteps(cut, ids);
    SweepAnyOrder(cut.hub, ids);
    assert Sweep(cut.hub, ids) == AllEnded(Cut(s.hub, s.holder.agent), RegisteredOf(s.hub, s.holder.agent));
  }

  /** `Disconnect` of a lost connection is the loss and the finishing of the agent's requests; of a connection that was
      already replaced it is nothing. */
  lemma LossBySteps(s: State, agent: Agent, ws: Socket, ids: seq<Stream>)
    requires (set id | id in ids) == RegisteredOf(s.hub, agent)
    ensures var lost := Step(s, Lose(agent, ws));
            && lost.Some?
            && if agent in s.hub.controls && s.hub.controls[agent].ws == ws
               then Steps(lost.value, seq(|ids|, i requires 0 <= i < |ids| => Finish(ids[i])))
                    == Some(s.(hub := AllEnded(Cut(s.hub, agent), RegisteredOf(s.hub, agent))))
               else lost.value == s
  {
    var lost := Step(s, Lose(agent, ws)).value;
    SweepBySteps(lost, ids);
    SweepAnyOrder(lost.hub, ids);
    if agent in s.hub.controls && s.hub.controls[agent].ws == ws {
      assert lost == s.(hub := Cut(s.hub, agent));
      assert Sweep(lost.hub, ids) == AllEnded(Cut(s.hub, agent), RegisteredOf(s.hub, agent));
    }
  }

  /** `Attach` is a run of the attaching steps: cut off the old connection, finish its requests in any order, and let the
      new one in, or close it while the hub stops. */
  lemma AttachBySteps(s: State, agent: Agent, hash: Hash, ws: Socket, ids: seq<Stream>)
    requires s.holder == Free && Authenticated(s, agent, hash) && (set id | id in ids) == RegisteredOf(s.hub, agent)
    ensures var begun := Step(s, AttachBegin(agent, hash, ws));
            var swept := AllEnded(Cut(s.hub, agent), RegisteredOf(s.hub, agent));
            && begun.Some?
            && Steps(begun.value, seq(|ids|, i requires 0 <= i < |ids| => Finish(ids[i]))) == Some(begun.value.(hub := swept))
            && Step(begun.value.(hub := swept), AttachEnd)
               == Some(s.(hub := if s.stopping then swept.(closed := swept.closed + {ws})
                                 else swept.(controls := swept.controls[agent := Control(ws, hash)])))
  {
    var begun := Step(s, AttachBegin(agent, hash, ws)).value;
    SweepBySteps(begun, ids);
    SweepAnyOrder(begun.hub, ids);
    assert Sweep(begun.hub, ids) == AllEnded(Cut(s.hub, agent), RegisteredOf(s.hub, agent));
  }
}
