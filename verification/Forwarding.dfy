/** The hub's forward: the registry's leases decide which connections become requests of the stream tables. */
module Forwarding {
  import opened Text
  import opened Config
  import Reservations
  import opened Registry
  import Streams
  import opened StreamHub

  /** The hub and its stream tables agree on which agents are connected. */
  ghost predicate Linked(hub: Reservations.TunnelHub, streams: TunnelStreams)
    reads hub`connected, streams`controls, streams`closed
  {
    forall agent :: agent in hub.connected <==> agent in streams.controls && streams.controls[agent].ws !in streams.closed
  }

  /** `forward`, first block. A connection to the port of a key becomes a request exactly if the key's agent is connected
      on an open socket, the key is among the agent's targets, they have not expired, and fewer than 32 requests of the
      agent are registered. So whatever is forwarded goes to a mapped target of that agent, before its last report plus
      the timeout of the last refresh. */
  method Forward(agents: Agents, streams: TunnelStreams, id: Streams.Stream, k: Key, now: real) returns (admitted: bool)
    requires agents.Valid() && agents.clock <= now && id !in streams.requests
    modifies agents`clock, streams`requests, streams`registered, streams`forwards
    ensures agents.Valid() && agents.clock == now
    ensures admitted <==>
            && k.agent in streams.controls && streams.controls[k.agent].ws !in streams.closed
            && k.agent in agents.hub.destinations && k in agents.hub.destinations[k.agent]
            && k.agent in agents.hub.expires && (agents.hub.expires[k.agent].At? ==> now < agents.hub.expires[k.agent].time)
            && |set j | j in old(streams.registered) && j in old(streams.requests) && old(streams.requests)[j].agent == k.agent| < 32
    ensures admitted ==>
              && streams.requests == old(streams.requests)[id := Streams.Request(k.agent, streams.controls[k.agent].hash, false, None, false)]
              && streams.registered == old(streams.registered) + {id}
              && k.agent in agents.reports && k.agent in agents.grants && k in agents.hub.ports
              && now < agents.reports[k.agent].seenAt + agents.grants[k.agent].agent.timeout
    ensures !admitted ==> streams.requests == old(streams.requests) && streams.registered == old(streams.registered)
    ensures Linked(agents.hub, streams) == old(Linked(agents.hub, streams))
    ensures admitted && Linked(agents.hub, streams) ==> k.agent in agents.hub.connected
  {
    hide Agents.Sound;
    var leased := agents.Leased(k, now);
    admitted := streams.Register(id, k.agent, leased);
  }
}
