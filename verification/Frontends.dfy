/** The clients of the gateway (src/websocket.c, src/polling.c): those that poll have a stream each,
    the others a WebSocket. A message from the backend extends a stream, or closes it when its
    queue is full, and with its stream a connection leaves the whole gateway. */
module Frontends {
  import opened Lists
  import opened Entities
  import CometStream
  import Comet
  import TopicGraph
  import Identity
  import Lifecycle
  import Gateway
  import Ports

  type Stream = CometStream.Stream

  /** The queue limit of streams, the gateway, and the streams of the connections that poll. */
  datatype Scene = Scene(limit: nat, gate: Lifecycle.Model, streams: map<Connection, Stream>)

  /** What happens to clients. Which WebSockets would close on a message is up to their library. */
  datatype Event =
    | Come(conn: Connection, random: Bytes)                     // a polling client comes
    | Polled(conn: Connection, step: CometStream.Event)            // its requests and timers
    | Publish(name: Bytes, data: Bytes, shut: set<Connection>)
    | Send(conn: Connection, data: Bytes, shut: set<Connection>)
    | SendAll(data: Bytes, shut: set<Connection>)
    | Other(event: Lifecycle.Event)                                // whatever concerns no stream

  predicate IsMessage(e: Event) {
    e.Publish? || e.Send? || e.SendAll?
  }

  /** The connections that an event sends a message to. */
  ghost function Reached(s: Scene, e: Event): set<Connection> {
    match e
    case Publish(name, _, _) => set c | c in s.gate.net.live && (c, name) in s.gate.rel
    case Send(c, _, _) => {c} * s.gate.net.live
    case SendAll(_, _) => s.gate.net.live
    case _ => {}
  }

  predicate Full(t: Stream) {
    |t.queue| >= t.capacity
  }

  /** The connections that a message would close. */
  ghost function FullOnes(s: Scene, shut: set<Connection>): set<Connection> {
    (set c | c in s.streams && Full(s.streams[c])) + (shut - s.streams.Keys)
  }

  /** The streams that some connections have, with a message pushed to some of them. */
  ghost function Pushed(streams: map<Connection, Stream>, reached: set<Connection>,
                        data: Bytes): map<Connection, Stream>
  {
    map c | c in streams :: if c in reached then CometStream.Step(streams[c], CometStream.Push(data)) else streams[c]
  }

  predicate OfStream(s: Scene, e: Event) {
    e.Polled? && e.conn in s.streams && !e.step.Push?
  }

  ghost predicate Admitted(s: Scene, e: Event) {
    e.Come? && e.conn !in s.gate.net.known && |s.gate.net.live| < s.gate.slots
  }

  ghost function StreamsAfter(s: Scene, e: Event): map<Connection, Stream> {
    if Admitted(s, e) then s.streams[e.conn := CometStream.Start(s.limit)]
    else if OfStream(s, e) then s.streams[e.conn := CometStream.Step(s.streams[e.conn], e.step)]
    else if IsMessage(e) then Pushed(s.streams, Reached(s, e), e.data)
    else s.streams
  }

  /** Events of the gateway that are none of a stream's connection, and no messages to clients. */
  predicate Apart(s: Scene, e: Lifecycle.Event) {
    match e
    case Start(_, _) => true
    case Said(c, _) => c !in s.streams
    case Topic(cmd) => !cmd.Publish? && !(cmd.Disconnect? && cmd.conn in s.streams)
    case _ => true
  }

  /** What a step of a stream is to the gateway: a body is a message of the client, and with the
      stream the connection ends. */
  function Consequences(c: Connection, before: Stream, after: Stream): seq<Lifecycle.Event> {
    (if |after.forwarded| > |before.forwarded|
     then [Lifecycle.Said(c, after.forwarded[|after.forwarded| - 1])] else [])
    + if before.open && !after.open then [Lifecycle.Topic(TopicGraph.Disconnect(c))] else []
  }

  /** Some connections go, one after the other. */
  ghost predicate Farewells(gs: seq<Lifecycle.Event>, gone: set<Connection>) {
    && (forall i :: 0 <= i < |gs| ==> gs[i].Topic? && gs[i].cmd.Disconnect? && gs[i].cmd.conn in gone)
    && (forall i, j :: 0 <= i < j < |gs| ==> gs[i] != gs[j])
    && (forall c <- gone :: Lifecycle.Topic(TopicGraph.Disconnect(c)) in gs)
  }

  /** What an event is to the gateway. */
  ghost predicate Acts(s: Scene, e: Event, gs: seq<Lifecycle.Event>) {
    match e
    case Come(c, random) => gs == [Lifecycle.Start(c, random)]
    case Polled(c, _) =>
      gs == if OfStream(s, e) then Consequences(c, s.streams[c], StreamsAfter(s, e)[c]) else []
    case Publish(name, _, shut) => gs == [Lifecycle.Topic(TopicGraph.Publish(name, FullOnes(s, shut)))]
    case Other(event) => gs == if Apart(s, event) then [event] else []
    case _ => Farewells(gs, Reached(s, e) * FullOnes(s, e.shut))
  }

  /** The gateway's part in an event. */
  datatype Part = Part(gs: seq<Lifecycle.Event>, ms: seq<Lifecycle.Model>, ess: seq<seq<Ports.Event>>)

  ghost predicate Moves(s: Scene, e: Event, p: Part, t: Scene) {
    && Acts(s, e, p.gs) && Lifecycle.Chronicle(p.ms, p.gs, p.ess) && p.ms[0] == s.gate
    && t == Scene(s.limit, p.ms[|p.gs|], StreamsAfter(s, e))
  }

  // ----- what events keep -----

  /** A connection that polls is connected exactly as long as its stream is open. */
  ghost predicate Agree(s: Scene) {
    && Lifecycle.Healthy(s.gate)
    && forall c <- s.streams ::
         CometStream.Sound(s.streams[c]) && c in s.gate.net.known && (s.streams[c].open <==> c in s.gate.net.live)
  }

  /** The connections that some events take away. */
  ghost function Departed(gs: seq<Lifecycle.Event>): set<Connection> {
    set g | g in gs && g.Topic? && g.cmd.Disconnect? :: g.cmd.conn
  }

  lemma DepartedStep(gs: seq<Lifecycle.Event>, k: nat)
    requires k < |gs| && (gs[k].Said? || (gs[k].Topic? && gs[k].cmd.Disconnect?))
    ensures Departed(gs[..k + 1]) == Departed(gs[..k]) + if gs[k].Topic? then {gs[k].cmd.conn} else {}
  {
    assert gs[..k + 1] == gs[..k] + [gs[k]];
  }

  ghost predicate OnlyGoing(gs: seq<Lifecycle.Event>) {
    forall i :: 0 <= i < |gs| ==> gs[i].Said? || (gs[i].Topic? && gs[i].cmd.Disconnect?)
  }

  /** After messages and departures, those that departed are not connected any more. */
  lemma {:induction false} Leaves(p: Part, k: nat)
    requires Lifecycle.Chronicle(p.ms, p.gs, p.ess) && Lifecycle.Healthy(p.ms[0]) && OnlyGoing(p.gs) && k <= |p.gs|
    ensures Lifecycle.Healthy(p.ms[k]) && p.ms[k].net.known == p.ms[0].net.known
    ensures p.ms[k].net.live == p.ms[0].net.live - Departed(p.gs[..k])
  {
    hide Lifecycle.Healthy, Lifecycle.Causes, Lifecycle.Afterwards, Lifecycle.Gone, Departed;
    Lifecycle.RunsStayHealthy(p.ms, p.gs, p.ess, k);
    if k == 0 {
      NobodyDeparted(p.gs);
    } else {
      Leaves(p, k - 1);
      var m, g := p.ms[k - 1], p.gs[k - 1];
      Lifecycle.LiveExactly(m, g, p.ess[k - 1]);
      if g.Topic? { Lifecycle.GoneBy(m, g.cmd); } else { Lifecycle.NothingLeaves(m, g); }
      DepartedStep(p.gs, k - 1);
    }
  }

  lemma NobodyDeparted(gs: seq<Lifecycle.Event>)
    ensures Departed(gs[..0]) == {}
  {
  }

  /** A part of one event. */
  lemma OneStep(p: Part)
    requires Lifecycle.Chronicle(p.ms, p.gs, p.ess) && Lifecycle.Healthy(p.ms[0]) && |p.gs| == 1
    ensures Lifecycle.Healthy(p.ms[1]) && p.ms[0].net.live <= p.ms[0].net.known
    ensures var m, n, g := p.ms[0], p.ms[1].net, p.gs[0];
      if g.Start? && g.conn !in m.net.known && |m.net.live| < m.slots
      then n.live == m.net.live + {g.conn} && n.known == m.net.known + {g.conn}
      else n.live == m.net.live - Lifecycle.Gone(m, g) && n.known == m.net.known
  {
    hide Lifecycle.Healthy, Lifecycle.Causes, Lifecycle.Afterwards, Lifecycle.Gone;
    Lifecycle.RunsStayHealthy(p.ms, p.gs, p.ess, 1);
    Lifecycle.LiveExactly(p.ms[0], p.gs[0], p.ess[0]);
    Lifecycle.Settles(p.ms[0]);
  }

  /** Closed streams stay closed, and a message closes exactly the full ones. */
  lemma StreamStep(t: Stream, e: CometStream.Event)
    requires CometStream.Sound(t)
    ensures CometStream.Sound(CometStream.Step(t, e))
    ensures CometStream.Step(t, e).open ==> t.open
    ensures e.Push? ==> (CometStream.Step(t, e).open <==> t.open && !Full(t))
  {
    hide CometStream.Receive;
    CometStream.StepSound(t, e);
    if e.Arrive? { ReceiveCloses(t, e.r); }
  }

  lemma ReceiveCloses(t: Stream, r: CometStream.Request)
    ensures CometStream.Receive(t, r).open ==> t.open
  {
    hide CometStream.Acknowledge;
  }

  lemma ConnectAgrees(s: Scene, e: Event, p: Part, t: Scene)
    requires Agree(s) && Moves(s, e, p, t) && e.Come?
    ensures Agree(t)
  {
    hide Lifecycle.Healthy, Lifecycle.Chronicle, CometStream.Sound;
    OneStep(p);
    Lifecycle.NothingLeaves(s.gate, p.gs[0]);
    StartSound(s.limit);
  }

  lemma StartSound(limit: nat)
    ensures CometStream.Sound(CometStream.Start(limit)) && CometStream.Start(limit).open
  {
  }

  lemma PolledAgrees(s: Scene, e: Event, p: Part, t: Scene)
    requires Agree(s) && Moves(s, e, p, t) && e.Polled?
    ensures Agree(t)
  {
    hide Lifecycle.Healthy, Lifecycle.Chronicle, CometStream.Sound, CometStream.Step;
    Leaves(p, |p.gs|);
    assert p.gs[..|p.gs|] == p.gs;
    if OfStream(s, e) {
      StreamStep(s.streams[e.conn], e.step);
    }
  }

  lemma MessageAgrees(s: Scene, e: Event, p: Part, t: Scene, gone: set<Connection>)
    requires Agree(s) && Moves(s, e, p, t) && IsMessage(e)
    requires Lifecycle.Healthy(t.gate) && t.gate.net.known == s.gate.net.known
    requires t.gate.net.live == s.gate.net.live - gone
    requires gone == Reached(s, e) * FullOnes(s, e.shut)
    ensures Agree(t)
  {
    hide Lifecycle.Healthy, Lifecycle.Chronicle, CometStream.Sound, CometStream.Step, Acts, Full, Reached;
    forall c <- s.streams ensures CometStream.Sound(t.streams[c]) && (t.streams[c].open <==> c in t.gate.net.live) {
      StreamStep(s.streams[c], CometStream.Push(e.data));
    }
  }

  lemma FarewellsDepart(gs: seq<Lifecycle.Event>, gone: set<Connection>)
    requires Farewells(gs, gone)
    ensures OnlyGoing(gs) && Departed(gs) == gone
  {
  }

  lemma OtherAgrees(s: Scene, e: Event, p: Part, t: Scene)
    requires Agree(s) && Moves(s, e, p, t) && e.Other?
    ensures Agree(t)
  {
    hide Lifecycle.Healthy, Lifecycle.Chronicle, CometStream.Sound, CometStream.Step;
    if Apart(s, e.event) {
      OneStep(p);
      if e.event.Topic? {
        Lifecycle.GoneBy(s.gate, e.event.cmd);
      } else {
        Lifecycle.NothingLeaves(s.gate, e.event);
      }
    } else {
      PartOf(p);
    }
  }

  lemma PartOf(p: Part)
    requires Lifecycle.Chronicle(p.ms, p.gs, p.ess)
    ensures |p.ms| == |p.gs| + 1
  {
  }

  lemma PublishGoes(s: Scene, e: Event, p: Part)
    requires Agree(s) && e.Publish? && Acts(s, e, p.gs)
    requires Lifecycle.Chronicle(p.ms, p.gs, p.ess) && p.ms[0] == s.gate
    ensures Lifecycle.Healthy(p.ms[1]) && p.ms[1].net.known == s.gate.net.known
    ensures p.ms[1].net.live == s.gate.net.live - Reached(s, e) * FullOnes(s, e.shut)
  {
    hide Lifecycle.Healthy, Lifecycle.Chronicle, FullOnes;
    OneStep(p);
    Lifecycle.GoneBy(s.gate, p.gs[0].cmd);
  }

  lemma MovesAgree(s: Scene, e: Event, p: Part, t: Scene)
    requires Agree(s) && Moves(s, e, p, t)
    ensures Agree(t)
  {
    hide Lifecycle.Healthy, Lifecycle.Chronicle, Agree, StreamsAfter, Reached, FullOnes;
    match e
    case Come(_, _) => ConnectAgrees(s, e, p, t);
    case Polled(_, _) => PolledAgrees(s, e, p, t);
    case Other(_) => OtherAgrees(s, e, p, t);
    case Publish(_, _, shut) =>
      PublishGoes(s, e, p);
      MessageAgrees(s, e, p, t, Reached(s, e) * FullOnes(s, shut));
    case _ => SendAgrees(s, e, p, t);
  }

  lemma SendAgrees(s: Scene, e: Event, p: Part, t: Scene)
    requires Agree(s) && Moves(s, e, p, t) && (e.Send? || e.SendAll?)
    ensures Agree(t)
  {
    hide Lifecycle.Healthy, Lifecycle.Chronicle, Reached, FullOnes, Farewells, Departed;
    var gone := Reached(s, e) * FullOnes(s, e.shut);
    FarewellsDepart(p.gs, gone);
    Leaves(p, |p.gs|);
    assert p.gs[..|p.gs|] == p.gs;
    MessageAgrees(s, e, p, t, gone);
  }

  // ----- runs -----

  ghost predicate Story(ss: seq<Scene>, events: seq<Event>, parts: seq<Part>) {
    && |ss| == |events| + 1 && |parts| == |events|
    && forall i :: 0 <= i < |events| ==> Moves(ss[i], events[i], parts[i], ss[i + 1])
  }

  lemma {:induction false} RunsAgree(ss: seq<Scene>, events: seq<Event>, parts: seq<Part>, k: nat)
    requires Story(ss, events, parts) && Agree(ss[0]) && k < |ss|
    ensures Agree(ss[k])
  {
    hide Agree, Moves;
    if k > 0 {
      RunsAgree(ss, events, parts, k - 1);
      MovesAgree(ss[k - 1], events[k - 1], parts[k - 1], ss[k]);
    }
  }

  /** What an event is to one stream. */
  ghost function Seen(s: Scene, e: Event, c: Connection): seq<CometStream.Event> {
    if OfStream(s, e) && e.conn == c then [e.step]
    else if IsMessage(e) && c in Reached(s, e) then [CometStream.Push(e.data)]
    else []
  }

  /** What some events of a run are to one stream. */
  ghost function SeenBy(ss: seq<Scene>, events: seq<Event>, c: Connection, i: nat, j: nat): seq<CometStream.Event>
    requires i <= j <= |events| <= |ss|
    decreases j
  {
    if i == j then [] else SeenBy(ss, events, c, i, j - 1) + Seen(ss[j - 1], events[j - 1], c)
  }

  /** In every run each stream goes its own way: it is what the events that concern it make of it,
      whatever happens to the others, to topics, outputs and sockets. */
  lemma {:induction false} EachStreamAlone(ss: seq<Scene>, events: seq<Event>, parts: seq<Part>,
                                           c: Connection, i: nat, j: nat)
    requires Story(ss, events, parts) && Agree(ss[0]) && i <= j < |ss| && c in ss[i].streams
    ensures c in ss[j].streams
    ensures ss[j].streams[c] == CometStream.Run(ss[i].streams[c], SeenBy(ss, events, c, i, j))
    decreases j
  {
    hide Agree, Acts, CometStream.Step, Reached, CometStream.Run, Seen;
    if i == j {
      CometStream.RunNone(ss[i].streams[c], []);
      assert SeenBy(ss, events, c, i, j)[..0] == SeenBy(ss, events, c, i, j);
    } else {
      EachStreamAlone(ss, events, parts, c, i, j - 1);
      RunsAgree(ss, events, parts, j - 1);
      OneStream(ss[j - 1], events[j - 1], c);
      RunOn(ss[i].streams[c], SeenBy(ss, events, c, i, j - 1), Seen(ss[j - 1], events[j - 1], c));
    }
  }

  lemma ReachedLive(s: Scene, e: Event)
    ensures Reached(s, e) <= s.gate.net.live
  {
  }

  lemma OneStream(s: Scene, e: Event, c: Connection)
    requires Agree(s) && c in s.streams
    ensures c in StreamsAfter(s, e) && |Seen(s, e, c)| <= 1
    ensures StreamsAfter(s, e)[c] ==
      if Seen(s, e, c) == [] then s.streams[c] else CometStream.Step(s.streams[c], Seen(s, e, c)[0])
  {
    hide Lifecycle.Healthy, CometStream.Sound, CometStream.Step, Reached;
  }

  lemma RunOn(t: Stream, events: seq<CometStream.Event>, more: seq<CometStream.Event>)
    requires |more| <= 1
    ensures CometStream.Run(t, events + more) ==
      if more == [] then CometStream.Run(t, events) else CometStream.Step(CometStream.Run(t, events), more[0])
  {
    hide CometStream.Step;
    if more == [] {
      assert events + more == events;
    } else {
      assert (events + more)[..|events|] == events;
    }
  }

  /** A message takes exactly those connections away that it reaches and that it would close. */
  lemma MessageGoes(s: Scene, e: Event, p: Part, t: Scene)
    requires Agree(s) && Moves(s, e, p, t) && IsMessage(e)
    ensures t.gate.net.live == s.gate.net.live - Reached(s, e) * FullOnes(s, e.shut)
  {
    hide Lifecycle.Healthy, Lifecycle.Chronicle, Reached, FullOnes, Farewells, Departed;
    if e.Publish? {
      PublishGoes(s, e, p);
    } else {
      FarewellsDepart(p.gs, Reached(s, e) * FullOnes(s, e.shut));
      Leaves(p, |p.gs|);
      assert p.gs[..|p.gs|] == p.gs;
    }
  }

  /** A WebSocket that a message is for stays connected unless the message closes it, and every other
      one stays connected. */
  lemma MessageToSockets(s: Scene, e: Event, p: Part, t: Scene, c: Connection)
    requires Agree(s) && Moves(s, e, p, t) && IsMessage(e) && c !in s.streams
    ensures c in t.gate.net.live <==> c in s.gate.net.live && !(Addressed(s, e, c) && c in e.shut)
  {
    hide Lifecycle.Healthy, Lifecycle.Chronicle, Acts, Agree, StreamsAfter;
    MessageGoes(s, e, p, t);
  }

  /** What concerns no polling client, and is no message to clients, goes to the gateway as it is. */
  lemma OthersPass(s: Scene, e: Event, p: Part, t: Scene)
    requires Moves(s, e, p, t) && e.Other?
    requires !(e.event.Said? && e.event.conn in s.streams)
    requires !(e.event.Topic? && (e.event.cmd.Publish? || (e.event.cmd.Disconnect? && e.event.cmd.conn in s.streams)))
    ensures p.gs == [e.event] && t.streams == s.streams
  {
  }

  /** A polling client that comes when there is a slot is connected with an empty stream; another one
      gets none. */
  lemma ComingHasStream(s: Scene, e: Event, p: Part, t: Scene)
    requires Agree(s) && Moves(s, e, p, t) && e.Come?
    ensures if e.conn !in s.gate.net.known && |s.gate.net.live| < s.gate.slots
      then t.streams == s.streams[e.conn := CometStream.Start(s.limit)] && e.conn in t.gate.net.live
      else t.streams == s.streams && t.gate.net.live == s.gate.net.live
  {
    hide Lifecycle.Healthy, Lifecycle.Chronicle, CometStream.Sound;
    OneStep(p);
    Lifecycle.NothingLeaves(s.gate, p.gs[0]);
  }

  /** A message is for a connected client: it is published under a name that the client is
      subscribed to, sent to the client, or sent to all. */
  ghost predicate Addressed(s: Scene, e: Event, c: Connection) {
    && c in s.gate.net.live
    && ((e.Publish? && (c, e.name) in s.gate.rel) || (e.Send? && e.conn == c) || e.SendAll?)
  }

  /** A message to a connection that polls is queued for it, or ends it if its queue is full; the
      streams of others stay as they are. */
  lemma MessageIsQueued(s: Scene, e: Event, p: Part, t: Scene, c: Connection)
    requires Agree(s) && Moves(s, e, p, t) && IsMessage(e) && c in s.streams
    ensures c in t.streams
    ensures !Addressed(s, e, c) ==> t.streams[c] == s.streams[c]
    ensures Addressed(s, e, c) && |s.streams[c].queue| < s.streams[c].capacity ==>
      t.streams[c].queue == s.streams[c].queue + [e.data] && t.streams[c].open && c in t.gate.net.live
    ensures Addressed(s, e, c) && |s.streams[c].queue| >= s.streams[c].capacity ==>
      !t.streams[c].open && c !in t.gate.net.live
  {
    hide Lifecycle.Healthy, Lifecycle.Chronicle, Acts, CometStream.Receive;
    MovesAgree(s, e, p, t);
    StreamStep(s.streams[c], CometStream.Push(e.data));
  }

  ghost predicate PolledBy(before: map<Connection, Stream>, c: Connection, step: CometStream.Event,
                           after: map<Connection, Stream>, gs: seq<Lifecycle.Event>)
  {
    if c in before && !step.Push?
    then after == before[c := CometStream.Step(before[c], step)] && gs == Consequences(c, before[c], after[c])
    else after == before && gs == []
  }

  lemma PollActs(s: Scene, c: Connection, step: CometStream.Event, after: map<Connection, Stream>,
                 gs: seq<Lifecycle.Event>)
    requires PolledBy(s.streams, c, step, after, gs)
    ensures Acts(s, Polled(c, step), gs) && after == StreamsAfter(s, Polled(c, step))
    ensures Lifecycle.Comers(gs) == {} && forall g <- gs :: !g.Start?
  {
    hide CometStream.Step;
  }

  lemma NoFarewells(cs: seq<Connection>, full: set<Connection>)
    ensures Farewells([], Elements(cs[..0]) * full)
  {
  }

  lemma MoreFarewells(gs: seq<Lifecycle.Event>, cs: seq<Connection>, i: nat, full: set<Connection>)
    requires Distinct(cs) && i < |cs| && Farewells(gs, Elements(cs[..i]) * full)
    ensures var g := Lifecycle.Topic(TopicGraph.Disconnect(cs[i]));
      Farewells(if cs[i] in full then gs + [g] else gs, Elements(cs[..i + 1]) * full)
  {
    var g := Lifecycle.Topic(TopicGraph.Disconnect(cs[i]));
    assert cs[..i + 1] == cs[..i] + [cs[i]];
    assert cs[i] !in Elements(cs[..i]);
    assert forall c <- Elements(cs[..i]) * full :: Lifecycle.Topic(TopicGraph.Disconnect(c)) in gs + [g];
  }

  lemma MessageActs(s: Scene, e: Event, after: map<Connection, Stream>, gs: seq<Lifecycle.Event>, gone: set<Connection>)
    requires e.Send? || e.SendAll?
    requires Farewells(gs, gone) && gone == Reached(s, e) * FullOnes(s, e.shut)
    requires after == Pushed(s.streams, Reached(s, e), e.data)
    ensures Acts(s, e, gs) && after == StreamsAfter(s, e)
    ensures Lifecycle.Comers(gs) == {} && forall g <- gs :: !g.Start?
  {
    hide Pushed, Reached, FullOnes;
  }

  lemma SendReaches(s: Scene, c: Connection, data: Bytes, shut: set<Connection>, cs: seq<Connection>)
    requires cs == if c in s.gate.net.live then [c] else []
    ensures Distinct(cs) && Elements(cs) == Reached(s, Send(c, data, shut))
  {
  }

  lemma AllReached(s: Scene, data: Bytes, shut: set<Connection>)
    ensures Reached(s, SendAll(data, shut)) == s.gate.net.live
  {
  }

  lemma PublishActs(s: Scene, name: Bytes, data: Bytes, shut: set<Connection>, full: set<Connection>)
    requires full == FullOnes(s, shut)
    ensures var g := Lifecycle.Topic(TopicGraph.Publish(name, full));
      && Acts(s, Publish(name, data, shut), [g]) && Lifecycle.Comers([g]) == {}
      && Lifecycle.Messaged(s.gate, g) == Reached(s, Publish(name, data, shut))
  {
    hide FullOnes;
  }

  lemma NobodyCame(g: Lifecycle.Event)
    ensures !g.Start? ==> Lifecycle.Comers([g]) == {}
  {
  }

  lemma PublishMoves(s: Scene, name: Bytes, data: Bytes, shut: set<Connection>, full: set<Connection>,
                     m: Lifecycle.Model, es: seq<Ports.Event>, t: Scene) returns (p: Part)
    requires s.gate.net.forward in s.gate.net.ports && full == FullOnes(s, shut)
    requires var g := Lifecycle.Topic(TopicGraph.Publish(name, full));
      && Lifecycle.Causes(s.gate, g, es) && m == Lifecycle.Afterwards(s.gate, g, es)
      && t == Scene(s.limit, m, Pushed(s.streams, Lifecycle.Messaged(s.gate, g), data))
    ensures Moves(s, Publish(name, data, shut), p, t)
  {
    hide FullOnes, Lifecycle.Causes, Lifecycle.Afterwards, Lifecycle.Messaged, Pushed, Reached;
    var g := Lifecycle.Topic(TopicGraph.Publish(name, full));
    PublishActs(s, name, data, shut, full);
    Lifecycle.NoEvents(s.gate, [g]);
    Lifecycle.OneMore([s.gate], [g], 0, [], m, es);
    assert [g][..1] == [g] && [g][..0] == [] && [s.gate] + [m] == [s.gate, m] && [] + [es] == [es];
    p := Part([g], [s.gate, m], [es]);
  }

  lemma PassActs(s: Scene, g: Lifecycle.Event, concerns: bool)
    requires concerns <==>
      || (g.Said? && g.conn in s.streams)
      || (g.Topic? && (g.cmd.Publish? || (g.cmd.Disconnect? && g.cmd.conn in s.streams)))
    ensures var gs := if concerns then [] else [g];
      Acts(s, Other(g), gs) && StreamsAfter(s, Other(g)) == s.streams && Lifecycle.Comers(gs) <= Lifecycle.Comers([g])
  {
  }

  lemma Moved(s: Scene, e: Event, p: Part, t: Scene)
    requires Acts(s, e, p.gs) && Lifecycle.Chronicle(p.ms, p.gs, p.ess) && |p.ms| == |p.gs| + 1
    requires p.ms[0] == s.gate && t.limit == s.limit && t.gate == p.ms[|p.gs|] && t.streams == StreamsAfter(s, e)
    ensures Moves(s, e, p, t)
  {
  }

  lemma StartComes(c: Connection, random: Bytes)
    ensures Lifecycle.Comers([Lifecycle.Start(c, random)]) == {c}
  {
  }

  lemma ConnectAdmits(s: Scene, c: Connection, random: Bytes, p: Part)
    requires Agree(s) && p.gs == [Lifecycle.Start(c, random)] && |p.ms| == 2 && p.ms[0] == s.gate
    requires Lifecycle.Chronicle(p.ms, p.gs, p.ess)
    ensures Acts(s, Come(c, random), p.gs)
    ensures Admitted(s, Come(c, random)) <==> c !in s.gate.net.known && c in p.ms[1].net.live
    ensures StreamsAfter(s, Come(c, random)) ==
      if c !in s.gate.net.known && c in p.ms[1].net.live then s.streams[c := CometStream.Start(s.limit)] else s.streams
  {
    hide Lifecycle.Healthy, Lifecycle.Chronicle, CometStream.Sound;
    OneStep(p);
    Lifecycle.NothingLeaves(s.gate, p.gs[0]);
  }

  /** Random bytes are as many as an id holds. */
  predicate Random(e: Event) {
    match e
    case Come(_, random) => |random| == Identity.NRANDOM
    case Other(g) => g.Start? ==> |g.random| == Identity.NRANDOM
    case _ => true
  }

  /** The connections that come during a run. */
  ghost function Newcomers(events: seq<Event>): set<Connection> {
    (set e | e in events && e.Come? :: e.conn)
    + (set e | e in events && e.Other? && e.event.Start? :: e.event.conn)
  }

  lemma NewcomersHave(events: seq<Event>, i: nat)
    requires i < |events|
    ensures Newcomers([events[i]]) <= Newcomers(events) && events[i] in events
  {
    assert events[i] in events;
  }

  lemma Coming(e: Event)
    ensures e.Come? ==> Newcomers([e]) == {e.conn}
    ensures e.Other? ==> Newcomers([e]) == Lifecycle.Comers([e.event])
    ensures match e
            case Come(_, random) => Random(e) <==> |random| == Identity.NRANDOM
            case Other(g) => Random(e) <==> (g.Start? ==> |g.random| == Identity.NRANDOM)
            case _ => true
  {
  }

  lemma NoStory(s: Scene, events: seq<Event>)
    ensures Story([s], events[..0], [])
  {
  }

  lemma MoreStory(ss: seq<Scene>, events: seq<Event>, i: nat, parts: seq<Part>, t: Scene, p: Part)
    requires i < |events| && Story(ss, events[..i], parts) && Moves(ss[i], events[i], p, t)
    ensures Story(ss + [t], events[..i + 1], parts + [p])
  {
    hide Moves;
  }

  // ----- the hub -----

  class Hub {
    const limit: nat
    const gateway: Gateway.Gateway
    var streams: map<Connection, Comet.Connection>

    ghost function Streams(): map<Connection, Stream>
      reads this, streams.Values
    {
      map c | c in streams :: streams[c].State()
    }

    ghost function State(): Scene
      requires |gateway.backend.sockets| > 0
      reads this, streams.Values
      reads gateway, gateway.registry, gateway.registry.sieve, gateway.route, gateway.board
      reads gateway.board.outs`socket, gateway.backend, gateway.backend.known`uid
      reads gateway.backend.sockets`accepted, gateway.backend.sockets`sent, gateway.backend.sockets`outcomes
    {
      Scene(limit, gateway.State(), Streams())
    }

    ghost predicate OwnStreams()
      reads this
    {
      forall c <- streams, d <- streams :: c != d ==> streams[c] != streams[d]
    }

    ghost predicate Valid()
      reads this, streams.Values
      reads gateway, gateway.registry, gateway.registry.sieve, gateway.registry.sieve.items
      reads gateway.route, gateway.route.topics, gateway.route.conns`subscribers
      reads gateway.board, gateway.board.conns`outputs, gateway.board.sockets`outputs, gateway.board.outs`socket
      reads gateway.backend, gateway.backend.conns`refcnt, gateway.backend.known`uid
      reads gateway.backend.sockets`accepted, gateway.backend.sockets`sent, gateway.backend.sockets`queue
      reads gateway.backend.sockets`messages, gateway.backend.sockets`wire, gateway.backend.sockets`outcomes
    {
      gateway.Valid() && |gateway.backend.sockets| > 0 && OwnStreams() && Agree(State())
    }

    constructor (limit: nat, gateway: Gateway.Gateway)
      requires gateway.Valid() && |gateway.backend.sockets| > 0 && Lifecycle.Healthy(gateway.State())
      ensures Valid() && streams == map[] && this.gateway == gateway && this.limit == limit
    {
      hide *;
      this.limit, this.gateway, streams := limit, gateway, map[];
      new;
      NoStreams();
    }

    lemma NoStreams()
      requires gateway.Valid() && |gateway.backend.sockets| > 0 && Lifecycle.Healthy(gateway.State())
      requires streams == map[]
      ensures Valid()
    {
      hide Gateway.Gateway.Valid, Gateway.Gateway.State, Lifecycle.Healthy;
    }

    lemma Pieces()
      ensures Valid() <==> gateway.Valid() && |gateway.backend.sockets| > 0 && OwnStreams() && Agree(State())
      ensures |gateway.backend.sockets| > 0 ==> State() == Scene(limit, gateway.State(), Streams())
    {
    }

    lemma StreamsAre()
      ensures Streams().Keys == streams.Keys && forall c <- streams :: Streams()[c] == streams[c].State()
    {
    }

    /** Pushes a message to the streams of some connections. */
    method PushAll(cs: seq<Connection>, data: Bytes)
      requires Distinct(cs) && OwnStreams()
      requires forall c <- streams :: CometStream.Sound(streams[c].State())
      modifies streams.Values
      ensures Streams() == Pushed(old(Streams()), Elements(cs), data)
    {
      hide CometStream.Sound, CometStream.Step;
      ghost var before := Streams();
      for i := 0 to |cs|
        invariant forall c <- streams ::
          streams[c].State() ==
            (if c in cs[..i] then CometStream.Step(before[c], CometStream.Push(data)) else before[c])
      {
        if cs[i] in streams { streams[cs[i]].Handle(CometStream.Push(data)); }
      }
      assert cs[..|cs|] == cs;
    }

    /** The connections that a message would close. */
    method Fulls(shut: set<Connection>) returns (full: set<Connection>)
      requires |gateway.backend.sockets| > 0
      ensures full == FullOnes(State(), shut)
    {
      full := (set c | c in streams && |streams[c].queue| >= streams[c].capacity) + (shut - streams.Keys);
    }

    /** Events of the gateway that no stream sees. */
    method Gate(gs: seq<Lifecycle.Event>) returns (ghost p: Part)
      requires gateway.Valid() && forall g <- gs :: g.Start? ==> |g.random| == Identity.NRANDOM
      modifies gateway, gateway.registry, gateway.registry.sieve, gateway.registry.sieve.items
      modifies gateway.route, gateway.route.topics, gateway.board, gateway.board.outs
      modifies gateway.backend, gateway.backend.sockets, gateway.backend.known + Lifecycle.Comers(gs)
      ensures gateway.Valid() && |gateway.backend.sockets| > 0 && Streams() == old(Streams())
      ensures p.gs == gs && Lifecycle.Chronicle(p.ms, gs, p.ess) && |p.ms| == |gs| + 1
      ensures p.ms[0] == old(gateway.State()) && p.ms[|gs|] == gateway.State()
      ensures gateway.backend.known <= old(gateway.backend.known) + Lifecycle.Comers(gs)
      ensures gateway.registry.sieve.items == old(gateway.registry.sieve.items)
      ensures fresh(gateway.route.topics - old(gateway.route.topics))
      ensures fresh(gateway.board.outs - old(gateway.board.outs))
    {
      hide *;
      ghost var before := Streams();
      ghost var ms, ess;
      ms, ess := gateway.ExecuteAll(gs);
      p := Part(gs, ms, ess);
      assert Streams() == before;
    }

    static lemma FieldsOf(t: Comet.Connection)
      ensures t.State().forwarded == t.forwarded && t.State().open == t.open
      ensures t.State().queue == t.queue && t.State().capacity == t.capacity
    {
    }

    /** A request or a timer of one stream. */
    method Touch(c: Connection, step: CometStream.Event)
      requires c in streams && OwnStreams() && CometStream.Sound(streams[c].State())
      modifies streams[c]
      ensures Streams() == old(Streams())[c := CometStream.Step(old(Streams())[c], step)]
    {
      hide CometStream.Sound, CometStream.Step;
      streams[c].Handle(step);
    }

    lemma SoundOnes()
      requires Valid()
      ensures forall c <- streams :: CometStream.Sound(streams[c].State())
      ensures |gateway.backend.sockets| > 0 && gateway.Valid() && OwnStreams() && Agree(State())
      ensures State() == Scene(limit, gateway.State(), Streams()) && Lifecycle.Healthy(State().gate)
    {
      hide Lifecycle.Healthy, CometStream.Sound, Gateway.Gateway.Valid, Gateway.Gateway.State;
      StreamsAre();
      forall c <- streams ensures CometStream.Sound(streams[c].State()) {
        assert c in State().streams;
      }
    }

    lemma ValidAgain(s: Scene, e: Event, p: Part)
      requires gateway.Valid() && |gateway.backend.sockets| > 0 && OwnStreams() && Agree(s)
      requires Moves(s, e, p, State())
      ensures Valid()
    {
      hide *;
      MovesAgree(s, e, p, State());
      Pieces();
    }

    /** A request or a timer of a stream, and what it is to the gateway. */
    method Serve(c: Connection, step: CometStream.Event) returns (gs: seq<Lifecycle.Event>)
      requires OwnStreams() && forall c <- streams :: CometStream.Sound(streams[c].State())
      modifies streams.Values
      ensures PolledBy(old(Streams()), c, step, Streams(), gs)
    {
      hide CometStream.Sound, CometStream.Step;
      gs := [];
      if c in streams && !step.Push? {
        var t := streams[c];
        var size, open := |t.forwarded|, t.open;
        Touch(c, step);
        if |t.forwarded| > size { gs := gs + [Lifecycle.Said(c, t.forwarded[|t.forwarded| - 1])]; }
        if open && !t.open { gs := gs + [Lifecycle.Topic(TopicGraph.Disconnect(c))]; }
      }
    }

    /** The gateway's part of an event whose part for the streams is done. */
    method Conclude(ghost s: Scene, ghost e: Event, gs: seq<Lifecycle.Event>) returns (ghost p: Part)
      requires gateway.Valid() && |gateway.backend.sockets| > 0 && OwnStreams() && Agree(s)
      requires s.gate == gateway.State() && s.limit == limit
      requires Acts(s, e, gs) && Streams() == StreamsAfter(s, e)
      requires forall g <- gs :: g.Start? ==> |g.random| == Identity.NRANDOM
      modifies gateway, gateway.registry, gateway.registry.sieve, gateway.registry.sieve.items
      modifies gateway.route, gateway.route.topics, gateway.board, gateway.board.outs
      modifies gateway.backend, gateway.backend.sockets, gateway.backend.known + Lifecycle.Comers(gs)
      ensures Valid() && |gateway.backend.sockets| > 0 && Moves(s, e, p, State())
      ensures gateway.backend.known <= old(gateway.backend.known) + Lifecycle.Comers(gs)
      ensures gateway.registry.sieve.items == old(gateway.registry.sieve.items)
      ensures fresh(gateway.route.topics - old(gateway.route.topics))
      ensures fresh(gateway.board.outs - old(gateway.board.outs))
    {
      hide *;
      p := Gate(gs);
      Pieces();
      Moved(s, e, p, State());
      ValidAgain(s, e, p);
    }

    /** A polling client's request, or one of its timers: what it says goes to the backend, and when
        its stream closes it leaves the gateway. */
    method Poll(c: Connection, step: CometStream.Event) returns (ghost p: Part)
      requires Valid()
      modifies streams.Values
      modifies gateway, gateway.registry, gateway.registry.sieve, gateway.registry.sieve.items
      modifies gateway.route, gateway.route.topics, gateway.board, gateway.board.outs
      modifies gateway.backend, gateway.backend.sockets, gateway.backend.known
      ensures Valid() && |gateway.backend.sockets| > 0
      ensures Moves(old(State()), Polled(c, step), p, State())
      ensures gateway.backend.known <= old(gateway.backend.known)
      ensures gateway.registry.sieve.items == old(gateway.registry.sieve.items)
      ensures fresh(gateway.route.topics - old(gateway.route.topics))
      ensures fresh(gateway.board.outs - old(gateway.board.outs))
    {
      hide *;
      SoundOnes();
      ghost var s := State();
      var gs := Serve(c, step);
      PollActs(s, c, step, Streams(), gs);
      p := Conclude(s, Polled(c, step), gs);
    }

    /** The farewells of those that a message closes. */
    method Closing(cs: seq<Connection>, full: set<Connection>) returns (gs: seq<Lifecycle.Event>)
      requires Distinct(cs)
      ensures Farewells(gs, Elements(cs) * full)
    {
      hide *;
      gs := [];
      NoFarewells(cs, full);
      for i := 0 to |cs|
        invariant Farewells(gs, Elements(cs[..i]) * full)
      {
        MoreFarewells(gs, cs, i, full);
        if cs[i] in full { gs := gs + [Lifecycle.Topic(TopicGraph.Disconnect(cs[i]))]; }
      }
      assert cs[..|cs|] == cs;
    }

    /** Pushes a message to the streams of some connections; those that are full say farewell. */
    method Deliver(cs: seq<Connection>, data: Bytes, shut: set<Connection>) returns (gs: seq<Lifecycle.Event>)
      requires Distinct(cs) && OwnStreams() && |gateway.backend.sockets| > 0
      requires forall c <- streams :: CometStream.Sound(streams[c].State())
      modifies streams.Values
      ensures Streams() == Pushed(old(Streams()), Elements(cs), data)
      ensures Farewells(gs, Elements(cs) * FullOnes(old(State()), shut))
    {
      hide *;
      var full := Fulls(shut);
      gs := Closing(cs, full);
      PushAll(cs, data);
    }

    /** A message to one connection, or to all of them. */
    method Message(cs: seq<Connection>, data: Bytes, shut: set<Connection>, ghost e: Event) returns (ghost p: Part)
      requires Valid() && Distinct(cs) && Elements(cs) == Reached(State(), e)
      requires (e.Send? || e.SendAll?) && e.data == data && e.shut == shut
      modifies streams.Values
      modifies gateway, gateway.registry, gateway.registry.sieve, gateway.registry.sieve.items
      modifies gateway.route, gateway.route.topics, gateway.board, gateway.board.outs
      modifies gateway.backend, gateway.backend.sockets, gateway.backend.known
      ensures Valid() && |gateway.backend.sockets| > 0 && Moves(old(State()), e, p, State())
      ensures gateway.backend.known <= old(gateway.backend.known)
      ensures gateway.registry.sieve.items == old(gateway.registry.sieve.items)
      ensures fresh(gateway.route.topics - old(gateway.route.topics))
      ensures fresh(gateway.board.outs - old(gateway.board.outs))
    {
      hide *;
      SoundOnes();
      ghost var s := State();
      var gs := Deliver(cs, data, shut);
      MessageActs(s, e, Streams(), gs, Elements(cs) * FullOnes(s, shut));
      p := Conclude(s, e, gs);
    }

    method SendTo(c: Connection, data: Bytes, shut: set<Connection>) returns (ghost p: Part)
      requires Valid()
      modifies streams.Values
      modifies gateway, gateway.registry, gateway.registry.sieve, gateway.registry.sieve.items
      modifies gateway.route, gateway.route.topics, gateway.board, gateway.board.outs
      modifies gateway.backend, gateway.backend.sockets, gateway.backend.known
      ensures Valid() && |gateway.backend.sockets| > 0 && Moves(old(State()), Send(c, data, shut), p, State())
      ensures gateway.backend.known <= old(gateway.backend.known)
      ensures gateway.registry.sieve.items == old(gateway.registry.sieve.items)
      ensures fresh(gateway.route.topics - old(gateway.route.topics))
      ensures fresh(gateway.board.outs - old(gateway.board.outs))
    {
      hide *;
      SoundOnes();
      gateway.Who();
      var cs := if c in gateway.board.conns then [c] else [];
      SendReaches(State(), c, data, shut, cs);
      p := Message(cs, data, shut, Send(c, data, shut));
    }

    /** The walk over the slots. */
    method SendToAll(data: Bytes, shut: set<Connection>) returns (ghost p: Part)
      requires Valid()
      modifies streams.Values
      modifies gateway, gateway.registry, gateway.registry.sieve, gateway.registry.sieve.items
      modifies gateway.route, gateway.route.topics, gateway.board, gateway.board.outs
      modifies gateway.backend, gateway.backend.sockets, gateway.backend.known
      ensures Valid() && |gateway.backend.sockets| > 0 && Moves(old(State()), SendAll(data, shut), p, State())
      ensures gateway.backend.known <= old(gateway.backend.known)
      ensures gateway.registry.sieve.items == old(gateway.registry.sieve.items)
      ensures fresh(gateway.route.topics - old(gateway.route.topics))
      ensures fresh(gateway.board.outs - old(gateway.board.outs))
    {
      hide *;
      SoundOnes();
      gateway.Who();
      var cs := gateway.registry.All();
      AllReached(State(), data, shut);
      p := Message(cs, data, shut, SendAll(data, shut));
    }

    /** The gateway's part of a publish: no stream sees it. */
    method GatePublish(name: Bytes, full: set<Connection>)
      returns (attempts: seq<Connection>, ghost es: seq<Ports.Event>)
      requires gateway.Valid()
      modifies gateway, gateway.registry, gateway.registry.sieve, gateway.registry.sieve.items
      modifies gateway.route, gateway.route.topics, gateway.board, gateway.board.outs
      modifies gateway.backend, gateway.backend.sockets, gateway.backend.known
      ensures gateway.Valid() && |gateway.backend.sockets| > 0 && Streams() == old(Streams())
      ensures var g, m := Lifecycle.Topic(TopicGraph.Publish(name, full)), old(gateway.State());
        && Lifecycle.Causes(m, g, es) && gateway.State() == Lifecycle.Afterwards(m, g, es)
        && Distinct(attempts) && Elements(attempts) == Lifecycle.Messaged(m, g)
      ensures gateway.backend.known <= old(gateway.backend.known)
      ensures gateway.registry.sieve.items == old(gateway.registry.sieve.items)
      ensures fresh(gateway.route.topics - old(gateway.route.topics))
      ensures fresh(gateway.board.outs - old(gateway.board.outs))
    {
      hide *;
      ghost var before := Streams();
      var g := Lifecycle.Topic(TopicGraph.Publish(name, full));
      NobodyCame(g);
      attempts, es := gateway.Execute(g);
      assert Streams() == before;
    }

    /** Messages to streams do not concern the gateway. */
    method PushApart(cs: seq<Connection>, data: Bytes)
      requires Distinct(cs) && OwnStreams() && gateway.Valid()
      requires forall c <- streams :: CometStream.Sound(streams[c].State())
      modifies streams.Values
      ensures Streams() == Pushed(old(Streams()), Elements(cs), data)
      ensures gateway.Valid() && |gateway.backend.sockets| > 0 && gateway.State() == old(gateway.State())
    {
      hide *;
      gateway.Consistently();
      PushAll(cs, data);
    }

    /** The walk over the subscribers of a topic, who get the message in their streams. */
    method Walk(name: Bytes, data: Bytes, full: set<Connection>) returns (ghost es: seq<Ports.Event>)
      requires gateway.Valid() && OwnStreams()
      requires forall c <- streams :: CometStream.Sound(streams[c].State())
      modifies streams.Values
      modifies gateway, gateway.registry, gateway.registry.sieve, gateway.registry.sieve.items
      modifies gateway.route, gateway.route.topics, gateway.board, gateway.board.outs
      modifies gateway.backend, gateway.backend.sockets, gateway.backend.known
      ensures gateway.Valid() && |gateway.backend.sockets| > 0
      ensures var g, m := Lifecycle.Topic(TopicGraph.Publish(name, full)), old(gateway.State());
        && Lifecycle.Causes(m, g, es) && gateway.State() == Lifecycle.Afterwards(m, g, es)
        && Streams() == Pushed(old(Streams()), Lifecycle.Messaged(m, g), data)
      ensures gateway.backend.known <= old(gateway.backend.known)
      ensures gateway.registry.sieve.items == old(gateway.registry.sieve.items)
      ensures fresh(gateway.route.topics - old(gateway.route.topics))
      ensures fresh(gateway.board.outs - old(gateway.board.outs))
    {
      hide *;
      StreamsAre();
      var attempts;
      attempts, es := GatePublish(name, full);
      StreamsAre();
      PushApart(attempts, data);
    }

    method PublishTo(name: Bytes, data: Bytes, shut: set<Connection>) returns (ghost p: Part)
      requires Valid()
      modifies streams.Values
      modifies gateway, gateway.registry, gateway.registry.sieve, gateway.registry.sieve.items
      modifies gateway.route, gateway.route.topics, gateway.board, gateway.board.outs
      modifies gateway.backend, gateway.backend.sockets, gateway.backend.known
      ensures Valid() && |gateway.backend.sockets| > 0 && Moves(old(State()), Publish(name, data, shut), p, State())
      ensures gateway.backend.known <= old(gateway.backend.known)
      ensures gateway.registry.sieve.items == old(gateway.registry.sieve.items)
      ensures fresh(gateway.route.topics - old(gateway.route.topics))
      ensures fresh(gateway.board.outs - old(gateway.board.outs))
    {
      hide *;
      SoundOnes();
      ghost var s := State();
      Lifecycle.Settles(s.gate);
      var full := Fulls(shut);
      ghost var es := Walk(name, data, full);
      p := Published(s, name, data, shut, full, es);
    }

    lemma Published(s: Scene, name: Bytes, data: Bytes, shut: set<Connection>, full: set<Connection>,
                    es: seq<Ports.Event>) returns (p: Part)
      requires gateway.Valid() && |gateway.backend.sockets| > 0 && OwnStreams() && Agree(s) && s.limit == limit
      requires s.gate.net.forward in s.gate.net.ports && full == FullOnes(s, shut)
      requires var g := Lifecycle.Topic(TopicGraph.Publish(name, full));
        && Lifecycle.Causes(s.gate, g, es) && gateway.State() == Lifecycle.Afterwards(s.gate, g, es)
        && Streams() == Pushed(s.streams, Lifecycle.Messaged(s.gate, g), data)
      ensures Valid() && Moves(s, Publish(name, data, shut), p, State())
    {
      hide *;
      Pieces();
      p := PublishMoves(s, name, data, shut, full, gateway.State(), es, State());
      ValidAgain(s, Publish(name, data, shut), p);
    }

    /** What concerns no stream goes to the gateway as it is. */
    method Pass(g: Lifecycle.Event) returns (ghost p: Part)
      requires Valid() && (g.Start? ==> |g.random| == Identity.NRANDOM)
      modifies gateway, gateway.registry, gateway.registry.sieve, gateway.registry.sieve.items
      modifies gateway.route, gateway.route.topics, gateway.board, gateway.board.outs
      modifies gateway.backend, gateway.backend.sockets, gateway.backend.known + Lifecycle.Comers([g])
      ensures Valid() && |gateway.backend.sockets| > 0 && Moves(old(State()), Other(g), p, State())
      ensures gateway.backend.known <= old(gateway.backend.known) + Lifecycle.Comers([g])
      ensures gateway.registry.sieve.items == old(gateway.registry.sieve.items)
      ensures fresh(gateway.route.topics - old(gateway.route.topics))
      ensures fresh(gateway.board.outs - old(gateway.board.outs))
    {
      hide *;
      SoundOnes();
      var concerns := match g
        case Said(c, _) => c in streams
        case Topic(cmd) => cmd.Publish? || (cmd.Disconnect? && cmd.conn in streams)
        case _ => false;
      var gs := if concerns then [] else [g];
      StreamsAre();
      PassActs(State(), g, concerns);
      p := Conclude(State(), Other(g), gs);
    }

    /** A connection gets a stream of its own. */
    method NewStream(c: Connection)
      requires OwnStreams() && gateway.Valid()
      modifies `streams
      ensures Streams() == old(Streams())[c := CometStream.Start(limit)] && OwnStreams()
      ensures fresh(streams.Values - old(streams.Values))
      ensures gateway.Valid() && |gateway.backend.sockets| > 0 && gateway.State() == old(gateway.State())
    {
      hide *;
      gateway.Consistently();
      StreamsAre();
      OwnOnes();
      var t := new Comet.Connection(limit);
      streams := streams[c := t];
      OwnOnes();
      StreamsAre();
    }

    lemma OwnOnes()
      ensures OwnStreams() <==> forall c <- streams, d <- streams :: c != d ==> streams[c] != streams[d]
    {
    }

    /** The gateway's part of a client's coming. */
    method GateStart(c: Connection, random: Bytes) returns (came: bool, ghost p: Part)
      requires gateway.Valid() && |random| == Identity.NRANDOM
      modifies gateway, gateway.registry, gateway.registry.sieve, gateway.registry.sieve.items
      modifies gateway.route, gateway.route.topics, gateway.board, gateway.board.outs
      modifies gateway.backend, gateway.backend.sockets, gateway.backend.known + {c}
      ensures gateway.Valid() && |gateway.backend.sockets| > 0 && Streams() == old(Streams())
      ensures p.gs == [Lifecycle.Start(c, random)] && Lifecycle.Chronicle(p.ms, p.gs, p.ess) && |p.ms| == 2
      ensures p.ms[0] == old(gateway.State()) && p.ms[1] == gateway.State()
      ensures came <==> c !in p.ms[0].net.known && c in p.ms[1].net.live
      ensures gateway.backend.known <= old(gateway.backend.known) + {c}
      ensures gateway.registry.sieve.items == old(gateway.registry.sieve.items)
      ensures fresh(gateway.route.topics - old(gateway.route.topics))
      ensures fresh(gateway.board.outs - old(gateway.board.outs))
    {
      hide *;
      gateway.Who();
      var stranger := c !in gateway.backend.known;
      StartComes(c, random);
      p := Gate([Lifecycle.Start(c, random)]);
      gateway.Who();
      came := stranger && c in gateway.board.conns;
    }

    /** A polling client comes. */
    method Accept(c: Connection, random: Bytes) returns (ghost p: Part)
      requires Valid() && |random| == Identity.NRANDOM
      modifies `streams
      modifies gateway, gateway.registry, gateway.registry.sieve, gateway.registry.sieve.items
      modifies gateway.route, gateway.route.topics, gateway.board, gateway.board.outs
      modifies gateway.backend, gateway.backend.sockets, gateway.backend.known + {c}
      ensures Valid() && |gateway.backend.sockets| > 0 && Moves(old(State()), Come(c, random), p, State())
      ensures gateway.backend.known <= old(gateway.backend.known) + {c}
      ensures fresh(streams.Values - old(streams.Values))
      ensures gateway.registry.sieve.items == old(gateway.registry.sieve.items)
      ensures fresh(gateway.route.topics - old(gateway.route.topics))
      ensures fresh(gateway.board.outs - old(gateway.board.outs))
    {
      hide *;
      SoundOnes();
      ghost var s := State();
      var came;
      came, p := GateStart(c, random);
      ConnectAdmits(s, c, random, p);
      if came { NewStream(c); }
      Pieces();
      Moved(s, Come(c, random), p, State());
      ValidAgain(s, Come(c, random), p);
    }

    method Execute(e: Event) returns (ghost p: Part)
      requires Valid() && Random(e)
      modifies `streams, streams.Values
      modifies gateway, gateway.registry, gateway.registry.sieve, gateway.registry.sieve.items
      modifies gateway.route, gateway.route.topics, gateway.board, gateway.board.outs
      modifies gateway.backend, gateway.backend.sockets, gateway.backend.known + Newcomers([e])
      ensures Valid() && |gateway.backend.sockets| > 0 && Moves(old(State()), e, p, State())
      ensures gateway.backend.known <= old(gateway.backend.known) + Newcomers([e])
      ensures fresh(streams.Values - old(streams.Values))
      ensures gateway.registry.sieve.items == old(gateway.registry.sieve.items)
      ensures fresh(gateway.route.topics - old(gateway.route.topics))
      ensures fresh(gateway.board.outs - old(gateway.board.outs))
    {
      hide *;
      SoundOnes();
      Coming(e);
      match e
      case Come(c, random) => p := Accept(c, random);
      case Polled(c, step) => p := Poll(c, step);
      case Publish(name, data, shut) => p := PublishTo(name, data, shut);
      case Send(c, data, shut) => p := SendTo(c, data, shut);
      case SendAll(data, shut) => p := SendToAll(data, shut);
      case Other(g) => p := Pass(g);
    }

    /** Any run: clients come, poll and go, backends publish and send, and every event is one of
        all streams, topics, outputs and sockets together. */
    method ExecuteAll(events: seq<Event>) returns (ghost ss: seq<Scene>, ghost parts: seq<Part>)
      requires Valid() && forall e <- events :: Random(e)
      modifies `streams, streams.Values
      modifies gateway, gateway.registry, gateway.registry.sieve, gateway.registry.sieve.items
      modifies gateway.route, gateway.route.topics, gateway.board, gateway.board.outs
      modifies gateway.backend, gateway.backend.sockets, gateway.backend.known + Newcomers(events)
      ensures Valid() && |gateway.backend.sockets| > 0
      ensures Story(ss, events, parts) && Agree(ss[0]) && ss[0] == old(State()) && ss[|events|] == State()
    {
      hide *;
      SoundOnes();
      ss, parts := [State()], [];
      NoStory(State(), events);
      for i := 0 to |events|
        invariant Valid() && |gateway.backend.sockets| > 0
        invariant |ss| == i + 1 && ss[0] == old(State()) && ss[i] == State() && Agree(ss[0])
        invariant Story(ss, events[..i], parts)
        invariant gateway.backend.known <= old(gateway.backend.known) + Newcomers(events)
        invariant fresh(streams.Values - old(streams.Values))
        invariant gateway.registry.sieve.items == old(gateway.registry.sieve.items)
        invariant fresh(gateway.route.topics - old(gateway.route.topics))
        invariant fresh(gateway.board.outs - old(gateway.board.outs))
      {
        NewcomersHave(events, i);
        ghost var p := Execute(events[i]);
        MoreStory(ss, events, i, parts, State(), p);
        ss, parts := ss + [State()], parts + [p];
      }
      assert events[..|events|] == events;
    }
  }
}
