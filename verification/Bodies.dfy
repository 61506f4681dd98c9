/** What clients say to the backend (src/polling.c, src/websocket.c): the bodies of the requests that
    are let in, and the messages of WebSockets, and what the sockets accept of them. */
module Bodies {
  import opened Lists
  import opened Entities
  import CometStream
  import Replies
  import TopicGraph
  import Outputs
  import Ports
  import Lifecycle
  import Frontends

  /** Messages on their way: the socket that each goes to, and its body. */
  type Says = seq<(Socket, Bytes)>

  /** What some events of the sockets are to the messages of one connection. */
  ghost function SaysIn(es: seq<Ports.Event>, c: Connection): Says {
    if es == [] then []
    else
      var n := |es| - 1;
      SaysIn(es[..n], c) + if es[n].Say? && es[n].conn == c then [(es[n].sock, es[n].body)] else []
  }

  ghost function SaysOf(ess: seq<seq<Ports.Event>>, c: Connection): Says {
    if ess == [] then [] else SaysOf(ess[..|ess| - 1], c) + SaysIn(ess[|ess| - 1], c)
  }

  function TheBodies(says: Says): seq<Bytes> {
    seq(|says|, i requires 0 <= i < |says| => says[i].1)
  }

  /** The ones that go to one socket, in their order. */
  ghost function To(says: Says, s: Socket): seq<Bytes> {
    if says == [] then []
    else
      var n := |says| - 1;
      To(says[..n], s) + if says[n].0 == s then [says[n].1] else []
  }

  /** The bodies of the messages of one connection in a log. */
  function MessagesOf(log: seq<Item>, c: Connection): seq<Bytes> {
    if log == [] then []
    else
      var n := |log| - 1;
      MessagesOf(log[..n], c)
      + if log[n].conn == c && log[n].payload.Message? then [log[n].payload.body] else []
  }

  lemma MessagesStep(log: seq<Item>, item: Item, c: Connection)
    ensures MessagesOf(log + [item], c) == MessagesOf(log, c)
      + if item.conn == c && item.payload.Message? then [item.payload.body] else []
  {
    assert (log + [item])[..|log|] == log;
  }

  lemma SaysOne(e: Ports.Event, c: Connection)
    ensures SaysIn([], c) == []
    ensures SaysIn([e], c) == if e.Say? && e.conn == c then [(e.sock, e.body)] else []
  {
    assert [e][..0] == [];
  }

  lemma {:induction false} NoneSaid(es: seq<Ports.Event>, c: Connection)
    requires forall e <- es :: !e.Say?
    ensures SaysIn(es, c) == []
  {
    if es != [] {
      assert es[|es| - 1] in es;
      NoneSaid(es[..|es| - 1], c);
    }
  }

  lemma {:induction false} ToConcat(a: Says, b: Says, s: Socket)
    ensures To(a + b, s) == To(a, s) + To(b, s)
    decreases |b|
  {
    if b == [] {
      assert a + b == a;
    } else {
      var n := |b| - 1;
      ToConcat(a, b[..n], s);
      assert (a + b)[..|a| + n] == a + b[..n];
    }
  }

  // ----- what the sockets accept -----

  lemma OfferedMessages(p: Ports.Port, paused: bool, item: Item, force: bool, c: Connection)
    ensures item.payload.Message? && !force ==>
      MessagesOf(Ports.Offered(p, paused, item, force).accepted, c)
        == MessagesOf(p.accepted, c) + if item.conn == c then [item.payload.body] else []
    ensures !item.payload.Message? ==>
      MessagesOf(Ports.Offered(p, paused, item, force).accepted, c) == MessagesOf(p.accepted, c)
  {
    MessagesStep(p.accepted, item, c);
  }

  lemma QuietMessages(n: Ports.Model, e: Ports.Event, c: Connection)
    requires n.forward in n.ports && !e.Say?
    ensures Ports.Apply(n, e).ports.Keys == n.ports.Keys
    ensures forall s <- n.ports ::
      MessagesOf(Ports.Apply(n, e).ports[s].accepted, c) == MessagesOf(n.ports[s].accepted, c)
  {
    hide Ports.Offered, Ports.Drained;
    forall s <- n.ports
      ensures MessagesOf(Ports.Apply(n, e).ports[s].accepted, c) == MessagesOf(n.ports[s].accepted, c)
    {
      var p := n.ports[s];
      match e
      case Begin(d) => OfferedMessages(p, n.paused, Item(d, Connect), false, c);
      case End(d, _) => OfferedMessages(p, n.paused, Item(d, Disconnect), true, c);
      case Pausing(pause, writable) => Ports.DrainedLog(p, pause, writable);
      case Drain(_, writable) => Ports.DrainedLog(p, n.paused, writable);
      case _ =>
    }
  }

  lemma {:induction false} QuietRun(n: Ports.Model, es: seq<Ports.Event>, c: Connection)
    requires n.forward in n.ports && forall e <- es :: !e.Say?
    ensures Ports.ApplyAll(n, es).ports.Keys == n.ports.Keys
    ensures forall s <- n.ports ::
      MessagesOf(Ports.ApplyAll(n, es).ports[s].accepted, c) == MessagesOf(n.ports[s].accepted, c)
  {
    hide Ports.Apply, MessagesOf;
    if es != [] {
      var k := |es| - 1;
      assert es[k] in es && forall e <- es[..k] :: e in es;
      QuietRun(n, es[..k], c);
      QuietMessages(Ports.ApplyAll(n, es[..k]), es[k], c);
    }
  }

  /** A message of a connected client is accepted by the socket that it goes to, whatever that does. */
  lemma SaidIsAccepted(n: Ports.Model, d: Connection, sock: Socket, body: Bytes, c: Connection)
    requires n.forward in n.ports && d in n.live && sock in n.ports
    ensures var m := Ports.Apply(n, Ports.Say(d, sock, body));
      && m.ports.Keys == n.ports.Keys
      && forall s <- n.ports :: MessagesOf(m.ports[s].accepted, c)
           == MessagesOf(n.ports[s].accepted, c) + if d == c && s == sock then [body] else []
  {
    hide Ports.Offered, MessagesOf;
    OfferedMessages(n.ports[sock], n.paused, Item(d, Message(body)), false, c);
  }

  // ----- one event of the gateway -----

  /** The sockets hear of a message exactly when a connected client says one. */
  lemma CausesSays(m: Lifecycle.Model, g: Lifecycle.Event, es: seq<Ports.Event>, c: Connection)
    requires Lifecycle.Healthy(m) && Lifecycle.Causes(m, g, es)
    ensures TheBodies(SaysIn(es, c)) == if g.Said? && g.conn == c && c in m.net.live then [g.data] else []
    ensures var n := Lifecycle.Afterwards(m, g, es).net;
      && n.ports.Keys == m.net.ports.Keys
      && forall s <- m.net.ports ::
           MessagesOf(n.ports[s].accepted, c) == MessagesOf(m.net.ports[s].accepted, c) + To(SaysIn(es, c), s)
  {
    hide Ports.AllSettled, Ports.Solvent, Ports.Apply, Ports.ApplyAll, Outputs.Matches, MessagesOf;
    Lifecycle.Settles(m);
    Lifecycle.NetAfter(m, g, es);
    if g.Said? && g.conn in m.net.live {
      assert es == [es[0]];
      SaysOne(es[0], c);
      Lifecycle.OneEvent(m.net, es[0]);
      SaidIsAccepted(m.net, g.conn, es[0].sock, g.data, c);
      assert SaysIn(es, c)[..0] == [];
    } else {
      forall e <- es ensures !e.Say? {
        var i :| 0 <= i < |es| && es[i] == e;
      }
      NoneSaid(es, c);
      QuietRun(m.net, es, c);
    }
  }

  lemma BodiesConcat(a: Says, b: Says)
    ensures TheBodies(a + b) == TheBodies(a) + TheBodies(b)
  {
  }

  /** The messages that some events of the gateway are, of one connection. */
  ghost function SaidBy(ms: seq<Lifecycle.Model>, gs: seq<Lifecycle.Event>, c: Connection): seq<Bytes>
    requires |ms| >= |gs|
  {
    if gs == [] then []
    else
      var k := |gs| - 1;
      SaidBy(ms, gs[..k], c)
      + if gs[k].Said? && gs[k].conn == c && c in ms[k].net.live then [gs[k].data] else []
  }

  lemma {:induction false} ChronicleSays(p: Frontends.Part, c: Connection, k: nat)
    requires Lifecycle.Chronicle(p.ms, p.gs, p.ess) && Lifecycle.Healthy(p.ms[0]) && k <= |p.gs|
    ensures |p.ms| == |p.gs| + 1 && |p.ess| == |p.gs|
    ensures TheBodies(SaysOf(p.ess[..k], c)) == SaidBy(p.ms, p.gs[..k], c)
    ensures p.ms[k].net.ports.Keys == p.ms[0].net.ports.Keys
    ensures forall s <- p.ms[0].net.ports ::
      MessagesOf(p.ms[k].net.ports[s].accepted, c)
        == MessagesOf(p.ms[0].net.ports[s].accepted, c) + To(SaysOf(p.ess[..k], c), s)
  {
    hide Lifecycle.Healthy, Lifecycle.Causes, Lifecycle.Afterwards, MessagesOf, SaysIn, To, TheBodies;
    if k == 0 {
      NothingSaid();
    } else {
      ChronicleSays(p, c, k - 1);
      Lifecycle.RunsStayHealthy(p.ms, p.gs, p.ess, k - 1);
      CausesSays(p.ms[k - 1], p.gs[k - 1], p.ess[k - 1], c);
      assert p.ess[..k][..k - 1] == p.ess[..k - 1] && p.gs[..k][..k - 1] == p.gs[..k - 1];
      var before, more := SaysOf(p.ess[..k - 1], c), SaysIn(p.ess[k - 1], c);
      BodiesConcat(before, more);
      forall s <- p.ms[0].net.ports ensures To(before + more, s) == To(before, s) + To(more, s) {
        ToConcat(before, more, s);
      }
    }
  }

  lemma NothingSaid()
    ensures TheBodies([]) == [] && forall s :: To([], s) == []
  {
  }

  // ----- one event of the clients -----

  /** What a client says in an event: the body of a request that is let in, or the message of a
      WebSocket. */
  ghost function Uttered(s: Frontends.Scene, e: Frontends.Event, c: Connection): seq<Bytes> {
    if e.Polled? && e.conn == c && c in s.streams && e.step.Arrive? && Replies.Forwards(s.streams[c], e.step.r)
    then [e.step.r.body]
    else if e.Other? && e.event.Said? && e.event.conn == c && c in s.gate.net.live && c !in s.streams
    then [e.event.data]
    else []
  }

  /** A request that is let in with a body has the gateway say the body. */
  lemma BodyIsSaid(s: Frontends.Scene, e: Frontends.Event, p: Frontends.Part, t: Frontends.Scene)
    requires Frontends.Agree(s) && Frontends.Moves(s, e, p, t)
    requires e.Polled? && e.conn in s.streams && e.step.Arrive? && Replies.Forwards(s.streams[e.conn], e.step.r)
    ensures Lifecycle.Said(e.conn, e.step.r.body) in p.gs
  {
    hide Lifecycle.Healthy, Lifecycle.Chronicle, CometStream.Sound, CometStream.Step;
    Replies.ArrivalIsAnswered(s.streams[e.conn], e.step.r);
    assert p.gs[0] == Lifecycle.Said(e.conn, e.step.r.body);
  }

  lemma {:induction false} NoneSaidBy(ms: seq<Lifecycle.Model>, gs: seq<Lifecycle.Event>, c: Connection)
    requires |ms| >= |gs| && forall g <- gs :: !g.Said?
    ensures SaidBy(ms, gs, c) == []
  {
    if gs != [] {
      assert gs[|gs| - 1] in gs;
      NoneSaidBy(ms, gs[..|gs| - 1], c);
    }
  }

  lemma OneSaidBy(ms: seq<Lifecycle.Model>, g: Lifecycle.Event, c: Connection)
    requires ms != []
    ensures SaidBy(ms, [], c) == []
    ensures SaidBy(ms, [g], c) == if g.Said? && g.conn == c && c in ms[0].net.live then [g.data] else []
  {
    assert [g][..0] == [];
  }

  lemma SaidThenGone(ms: seq<Lifecycle.Model>, gs: seq<Lifecycle.Event>, c: Connection)
    requires |ms| > |gs| && 1 <= |gs| <= 2 && (|gs| == 2 ==> !gs[1].Said?)
    ensures SaidBy(ms, gs, c) == if gs[0].Said? && gs[0].conn == c && c in ms[0].net.live then [gs[0].data] else []
  {
    OneSaidBy(ms, gs[0], c);
    assert gs[..1] == [gs[0]] && (|gs| == 1 ==> gs == [gs[0]]);
  }

  /** What the gateway says for a polling client is the body of its request, if that is let in. */
  lemma PolledConsequences(d: Connection, t: CometStream.Stream, step: CometStream.Event)
    requires CometStream.Sound(t)
    ensures var gs := Frontends.Consequences(d, t, CometStream.Step(t, step));
      if step.Arrive? && Replies.Forwards(t, step.r)
      then 1 <= |gs| <= 2 && gs[0] == Lifecycle.Said(d, step.r.body) && (|gs| == 2 ==> gs[1].Topic?)
      else forall g <- gs :: !g.Said?
  {
    hide CometStream.Step, CometStream.Sound, Replies.Released, Replies.Told;
    if t.broken {
      BrokenRests(t, step);
    } else if step.Arrive? {
      Replies.ArrivalIsAnswered(t, step.r);
    } else {
      Replies.OnlyRequestsForward(t, step);
    }
  }

  lemma BrokenRests(t: CometStream.Stream, step: CometStream.Event)
    requires t.broken
    ensures CometStream.Step(t, step) == t
  {
  }

  lemma UtteredIsSaid(s: Frontends.Scene, e: Frontends.Event, p: Frontends.Part, c: Connection)
    requires Frontends.Agree(s) && Frontends.Acts(s, e, p.gs)
    requires Lifecycle.Chronicle(p.ms, p.gs, p.ess) && p.ms[0] == s.gate
    ensures |p.ms| == |p.gs| + 1 && SaidBy(p.ms, p.gs, c) == Uttered(s, e, c)
  {
    hide Lifecycle.Healthy, CometStream.Sound, CometStream.Step, Frontends.Consequences, Replies.Forwards;
    hide Frontends.Reached, Frontends.FullOnes, SaidBy;
    Frontends.PartOf(p);
    hide Lifecycle.Chronicle;
    if e.Polled? && Frontends.OfStream(s, e) {
      PolledUtters(s, e, p, c);
    } else if e.Other? {
      OneSaidBy(p.ms, e.event, c);
    } else {
      NoneSaidBy(p.ms, p.gs, c);
    }
  }

  lemma PolledUtters(s: Frontends.Scene, e: Frontends.Event, p: Frontends.Part, c: Connection)
    requires Frontends.Agree(s) && Frontends.Acts(s, e, p.gs) && e.Polled? && Frontends.OfStream(s, e)
    requires |p.ms| == |p.gs| + 1 && p.ms[0] == s.gate
    ensures SaidBy(p.ms, p.gs, c) == Uttered(s, e, c)
  {
    hide Lifecycle.Healthy, CometStream.Sound, CometStream.Step, Frontends.Consequences, SaidBy, Replies.Wrong;
    PolledConsequences(e.conn, s.streams[e.conn], e.step);
    if e.step.Arrive? && Replies.Forwards(s.streams[e.conn], e.step.r) {
      SaidThenGone(p.ms, p.gs, c);
    } else {
      NoneSaidBy(p.ms, p.gs, c);
    }
  }

  // ----- runs of the clients -----

  /** What a client said in some steps of a run, in order. */
  ghost function UtteredOver(ss: seq<Frontends.Scene>, events: seq<Frontends.Event>, c: Connection,
                             i: nat, j: nat): seq<Bytes>
    requires i <= j <= |events| <= |ss|
    decreases j
  {
    if i == j then [] else UtteredOver(ss, events, c, i, j - 1) + Uttered(ss[j - 1], events[j - 1], c)
  }

  /** What the sockets were given of it in the same steps. */
  ghost function SaysOver(parts: seq<Frontends.Part>, c: Connection, i: nat, j: nat): Says
    requires i <= j <= |parts|
    decreases j
  {
    if i == j then [] else SaysOver(parts, c, i, j - 1) + SaysOf(parts[j - 1].ess, c)
  }

  lemma OneMove(s: Frontends.Scene, e: Frontends.Event, p: Frontends.Part, t: Frontends.Scene, c: Connection)
    requires Frontends.Agree(s) && Frontends.Moves(s, e, p, t)
    ensures TheBodies(SaysOf(p.ess, c)) == Uttered(s, e, c)
    ensures t.gate.net.ports.Keys == s.gate.net.ports.Keys
    ensures forall r <- s.gate.net.ports ::
      MessagesOf(t.gate.net.ports[r].accepted, c)
        == MessagesOf(s.gate.net.ports[r].accepted, c) + To(SaysOf(p.ess, c), r)
  {
    hide Lifecycle.Healthy, Lifecycle.Chronicle, Frontends.Acts, Frontends.StreamsAfter, SaysOf, To, TheBodies,
         MessagesOf, SaidBy, Uttered;
    ChronicleSays(p, c, |p.gs|);
    UtteredIsSaid(s, e, p, c);
    assert p.ess[..|p.gs|] == p.ess && p.gs[..|p.gs|] == p.gs;
  }

  /** In every run, what the sockets are given of a client are exactly the bodies of its requests that
      were let in (or the messages of its WebSocket), each once and in order; and each socket accepts
      exactly those of them that go to it, in that order. */
  lemma {:induction false} BodiesReachSockets(ss: seq<Frontends.Scene>, events: seq<Frontends.Event>,
                                              parts: seq<Frontends.Part>, c: Connection, i: nat, j: nat)
    requires Frontends.Story(ss, events, parts) && Frontends.Agree(ss[0]) && i <= j < |ss|
    ensures TheBodies(SaysOver(parts, c, i, j)) == UtteredOver(ss, events, c, i, j)
    ensures ss[j].gate.net.ports.Keys == ss[i].gate.net.ports.Keys
    ensures forall r <- ss[i].gate.net.ports ::
      MessagesOf(ss[j].gate.net.ports[r].accepted, c)
        == MessagesOf(ss[i].gate.net.ports[r].accepted, c) + To(SaysOver(parts, c, i, j), r)
    decreases j
  {
    hide Frontends.Agree, Frontends.Moves, SaysOf, To, TheBodies, MessagesOf, Uttered;
    if i == j {
      NothingSaid();
    } else {
      BodiesReachSockets(ss, events, parts, c, i, j - 1);
      Frontends.RunsAgree(ss, events, parts, j - 1);
      OneMove(ss[j - 1], events[j - 1], parts[j - 1], ss[j], c);
      var before, more := SaysOver(parts, c, i, j - 1), SaysOf(parts[j - 1].ess, c);
      BodiesConcat(before, more);
      forall r <- ss[i].gate.net.ports ensures To(before + more, r) == To(before, r) + To(more, r) {
        ToConcat(before, more, r);
      }
    }
  }
}
