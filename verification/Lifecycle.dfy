/** The life of connections (src/websocket.c), on values: the registry of ids, the topics, the
    outputs and the sockets of a route get to know a connection together and forget it together. */
module Lifecycle {
  import opened Lists
  import opened Entities
  import opened Identity
  import Sieve
  import SubscriptionGraph
  import TopicGraph
  import OutputLinks
  import Outputs
  import Ports
  import Backend

  // ----- ids -----

  /** The ids of all connections are issued ones, one each, and the registry has those of the
      connections that it holds. */
  ghost predicate Identified(issue: map<Connection, nat>, ids: Backend.Ids, held: Backend.Ids,
                             instance: Bytes, issued: seq<Issue>)
  {
    && issue.Keys == ids.Keys
    && (forall c <- ids :: issue[c] < |issued| && ids[c] == Uid(instance, issued[issue[c]]))
    && (forall c <- ids, d <- ids :: issue[c] == issue[d] ==> c == d)
    && (forall c <- held :: c in ids && held[c] == ids[c])
  }

  lemma IdentifiedMore(issue: map<Connection, nat>, ids: Backend.Ids, held: Backend.Ids,
                       instance: Bytes, issued: seq<Issue>, c: Connection, u: Issue)
    requires Identified(issue, ids, held, instance, issued) && c !in ids
    ensures var uid := Uid(instance, u);
      Identified(issue[c := |issued|], ids[c := uid], held[c := uid], instance, issued + [u])
  {
    hide Uid;
  }

  lemma IdentifiedLess(issue: map<Connection, nat>, ids: Backend.Ids, held: Backend.Ids,
                       instance: Bytes, issued: seq<Issue>, c: Connection)
    requires Identified(issue, ids, held, instance, issued)
    ensures Identified(issue, ids, held - {c}, instance, issued)
  {
    hide Uid;
  }

  /** Ids tell connections apart, those that are gone included, until serial numbers wrap. */
  lemma IdsDiffer(issue: map<Connection, nat>, ids: Backend.Ids, held: Backend.Ids,
                  instance: Bytes, issued: seq<Issue>, c: Connection, d: Connection)
    requires Identified(issue, ids, held, instance, issued) && Issued(instance, issued) && |issued| <= Sieve.WRAP
    requires c in ids && d in ids && ids[c] == ids[d]
    ensures c == d
  {
    hide Uid, Issued;
    var i, j := issue[c], issue[d];
    if i < j { AlikeOnlyAfterWrap(instance, issued, i, j); }
    if j < i { AlikeOnlyAfterWrap(instance, issued, j, i); }
  }

  // ----- the gateway as a value -----

  /** The slots for connections, who is subscribed to what, the named outputs and who is routed to
      which of them, and the sockets. */
  datatype Model = Model(
    slots: nat, rel: SubscriptionGraph.Relation,
    outputs: set<Socket>, routing: OutputLinks.Routing, net: Ports.Model)

  /** What reaches the gateway: a client comes or says something, a command about topics (or a
      client goes, which the topics see as one), a command about outputs, the timer of a named
      output, or an event that is about the sockets alone. */
  datatype Event =
    | Start(conn: Connection, random: Bytes)
    | Said(conn: Connection, data: Bytes)
    | Topic(cmd: TopicGraph.Command)
    | Route(change: Outputs.Change)
    | Sync(sock: Socket, ready: bool)
    | Net(event: Ports.Event)

  predicate AboutSockets(e: Ports.Event) {
    e.Pausing? || e.Drain? || e.Ready? || e.Bake?
  }

  /** What a command makes of the topics; connections come by other events. */
  ghost function TopicsAfter(m: Model, e: Event): TopicGraph.Model {
    var topics := TopicGraph.Model(m.net.live, m.rel);
    if e.Topic? && !e.cmd.Open? then TopicGraph.Apply(topics, e.cmd) else topics
  }

  /** The connections that an event sends a message to. */
  ghost function Messaged(m: Model, e: Event): set<Connection> {
    if e.Topic? then TopicGraph.Reached(TopicGraph.Model(m.net.live, m.rel), e.cmd) else {}
  }

  /** The connections that an event ends: one that goes, or those that a message overflows. */
  ghost function Gone(m: Model, e: Event): set<Connection> {
    m.net.live - TopicsAfter(m, e).conns
  }

  ghost function RoutingAfter(m: Model, e: Event): OutputLinks.Routing {
    if e.Route? && (e.change.Add? || e.change.Del?)
    then Outputs.Apply(Outputs.Board(m.net.live, m.outputs, m.routing), e.change).routing
    else set p | p in m.routing && p.0 !in Gone(m, e)
  }

  /** A message goes to a socket that it is routed to by its beginning, or else to the backend's
      forward socket. */
  ghost predicate Destination(m: Model, c: Connection, data: Bytes, s: Socket) {
    || (exists p <- m.routing :: p.0 == c && p.2 == s && Outputs.Matches(data, p.1))
    || (s == m.net.forward && forall p <- m.routing :: p.0 == c ==> !Outputs.Matches(data, p.1))
  }

  /** Connections end one after the other; each time the sockets that it was routed to are told. */
  ghost predicate Endings(es: seq<Ports.Event>, gone: set<Connection>, routing: OutputLinks.Routing) {
    && (forall i :: 0 <= i < |es| ==>
          && es[i].End? && es[i].conn in gone
          && Distinct(es[i].told) && Elements(es[i].told) == Outputs.NamedBy(routing, es[i].conn))
    && (forall i, j :: 0 <= i < j < |es| ==> es[i].conn != es[j].conn)
    && (forall c <- gone :: exists i :: 0 <= i < |es| && es[i].conn == c)
  }

  /** What an event of the gateway is to its sockets. */
  ghost predicate Causes(m: Model, e: Event, es: seq<Ports.Event>) {
    match e
    case Start(c, _) => es == if c !in m.net.known && |m.net.live| < m.slots then [Ports.Begin(c)] else []
    case Said(c, data) =>
      if c !in m.net.live then es == []
      else |es| == 1 && es[0].Say? && es[0] == Ports.Say(c, es[0].sock, data)
           && Destination(m, c, data, es[0].sock)
    case Net(event) => es == if AboutSockets(event) then [event] else []
    case _ => Endings(es, Gone(m, e), m.routing)
  }

  ghost function Afterwards(m: Model, e: Event, es: seq<Ports.Event>): Model
    requires m.net.forward in m.net.ports
  {
    m.(rel := TopicsAfter(m, e).rel, routing := RoutingAfter(m, e), net := Ports.ApplyAll(m.net, es))
  }

  // ----- single events -----

  lemma NothingLeaves(m: Model, e: Event)
    requires !e.Topic? || e.cmd.Open?
    ensures Gone(m, e) == {} && TopicsAfter(m, e).rel == m.rel
    ensures (set p | p in m.routing && p.0 !in Gone(m, e)) == m.routing
    ensures Endings([], {}, m.routing)
  {
  }

  lemma OneEvent(n: Ports.Model, e: Ports.Event)
    requires n.forward in n.ports
    ensures Ports.ApplyAll(n, []) == n && Ports.ApplyAll(n, [e]) == Ports.Apply(n, e)
  {
    hide Ports.Apply;
    assert [e][..0] == [];
  }

  lemma EndDoes(b: Outputs.Board, c: Connection)
    requires c in b.conns
    ensures Outputs.Apply(b, Outputs.End(c)) ==
      Outputs.Board(b.conns - {c}, b.sockets, Outputs.Dropped(b.routing, c))
  {
  }

  lemma NobodyComes(n: Ports.Model, e: Ports.Event)
    requires n.forward in n.ports && (AboutSockets(e) || e.Say?)
    ensures Backend.Newcomers([e]) == {} && !e.Begin? && !e.End?
    ensures Ports.Apply(n, e).live == n.live && Ports.Apply(n, e).known == n.known
  {
    hide Ports.Offered, Ports.Drained, Ports.DrainedAll;
  }

  lemma BegunKnown(n: Ports.Model, c: Connection)
    requires n.forward in n.ports && c !in n.known
    ensures Ports.Apply(n, Ports.Begin(c)).known == n.known + {c}
  {
  }

  // ----- the pieces -----

  /** Everything that the pieces of a gateway hold, as a value. */
  datatype Whole = Whole(
    slots: nat,
    issue: map<Connection, nat>,  // which issued id a connection got
    held: Backend.Ids,            // the connections that the registry finds
    issued: seq<Issue>,
    topics: TopicGraph.Model,
    board: Outputs.Board,
    ids: Backend.Ids,
    net: Ports.Model)

  function Outline(w: Whole): Model {
    Model(w.slots, w.topics.rel, w.board.sockets, w.board.routing, w.net)
  }

  lemma OutlineNet(w: Whole)
    ensures Outline(w).net == w.net
  {
  }

  /** The pieces agree on who is connected, except that the topics have forgotten some already. */
  ghost predicate Agreed(w: Whole, instance: Bytes, gone: set<Connection>) {
    && Identified(w.issue, w.ids, w.held, instance, w.issued)
    && w.held.Keys == w.board.conns == w.net.live == w.topics.conns + gone && gone !! w.topics.conns
    && w.net.live <= w.net.known == w.ids.Keys
    && w.net.forward in w.net.ports
    && forall s <- w.board.sockets :: s in w.net.ports && s != w.net.forward
  }

  /** A new connection has a slot and an id. */
  ghost function Enrolled(w: Whole, c: Connection, instance: Bytes, u: Issue): Whole {
    w.(held := w.held[c := Uid(instance, u)], issued := w.issued + [u], issue := w.issue[c := |w.issued|])
  }

  lemma EnrolledIs(w: Whole, c: Connection, instance: Bytes, u: Issue)
    ensures Enrolled(w, c, instance, u) ==
      w.(held := w.held[c := Uid(instance, u)], issued := w.issued + [u], issue := w.issue[c := |w.issued|])
  {
  }

  /** What the end of a connection does besides the topics. */
  ghost function Departed(w: Whole, c: Connection, told: seq<Socket>): Whole
    requires w.net.forward in w.net.ports
  {
    w.(held := w.held - {c}, board := Outputs.Apply(w.board, Outputs.End(c)),
       net := Ports.Apply(w.net, Ports.End(c, told)))
  }

  lemma Parties(w: Whole, instance: Bytes, gone: set<Connection>, c: Connection)
    requires Agreed(w, instance, gone) && c in gone
    ensures c in w.held && c in w.board.conns && c in w.net.live
    ensures w.net.forward in w.net.ports
    ensures forall s <- w.board.sockets :: s in w.net.ports && s != w.net.forward
  {
  }

  lemma DepartedAgrees(w: Whole, instance: Bytes, gone: set<Connection>, c: Connection, told: seq<Socket>)
    requires Agreed(w, instance, gone) && c in gone && forall s <- told :: s in w.board.sockets
    ensures Departed(w, c, told) == w.(
      held := w.held - {c}, board := Outputs.Apply(w.board, Outputs.End(c)),
      net := Ports.Apply(w.net, Ports.End(c, told)))
    ensures Agreed(Departed(w, c, told), instance, gone - {c})
  {
    hide Identified, Ports.Apply;
    Backend.EndedState(w.net, c, told);
    IdentifiedLess(w.issue, w.ids, w.held, instance, w.issued, c);
  }

  lemma Stranger(w: Whole, instance: Bytes, c: Connection)
    requires Agreed(w, instance, {}) && c !in w.net.known
    ensures c !in w.held && c !in w.topics.conns && c !in w.board.conns && c !in w.ids
    ensures |w.held| == |w.net.live|
  {
    hide Identified;
    assert |w.held| == |w.held.Keys|;
  }

  /** Everybody has taken note of a new connection. */
  ghost function Introduced(w: Whole, c: Connection, uid: Bytes): Whole
    requires w.net.forward in w.net.ports
  {
    w.(topics := w.topics.(conns := w.topics.conns + {c}), board := w.board.(conns := w.board.conns + {c}),
       ids := w.ids[c := uid], net := Ports.Apply(w.net, Ports.Begin(c)))
  }

  lemma IntroducedIs(w: Whole, c: Connection, uid: Bytes)
    requires w.net.forward in w.net.ports
    ensures Introduced(w, c, uid) ==
      w.(topics := w.topics.(conns := w.topics.conns + {c}), board := w.board.(conns := w.board.conns + {c}),
         ids := w.ids[c := uid], net := Ports.Apply(w.net, Ports.Begin(c)))
  {
  }

  ghost function Started(w: Whole, c: Connection, instance: Bytes, u: Issue): Whole
    requires w.net.forward in w.net.ports
  {
    Introduced(Enrolled(w, c, instance, u), c, Uid(instance, u))
  }

  lemma StartedAgrees(w: Whole, instance: Bytes, c: Connection, u: Issue)
    requires Agreed(w, instance, {}) && c !in w.net.known
    ensures Started(w, c, instance, u) == Introduced(Enrolled(w, c, instance, u), c, Uid(instance, u))
    ensures Agreed(Started(w, c, instance, u), instance, {})
  {
    hide Identified, Ports.Apply, Uid;
    Backend.BegunState(w.net, c);
    IdentifiedMore(w.issue, w.ids, w.held, instance, w.issued, c, u);
  }

  lemma StartDoes(w: Whole, after: Whole, c: Connection, random: Bytes, instance: Bytes, u: Issue)
    requires Agreed(w, instance, {}) && c !in w.net.known
    requires after == if |w.held| < w.slots then Started(w, c, instance, u) else w
    ensures var m, es := Outline(w), if |w.held| < w.slots then [Ports.Begin(c)] else [];
      Causes(m, Start(c, random), es) && Outline(after) == Afterwards(m, Start(c, random), es)
  {
    hide Identified, Ports.Apply, Uid;
    Stranger(w, instance, c);
    NothingLeaves(Outline(w), Start(c, random));
    OneEvent(w.net, Ports.Begin(c));
  }

  /** Some connections left, which made these events. */
  ghost predicate Left(w: Whole, after: Whole, gone: set<Connection>, es: seq<Ports.Event>) {
    && w.net.forward in w.net.ports
    && after.slots == w.slots && after.topics == w.topics && after.board.sockets == w.board.sockets
    && after.board.routing == (set p | p in w.board.routing && p.0 !in gone)
    && after.net == Ports.ApplyAll(w.net, es)
  }

  lemma NobodyLeft(w: Whole, instance: Bytes, gone: set<Connection>)
    requires Agreed(w, instance, gone)
    ensures Left(w, w, {}, []) && Endings([], {}, w.board.routing) && gone - {} == gone
  {
    hide Identified, Ports.Apply;
  }

  lemma LeftStep(w: Whole, instance: Bytes, before: Whole, gone: set<Connection>, done: set<Connection>,
                 es: seq<Ports.Event>, c: Connection, told: seq<Socket>)
    requires Left(w, before, done, es) && Endings(es, done, w.board.routing)
    requires Agreed(before, instance, gone - done) && c in gone - done
    requires Distinct(told) && Elements(told) == Outputs.NamedBy(before.board.routing, c)
    ensures Left(w, Departed(before, c, told), done + {c}, es + [Ports.End(c, told)])
    ensures Endings(es + [Ports.End(c, told)], done + {c}, w.board.routing)
    ensures gone - done - {c} == gone - (done + {c})
  {
    hide Identified, Ports.Apply, Elements, Distinct;
    var more := es + [Ports.End(c, told)];
    assert more[..|es|] == es;
    EndDoes(before.board, c);
    assert Outputs.NamedBy(before.board.routing, c) == Outputs.NamedBy(w.board.routing, c);
    forall d <- done + {c} ensures exists i :: 0 <= i < |more| && more[i].conn == d {
      if d in done {
        var i :| 0 <= i < |es| && es[i].conn == d;
        assert more[i].conn == d;
      } else {
        assert more[|es|].conn == d;
      }
    }
  }

  lemma NextAttempt(attempts: seq<Connection>, i: nat, full: set<Connection>)
    requires Distinct(attempts) && i < |attempts|
    ensures Elements(attempts[..i + 1]) * full == Elements(attempts[..i]) * full + {attempts[i]} * full
    ensures attempts[i] !in Elements(attempts[..i]) && attempts[i] in Elements(attempts)
  {
    assert attempts[..i + 1] == attempts[..i] + [attempts[i]];
  }

  lemma NoAttempt(attempts: seq<Connection>, full: set<Connection>)
    ensures Elements(attempts[..0]) * full == {}
    ensures Elements(attempts) * full - Elements(attempts) * full == {}
  {
  }

  lemma NobodyOpens(cmd: TopicGraph.Command)
    requires !cmd.Open?
    ensures TopicGraph.Opened([cmd]) == {}
  {
  }

  /** After a command to the topics the other pieces still have the connections that it stopped. */
  lemma CommandAgrees(w: Whole, instance: Bytes, cmd: TopicGraph.Command)
    requires Agreed(w, instance, {}) && !cmd.Open?
    ensures w.topics.conns == w.net.live == w.board.conns
    ensures var after := TopicGraph.Apply(w.topics, cmd);
      Agreed(w.(topics := after), instance, w.topics.conns - after.conns)
  {
    hide Identified;
    assert w.topics.conns + {} == w.topics.conns;
  }

  lemma Leavers(w: Whole, cmd: TopicGraph.Command, leavers: seq<Connection>, full: set<Connection>)
    requires cmd.Publish? ==> Elements(leavers) == TopicGraph.Reached(w.topics, cmd) && full == cmd.full
    requires cmd.Disconnect? ==>
      leavers == (if cmd.conn in w.topics.conns then [cmd.conn] else []) && full == {cmd.conn}
    requires !cmd.Open? && (cmd.Publish? || cmd.Disconnect? || leavers == [])
    ensures Elements(leavers) * full == w.topics.conns - TopicGraph.Apply(w.topics, cmd).conns
    ensures !cmd.Publish? ==> Distinct(leavers)
  {
  }

  lemma CommandDoes(w: Whole, after: Whole, instance: Bytes, cmd: TopicGraph.Command, es: seq<Ports.Event>)
    requires Agreed(w, instance, {}) && !cmd.Open? && w.topics.conns == w.net.live
    requires var topics := TopicGraph.Apply(w.topics, cmd);
      && Endings(es, w.topics.conns - topics.conns, w.board.routing)
      && Left(w.(topics := topics), after, w.topics.conns - topics.conns, es)
    ensures Causes(Outline(w), Topic(cmd), es)
    ensures Outline(after) == Afterwards(Outline(w), Topic(cmd), es)
  {
    hide Identified, Ports.ApplyAll, TopicGraph.Apply, Endings;
    assert w.topics == TopicGraph.Model(w.net.live, w.topics.rel);
  }

  lemma MessagedIs(w: Whole, instance: Bytes, cmd: TopicGraph.Command)
    requires Agreed(w, instance, {})
    ensures Messaged(Outline(w), Topic(cmd)) == TopicGraph.Reached(w.topics, cmd)
  {
    hide Identified;
    assert w.topics.conns + {} == w.topics.conns;
  }

  lemma NobodyMessaged(m: Model, e: Event)
    ensures !e.Topic? || e.cmd.Open? ==> Messaged(m, e) == {}
    ensures Distinct<Connection>([]) && Elements<Connection>([]) == {}
  {
  }

  lemma RouteDoes(w: Whole, instance: Bytes, change: Outputs.Change)
    requires Agreed(w, instance, {}) && (change.Add? || change.Del?)
    ensures Outputs.Opened([change]) == {} && Outputs.Bound([change]) == {}
    ensures var after := w.(board := Outputs.Apply(w.board, change));
      && Agreed(after, instance, {})
      && Causes(Outline(w), Route(change), [])
      && Outline(after) == Afterwards(Outline(w), Route(change), [])
  {
    hide Identified, Ports.Apply;
    var m := Outline(w);
    NothingLeaves(m, Route(change));
    assert w.board == Outputs.Board(w.net.live, w.board.sockets, w.board.routing);
    assert Gone(m, Route(change)) == {};
  }

  lemma NetAgrees(w: Whole, instance: Bytes, e: Ports.Event)
    requires Agreed(w, instance, {}) && (AboutSockets(e) || e.Say?)
    ensures Agreed(w.(net := Ports.Apply(w.net, e)), instance, {})
  {
    hide Identified, Ports.Apply;
    NobodyComes(w.net, e);
    Ports.StepKeepsSockets(w.net, e);
  }

  /** An event that leaves topics and outputs alone and is one event of the sockets. */
  lemma NetDoes(w: Whole, instance: Bytes, e: Event, n: Ports.Event)
    requires Agreed(w, instance, {}) && (e.Said? || e.Net?)
    ensures Outline(w.(net := Ports.Apply(w.net, n))) == Afterwards(Outline(w), e, [n])
  {
    hide Identified, Ports.Apply;
    NothingLeaves(Outline(w), e);
    OneEvent(w.net, n);
  }

  /** Events that do nothing, or nothing that backends hear of as events of connections. */
  ghost predicate Idle(m: Model, e: Event) {
    match e
    case Start(c, _) => c in m.net.known
    case Said(c, _) => c !in m.net.live
    case Topic(cmd) => cmd.Open?
    case Route(change) => !change.Add? && !change.Del?
    case Sync(_, _) => true
    case Net(event) => !AboutSockets(event)
  }

  lemma IdleDoes(w: Whole, instance: Bytes, e: Event)
    requires Agreed(w, instance, {}) && Idle(Outline(w), e)
    ensures Causes(Outline(w), e, []) && Outline(w) == Afterwards(Outline(w), e, [])
  {
    hide Identified, Ports.Apply;
    if !e.Start? && !e.Said? && !e.Net? { NothingLeaves(Outline(w), e); }
    NothingLeaves(Outline(w), e);
    OneEvent(w.net, Ports.Pausing(false, false));
  }

  lemma SayCauses(w: Whole, c: Connection, data: Bytes, s: Socket, sock: Option<Socket>)
    requires c in w.net.live && s == if sock.Some? then sock.value else w.net.forward
    requires sock.Some? ==> exists p <- w.board.routing :: p.0 == c && p.2 == s && Outputs.Matches(data, p.1)
    requires sock.None? ==> forall p <- w.board.routing :: p.0 == c ==> !Outputs.Matches(data, p.1)
    ensures Causes(Outline(w), Said(c, data), [Ports.Say(c, s, data)])
  {
    hide Outputs.Matches;
  }

  lemma Everybody(w: Whole, instance: Bytes)
    requires Agreed(w, instance, {})
    ensures w.held.Keys == w.topics.conns == w.board.conns == w.net.live <= w.net.known
    ensures w.net.forward in w.net.ports
    ensures forall s <- w.board.sockets :: s in w.net.ports && s != w.net.forward
  {
    assert w.topics.conns + {} == w.topics.conns;
  }

  lemma NetCauses(m: Model, e: Ports.Event)
    requires AboutSockets(e)
    ensures Causes(m, Net(e), [e])
  {
  }

  /** Commands change who is subscribed to what: exactly the pair that they name, the copies of a
      topic, a whole name, or whatever the connections had that they end. */
  lemma TopicEventsPass(m: Model, cmd: TopicGraph.Command, es: seq<Ports.Event>, d: Connection, k: Bytes)
    requires m.net.forward in m.net.ports && !cmd.Open?
    ensures var after, was := (d, k) in Afterwards(m, Topic(cmd), es).rel, (d, k) in m.rel;
      match cmd
      case Subscribe(c, name) => after <==> was || (d == c && k == name && c in m.net.live)
      case Unsubscribe(c, name) => after <==> was && !(d == c && k == name && c in m.net.live)
      case Clone(source, target) => after <==> was || (k == target && (d, source) in m.rel)
      case Drop(name) => after <==> was && k != name
      case Publish(name, full) => after <==> was && !(d in m.net.live && (d, name) in m.rel && d in full)
      case Disconnect(c) => after <==> was && !(d == c && c in m.net.live)
      case _ => true
  {
    hide Ports.ApplyAll;
    if cmd.Clone? && (d, cmd.source) in m.rel {
      assert (d, cmd.target) in SubscriptionGraph.Copied(m.rel, cmd.source, cmd.target);
    }
  }

  /** Changes of the outputs change the routes of the prefix that they name, and no others. */
  lemma RouteEventsPass(m: Model, change: Outputs.Change, es: seq<Ports.Event>, d: Connection, k: Bytes, r: Socket)
    requires m.net.forward in m.net.ports && (change.Add? || change.Del?)
    ensures var after, was := (d, k, r) in Afterwards(m, Route(change), es).routing, (d, k, r) in m.routing;
      match change
      case Add(c, prefix, s) =>
        after <==> if c in m.net.live && s in m.outputs && d == c && k == prefix then r == s else was
      case Del(c, prefix) => after <==> was && !(d == c && k == prefix && c in m.net.live)
      case _ => true
  {
    hide Ports.ApplyAll;
  }

  /** Events that are about the sockets alone reach the sockets as they are. */
  lemma SocketEventsPass(m: Model, e: Ports.Event, es: seq<Ports.Event>)
    requires m.net.forward in m.net.ports && Causes(m, Net(e), es)
    requires e.Pausing? || e.Drain? || e.Ready? || e.Bake?
    ensures Afterwards(m, Net(e), es) == m.(net := Ports.Apply(m.net, e))
  {
    hide Ports.Apply;
    NothingLeaves(m, Net(e));
    OneEvent(m.net, e);
  }

  lemma IdleOr(w: Whole, instance: Bytes, e: Event)
    requires Agreed(w, instance, {})
    ensures Idle(Outline(w), e) <==>
      || (e.Start? && e.conn in w.net.known) || (e.Said? && e.conn !in w.net.live) || (e.Topic? && e.cmd.Open?)
      || (e.Route? && !e.change.Add? && !e.change.Del?) || e.Sync? || (e.Net? && !AboutSockets(e.event))
    ensures Idle(Outline(w), e) ==> Causes(Outline(w), e, []) && Outline(w) == Afterwards(Outline(w), e, [])
    ensures e.Start? ==> Comers([e]) == {e.conn}
  {
    if Idle(Outline(w), e) { IdleDoes(w, instance, e); }
  }

  // ----- runs -----

  /** The connections that come during a run. */
  ghost function Comers(events: seq<Event>): set<Connection> {
    set e | e in events && e.Start? :: e.conn
  }

  lemma ComersHave(events: seq<Event>, i: nat)
    requires i < |events|
    ensures Comers([events[i]]) <= Comers(events)
  {
    assert events[i] in events;
  }

  /** A run: after every event the value is what the event makes of the one before. */
  ghost predicate Chronicle(ms: seq<Model>, events: seq<Event>, ess: seq<seq<Ports.Event>>) {
    && |ms| == |events| + 1 && |ess| == |events|
    && (forall i :: 0 <= i < |ms| ==> ms[i].net.forward in ms[i].net.ports)
    && (forall i :: 0 <= i < |events| ==>
          Causes(ms[i], events[i], ess[i]) && ms[i + 1] == Afterwards(ms[i], events[i], ess[i]))
  }

  lemma NoEvents(m: Model, events: seq<Event>)
    requires m.net.forward in m.net.ports
    ensures Chronicle([m], events[..0], [])
  {
  }

  lemma OneMore(ms: seq<Model>, events: seq<Event>, i: nat, ess: seq<seq<Ports.Event>>,
                m: Model, es: seq<Ports.Event>)
    requires i < |events| && Chronicle(ms, events[..i], ess)
    requires ms[i].net.forward in ms[i].net.ports ==>
      Causes(ms[i], events[i], es) && m == Afterwards(ms[i], events[i], es)
    ensures Chronicle(ms + [m], events[..i + 1], ess + [es])
  {
    hide Causes, Ports.ApplyAll, TopicsAfter, RoutingAfter;
  }

  // ----- what runs keep -----

  /** Topics and outputs have connected clients only, and the sockets hear of no others. */
  ghost predicate Healthy(m: Model) {
    && Ports.Solvent(m.net) && Ports.AllSettled(m.net)
    && (forall p <- m.rel :: p.0 in m.net.live)
    && (forall p <- m.routing :: p.0 in m.net.live && p.2 in m.outputs)
    && (forall s <- m.outputs :: s in m.net.ports && s != m.net.forward)
  }

  ghost function Ended(es: seq<Ports.Event>): set<Connection> {
    set e | e in es && e.End? :: e.conn
  }

  lemma EndedStep(es: seq<Ports.Event>, e: Ports.Event)
    requires e.End?
    ensures Ended(es + [e]) == Ended(es) + {e.conn}
  {
  }

  /** Connections that end one after the other are the ones that are not live any more. */
  lemma {:induction false} EndedAll(n: Ports.Model, es: seq<Ports.Event>)
    requires n.forward in n.ports
    requires forall i :: 0 <= i < |es| ==>
      es[i].End? && es[i].conn in n.live && forall s <- es[i].told :: s in n.ports && s != n.forward
    requires forall i, j :: 0 <= i < j < |es| ==> es[i].conn != es[j].conn
    ensures Ports.ApplyAll(n, es).known == n.known && Ports.ApplyAll(n, es).live == n.live - Ended(es)
  {
    hide Ports.Apply, Ended;
    if es == [] {
      NobodyEnded();
    } else {
      var k := |es| - 1;
      EndedAll(n, es[..k]);
      var m := Ports.ApplyAll(n, es[..k]);
      EndedBefore(es, k);
      Backend.EndedState(m, es[k].conn, es[k].told);
      EndedStep(es[..k], es[k]);
      assert es == es[..k] + [es[k]];
    }
  }

  lemma NobodyEnded()
    ensures Ended([]) == {}
  {
  }

  lemma EndedBefore(es: seq<Ports.Event>, k: nat)
    requires k < |es| && forall i :: 0 <= i < |es| ==> es[i].End?
    requires forall i :: 0 <= i < k ==> es[i].conn != es[k].conn
    ensures es[k].conn !in Ended(es[..k])
  {
  }

  lemma EndedExactly(m: Model, es: seq<Ports.Event>, gone: set<Connection>)
    requires Healthy(m) && gone <= m.net.live && Endings(es, gone, m.routing)
    ensures Ports.ApplyAll(m.net, es).live == m.net.live - gone && Ports.ApplyAll(m.net, es).known == m.net.known
  {
    hide Ports.AllSettled, Ports.ApplyAll;
    forall i | 0 <= i < |es| ensures forall s <- es[i].told :: s in m.net.ports && s != m.net.forward {
      forall s <- es[i].told ensures s in m.net.ports && s != m.net.forward {
        assert s in Elements(es[i].told);
      }
    }
    EndedAll(m.net, es);
    assert Ended(es) == gone;
  }

  /** Connections come by their own events only, and the gone go. */
  lemma LiveExactly(m: Model, e: Event, es: seq<Ports.Event>)
    requires Healthy(m) && Causes(m, e, es)
    ensures var n := Afterwards(m, e, es).net;
      if e.Start? && e.conn !in m.net.known && |m.net.live| < m.slots
      then n.live == m.net.live + {e.conn} && n.known == m.net.known + {e.conn}
      else n.live == m.net.live - Gone(m, e) && n.known == m.net.known
  {
    hide Ports.AllSettled, Ports.Apply, Ports.ApplyAll;
    if e.Start? || e.Said? || e.Net? {
      NothingLeaves(m, e);
      if es != [] {
        assert es == [es[0]];
        OneEvent(m.net, es[0]);
        if es[0].Begin? { Backend.BegunState(m.net, es[0].conn); } else { NobodyComes(m.net, es[0]); }
      } else {
        OneEvent(m.net, Ports.Pausing(false, false));
      }
    } else {
      EndedExactly(m, es, Gone(m, e));
    }
  }

  /** After an event the gone are not connected any more, everybody else still is, and whoever is
      connected then and was not before is a stranger. */
  lemma LiveAfter(m: Model, e: Event, es: seq<Ports.Event>)
    requires Healthy(m) && Causes(m, e, es)
    ensures Gone(m, e) <= m.net.live && m.net.live - Gone(m, e) <= Afterwards(m, e, es).net.live
    ensures Afterwards(m, e, es).net.live - m.net.live <= Afterwards(m, e, es).net.known - m.net.known
    ensures m.net.known <= Afterwards(m, e, es).net.known
    ensures Gone(m, e) !! Afterwards(m, e, es).net.live
  {
    hide Ports.ApplyAll, Causes;
    LiveExactly(m, e, es);
    Leaving(m, e);
  }

  lemma Leaving(m: Model, e: Event)
    ensures Gone(m, e) <= m.net.live && (e.Start? ==> Gone(m, e) == {})
  {
  }

  /** Who goes by which command. */
  lemma GoneBy(m: Model, cmd: TopicGraph.Command)
    ensures cmd.Publish? ==> Gone(m, Topic(cmd)) == Messaged(m, Topic(cmd)) * cmd.full
    ensures cmd.Disconnect? ==> Gone(m, Topic(cmd)) == {cmd.conn} * m.net.live
    ensures !cmd.Publish? && !cmd.Disconnect? ==> Gone(m, Topic(cmd)) == {}
  {
  }

  lemma StepHealthy(m: Model, e: Event, es: seq<Ports.Event>)
    requires Healthy(m) && Causes(m, e, es)
    ensures Healthy(Afterwards(m, e, es))
  {
    hide Ports.AllSettled, Ports.Solvent, Ports.Apply, Ports.ApplyAll;
    Ports.SolventForward(m.net);
    var n := Afterwards(m, e, es);
    Ports.NothingAfterTheEnd(m.net, es);
    Ports.RunGrows(m.net, es);
    assert n.net.ports.Keys == m.net.ports.Keys;
    LiveAfter(m, e, es);
    forall p <- n.rel ensures p.0 in n.net.live { assert p.0 in TopicsAfter(m, e).conns; }
  }

  /** Whoever is gone is gone for good: it comes back to no topic and no output, and on no socket
      anything of it is accepted any more. */
  lemma {:induction false} GoneForGood(ms: seq<Model>, events: seq<Event>, ess: seq<seq<Ports.Event>>,
                                       i: nat, j: nat, c: Connection)
    requires Chronicle(ms, events, ess) && Healthy(ms[0]) && i <= j < |ms|
    requires c in ms[i].net.known && c !in ms[i].net.live
    ensures Healthy(ms[j]) && c in ms[j].net.known && c !in ms[j].net.live
    ensures forall p <- ms[j].rel :: p.0 != c
    ensures forall p <- ms[j].routing :: p.0 != c
    ensures ms[j].net.ports.Keys == ms[i].net.ports.Keys
    ensures forall s <- ms[i].net.ports ::
      Backend.Story(ms[j].net.ports[s].accepted, c) == Backend.Story(ms[i].net.ports[s].accepted, c)
    decreases j
  {
    hide Causes, Afterwards, Gone;
    RunsStayHealthy(ms, events, ess, j);
    if i < j {
      GoneForGood(ms, events, ess, i, j - 1, c);
      LiveAfter(ms[j - 1], events[j - 1], ess[j - 1]);
      SilentStep(ms[j - 1], events[j - 1], ess[j - 1], c);
    }
  }

  lemma {:induction false} RunsStayHealthy(ms: seq<Model>, events: seq<Event>, ess: seq<seq<Ports.Event>>, i: nat)
    requires Chronicle(ms, events, ess) && Healthy(ms[0]) && i < |ms|
    ensures Healthy(ms[i])
  {
    hide Healthy, Causes, Afterwards;
    if i > 0 {
      RunsStayHealthy(ms, events, ess, i - 1);
      StepHealthy(ms[i - 1], events[i - 1], ess[i - 1]);
    }
  }

  lemma SilentStep(m: Model, e: Event, es: seq<Ports.Event>, c: Connection)
    requires Healthy(m) && Causes(m, e, es) && c in m.net.known && c !in m.net.live
    ensures Afterwards(m, e, es).net.ports.Keys == m.net.ports.Keys
    ensures forall s <- m.net.ports ::
      Backend.Story(Afterwards(m, e, es).net.ports[s].accepted, c) == Backend.Story(m.net.ports[s].accepted, c)
  {
    hide Healthy, Causes;
    SettledKnown(m);
    Silence(m.net, es, c);
  }

  lemma SettledKnown(m: Model)
    requires Healthy(m)
    ensures m.net.forward in m.net.ports
  {
  }

  lemma {:induction false} Silence(n: Ports.Model, es: seq<Ports.Event>, c: Connection)
    requires n.forward in n.ports && c in n.known && c !in n.live
    ensures var after := Ports.ApplyAll(n, es);
      && c in after.known && c !in after.live
      && forall s <- n.ports :: Backend.Story(after.ports[s].accepted, c) == Backend.Story(n.ports[s].accepted, c)
  {
    hide Ports.Apply, Backend.Story;
    if es != [] {
      Silence(n, es[..|es| - 1], c);
      SilentApply(Ports.ApplyAll(n, es[..|es| - 1]), es[|es| - 1], c);
    }
  }

  lemma SilentApply(n: Ports.Model, e: Ports.Event, c: Connection)
    requires n.forward in n.ports && c in n.known && c !in n.live
    ensures c in Ports.Apply(n, e).known && c !in Ports.Apply(n, e).live
    ensures Ports.Apply(n, e).ports.Keys == n.ports.Keys
    ensures forall s <- n.ports ::
      Backend.Story(Ports.Apply(n, e).ports[s].accepted, c) == Backend.Story(n.ports[s].accepted, c)
  {
    hide Ports.Offered, Ports.Drained, Backend.Story;
    forall s <- n.ports
      ensures Backend.Story(Ports.Apply(n, e).ports[s].accepted, c) == Backend.Story(n.ports[s].accepted, c)
    {
      var p := n.ports[s];
      match e
      case Begin(d) => OfferedSilent(p, n.paused, Item(d, Connect), false, c);
      case Say(d, _, body) => OfferedSilent(p, n.paused, Item(d, Entities.Message(body)), false, c);
      case End(d, _) => OfferedSilent(p, n.paused, Item(d, Disconnect), true, c);
      case Pausing(pause, writable) => Ports.DrainedLog(p, pause, writable);
      case Drain(_, writable) => Ports.DrainedLog(p, n.paused, writable);
      case _ =>
    }
  }

  lemma OfferedSilent(p: Ports.Port, paused: bool, item: Item, force: bool, c: Connection)
    ensures item.conn != c ==>
      Backend.Story(Ports.Offered(p, paused, item, force).accepted, c) == Backend.Story(p.accepted, c)
  {
    Backend.StoryStep(p.accepted, item, c);
  }

  /** A socket takes the disconnect of a connection: its queue has room, or nothing is paused or
      queued and the next attempt, repeated as often as it is interrupted, sends. */
  ghost predicate HasRoom(p: Ports.Port, paused: bool) {
    || |p.accepted| - p.sent < p.capacity
    || (!paused && |p.accepted| == p.sent && Ports.WouldSend(p.outcomes))
  }

  ghost predicate Told(log: seq<Item>, c: Connection) {
    var story := Backend.Story(log, c);
    story != [] && story[|story| - 1] == Disconnect
  }

  lemma {:induction false} LiveIsUntold(log: seq<Item>, c: Connection)
    requires forall item <- log :: item.conn == c ==> item.payload != Disconnect
    ensures !Told(log, c)
  {
    if log != [] {
      var n := |log| - 1;
      LiveIsUntold(log[..n], c);
      assert log[n] in log;
    }
  }

  /** Over runs of the sockets: once a connection ended, its story on the forward socket, or on one
      that was told, ends in a disconnect if and only if that socket had room for it then. */
  lemma ToldExactly(n: Ports.Model, es: seq<Ports.Event>, i: nat, s: Socket)
    requires Ports.AllSettled(n) && Ports.Solvent(n) && i < |es| && es[i].End?
    requires var m := Ports.ApplyAll(n, es[..i]);
      && es[i].conn in m.live && (s == m.forward || s in es[i].told)
      && forall r <- es[i].told :: r in m.ports && r != m.forward
    ensures s in n.ports && s in Ports.ApplyAll(n, es).ports
    ensures Told(Ports.ApplyAll(n, es).ports[s].accepted, es[i].conn) <==>
      var m := Ports.ApplyAll(n, es[..i]);
      var p := m.ports[s];
      || |p.accepted| - p.sent < p.capacity
      || (!m.paused && |p.accepted| == p.sent && Ports.WouldSend(p.outcomes))
  {
    hide Ports.ApplyAll, Ports.Apply, Ports.WouldSend, Told, Ports.Settled, Backend.Story, Ports.Solvent;
    var c, m := es[i].conn, Ports.ApplyAll(n, es[..i]);
    Ports.NothingAfterTheEnd(n, es[..i]);
    Ports.RunGrows(n, es[..i]);
    Ports.ApplyAllStep(n, es, i);
    ToldAtEnd(m, c, es[i].told, s);
    Backend.EndedState(m, c, es[i].told);
    var ended := Ports.Apply(m, es[i]);
    assert c in m.known by { assert c in m.live; }
    Ports.StepKeepsSockets(m, es[i]);
    Silence(ended, es[i + 1..], c);
    InTwo(n, es, i + 1);
    SameStory(ended.ports[s].accepted, Ports.ApplyAll(n, es).ports[s].accepted, c);
  }

  lemma SameStory(log: seq<Item>, more: seq<Item>, c: Connection)
    requires Backend.Story(log, c) == Backend.Story(more, c)
    ensures Told(log, c) <==> Told(more, c)
  {
  }

  lemma ToldAtEnd(m: Ports.Model, c: Connection, told: seq<Socket>, s: Socket)
    requires Ports.AllSettled(m) && Ports.Solvent(m) && c in m.live && (s == m.forward || s in told)
    requires forall r <- told :: r in m.ports && r != m.forward
    ensures Told(Ports.Apply(m, Ports.End(c, told)).ports[s].accepted, c) <==> HasRoom(m.ports[s], m.paused)
  {
    hide Ports.Apply, Ports.WouldSend;
    var log := m.ports[s].accepted;
    assert forall item <- log :: item.conn == c ==> item.payload != Disconnect;
    LiveIsUntold(log, c);
    Ports.EndIsHeard(m, c, told, s);
    Backend.StoryStep(log, Item(c, Disconnect), c);
    assert log + [] == log;
  }

  lemma {:induction false} InTwo(n: Ports.Model, es: seq<Ports.Event>, i: nat)
    requires n.forward in n.ports && i <= |es|
    ensures Ports.ApplyAll(n, es) == Ports.ApplyAll(Ports.ApplyAll(n, es[..i]), es[i..])
    decreases |es|
  {
    hide Ports.Apply;
    if i == |es| {
      assert es[..i] == es;
    } else {
      var k := |es| - 1;
      InTwo(n, es[..k], i);
      assert es[..k][..i] == es[..i] && es[..k][i..] == es[i..][..|es[i..]| - 1];
    }
  }

  /** Over runs of the gateway: when an event ended a connection, in the middle of a publish or by
      itself, its story on the forward socket and on every socket that it was routed to ends in a
      disconnect ever after, if and only if at that moment its queue had room, or nothing was paused
      or queued and the socket was willing. */
  lemma EndIsToldExactly(ms: seq<Model>, events: seq<Event>, ess: seq<seq<Ports.Event>>,
                         i: nat, x: nat, j: nat, s: Socket)
    requires Chronicle(ms, events, ess) && Healthy(ms[0]) && i < j < |ms|
    requires events[i].Topic? && x < |ess[i]|
    ensures ess[i][x].End?
    ensures s == ms[i].net.forward || s in Outputs.NamedBy(ms[i].routing, ess[i][x].conn) ==>
      var m := Ports.ApplyAll(ms[i].net, ess[i][..x]);
      && s in m.ports && s in ms[j].net.ports
      && (Told(ms[j].net.ports[s].accepted, ess[i][x].conn) <==>
            var p := m.ports[s];
            || |p.accepted| - p.sent < p.capacity
            || (!m.paused && |p.accepted| == p.sent && Ports.WouldSend(p.outcomes)))
  {
    hide Ports.AllSettled, Ports.Solvent, Ports.ApplyAll, Ports.WouldSend, Told, Healthy, Afterwards;
    RunsStayHealthy(ms, events, ess, i);
    var m, es, gone := ms[i], ess[i], Gone(ms[i], events[i]);
    EndingAt(m, es, gone, x);
    if s == m.net.forward || s in Outputs.NamedBy(m.routing, es[x].conn) {
      assert Elements(es[x].told) == Outputs.NamedBy(m.routing, es[x].conn);
      Settles(m);
      ToldExactly(m.net, es, x, s);
      LiveAfter(m, events[i], es);
      NetAfter(m, events[i], es);
      GoneForGood(ms, events, ess, i + 1, j, es[x].conn);
      SameStory(ms[i + 1].net.ports[s].accepted, ms[j].net.ports[s].accepted, es[x].conn);
    }
  }

  lemma Settles(m: Model)
    requires Healthy(m)
    ensures Ports.AllSettled(m.net) && Ports.Solvent(m.net)
    ensures m.net.forward in m.net.ports && m.net.live <= m.net.known
  {
  }

  lemma NetAfter(m: Model, e: Event, es: seq<Ports.Event>)
    requires m.net.forward in m.net.ports
    ensures Afterwards(m, e, es).net == Ports.ApplyAll(m.net, es)
  {
  }

  /** A connection is still there when its turn to end comes. */
  lemma EndingAt(m: Model, es: seq<Ports.Event>, gone: set<Connection>, x: nat)
    requires Healthy(m) && gone <= m.net.live && Endings(es, gone, m.routing) && x < |es|
    ensures m.net.forward in m.net.ports && es[x].End? && es[x].conn in gone
    ensures var n := Ports.ApplyAll(m.net, es[..x]);
      es[x].conn in n.live && forall r <- es[x].told :: r in n.ports && r != n.forward
  {
    hide Ports.AllSettled, Ports.ApplyAll;
    forall i | 0 <= i < |es| ensures forall r <- es[i].told :: r in m.net.ports && r != m.net.forward {
      forall r <- es[i].told ensures r in m.net.ports && r != m.net.forward {
        assert r in Elements(es[i].told);
      }
    }
    EndedAll(m.net, es[..x]);
    EndedBefore(es, x);
  }

  /** As long as a paused gateway is not resumed, nothing that it accepts goes out. */
  lemma {:induction false} PausedIsSilent(ms: seq<Model>, events: seq<Event>, ess: seq<seq<Ports.Event>>, i: nat)
    requires Chronicle(ms, events, ess) && Healthy(ms[0]) && ms[0].net.paused && i < |ms|
    requires forall e <- events :: e.Net? && e.event.Pausing? ==> e.event.pause
    ensures ms[i].net.paused && ms[i].net.ports.Keys == ms[0].net.ports.Keys
    ensures forall s <- ms[0].net.ports :: ms[i].net.ports[s].sent == ms[0].net.ports[s].sent
  {
    hide Healthy, Causes, Afterwards;
    if i > 0 {
      PausedIsSilent(ms, events, ess, i - 1);
      RunsStayHealthy(ms, events, ess, i - 1);
      assert events[i - 1] in events;
      PausedStep(ms[i - 1], events[i - 1], ess[i - 1]);
    }
  }

  lemma PausedStep(m: Model, e: Event, es: seq<Ports.Event>)
    requires Healthy(m) && Causes(m, e, es) && m.net.paused && (e.Net? && e.event.Pausing? ==> e.event.pause)
    ensures var n := Afterwards(m, e, es).net;
      && n.paused && n.ports.Keys == m.net.ports.Keys
      && forall s <- m.net.ports :: n.ports[s].sent == m.net.ports[s].sent
  {
    hide Ports.AllSettled, Ports.Solvent, Ports.ApplyAll;
    Ports.SolventForward(m.net);
    forall n <- es | n.Pausing? ensures n.pause { }
    Ports.PausedSendsNothing(m.net, es);
  }

  lemma OfNobody(log: seq<Item>, who: set<Connection>)
    requires forall item <- log :: item.conn in who
    ensures who == {} ==> log == []
  {
    if log != [] { assert log[0] in log; }
  }

  lemma NobodyElse(w: Whole, instance: Bytes, c: Connection)
    requires Agreed(w, instance, {}) && c in w.ids && Issued(instance, w.issued) && |w.issued| <= Sieve.WRAP
    ensures forall d <- w.ids :: w.ids[d] == w.ids[c] ==> d == c
  {
    hide Issued, Identified;
    forall d <- w.ids | w.ids[d] == w.ids[c] ensures d == c {
      IdsDiffer(w.issue, w.ids, w.held, instance, w.issued, d, c);
    }
  }

  lemma NobodyAgrees(w: Whole, instance: Bytes)
    requires w.held == w.ids == map[] && w.issue == map[]
    requires w.topics.conns == w.board.conns == w.net.live == w.net.known == {}
    requires w.topics.rel == {} && w.board.routing == {} && w.net.forward in w.net.ports
    requires forall s <- w.board.sockets :: s in w.net.ports && s != w.net.forward
    requires forall s <- w.net.ports :: w.net.ports[s].accepted == [] && w.net.ports[s].sent == 0
    ensures Agreed(w, instance, {}) && Healthy(Outline(w))
  {
  }
}
