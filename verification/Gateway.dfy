/** The gateway as a whole (src/websocket.c): the registry of ids, the topics, the outputs and the
    sockets of a route, over any run of what clients, backends and the network do. */
module Gateway {
  import opened Lists
  import opened Entities
  import opened Identity
  import opened Lifecycle
  import Sieve
  import Multipart
  import SubscriptionGraph
  import TopicGraph
  import OutputLinks
  import Outputs
  import Ports
  import Backend

  class Gateway {
    const registry: Registry<Connection>
    const route: TopicGraph.Route
    const board: Outputs.Switchboard
    const backend: Backend.Forwarding
    ghost var issue: map<Connection, nat>

    /** Every piece is consistent. */
    ghost predicate Sane()
      reads registry, registry.sieve, registry.sieve.items
      reads route, route.topics, route.conns`subscribers
      reads board, board.conns`outputs, board.sockets`outputs, board.outs`socket
      reads backend, backend.conns`refcnt, backend.known`uid
      reads backend.sockets`accepted, backend.sockets`sent, backend.sockets`queue
      reads backend.sockets`messages, backend.sockets`wire
    {
      registry.Valid() && route.Valid() && board.Valid() && backend.Valid() && |backend.sockets| > 0
    }

    ghost function Value(): Whole
      requires |backend.sockets| > 0
      reads this, registry, registry.sieve, route, board, board.outs`socket
      reads backend, backend.known`uid, backend.sockets`accepted, backend.sockets`sent, backend.sockets`outcomes
    {
      Whole(registry.sieve.max, issue, registry.uids, registry.issued,
            route.State(), board.State(), backend.Uids(), backend.State())
    }

    ghost predicate Valid()
      reads this, registry, registry.sieve, registry.sieve.items
      reads route, route.topics, route.conns`subscribers
      reads board, board.conns`outputs, board.sockets`outputs, board.outs`socket
      reads backend, backend.conns`refcnt, backend.known`uid
      reads backend.sockets`accepted, backend.sockets`sent, backend.sockets`queue
      reads backend.sockets`messages, backend.sockets`wire
      reads backend.sockets`outcomes
    {
      Sane() && Agreed(Value(), registry.instance, {})
    }

    ghost function State(): Model
      requires |backend.sockets| > 0
      reads this, registry, registry.sieve, route, board, board.outs`socket
      reads backend, backend.known`uid, backend.sockets`accepted, backend.sockets`sent, backend.sockets`outcomes
    {
      Outline(Value())
    }

    /** A gateway starts without connections. */
    constructor (registry: Registry<Connection>, route: TopicGraph.Route,
                 board: Outputs.Switchboard, backend: Backend.Forwarding)
      requires registry.Valid() && route.Valid() && board.Valid() && backend.Valid()
      requires registry.uids == map[] && route.conns == board.conns == backend.known == backend.live == {}
      requires forall s <- board.sockets :: s in backend.sockets && s != backend.sockets[0]
      ensures Valid() && Healthy(State())
      ensures this.registry == registry && this.route == route && this.board == board && this.backend == backend
    {
      hide *;
      this.registry, this.route, this.board, this.backend := registry, route, board, backend;
      issue := map[];
      new;
      backend.Running();
      FromPieces();
      NobodyYet();
    }

    lemma NobodyYet()
      requires Sane() && registry.uids == map[] && issue == map[]
      requires route.conns == board.conns == backend.known == backend.live == {}
      requires forall s <- board.sockets :: s in backend.sockets && s != backend.sockets[0]
      ensures Valid() && Healthy(State())
    {
      hide *;
      Pieces();
      ValueIs();
      NothingYet();
      NoLinks();
      NobodyAgrees(Value(), registry.instance);
      AllAgree();
    }

    lemma NoLinks()
      requires route.Valid() && board.Valid() && route.conns == board.conns == {}
      ensures route.Rel() == {} && board.Routing() == {}
    {
      hide SubscriptionGraph.Linked, OutputLinks.Tied;
      forall s <- route.subs ensures false { route.LiveNode(s); assert false; }
      forall o <- board.outs ensures false { board.NodeOf(o); assert false; }
    }

    lemma NothingYet()
      requires backend.Valid() && backend.known == {}
      ensures backend.Uids() == map[]
      ensures forall s <- backend.Ports() :: backend.Ports()[s].accepted == [] && backend.Ports()[s].sent == 0
    {
      hide Backend.Logged, Multipart.Heard, Backend.Balanced;
      forall s <- backend.sockets ensures s.accepted == [] && s.sent == [] {
        var k :| 0 <= k < |backend.sockets| && backend.sockets[k] == s;
        backend.Named(k);
        OfNobody(s.queue, backend.conns);
        OfNobody(s.sent, backend.Uids().Keys);
      }
    }

    lemma Pieces()
      requires Sane()
      ensures registry.Valid() && route.Valid() && board.Valid() && backend.Valid() && |backend.sockets| > 0
    {
    }

    lemma FromPieces()
      requires registry.Valid() && route.Valid() && board.Valid() && backend.Valid() && |backend.sockets| > 0
      ensures Sane()
    {
    }

    lemma Consistently()
      requires Valid()
      ensures Sane() && |backend.sockets| > 0 && Agreed(Value(), registry.instance, {})
      ensures State() == Outline(Value()) && State().net.forward in State().net.ports
    {
    }

    lemma AllAgree()
      requires Sane() && Agreed(Value(), registry.instance, {})
      ensures Valid() && State() == Outline(Value())
    {
    }

    lemma Composed()
      requires |backend.sockets| > 0
      ensures Value() == Whole(registry.sieve.max, issue, registry.uids, registry.issued,
                               route.State(), board.State(), backend.Uids(), backend.State())
    {
    }

    lemma TopicsAre()
      ensures route.State() == TopicGraph.Model(route.conns, route.Rel())
    {
    }

    lemma BoardIs()
      ensures board.State() == Outputs.Board(board.conns, board.sockets, board.Routing())
    {
    }

    lemma NetIs()
      requires |backend.sockets| > 0
      ensures backend.Uids().Keys == backend.known
      ensures backend.State() ==
        Ports.Model(backend.paused, backend.known, backend.live, backend.sockets[0], backend.Ports())
      ensures forall s :: s in backend.Ports() <==> s in backend.sockets
    {
    }

    lemma ValueIs()
      requires |backend.sockets| > 0
      ensures Value() == Whole(registry.sieve.max, issue, registry.uids, registry.issued,
                               route.State(), board.State(), backend.Uids(), backend.State())
      ensures route.State() == TopicGraph.Model(route.conns, route.Rel())
      ensures board.State() == Outputs.Board(board.conns, board.sockets, board.Routing())
      ensures backend.Uids().Keys == backend.known
      ensures backend.State() ==
        Ports.Model(backend.paused, backend.known, backend.live, backend.sockets[0], backend.Ports())
      ensures forall s :: s in backend.Ports() <==> s in backend.sockets
    {
      hide *;
      Composed();
      TopicsAre();
      BoardIs();
      NetIs();
    }

    /** Nobody finds a connection any more. */
    method Withdraw(c: Connection)
      requires Sane() && c in registry.uids
      modifies registry, registry.sieve`filled, registry.sieve.items
      ensures Sane() && Value() == old(Value()).(held := old(Value()).held - {c})
    {
      hide *;
      Pieces();
      Composed();
      registry.Unregister(c);
      assert route.Valid() && board.Valid() && backend.Valid();
      FromPieces();
      Composed();
    }

    /** Drops the outputs of a connection. */
    method Unroute(c: Connection) returns (told: seq<Socket>)
      requires Sane() && c in board.conns
      modifies board, board.conns`outputs, board.sockets`outputs
      ensures Sane() && Value() == old(Value()).(board := Outputs.Apply(old(Value()).board, Outputs.End(c)))
      ensures Distinct(told) && Elements(told) == Outputs.NamedBy(old(Value()).board.routing, c)
      ensures forall s <- told :: s in old(Value()).board.sockets
      ensures board.conns <= old(board.conns) && board.sockets == old(board.sockets) && board.outs <= old(board.outs)
    {
      hide *;
      Pieces();
      Composed();
      BoardIs();
      ghost var ids, net := backend.Uids(), backend.State();
      EndDoes(board.State(), c);
      told := board.Stop(c);
      assert registry.Valid() && route.Valid() && backend.Valid();
      assert backend.Uids() == ids && backend.State() == net;
      FromPieces();
      Composed();
      BoardIs();
    }

    /** Who is connected is known. */
    lemma Members()
      requires Sane() && Agreed(Value(), registry.instance, {})
      ensures registry.uids.Keys == route.conns == board.conns == backend.live
      ensures backend.live <= backend.conns <= backend.known
      ensures forall s <- board.sockets :: s in backend.sockets && s != backend.sockets[0]
    {
      hide *;
      Pieces();
      ValueIs();
      Everybody(Value(), registry.instance);
      backend.Running();
    }

    /** The sockets are told, and the connection gives up its own reference. */
    method Dismiss(c: Connection, told: seq<Socket>)
      requires Sane() && c in backend.live && Distinct(told)
      requires forall s <- told :: s in backend.sockets && s != backend.sockets[0]
      modifies backend.sockets`accepted, backend.sockets`sent, backend.sockets`queue
      modifies backend.sockets`messages, backend.sockets`wire, backend.sockets`outcomes
      modifies backend.conns`refcnt, backend`queued, backend`conns, backend`live
      ensures Sane() && Value() == old(Value()).(net := Ports.Apply(old(Value()).net, Ports.End(c, told)))
      ensures backend.conns <= old(backend.conns)
    {
      hide *;
      Pieces();
      Composed();
      ghost var board, topics := this.board.State(), route.State();
      backend.Stop(c, told);
      assert registry.Valid() && route.Valid() && this.board.Valid();
      assert this.board.State() == board && route.State() == topics;
      FromPieces();
      Composed();
    }

    /** Nobody finds a connection any more, and its outputs go. */
    method Forget(c: Connection) returns (told: seq<Socket>)
      requires Sane() && c in registry.uids && c in board.conns
      modifies registry, registry.sieve`filled, registry.sieve.items
      modifies board, board.conns`outputs, board.sockets`outputs
      ensures Sane()
      ensures var w := old(Value());
        Value() == w.(held := w.held - {c}, board := Outputs.Apply(w.board, Outputs.End(c)))
      ensures Distinct(told) && Elements(told) == Outputs.NamedBy(old(Value()).board.routing, c)
      ensures forall s <- told :: s in old(Value()).board.sockets
      ensures board.conns <= old(board.conns) && board.sockets == old(board.sockets) && board.outs <= old(board.outs)
    {
      hide *;
      Pieces();
      Withdraw(c);
      told := Unroute(c);
    }

    /** What remains of a connection's end when the topics have forgotten it: nobody finds it, its
        outputs go, and the sockets are told. */
    method Depart(c: Connection, ghost gone: set<Connection>) returns (told: seq<Socket>)
      requires Sane() && Agreed(Value(), registry.instance, gone) && c in gone
      modifies registry, registry.sieve`filled, registry.sieve.items
      modifies board, board.conns`outputs, board.sockets`outputs
      modifies backend.sockets`accepted, backend.sockets`sent, backend.sockets`queue
      modifies backend.sockets`messages, backend.sockets`wire, backend.sockets`outcomes
      modifies backend.conns`refcnt, backend`queued, backend`conns, backend`live
      ensures Sane() && Agreed(Value(), registry.instance, gone - {c})
      ensures Value() == Departed(old(Value()), c, told)
      ensures board.conns <= old(board.conns) && board.sockets == old(board.sockets) && board.outs <= old(board.outs)
      ensures backend.conns <= old(backend.conns)
      ensures Distinct(told) && Elements(told) == Outputs.NamedBy(old(Value()).board.routing, c)
    {
      hide *;
      Pieces();
      ValueIs();
      ghost var w := Value();
      Parties(w, registry.instance, gone, c);
      told := Forget(c);
      ValueIs();
      Dismiss(c, told);
      DepartedAgrees(w, registry.instance, gone, c, told);
    }

    /** A command to the topics. */
    method Topics(cmd: TopicGraph.Command) returns (attempts: seq<Connection>)
      requires Sane()
      modifies route, route.topics`subscribers, (route.conns + TopicGraph.Opened([cmd]))`subscribers
      ensures Sane() && fresh(route.topics - old(route.topics))
      ensures Value() == old(Value()).(topics := TopicGraph.Apply(old(Value()).topics, cmd))
      ensures Distinct(attempts) && Elements(attempts) == TopicGraph.Reached(old(Value()).topics, cmd)
    {
      hide *;
      Pieces();
      Composed();
      ghost var ids, net, board := backend.Uids(), backend.State(), this.board.State();
      attempts := route.Execute(cmd);
      assert registry.Valid() && this.board.Valid() && backend.Valid();
      assert backend.Uids() == ids && backend.State() == net && this.board.State() == board;
      FromPieces();
      Composed();
    }

    /** A change of the outputs; the other pieces do not see it. */
    method ChangeBoard(change: Outputs.Change)
      requires registry.Valid() && route.Valid() && board.Valid() && backend.Valid() && |backend.sockets| > 0
      modifies board, board.outs`socket
      modifies (board.conns + Outputs.Opened([change]))`outputs, (board.sockets + Outputs.Bound([change]))`outputs
      ensures board.Valid() && board.State() == Outputs.Apply(old(board.State()), change)
      ensures registry.Valid() && route.Valid() && backend.Valid()
      ensures backend.Uids() == old(backend.Uids()) && backend.State() == old(backend.State())
      ensures route.State() == old(route.State())
      ensures fresh(board.outs - old(board.outs))
    {
      hide *;
      var _ := board.Execute(change);
    }

    method Routes(change: Outputs.Change)
      requires Sane()
      modifies board, board.outs`socket
      modifies (board.conns + Outputs.Opened([change]))`outputs, (board.sockets + Outputs.Bound([change]))`outputs
      ensures Sane() && fresh(board.outs - old(board.outs))
      ensures Value() == old(Value()).(board := Outputs.Apply(old(Value()).board, change))
    {
      hide *;
      Pieces();
      Composed();
      ChangeBoard(change);
      FromPieces();
      Composed();
    }

    /** An event that is about the sockets; the other pieces do not see it. */
    method Carry(e: Ports.Event)
      requires registry.Valid() && route.Valid() && board.Valid() && backend.Valid()
      requires !e.Begin? && !e.End? && Backend.Newcomers([e]) == {} && |backend.sockets| > 0
      modifies backend.sockets`accepted, backend.sockets`sent, backend.sockets`queue
      modifies backend.sockets`messages, backend.sockets`wire, backend.sockets`outcomes
      modifies backend.conns`refcnt, backend.conns`cookie
      modifies backend`paused, backend`queued, backend`conns, backend`live, backend`known
      ensures backend.Valid() && backend.State() == Ports.Apply(old(backend.State()), e)
      ensures backend.known == old(backend.known) && backend.Uids() == old(backend.Uids())
      ensures registry.Valid() && route.Valid() && board.Valid()
      ensures route.State() == old(route.State()) && board.State() == old(board.State())
    {
      hide *;
      ValueIs();
      backend.Execute(e);
    }

    method Sockets(e: Ports.Event)
      requires Sane() && (AboutSockets(e) || e.Say?)
      modifies backend.sockets`accepted, backend.sockets`sent, backend.sockets`queue
      modifies backend.sockets`messages, backend.sockets`wire, backend.sockets`outcomes
      modifies backend.conns`refcnt, backend.conns`cookie
      modifies backend`paused, backend`queued, backend`conns, backend`live, backend`known
      ensures Sane() && Value() == old(Value()).(net := Ports.Apply(old(Value()).net, e))
      ensures backend.known == old(backend.known)
    {
      hide *;
      Pieces();
      ValueIs();
      NobodyComes(backend.State(), e);
      Carry(e);
      FromPieces();
      ValueIs();
    }

    /** The sockets hear of a new connection. */
    method Announce(c: Connection)
      requires Sane() && c !in backend.known
      modifies backend.sockets`accepted, backend.sockets`sent, backend.sockets`queue
      modifies backend.sockets`messages, backend.sockets`wire, backend.sockets`outcomes
      modifies c`refcnt, backend`queued, backend`conns, backend`live, backend`known
      ensures Sane() && backend.known == old(backend.known) + {c}
      ensures var w := old(Value());
        Value() == w.(ids := w.ids[c := c.uid], net := Ports.Apply(w.net, Ports.Begin(c)))
    {
      hide *;
      Pieces();
      Composed();
      NetIs();
      ghost var board, topics, net := this.board.State(), route.State(), backend.State();
      backend.Start(c);
      assert registry.Valid() && route.Valid() && this.board.Valid();
      assert this.board.State() == board && route.State() == topics;
      FromPieces();
      Composed();
      NetIs();
      BegunKnown(net, c);
    }

    /** A connection gets a slot and an id, unless every slot is taken. */
    method Enlist(c: Connection, random: Bytes) returns (ok: bool, ghost u: Issue)
      requires Sane() && c !in registry.uids && |random| == NRANDOM
      modifies registry, registry.sieve, registry.sieve.items, `issue
      ensures Sane() && registry.sieve.items == old(registry.sieve.items)
      ensures ok <==> |old(Value()).held| < old(Value()).slots
      ensures Value() == if ok then Enrolled(old(Value()), c, registry.instance, u) else old(Value())
      ensures ok ==> c in registry.uids && registry.uids[c] == Uid(registry.instance, u)
    {
      hide *;
      Pieces();
      Composed();
      registry.VacancyExactly();
      ghost var w := Value();
      u := Issue(0, 0, []);
      ok := registry.Register(c, random);
      if ok {
        u := registry.issued[|w.issued|];
        EnrolledIs(w, c, registry.instance, u);
        assert registry.issued == w.issued + [u];
        issue := issue[c := |w.issued|];
      }
      assert route.Valid() && board.Valid() && backend.Valid();
      FromPieces();
      Composed();
    }

    /** A new connection is told its id. */
    method Name(c: Connection)
      requires Sane() && c !in backend.known && c in registry.uids
      modifies c`uid, c`cookie
      ensures Sane() && Value() == old(Value()) && c.uid == registry.uids[c]
    {
      hide *;
      Pieces();
      Composed();
      ghost var w := Value();
      c.uid := registry.uids[c];
      c.cookie := None;
      assert registry.Valid() && route.Valid() && board.Valid() && backend.Valid();
      assert backend.Uids() == w.ids && backend.State() == w.net;
      FromPieces();
      Composed();
    }

    /** A new connection gets a slot and an id, unless every slot is taken. */
    method Enrol(c: Connection, random: Bytes) returns (ok: bool, ghost u: Issue)
      requires Sane() && c !in backend.known && c !in registry.uids && |random| == NRANDOM
      modifies registry, registry.sieve, registry.sieve.items, c`uid, c`cookie, `issue
      ensures Sane() && registry.sieve.items == old(registry.sieve.items)
      ensures ok <==> |old(Value()).held| < old(Value()).slots
      ensures ok ==> c.uid == Uid(registry.instance, u)
      ensures Value() == if ok then Enrolled(old(Value()), c, registry.instance, u) else old(Value())
    {
      hide *;
      Pieces();
      ok, u := Enlist(c, random);
      if ok { Name(c); }
    }

    /** A connection starts without subscriptions. */
    method OpenRoute(c: Connection)
      requires Sane() && c !in route.conns
      modifies route`conns, c`subscribers
      ensures Sane()
      ensures var w := old(Value()); Value() == w.(topics := TopicGraph.Model(w.topics.conns + {c}, w.topics.rel))
    {
      hide *;
      Pieces();
      Composed();
      TopicsAre();
      ghost var ids, net, board := backend.Uids(), backend.State(), this.board.State();
      route.Open(c);
      assert registry.Valid() && this.board.Valid() && backend.Valid();
      assert backend.Uids() == ids && backend.State() == net && this.board.State() == board;
      FromPieces();
      Composed();
      TopicsAre();
    }

    /** It starts without outputs. */
    method OpenBoard(c: Connection)
      requires Sane() && c !in board.conns
      modifies board`conns, c`outputs
      ensures Sane()
      ensures var w := old(Value()); Value() == w.(board := w.board.(conns := w.board.conns + {c}))
    {
      hide *;
      Pieces();
      Composed();
      BoardIs();
      ghost var ids, net, topics := backend.Uids(), backend.State(), route.State();
      board.Open(c);
      assert registry.Valid() && route.Valid() && backend.Valid();
      assert backend.Uids() == ids && backend.State() == net && route.State() == topics;
      FromPieces();
      Composed();
      BoardIs();
    }

    /** A connection with an id starts without subscriptions and outputs, and is announced. */
    method Introduce(c: Connection)
      requires Sane() && c !in backend.known && c !in route.conns && c !in board.conns
      modifies route`conns, c`subscribers, board`conns, c`outputs
      modifies backend.sockets`accepted, backend.sockets`sent, backend.sockets`queue
      modifies backend.sockets`messages, backend.sockets`wire, backend.sockets`outcomes
      modifies c`refcnt, backend`queued, backend`conns, backend`live, backend`known
      ensures Sane() && Value() == Introduced(old(Value()), c, c.uid)
      ensures backend.known <= old(backend.known) + {c}
    {
      hide *;
      Pieces();
      ValueIs();
      IntroducedIs(Value(), c, c.uid);
      OpenRoute(c);
      OpenBoard(c);
      Announce(c);
    }

    /** A client comes: it gets an id unless every slot is taken, and is announced. */
    method StartConnection(c: Connection, random: Bytes) returns (ok: bool, ghost es: seq<Ports.Event>)
      requires Valid() && |random| == NRANDOM && c !in backend.known
      modifies registry, registry.sieve, registry.sieve.items, c, `issue
      modifies route`conns, board`conns
      modifies backend.sockets`accepted, backend.sockets`sent, backend.sockets`queue
      modifies backend.sockets`messages, backend.sockets`wire, backend.sockets`outcomes
      modifies backend`queued, backend`conns, backend`live, backend`known
      ensures Valid() && registry.sieve.items == old(registry.sieve.items)
      ensures backend.known <= old(backend.known) + {c}
      ensures ok <==> |old(backend.live)| < registry.sieve.max
      ensures Causes(old(State()), Start(c, random), es)
      ensures State() == Afterwards(old(State()), Start(c, random), es)
    {
      hide *;
      Consistently();
      ValueIs();
      ghost var w, u := Value(), Issue(0, 0, []);
      Stranger(w, registry.instance, c);
      ok, u := Enrol(c, random);
      ValueIs();
      es := [];
      if ok {
        Introduce(c);
        es := [Ports.Begin(c)];
        StartedAgrees(w, registry.instance, c, u);
        assert Value() == Started(w, c, registry.instance, u);
      }
      StartDoes(w, Value(), c, random, registry.instance, u);
      AllAgree();
    }

    /** Some of those that a command reached are to go: one after the other they do. */
    method DepartAll(attempts: seq<Connection>, full: set<Connection>) returns (ghost es: seq<Ports.Event>)
      requires Sane() && Distinct(attempts) && Agreed(Value(), registry.instance, Elements(attempts) * full)
      modifies registry, registry.sieve`filled, registry.sieve.items
      modifies board, board.conns`outputs, board.sockets`outputs
      modifies backend.sockets`accepted, backend.sockets`sent, backend.sockets`queue
      modifies backend.sockets`messages, backend.sockets`wire, backend.sockets`outcomes
      modifies backend.conns`refcnt, backend`queued, backend`conns, backend`live
      ensures Sane() && Agreed(Value(), registry.instance, {}) && backend.conns <= old(backend.conns)
      ensures board.outs <= old(board.outs)
      ensures Endings(es, Elements(attempts) * full, old(Value()).board.routing)
      ensures Left(old(Value()), Value(), Elements(attempts) * full, es)
    {
      hide *;
      Pieces();
      ghost var w := Value();
      ghost var gone, done := Elements(attempts) * full, {};
      es := [];
      NobodyLeft(w, registry.instance, gone);
      NoAttempt(attempts, full);
      for i := 0 to |attempts|
        invariant Sane() && Agreed(Value(), registry.instance, gone - done)
        invariant done == Elements(attempts[..i]) * full
        invariant Endings(es, done, w.board.routing) && Left(w, Value(), done, es)
        invariant board.conns <= old(board.conns) && board.sockets == old(board.sockets)
        invariant backend.conns <= old(backend.conns) && board.outs <= old(board.outs)
      {
        NextAttempt(attempts, i, full);
        if attempts[i] in full {
          ghost var before := Value();
          var told := Depart(attempts[i], gone - done);
          LeftStep(w, registry.instance, before, gone, done, es, attempts[i], told);
          es := es + [Ports.End(attempts[i], told)];
          done := done + {attempts[i]};
        }
      }
      assert attempts[..|attempts|] == attempts;
    }

    /** A command to the topics, and what becomes of the connections that it stops. */
    method Command(cmd: TopicGraph.Command)
      returns (attempts: seq<Connection>, ghost es: seq<Ports.Event>)
      requires Valid() && !cmd.Open?
      modifies registry, registry.sieve`filled, registry.sieve.items
      modifies route, route.topics`subscribers, route.conns`subscribers
      modifies board, board.conns`outputs, board.sockets`outputs
      modifies backend.sockets`accepted, backend.sockets`sent, backend.sockets`queue
      modifies backend.sockets`messages, backend.sockets`wire, backend.sockets`outcomes
      modifies backend.conns`refcnt, backend`queued, backend`conns, backend`live
      ensures Valid() && fresh(route.topics - old(route.topics))
      ensures |backend.sockets| > 0 && backend.conns <= old(backend.conns) && board.outs <= old(board.outs)
      ensures Distinct(attempts) && Elements(attempts) == Messaged(old(State()), Topic(cmd))
      ensures Causes(old(State()), Topic(cmd), es)
      ensures State() == Afterwards(old(State()), Topic(cmd), es)
    {
      hide *;
      Consistently();
      Composed();
      TopicsAre();
      BoardIs();
      ghost var w := Value();
      NobodyOpens(cmd);
      CommandAgrees(w, registry.instance, cmd);
      MessagedIs(w, registry.instance, cmd);
      attempts := Topics(cmd);
      var leavers, full;
      match cmd {
        case Publish(_, f) => leavers, full := attempts, f;
        case Disconnect(c) => leavers, full := if c in board.conns then [c] else [], {c};
        case _ => leavers, full := [], {};
      }
      Leavers(w, cmd, leavers, full);
      es := DepartAll(leavers, full);
      CommandDoes(w, Value(), registry.instance, cmd, es);
      AllAgree();
    }

    /** A command to the outputs. */
    method RouteCommand(change: Outputs.Change)
      requires Valid() && (change.Add? || change.Del?)
      modifies board, board.outs`socket, board.conns`outputs, board.sockets`outputs
      ensures Valid() && |backend.sockets| > 0 && fresh(board.outs - old(board.outs))
      ensures Causes(old(State()), Route(change), [])
      ensures State() == Afterwards(old(State()), Route(change), [])
    {
      hide *;
      Consistently();
      ghost var w := Value();
      RouteDoes(w, registry.instance, change);
      Routes(change);
      AllAgree();
    }

    /** The socket that a message of a client goes to. */
    method Destined(c: Connection, data: Bytes) returns (s: Socket)
      requires Valid() && c in board.conns
      ensures |backend.sockets| > 0 && Causes(State(), Said(c, data), [Ports.Say(c, s, data)])
    {
      hide *;
      Consistently();
      Pieces();
      Composed();
      BoardIs();
      NetIs();
      Everybody(Value(), registry.instance);
      var sock := board.Resolve(c, data);
      s := if sock.Some? then sock.value else backend.sockets[0];
      SayCauses(Value(), c, data, s, sock);
    }

    /** A client says something. */
    method Say(c: Connection, data: Bytes) returns (ghost es: seq<Ports.Event>)
      requires Valid() && c in board.conns
      modifies backend.sockets`accepted, backend.sockets`sent, backend.sockets`queue
      modifies backend.sockets`messages, backend.sockets`wire, backend.sockets`outcomes
      modifies backend.conns`refcnt, backend.conns`cookie
      modifies backend`paused, backend`queued, backend`conns, backend`live, backend`known
      ensures Valid() && |backend.sockets| > 0 && backend.known == old(backend.known)
      ensures Causes(old(State()), Said(c, data), es)
      ensures State() == Afterwards(old(State()), Said(c, data), es)
    {
      hide *;
      Consistently();
      ghost var w := Value();
      var s := Destined(c, data);
      es := [Ports.Say(c, s, data)];
      NetAgrees(w, registry.instance, es[0]);
      NetDoes(w, registry.instance, Said(c, data), es[0]);
      Sockets(Ports.Say(c, s, data));
      AllAgree();
    }

    /** An event that is about the sockets alone; connections come and go by others. */
    method HandleNet(e: Ports.Event)
      requires Valid() && AboutSockets(e)
      modifies backend.sockets`accepted, backend.sockets`sent, backend.sockets`queue
      modifies backend.sockets`messages, backend.sockets`wire, backend.sockets`outcomes
      modifies backend.conns`refcnt, backend.conns`cookie
      modifies backend`paused, backend`queued, backend`conns, backend`live, backend`known
      ensures Valid() && |backend.sockets| > 0 && backend.known == old(backend.known)
      ensures Causes(old(State()), Net(e), [e])
      ensures State() == Afterwards(old(State()), Net(e), [e])
    {
      hide *;
      Consistently();
      ghost var w := Value();
      NetCauses(Outline(w), e);
      NetAgrees(w, registry.instance, e);
      NetDoes(w, registry.instance, Net(e), e);
      Sockets(e);
      AllAgree();
    }

    /** The sync timer of a named output. Backends hear nothing of connections from it. */
    method SyncOutput(s: Socket, ready: bool)
      requires Sane() && s in backend.sockets
      modifies s`wire, s`messages
      ensures Sane() && Value() == old(Value())
      ensures s.wire == old(s.wire) + if s.outputs == [] || !ready then [] else
        Multipart.Framed([registry.instance, Multipart.SYNC] + Outputs.Pairs(board.Synced(s)))
    {
      hide *;
      Pieces();
      Composed();
      backend.Valids();
      ghost var w := Value();
      ghost var whole := [registry.instance, Multipart.SYNC] + Outputs.Pairs(board.Synced(s));
      FaithfulMeans(s, w.ids);
      ghost var wire, messages := s.wire, s.messages;
      board.SendSync(s, registry.instance, ready);
      assert registry.Valid() && route.Valid() && board.Valid();
      assert backend.Uids() == w.ids && backend.State() == w.net;
      assert route.State() == w.topics && board.State() == w.board;
      SyncFaithful(s, w.ids, wire, messages, whole);
      backend.Valids();
      FromPieces();
      Composed();
    }

    static lemma FaithfulMeans(s: Socket, ids: Backend.Ids)
      requires Backend.Faithful(s, ids)
      ensures s.accepted == s.sent + s.queue && Backend.Covers(ids, s.sent)
      ensures Multipart.Nonempty(s.messages) && s.wire == Multipart.Wire(s.messages)
      ensures Multipart.Heard(s.messages) == Backend.Logged(s.sent, ids)
    {
    }

    static lemma SyncFaithful(s: Socket, ids: Backend.Ids, wire: seq<Frame>, messages: seq<seq<Bytes>>,
                              whole: seq<Bytes>)
      requires s.accepted == s.sent + s.queue && Backend.Covers(ids, s.sent)
      requires Multipart.Nonempty(messages) && wire == Multipart.Wire(messages)
      requires Multipart.Heard(messages) == Backend.Logged(s.sent, ids)
      requires |whole| >= 2 && whole[1] == Multipart.SYNC
      requires if s.messages == messages then s.wire == wire else
        s.messages == messages + [whole] && s.wire == wire + Multipart.Framed(whole)
      ensures Backend.Faithful(s, ids)
    {
      hide *;
      if s.messages == messages {
        MeansFaithful(s, ids);
      } else {
        Multipart.SyncSaysNothing(whole);
        Backend.SaidNothing(s, ids, wire, messages, whole);
      }
    }

    static lemma MeansFaithful(s: Socket, ids: Backend.Ids)
      requires s.accepted == s.sent + s.queue && Backend.Covers(ids, s.sent)
      requires Multipart.Nonempty(s.messages) && s.wire == Multipart.Wire(s.messages)
      requires Multipart.Heard(s.messages) == Backend.Logged(s.sent, ids)
      ensures Backend.Faithful(s, ids)
    {
    }

    /** An event that is no command. */
    method Happen(e: Event) returns (ghost es: seq<Ports.Event>)
      requires Valid() && (e.Start? ==> |e.random| == NRANDOM) && !e.Topic? && !e.Route?
      modifies `issue, registry, registry.sieve, registry.sieve.items, route`conns, board`conns
      modifies backend, backend.sockets, backend.known + Comers([e])
      ensures Valid() && |backend.sockets| > 0 && registry.sieve.items == old(registry.sieve.items)
      ensures Causes(old(State()), e, es) && State() == Afterwards(old(State()), e, es)
      ensures backend.known <= old(backend.known) + Comers([e])
      ensures e.Sync? && e.sock in old(board.sockets) ==>
        e.sock.wire == old(e.sock.wire) + if e.sock.outputs == [] || !e.ready then [] else
          Multipart.Framed([registry.instance, Multipart.SYNC] + Outputs.Pairs(board.Synced(e.sock)))
    {
      hide *;
      Consistently();
      Members();
      ValueIs();
      es := [];
      IdleOr(Value(), registry.instance, e);
      match e {
        case Start(c, random) =>
          if c !in backend.known {
            var ok;
            ok, es := StartConnection(c, random);
          }
        case Said(c, data) =>
          if c in board.conns { es := Say(c, data); }
        case Sync(s, ready) =>
          if s in board.sockets {
            SyncOutput(s, ready);
            AllAgree();
          }
        case Net(event) =>
          if AboutSockets(event) {
            HandleNet(event);
            es := [event];
          }
      }
    }

    /** One event; what names an unknown connection or socket does nothing. */
    method Execute(e: Event) returns (attempts: seq<Connection>, ghost es: seq<Ports.Event>)
      requires Valid() && (e.Start? ==> |e.random| == NRANDOM)
      modifies this, registry, registry.sieve, registry.sieve.items
      modifies route, route.topics, board, board.outs, backend, backend.sockets
      modifies backend.known + Comers([e])
      ensures Valid() && |backend.sockets| > 0 && registry.sieve.items == old(registry.sieve.items)
      ensures Causes(old(State()), e, es) && State() == Afterwards(old(State()), e, es)
      ensures Distinct(attempts) && Elements(attempts) == Messaged(old(State()), e)
      ensures e.Sync? && e.sock in old(board.sockets) ==>
        e.sock.wire == old(e.sock.wire) + if e.sock.outputs == [] || !e.ready then [] else
          Multipart.Framed([registry.instance, Multipart.SYNC] + Outputs.Pairs(board.Synced(e.sock)))
      ensures backend.known <= old(backend.known) + Comers([e])
      ensures fresh(route.topics - old(route.topics)) && fresh(board.outs - old(board.outs))
    {
      hide *;
      Consistently();
      Members();
      Composed();
      attempts, es := [], [];
      IdleOr(Value(), registry.instance, e);
      NobodyMessaged(State(), e);
      if e.Topic? {
        if !e.cmd.Open? { attempts, es := Command(e.cmd); }
      } else if e.Route? {
        if e.change.Add? || e.change.Del? { RouteCommand(e.change); }
      } else {
        es := Happen(e);
      }
    }

    /** One event, as far as runs are concerned. */
    method Advance(e: Event) returns (ghost es: seq<Ports.Event>)
      requires Valid() && (e.Start? ==> |e.random| == NRANDOM)
      modifies this, registry, registry.sieve, registry.sieve.items
      modifies route, route.topics, board, board.outs, backend, backend.sockets
      modifies backend.known + Comers([e])
      ensures Valid() && |backend.sockets| > 0 && registry.sieve.items == old(registry.sieve.items)
      ensures Causes(old(State()), e, es) && State() == Afterwards(old(State()), e, es)
      ensures backend.known <= old(backend.known) + Comers([e])
      ensures fresh(route.topics - old(route.topics)) && fresh(board.outs - old(board.outs))
    {
      hide *;
      var attempts;
      attempts, es := Execute(e);
    }

    /** Any run of events keeps the pieces consistent and in agreement, and goes as it does on
        values: the topics, the outputs and the sockets take part in every event together. */
    method ExecuteAll(events: seq<Event>) returns (ghost ms: seq<Model>, ghost ess: seq<seq<Ports.Event>>)
      requires Valid() && forall e <- events :: e.Start? ==> |e.random| == NRANDOM
      modifies this, registry, registry.sieve, registry.sieve.items
      modifies route, route.topics, board, board.outs, backend, backend.sockets
      modifies backend.known + Comers(events)
      ensures Valid() && |backend.sockets| > 0 && |ms| == |events| + 1
      ensures ms[0] == old(State()) && ms[|events|] == State()
      ensures Chronicle(ms, events, ess) && registry.sieve.items == old(registry.sieve.items)
      ensures backend.known <= old(backend.known) + Comers(events)
      ensures fresh(route.topics - old(route.topics)) && fresh(board.outs - old(board.outs))
    {
      hide *;
      Consistently();
      ms, ess := [State()], [];
      NoEvents(State(), events);
      for i := 0 to |events|
        invariant Valid() && |backend.sockets| > 0 && registry.sieve.items == old(registry.sieve.items)
        invariant |ms| == i + 1 && |ess| == i && ms[0] == old(State()) && ms[i] == State()
        invariant Chronicle(ms, events[..i], ess)
        invariant backend.known <= old(backend.known) + Comers(events)
        invariant fresh(route.topics - old(route.topics)) && fresh(board.outs - old(board.outs))
      {
        ComersHave(events, i);
        ghost var es := Advance(events[i]);
        OneMore(ms, events, i, ess, State(), es);
        ms, ess := ms + [State()], ess + [es];
      }
      assert events[..|events|] == events;
    }

    /** Who is connected, as the registry and the outputs have it. */
    lemma Who()
      requires Valid()
      ensures |backend.sockets| > 0 && registry.Valid()
      ensures State().net.live == registry.uids.Keys == board.conns && State().net.known == backend.known
    {
      hide *;
      Consistently();
      Members();
      Pieces();
      ValueIs();
      OutlineNet(Value());
    }

    /** Whoever reads the wire of the forward socket hears under the id of a connection the
        beginning of its story: connect, its messages in order, and at most one disconnect. */
    lemma HeardUnderItsId(c: Connection)
      requires Valid() && c in backend.known && |registry.issued| <= Sieve.WRAP
      ensures |backend.sockets| > 0
      ensures var s := backend.sockets[0];
        && Backend.Told(Multipart.Heard(Multipart.Assembled(s.wire, [])), c.uid) <= Backend.Story(s.accepted, c)
        && Backend.Orderly(Backend.Story(s.accepted, c), c in backend.live)
    {
      hide *;
      Consistently();
      Pieces();
      ValueIs();
      registry.HistoryIsIssued();
      NobodyElse(Value(), registry.instance, c);
      backend.IdOf(c);
      forall d <- backend.known | d.uid == c.uid ensures d == c { backend.IdOf(d); }
      backend.StoryOnTheWire(c);
    }
  }

  /** The sockets of a configuration: the forward socket, and the named outputs on their board. */
  method Configure(capacities: seq<nat>) returns (sockets: seq<Socket>, board: Outputs.Switchboard)
    ensures |sockets| == |capacities| && Distinct(sockets) && fresh(board)
    ensures board.Valid() && board.conns == {} && forall s <- board.sockets :: s in sockets && s != sockets[0]
    ensures forall s <- sockets ::
      fresh(s) && s.accepted == [] && s.sent == [] && s.queue == [] && s.messages == [] && s.wire == []
  {
    hide *;
    board := new Outputs.Switchboard();
    sockets := [];
    NoSocket();
    for i := 0 to |capacities|
      invariant |sockets| == i && Distinct(sockets) && board.Valid() && board.conns == {}
      invariant forall s <- sockets ::
        fresh(s) && s.accepted == [] && s.sent == [] && s.queue == [] && s.messages == [] && s.wire == []
      invariant forall s <- board.sockets :: s in sockets && s != sockets[0]
    {
      var s := new Socket(capacities[i]);
      OneMoreSocket(sockets, s);
      if i > 0 { board.Bind(s); }
      sockets := sockets + [s];
    }
  }

  /** A server comes up. */
  method Boot(instance: Bytes, slots: nat, hashSize: nat, hash: SubscriptionGraph.Name -> nat, capacities: seq<nat>)
    returns (gateway: Gateway)
    requires |instance| == IID_LEN && slots < Sieve.WRAP && hashSize > 0 && |capacities| > 0
    ensures gateway.Valid() && |gateway.backend.sockets| == |capacities| && Healthy(gateway.State())
    ensures gateway.backend.known == {} && !gateway.backend.paused && gateway.registry.sieve.max == slots
  {
    hide *;
    var sockets, board := Configure(capacities);
    var backend := new Backend.Forwarding(sockets);
    assert board.Valid();
    var route := new TopicGraph.Route(hashSize, hash);
    assert board.Valid() && backend.Valid();
    var registry := new Registry<Connection>(instance, slots);
    assert board.Valid() && backend.Valid() && route.Valid();
    gateway := new Gateway(registry, route, board, backend);
  }

  lemma NoSocket()
    ensures Distinct<Socket>([])
  {
  }

  lemma OneMoreSocket(sockets: seq<Socket>, s: Socket)
    ensures Distinct(sockets) && s !in sockets ==> Distinct(sockets + [s])
  {
  }
}
