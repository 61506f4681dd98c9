/** The backend side of a route as a value (src/websocket.c): for each socket what it accepted and
    how much of that it sent, and what every event of a run makes of that. */
module Ports {
  import opened Entities

  // ----- the willingness of a socket -----

  /** How many messages the coming attempts send before the socket stops being willing. */
  function Willing(outcomes: seq<Outcome>): nat {
    if outcomes == [] || outcomes[0] == Again then 0
    else (if outcomes[0] == Sent then 1 else 0) + Willing(outcomes[1..])
  }

  /** What is left of the outcomes after attempts to send `n` messages, of which an interrupted
      one is repeated and an unwilling one is the last. */
  function Left(outcomes: seq<Outcome>, n: nat): seq<Outcome> {
    if n == 0 || outcomes == [] then outcomes
    else if outcomes[0] == Again then outcomes[1..]
    else Left(outcomes[1..], if outcomes[0] == Sent then n - 1 else n)
  }

  function Least(a: nat, b: nat): (n: nat)
    ensures n <= a && n <= b && (n == a || n == b)
  {
    if a <= b then a else b
  }

  // ----- one socket -----

  /** A socket: the messages it accepted, how many of them went out, and how its coming attempts
      to send will end. The others of its messages are queued. */
  datatype Port = Port(capacity: nat, accepted: seq<Item>, sent: nat, outcomes: seq<Outcome>)

  function Queued(p: Port): nat {
    if p.sent <= |p.accepted| then |p.accepted| - p.sent else 0
  }

  /** A message would go out at once. */
  predicate Direct(p: Port, paused: bool) {
    !paused && Queued(p) == 0 && Willing(p.outcomes) > 0
  }

  /** A message is not refused: only forced ones respect the capacity. */
  predicate Takes(p: Port, paused: bool, force: bool) {
    !force || Direct(p, paused) || Queued(p) < p.capacity
  }

  function Offered(p: Port, paused: bool, item: Item, force: bool): Port {
    Port(p.capacity,
         if Takes(p, paused, force) then p.accepted + [item] else p.accepted,
         if Direct(p, paused) then p.sent + 1 else p.sent,
         if paused || Queued(p) > 0 then p.outcomes else Left(p.outcomes, 1))
  }

  function Drained(p: Port, paused: bool, writable: bool): Port {
    if paused || !writable then p
    else p.(sent := p.sent + Least(Queued(p), Willing(p.outcomes)), outcomes := Left(p.outcomes, Queued(p)))
  }

  // ----- all sockets of a route -----

  datatype Model = Model(
    paused: bool,
    known: set<Connection>,   // ever started
    live: set<Connection>,    // started and not stopped
    forward: Socket,
    ports: map<Socket, Port>)

  datatype Event =
    | Begin(conn: Connection)
    | Say(conn: Connection, sock: Socket, body: Bytes)
    | End(conn: Connection, told: seq<Socket>)
    | Pausing(pause: bool, writable: bool)
    | Drain(sock: Socket, writable: bool)
    | Ready(sock: Socket, outcomes: seq<Outcome>)
    | Bake(conn: Connection, cookie: Bytes)

  /** What an event does; one that names an unknown connection or socket does nothing. */
  ghost function Apply(m: Model, e: Event): Model
    requires m.forward in m.ports
  {
    match e
    case Begin(c) =>
      if c in m.known then m
      else m.(known := m.known + {c}, live := m.live + {c},
              ports := m.ports[m.forward := Offered(m.ports[m.forward], m.paused, Item(c, Connect), false)])
    case Say(c, s, body) =>
      if c !in m.live || s !in m.ports then m
      else m.(ports := m.ports[s := Offered(m.ports[s], m.paused, Item(c, Message(body)), false)])
    case End(c, told) =>
      if c !in m.live || m.forward in told || (exists s <- told :: s !in m.ports) then m
      else m.(live := m.live - {c}, ports := Notified(m.ports, m.paused, [m.forward] + told, c))
    case Pausing(pause, writable) =>
      if pause == m.paused then m
      else m.(paused := pause, ports := DrainedAll(m.ports, pause, writable))
    case Drain(s, writable) =>
      if s !in m.ports then m else m.(ports := m.ports[s := Drained(m.ports[s], m.paused, writable)])
    case Ready(s, outcomes) =>
      if s !in m.ports then m else m.(ports := m.ports[s := m.ports[s].(outcomes := outcomes)])
    case Bake(_, _) => m
  }

  ghost function DrainedAll(ports: map<Socket, Port>, paused: bool, writable: bool): map<Socket, Port> {
    map s | s in ports :: Drained(ports[s], paused, writable)
  }

  /** Some sockets are offered the disconnect of a connection. */
  ghost function Notified(ports: map<Socket, Port>, paused: bool, told: seq<Socket>, c: Connection): map<Socket, Port> {
    map s | s in ports :: if s in told then Offered(ports[s], paused, Item(c, Disconnect), true) else ports[s]
  }

  ghost function ApplyAll(m: Model, events: seq<Event>): (n: Model)
    requires m.forward in m.ports
    ensures n.forward == m.forward && n.ports.Keys == m.ports.Keys
  {
    if events == [] then m else Apply(ApplyAll(m, events[..|events| - 1]), events[|events| - 1])
  }

  lemma ApplyAllNone(m: Model, events: seq<Event>)
    requires m.forward in m.ports
    ensures ApplyAll(m, events[..0]) == m
  {
  }

  lemma ApplyAllStep(m: Model, events: seq<Event>, i: nat)
    requires m.forward in m.ports && i < |events|
    ensures ApplyAll(m, events[..i + 1]) == Apply(ApplyAll(m, events[..i]), events[i])
  {
    assert events[..i + 1][..i] == events[..i];
  }

  // ----- what runs keep -----

  /** Nothing that was sent is unsent and nothing that was accepted is lost or reordered. */
  ghost predicate Grown(m: Model, n: Model) {
    && n.forward == m.forward && n.ports.Keys == m.ports.Keys
    && m.known <= n.known
    && forall s <- m.ports ::
         m.ports[s].accepted <= n.ports[s].accepted && m.ports[s].sent <= n.ports[s].sent
  }

  /** More is never sent than was accepted. */
  ghost predicate Solvent(m: Model) {
    m.forward in m.ports && forall s <- m.ports :: m.ports[s].sent <= |m.ports[s].accepted|
  }

  /** A socket goes on: its log gets longer and at least as much of it is sent. */
  ghost predicate Forth(p: Port, q: Port) {
    p.accepted <= q.accepted && p.sent <= q.sent <= |q.accepted|
  }

  lemma OfferedForth(p: Port, paused: bool, item: Item, force: bool)
    requires p.sent <= |p.accepted|
    ensures Forth(p, Offered(p, paused, item, force))
  {
    hide Willing, Left;
  }

  lemma DrainedForth(p: Port, paused: bool, writable: bool)
    requires p.sent <= |p.accepted|
    ensures Forth(p, Drained(p, paused, writable))
  {
    hide Willing, Left;
  }

  lemma StepForth(m: Model, e: Event, s: Socket)
    requires Solvent(m) && s in m.ports
    ensures s in Apply(m, e).ports && Forth(m.ports[s], Apply(m, e).ports[s])
  {
    hide Offered, Drained;
    var p := m.ports[s];
    match e
    case Begin(c) => OfferedForth(p, m.paused, Item(c, Connect), false);
    case Say(c, _, body) => OfferedForth(p, m.paused, Item(c, Message(body)), false);
    case End(c, _) => OfferedForth(p, m.paused, Item(c, Disconnect), true);
    case Pausing(pause, writable) => DrainedForth(p, pause, writable);
    case Drain(_, writable) => DrainedForth(p, m.paused, writable);
    case _ =>
  }

  lemma StepKeepsSockets(m: Model, e: Event)
    requires m.forward in m.ports
    ensures Apply(m, e).forward == m.forward && Apply(m, e).ports.Keys == m.ports.Keys
    ensures m.known <= Apply(m, e).known
  {
    hide Offered, Drained;
  }

  lemma StepGrows(m: Model, e: Event)
    requires Solvent(m)
    ensures Solvent(Apply(m, e)) && Grown(m, Apply(m, e))
  {
    hide Apply;
    StepKeepsSockets(m, e);
    forall s <- m.ports ensures Forth(m.ports[s], Apply(m, e).ports[s]) {
      StepForth(m, e, s);
    }
  }

  lemma {:induction false} RunGrows(m: Model, events: seq<Event>)
    requires Solvent(m)
    ensures Solvent(ApplyAll(m, events)) && Grown(m, ApplyAll(m, events))
  {
    hide Apply, Solvent;
    assert m.forward in m.ports by { assert Solvent(m); SolventForward(m); }
    if events != [] {
      RunGrows(m, events[..|events| - 1]);
      StepGrows(ApplyAll(m, events[..|events| - 1]), events[|events| - 1]);
    }
  }

  lemma SolventForward(m: Model)
    requires Solvent(m)
    ensures m.forward in m.ports
  {
  }

  /** While paused nothing is sent, over any run of events without a resume. */
  lemma {:induction false} PausedSendsNothing(m: Model, events: seq<Event>)
    requires Solvent(m) && m.paused
    requires forall e <- events :: e.Pausing? ==> e.pause
    ensures var n := ApplyAll(m, events);
      n.paused && forall s <- m.ports :: n.ports[s].sent == m.ports[s].sent
  {
    hide Willing, Left, Solvent;
    SolventForward(m);
    if events != [] {
      PausedSendsNothing(m, events[..|events| - 1]);
    }
  }

  /** Resuming empties every queue whose socket is willing enough, in the order of acceptance. */
  lemma ResumeEmpties(m: Model, s: Socket)
    requires Solvent(m) && m.paused && s in m.ports && Willing(m.ports[s].outcomes) >= Queued(m.ports[s])
    ensures var n := Apply(m, Pausing(false, true));
      n.ports[s].accepted == m.ports[s].accepted && n.ports[s].sent == |n.ports[s].accepted|
  {
  }

  // ----- the end of a connection -----

  /** Nothing of a connection follows its disconnect. */
  ghost predicate Closed(log: seq<Item>) {
    forall i, j :: 0 <= i < j < |log| && log[i].payload.Disconnect? ==> log[j].conn != log[i].conn
  }

  /** A log speaks of connections that were started, and of the end of stopped ones only. */
  ghost predicate Settled(log: seq<Item>, known: set<Connection>, live: set<Connection>) {
    && Closed(log)
    && forall item <- log :: item.conn in known && (item.payload.Disconnect? ==> item.conn !in live)
  }

  ghost predicate AllSettled(m: Model) {
    m.forward in m.ports && m.live <= m.known &&
    forall s <- m.ports :: Settled(m.ports[s].accepted, m.known, m.live)
  }

  lemma OfferedSettled(p: Port, paused: bool, item: Item, force: bool, known: set<Connection>, live: set<Connection>)
    requires Settled(p.accepted, known, live + {item.conn}) && item.conn in known
    requires item.payload.Disconnect? ==> item.conn !in live
    ensures Settled(Offered(p, paused, item, force).accepted, known, live)
  {
    hide Direct, Takes;
    assert forall u <- p.accepted + [item] :: u in p.accepted || u == item;
    forall i | 0 <= i < |p.accepted| && p.accepted[i].payload.Disconnect? ensures p.accepted[i].conn != item.conn {
      assert p.accepted[i] in p.accepted;
    }
  }

  lemma StepSettles(m: Model, e: Event)
    requires AllSettled(m)
    ensures AllSettled(Apply(m, e))
  {
    hide Offered, Drained, Closed;
    var n := Apply(m, e);
    StepKeepsSockets(m, e);
    forall s <- m.ports ensures Settled(n.ports[s].accepted, n.known, n.live) {
      var p := m.ports[s];
      match e
      case Begin(c) =>
        StrangerSettled(p, m, c);
        if c !in m.known { OfferedSettled(p, m.paused, Item(c, Connect), false, n.known, n.live); }
      case Say(c, _, body) =>
        LiveAgain(m.live, c);
        if c in m.live { OfferedSettled(p, m.paused, Item(c, Message(body)), false, m.known, m.live); }
      case End(c, _) =>
        LiveAgain(m.live, c);
        if c in m.live { OfferedSettled(p, m.paused, Item(c, Disconnect), true, m.known, m.live - {c}); }
      case Pausing(pause, writable) => DrainedLog(p, pause, writable);
      case Drain(_, writable) => DrainedLog(p, m.paused, writable);
      case _ =>
    }
  }

  lemma LiveAgain(live: set<Connection>, c: Connection)
    ensures c in live ==> live + {c} == live && live - {c} + {c} == live
  {
  }

  lemma StrangerSettled(p: Port, m: Model, c: Connection)
    requires Settled(p.accepted, m.known, m.live)
    ensures c !in m.known ==> Settled(p.accepted, m.known + {c}, m.live + {c} + {c})
  {
  }

  lemma DrainedLog(p: Port, paused: bool, writable: bool)
    ensures Drained(p, paused, writable).accepted == p.accepted
  {
  }

  /** In every run, on every socket, nothing of a connection follows its disconnect, so that it is
      told of once at most, and never of a connection that was not stopped. */
  lemma {:induction false} NothingAfterTheEnd(m: Model, events: seq<Event>)
    requires AllSettled(m)
    ensures AllSettled(ApplyAll(m, events))
  {
    hide Apply, Settled;
    if events != [] {
      NothingAfterTheEnd(m, events[..|events| - 1]);
      StepSettles(ApplyAll(m, events[..|events| - 1]), events[|events| - 1]);
    }
  }

  // ----- a disconnect that gets lost -----

  /** The next attempt, repeated as often as it is interrupted, sends. */
  ghost predicate WouldSend(outcomes: seq<Outcome>) {
    exists k :: 0 <= k < |outcomes| && outcomes[k] == Sent && forall j :: 0 <= j < k ==> outcomes[j] == Interrupted
  }

  lemma {:induction false} WouldSendExactly(outcomes: seq<Outcome>)
    ensures WouldSend(outcomes) <==> Willing(outcomes) > 0
  {
    if outcomes != [] && outcomes[0] == Interrupted {
      WouldSendExactly(outcomes[1..]);
      if k :| 0 <= k < |outcomes[1..]| && outcomes[1..][k] == Sent
              && forall j :: 0 <= j < k ==> outcomes[1..][j] == Interrupted {
        assert outcomes[k + 1] == Sent && forall j :: 0 < j < k + 1 ==> outcomes[j] == outcomes[1..][j - 1];
      }
      if k :| 0 <= k < |outcomes| && outcomes[k] == Sent && forall j :: 0 <= j < k ==> outcomes[j] == Interrupted {
        assert outcomes[1..][k - 1] == Sent;
      }
    }
  }

  /** Willing counts the attempts that send before the first one that finds the socket unwilling. */
  lemma {:induction false} WillingExactly(outcomes: seq<Outcome>, n: nat)
    requires n <= |outcomes| && forall j :: 0 <= j < n ==> outcomes[j] != Again
    requires n < |outcomes| ==> outcomes[n] == Again
    ensures Willing(outcomes) == multiset(outcomes[..n])[Sent]
  {
    if n > 0 {
      WillingExactly(outcomes[1..], n - 1);
      assert outcomes[..n] == [outcomes[0]] + outcomes[1..][..n - 1];
    } else {
      assert outcomes[..0] == [];
    }
  }

  lemma TakesExactly(p: Port, paused: bool)
    requires p.sent <= |p.accepted|
    ensures Takes(p, paused, true) <==>
      || |p.accepted| - p.sent < p.capacity
      || (!paused && |p.accepted| == p.sent && WouldSend(p.outcomes))
  {
    hide WouldSend, Willing;
    WouldSendExactly(p.outcomes);
  }

  /** The end of a connection appends its disconnect to the log of a socket that is told, if and
      only if its queue has room, or the message goes out at once: nothing is paused or queued, and
      the socket is willing. */
  lemma EndIsHeard(m: Model, c: Connection, told: seq<Socket>, s: Socket)
    requires Solvent(m) && c in m.live && forall r <- told :: r in m.ports && r != m.forward
    requires s == m.forward || s in told
    ensures var p, q := m.ports[s], Apply(m, End(c, told)).ports[s];
      if || |p.accepted| - p.sent < p.capacity
         || (!m.paused && |p.accepted| == p.sent && WouldSend(p.outcomes))
      then q.accepted == p.accepted + [Item(c, Disconnect)] else q.accepted == p.accepted
  {
    hide Direct, Takes, Left, Willing, WouldSend;
    TakesExactly(m.ports[s], m.paused);
  }

  /** The disconnect of a connection that ends while the route is paused is queued where there is
      room, and goes out when the route is resumed with a socket that is willing enough. */
  lemma EndWhilePaused(m: Model, c: Connection, told: seq<Socket>, s: Socket)
    requires Solvent(m) && m.paused && c in m.live && forall r <- told :: r in m.ports && r != m.forward
    requires s == m.forward || s in told
    requires var p := m.ports[s]; |p.accepted| - p.sent < p.capacity && Willing(p.outcomes) > |p.accepted| - p.sent
    ensures var q := ApplyAll(m, [End(c, told), Pausing(false, true)]).ports[s];
      q.accepted == m.ports[s].accepted + [Item(c, Disconnect)] && q.sent == |q.accepted|
  {
    hide Left, Willing, WouldSend, Direct, Takes;
    var events := [End(c, told), Pausing(false, true)];
    ApplyAllNone(m, events);
    ApplyAllStep(m, events, 0);
    ApplyAllStep(m, events, 1);
    assert events[..2] == events;
    var ended := Apply(m, End(c, told));
    EndIsHeard(m, c, told, s);
    StepGrows(m, End(c, told));
    PausedKeeps(m.ports[s], Item(c, Disconnect));
    ResumeEmpties(ended, s);
  }

  /** A message that arrives while paused leaves the socket alone. */
  lemma PausedKeeps(p: Port, item: Item)
    ensures Offered(p, true, item, true).sent == p.sent && Offered(p, true, item, true).outcomes == p.outcomes
  {
  }

  /** After a readiness callback either nothing is queued, or the socket took all that it would. */
  lemma DrainedExactly(m: Model, s: Socket)
    requires Solvent(m) && !m.paused && s in m.ports
    ensures var p, q := m.ports[s], Apply(m, Drain(s, true)).ports[s];
      && q.accepted == p.accepted
      && (q.sent == |q.accepted| || q.sent == p.sent + Willing(p.outcomes))
      && q.sent <= p.sent + Willing(p.outcomes)
  {
  }

  /** A route whose backend takes nothing, with room for one message: the announcement of a
      connection fills the queue, and its end is never told. */
  lemma LostDisconnect(forward: Socket, c: Connection)
    ensures var m := Model(false, {}, {}, forward, map[forward := Port(1, [], 0, [])]);
      var n := ApplyAll(m, [Begin(c), End(c, [])]);
      c in n.known && c !in n.live && n.ports[forward].accepted == [Item(c, Connect)]
  {
    var m := Model(false, {}, {}, forward, map[forward := Port(1, [], 0, [])]);
    var events := [Begin(c), End(c, [])];
    ApplyAllNone(m, events);
    ApplyAllStep(m, events, 0);
    ApplyAllStep(m, events, 1);
    assert events[..2] == events;
    var started := Apply(m, Begin(c));
    assert started.ports[forward] == Port(1, [Item(c, Connect)], 0, []);
    EndIsHeard(started, c, [], forward);
  }

  // ----- what events do, one by one -----

  /** A message goes out at once if and only if nothing is paused or queued and the socket is willing. */
  lemma SentAtOnce(p: Port, paused: bool, item: Item, force: bool)
    requires p.sent <= |p.accepted|
    ensures Offered(p, paused, item, force).sent ==
      p.sent + if !paused && |p.accepted| == p.sent && WouldSend(p.outcomes) then 1 else 0
  {
    hide WouldSend, Willing, Left;
    WouldSendExactly(p.outcomes);
  }

  /** What an event adds to the logs, and who is known, running and paused after it. */
  lemma EventPlainly(m: Model, e: Event, s: Socket)
    requires m.forward in m.ports && s in m.ports
    ensures var n := Apply(m, e);
      && n.forward == m.forward && n.ports.Keys == m.ports.Keys
      && (e.Begin? && e.conn !in m.known ==>
            && n.known == m.known + {e.conn} && n.live == m.live + {e.conn} && n.paused == m.paused
            && n.ports[s].accepted == m.ports[s].accepted + if s == m.forward then [Item(e.conn, Connect)] else [])
      && (e.Say? && e.conn in m.live && e.sock in m.ports ==>
            && n.known == m.known && n.live == m.live && n.paused == m.paused
            && n.ports[s].accepted ==
                 m.ports[s].accepted + if s == e.sock then [Item(e.conn, Message(e.body))] else [])
      && (e.End? && e.conn in m.live && (forall r <- e.told :: r in m.ports && r != m.forward) ==>
            && n.known == m.known && n.live == m.live - {e.conn} && n.paused == m.paused
            && (s != m.forward && s !in e.told ==> n.ports[s] == m.ports[s]))
      && (e.Pausing? ==>
            && n.known == m.known && n.live == m.live && n.paused == e.pause
            && n.ports[s].accepted == m.ports[s].accepted)
      && (e.Drain? || e.Ready? || e.Bake? ==>
            && n.known == m.known && n.live == m.live && n.paused == m.paused
            && n.ports[s].accepted == m.ports[s].accepted)
      && (e.Ready? && e.sock == s ==> n.ports[s].outcomes == e.outcomes && n.ports[s].sent == m.ports[s].sent)
  {
    hide Willing, Left;
  }
}
