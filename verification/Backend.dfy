/** Messages to the backend (src/websocket.c): sent directly or queued, drained when the socket is
    willing, held back while paused. Queued messages keep their connection in memory. */
module Backend {
  import opened Lists
  import opened Entities
  import opened Multipart
  import opened Ports

  // ----- counting references -----

  /** How many items of a queue name a connection. */
  function Mentions(q: seq<Item>, c: Connection): nat {
    if q == [] then 0 else (if q[0].conn == c then 1 else 0) + Mentions(q[1..], c)
  }

  function References(qs: seq<seq<Item>>, c: Connection): nat {
    if qs == [] then 0 else Mentions(qs[0], c) + References(qs[1..], c)
  }

  function Total(qs: seq<seq<Item>>): nat {
    if qs == [] then 0 else |qs[0]| + Total(qs[1..])
  }

  lemma {:induction false} MentionsAppend(q: seq<Item>, item: Item, c: Connection)
    ensures Mentions(q + [item], c) == Mentions(q, c) + if item.conn == c then 1 else 0
  {
    if q == [] {
      assert q + [item] == [item];
    } else {
      MentionsAppend(q[1..], item, c);
      assert (q + [item])[1..] == q[1..] + [item];
    }
  }

  lemma {:induction false} MentionsMember(q: seq<Item>, c: Connection)
    ensures Mentions(q, c) > 0 <==> exists item <- q :: item.conn == c
  {
    if q != [] {
      MentionsMember(q[1..], c);
      assert q == [q[0]] + q[1..];
    }
  }

  lemma {:induction false} ReferencesUpdate(qs: seq<seq<Item>>, k: nat, q: seq<Item>, c: Connection)
    requires k < |qs|
    ensures References(qs[k := q], c) == References(qs, c) - Mentions(qs[k], c) + Mentions(q, c)
  {
    if k > 0 {
      ReferencesUpdate(qs[1..], k - 1, q, c);
      assert qs[k := q][1..] == qs[1..][k - 1 := q];
    } else {
      assert qs[0 := q][1..] == qs[1..];
    }
  }

  lemma {:induction false} TotalUpdate(qs: seq<seq<Item>>, k: nat, q: seq<Item>)
    requires k < |qs|
    ensures Total(qs[k := q]) == Total(qs) - |qs[k]| + |q|
  {
    if k > 0 {
      TotalUpdate(qs[1..], k - 1, q);
      assert qs[k := q][1..] == qs[1..][k - 1 := q];
    } else {
      assert qs[0 := q][1..] == qs[1..];
    }
  }

  lemma {:induction false} ReferencesMember(qs: seq<seq<Item>>, k: nat, c: Connection)
    requires k < |qs|
    ensures References(qs, c) >= Mentions(qs[k], c)
  {
    if k > 0 { ReferencesMember(qs[1..], k - 1, c); }
  }

  /** The queues, the reference counts of the allocated connections and the statistics counter. */
  datatype Ledger = Ledger(queues: seq<seq<Item>>, refcnt: map<Connection, int>, live: set<Connection>, queued: int)

  /** A count is one for a connection that was not stopped and one for each queued item. */
  ghost predicate Balanced(l: Ledger) {
    && l.live <= l.refcnt.Keys
    && (forall c <- l.refcnt :: l.refcnt[c] == References(l.queues, c) + if c in l.live then 1 else 0)
    && (forall c <- l.refcnt :: l.refcnt[c] > 0)
    && (forall k :: 0 <= k < |l.queues| ==> forall item <- l.queues[k] :: item.conn in l.refcnt)
    && l.queued == Total(l.queues)
  }

  ghost function Enqueued(l: Ledger, k: nat, item: Item): Ledger
    requires k < |l.queues| && item.conn in l.refcnt
  {
    Ledger(l.queues[k := l.queues[k] + [item]], l.refcnt[item.conn := l.refcnt[item.conn] + 1], l.live, l.queued + 1)
  }

  /** One reference less; with the last one the connection is freed. */
  ghost function Decremented(refcnt: map<Connection, int>, c: Connection): map<Connection, int>
    requires c in refcnt
  {
    if refcnt[c] - 1 <= 0 then refcnt - {c} else refcnt[c := refcnt[c] - 1]
  }

  ghost function Dequeued(l: Ledger, k: nat): Ledger
    requires k < |l.queues| && l.queues[k] != [] && l.queues[k][0].conn in l.refcnt
  {
    Ledger(l.queues[k := l.queues[k][1..]], Decremented(l.refcnt, l.queues[k][0].conn), l.live, l.queued - 1)
  }

  ghost function Stopped(l: Ledger, c: Connection): Ledger
    requires c in l.refcnt
  {
    Ledger(l.queues, Decremented(l.refcnt, c), l.live - {c}, l.queued)
  }

  ghost function Started(l: Ledger, c: Connection): Ledger {
    Ledger(l.queues, l.refcnt[c := 1], l.live + {c}, l.queued)
  }

  lemma EnqueuedBalanced(l: Ledger, k: nat, item: Item)
    requires Balanced(l) && k < |l.queues| && item.conn in l.refcnt
    ensures Balanced(Enqueued(l, k, item))
  {
    var q := l.queues[k] + [item];
    forall c <- l.refcnt
      ensures References(l.queues[k := q], c) == References(l.queues, c) + if item.conn == c then 1 else 0
    {
      ReferencesUpdate(l.queues, k, q, c);
      MentionsAppend(l.queues[k], item, c);
    }
    TotalUpdate(l.queues, k, q);
  }

  lemma DequeuedBalanced(l: Ledger, k: nat)
    requires Balanced(l) && k < |l.queues| && l.queues[k] != []
    ensures l.queues[k][0].conn in l.refcnt && Balanced(Dequeued(l, k))
  {
    var item, q := l.queues[k][0], l.queues[k][1..];
    assert item in l.queues[k];
    var h := Dequeued(l, k);
    forall c <- l.refcnt
      ensures References(h.queues, c) == References(l.queues, c) - if item.conn == c then 1 else 0
    {
      ReferencesUpdate(l.queues, k, q, c);
    }
    forall j, u | 0 <= j < |h.queues| && u in h.queues[j] ensures u.conn in h.refcnt {
      assert u in l.queues[j];
      MentionsMember(h.queues[j], u.conn);
      ReferencesMember(h.queues, j, u.conn);
    }
    TotalUpdate(l.queues, k, q);
  }

  lemma StoppedBalanced(l: Ledger, c: Connection)
    requires Balanced(l) && c in l.live
    ensures c in l.refcnt && Balanced(Stopped(l, c))
  {
    var h := Stopped(l, c);
    forall j, u | 0 <= j < |h.queues| && u in h.queues[j] ensures u.conn in h.refcnt {
      assert u in l.queues[j];
      MentionsMember(h.queues[j], u.conn);
      ReferencesMember(h.queues, j, u.conn);
    }
  }

  lemma {:induction false} UnmentionedAnywhere(qs: seq<seq<Item>>, c: Connection)
    requires forall k :: 0 <= k < |qs| ==> forall item <- qs[k] :: item.conn != c
    ensures References(qs, c) == 0
  {
    if qs != [] {
      assert qs[0] == qs[0];
      MentionsMember(qs[0], c);
      UnmentionedAnywhere(qs[1..], c);
    }
  }

  lemma {:induction false} NothingQueued(qs: seq<seq<Item>>)
    requires forall k :: 0 <= k < |qs| ==> qs[k] == []
    ensures Total(qs) == 0
  {
    if qs != [] { NothingQueued(qs[1..]); }
  }

  lemma StartedIs(l: Ledger, h: Ledger, c: Connection)
    requires h.queues == l.queues && h.live == l.live + {c} && h.queued == l.queued
    requires h.refcnt.Keys == l.refcnt.Keys + {c} && c in h.refcnt && h.refcnt[c] == 1
    requires forall d <- l.refcnt :: d != c ==> h.refcnt[d] == l.refcnt[d]
    ensures h == Started(l, c)
  {
  }

  lemma EnqueuedIs(l: Ledger, h: Ledger, k: nat, item: Item)
    requires k < |l.queues| && item.conn in l.refcnt && h.live == l.live && h.queued == l.queued + 1
    requires h.queues == l.queues[k := l.queues[k] + [item]]
    requires h.refcnt.Keys == l.refcnt.Keys && h.refcnt[item.conn] == l.refcnt[item.conn] + 1
    requires forall d <- l.refcnt :: d != item.conn ==> h.refcnt[d] == l.refcnt[d]
    ensures h == Enqueued(l, k, item)
  {
  }

  lemma StartedBalanced(l: Ledger, c: Connection)
    requires Balanced(l) && c !in l.refcnt
    ensures Balanced(Started(l, c))
  {
    UnmentionedAnywhere(l.queues, c);
  }

  /** A connection is in memory exactly as long as it runs or something queued names it. */
  lemma KeptWhileNeeded(l: Ledger, c: Connection)
    requires Balanced(l)
    ensures c in l.refcnt <==> c in l.live || References(l.queues, c) > 0
  {
    if c !in l.refcnt {
      UnmentionedAnywhere(l.queues, c);
    }
  }

  // ----- the history of one connection on one socket -----

  /** The payloads of a log that are of one connection. */
  function Story(log: seq<Item>, c: Connection): seq<Payload> {
    if log == [] then []
    else
      var n := |log| - 1;
      Story(log[..n], c) + if log[n].conn == c then [log[n].payload] else []
  }

  /** Connect first, then messages, and a disconnect only at the end of a stopped connection. */
  ghost predicate Orderly(story: seq<Payload>, live: bool) {
    && |story| > 0 && story[0] == Connect
    && (forall i :: 0 < i < |story| - 1 ==> story[i].Message?)
    && (|story| > 1 ==> story[|story| - 1].Message? || (!live && story[|story| - 1] == Disconnect))
  }

  lemma StoryStep(log: seq<Item>, item: Item, c: Connection)
    ensures Story(log + [item], c) == Story(log, c) + if item.conn == c then [item.payload] else []
  {
    assert (log + [item])[..|log|] == log;
  }

  /** What was sent of a connection is the beginning of what was accepted of it. */
  lemma {:induction false} StoryOfPrefix(log: seq<Item>, more: seq<Item>, c: Connection)
    ensures Story(log, c) <= Story(log + more, c)
    decreases |more|
  {
    if more == [] {
      assert log + more == log;
    } else {
      var n := |more| - 1;
      StoryOfPrefix(log, more[..n], c);
      StoryStep(log + more[..n], more[n], c);
      assert log + more == log + more[..n] + [more[n]];
    }
  }

  lemma OrderlyGrows(story: seq<Payload>, more: Payload)
    requires Orderly(story, true) && more != Connect
    ensures more.Message? ==> Orderly(story + [more], true)
    ensures Orderly(story + [more], false)
  {
  }

  /** The log of the forward socket tells an orderly story of every connection. */
  ghost predicate StoriesOf(log: seq<Item>, known: set<Connection>, live: set<Connection>) {
    && (forall c <- known :: Orderly(Story(log, c), c in live))
    && (forall item <- log :: item.conn in known)
  }

  lemma {:induction false} StoryOfStranger(log: seq<Item>, c: Connection)
    requires forall item <- log :: item.conn != c
    ensures Story(log, c) == []
  {
    if log != [] {
      var n := |log| - 1;
      assert log[n] in log;
      StoryOfStranger(log[..n], c);
    }
  }

  lemma StoriesConnect(log: seq<Item>, c: Connection, known: set<Connection>, live: set<Connection>)
    requires StoriesOf(log, known, live) && c !in known && live <= known
    ensures StoriesOf(log + [Item(c, Connect)], known + {c}, live + {c})
  {
    StoryOfStranger(log, c);
    forall d <- known + {c} ensures Orderly(Story(log + [Item(c, Connect)], d), d in live + {c}) {
      StoryStep(log, Item(c, Connect), d);
    }
  }

  lemma StoriesMessage(log: seq<Item>, c: Connection, body: Bytes, known: set<Connection>, live: set<Connection>)
    requires StoriesOf(log, known, live) && c in live && live <= known
    ensures StoriesOf(log + [Item(c, Message(body))], known, live)
  {
    forall d <- known ensures Orderly(Story(log + [Item(c, Message(body))], d), d in live) {
      StoryStep(log, Item(c, Message(body)), d);
      if d == c { OrderlyGrows(Story(log, c), Message(body)); }
    }
  }

  lemma StoriesEnd(log: seq<Item>, c: Connection, known: set<Connection>, live: set<Connection>)
    requires StoriesOf(log, known, live) && c in live && live <= known
    ensures StoriesOf(log, known, live - {c})
    ensures StoriesOf(log + [Item(c, Disconnect)], known, live - {c})
  {
    forall d <- known ensures Orderly(Story(log + [Item(c, Disconnect)], d), d in live - {c}) {
      StoryStep(log, Item(c, Disconnect), d);
      if d == c { OrderlyGrows(Story(log, c), Disconnect); }
    }
  }

  // ----- sockets -----

  type Ids = map<Connection, Bytes>

  ghost predicate Covers(ids: Ids, log: seq<Item>) {
    forall item <- log :: item.conn in ids
  }

  /** What a backend is to hear of a log: the id of the connection and what happened. */
  ghost function Logged(log: seq<Item>, ids: Ids): seq<(Bytes, Payload)>
    requires Covers(ids, log)
  {
    seq(|log|, i requires 0 <= i < |log| => (ids[log[i].conn], log[i].payload))
  }

  /** A socket neither loses nor reorders: what it accepted is what it sent and what it holds,
      its frames are those of its messages, and of those a backend hears what was sent. */
  ghost predicate Faithful(s: Socket, ids: Ids)
    reads s`accepted, s`sent, s`queue, s`messages, s`wire
  {
    && s.accepted == s.sent + s.queue
    && Nonempty(s.messages) && s.wire == Wire(s.messages)
    && Covers(ids, s.sent) && Heard(s.messages) == Logged(s.sent, ids)
  }

  lemma FaithfulFromTheStart(s: Socket, ids: Ids)
    requires s.accepted == [] && s.sent == [] && s.queue == [] && s.messages == [] && s.wire == []
    ensures Faithful(s, ids)
  {
  }

  lemma FaithfulToMore(s: Socket, ids: Ids, more: Ids)
    requires Faithful(s, ids) && forall c <- ids :: c in more && more[c] == ids[c]
    ensures Faithful(s, more)
  {
    assert Logged(s.sent, ids) == Logged(s.sent, more);
  }

  /** A peer that puts the frames of a socket together again hears the beginning of what the
      socket accepted. */
  lemma PeerReadsWhatWasSent(s: Socket, ids: Ids)
    requires Faithful(s, ids)
    ensures s.sent <= s.accepted && Covers(ids, s.sent)
    ensures Heard(Assembled(s.wire, [])) == Logged(s.sent, ids)
  {
    hide Heard, Logged;
    WireIsReadBack(s.messages);
  }

  /** A message that says nothing about a connection may go out at any time. */
  lemma SaidNothing(s: Socket, ids: Ids, wire: seq<Frame>, messages: seq<seq<Bytes>>, parts: seq<Bytes>)
    requires s.accepted == s.sent + s.queue && Covers(ids, s.sent)
    requires Nonempty(messages) && wire == Wire(messages) && Heard(messages) == Logged(s.sent, ids)
    requires parts != [] && Understood(parts) == None
    requires s.messages == messages + [parts] && s.wire == wire + Framed(parts)
    ensures Faithful(s, ids)
  {
    hide Wire, Nonempty, Heard, Understood, Framed;
    WireStep(messages, parts);
    HeardStep(messages, parts);
  }

  /** What a backend hears about one connection. */
  function Told(heard: seq<(Bytes, Payload)>, id: Bytes): seq<Payload> {
    if heard == [] then []
    else
      var n := |heard| - 1;
      Told(heard[..n], id) + if heard[n].0 == id then [heard[n].1] else []
  }

  /** When the id of a connection is its own, what is heard under it is the connection's story. */
  lemma {:induction false} ToldIsStory(log: seq<Item>, ids: Ids, c: Connection)
    requires Covers(ids, log) && c in ids
    requires forall item <- log :: ids[item.conn] == ids[c] ==> item.conn == c
    ensures Told(Logged(log, ids), ids[c]) == Story(log, c)
  {
    if log != [] {
      var n := |log| - 1;
      assert log[n] in log;
      ToldIsStory(log[..n], ids, c);
      assert Logged(log, ids)[..n] == Logged(log[..n], ids);
    }
  }

  /** One non-blocking attempt to send a message: its first frame goes or none does. */
  method SendReal(s: Socket, c: Connection, payload: Payload) returns (outcome: Outcome)
    modifies s`wire, s`outcomes, s`sent, s`messages
    ensures outcome == if old(s.outcomes) == [] then Again else old(s.outcomes)[0]
    ensures s.outcomes == if old(s.outcomes) == [] then [] else old(s.outcomes)[1..]
    ensures outcome != Sent ==> s.wire == old(s.wire) && s.sent == old(s.sent) && s.messages == old(s.messages)
    ensures outcome == Sent ==> s.sent == old(s.sent) + [Item(c, payload)]
    ensures outcome == Sent ==> s.messages == old(s.messages) + [Parts(c.uid, payload, c.cookie)]
    ensures outcome == Sent ==> s.wire == old(s.wire) + Framed(Parts(c.uid, payload, c.cookie))
  {
    hide Parts, Framed;
    if s.outcomes == [] { return Again; }
    outcome := s.outcomes[0];
    s.outcomes := s.outcomes[1..];
    if outcome != Sent { return; }
    s.wire := s.wire + [Frame(c.uid, true)];
    var kind;
    var isMsg := false;
    match payload {
      case Connect => kind := CONNECT;
      case Disconnect => kind := DISCONNECT;
      case Message(_) =>
        isMsg := true;
        kind := if c.cookie.Some? then MSGFROM else MESSAGE;
    }
    s.wire := s.wire + [Frame(kind, isMsg || c.cookie.Some?)];
    if c.cookie.Some? {
      s.wire := s.wire + [Frame(c.cookie.value, isMsg)];
    }
    if isMsg {
      s.wire := s.wire + [Frame(payload.body, false)];
    }
    FramedParts(c.uid, payload, c.cookie);
    s.sent := s.sent + [Item(c, payload)];
    s.messages := s.messages + [Parts(c.uid, payload, c.cookie)];
  }

  /** Sends past an empty queue. */
  method SendNow(s: Socket, c: Connection, payload: Payload, ghost ids: Ids) returns (outcome: Outcome)
    requires Faithful(s, ids) && s.queue == [] && c in ids && ids[c] == c.uid
    modifies s`wire, s`outcomes, s`sent, s`messages, s`accepted
    ensures Faithful(s, ids)
    ensures outcome == if old(s.outcomes) == [] then Again else old(s.outcomes)[0]
    ensures s.outcomes == if old(s.outcomes) == [] then [] else old(s.outcomes)[1..]
    ensures s.accepted == if outcome == Sent then old(s.accepted) + [Item(c, payload)] else old(s.accepted)
    ensures s.sent == if outcome == Sent then old(s.sent) + [Item(c, payload)] else old(s.sent)
  {
    hide Wire, Nonempty, Parts, Understood, Framed, Heard;
    PartsAreUnderstood(c.uid, payload, c.cookie);
    WireStep(s.messages, Parts(c.uid, payload, c.cookie));
    HeardStep(s.messages, Parts(c.uid, payload, c.cookie));
    outcome := SendReal(s, c, payload);
    if outcome == Sent { s.accepted := s.accepted + [Item(c, payload)]; }
  }

  /** Sends the head of the queue, and removes it when it was sent. */
  method SendHead(s: Socket, ghost ids: Ids) returns (outcome: Outcome)
    requires Faithful(s, ids) && s.queue != []
    requires s.queue[0].conn in ids && ids[s.queue[0].conn] == s.queue[0].conn.uid
    modifies s`wire, s`outcomes, s`sent, s`messages, s`queue
    ensures Faithful(s, ids)
    ensures outcome == if old(s.outcomes) == [] then Again else old(s.outcomes)[0]
    ensures s.outcomes == if old(s.outcomes) == [] then [] else old(s.outcomes)[1..]
    ensures s.queue == if outcome == Sent then old(s.queue)[1..] else old(s.queue)
    ensures s.sent == if outcome == Sent then old(s.sent) + [old(s.queue)[0]] else old(s.sent)
  {
    hide Wire, Nonempty, Parts, Understood, Framed, Heard;
    var item := s.queue[0];
    PartsAreUnderstood(item.conn.uid, item.payload, item.conn.cookie);
    WireStep(s.messages, Parts(item.conn.uid, item.payload, item.conn.cookie));
    HeardStep(s.messages, Parts(item.conn.uid, item.payload, item.conn.cookie));
    outcome := SendReal(s, item.conn, item.payload);
    if outcome == Sent { s.queue := s.queue[1..]; }
  }

  method Hold(s: Socket, item: Item, ghost ids: Ids)
    requires Faithful(s, ids)
    modifies s`queue, s`accepted
    ensures Faithful(s, ids)
    ensures s.queue == old(s.queue) + [item] && s.accepted == old(s.accepted) + [item]
  {
    hide Wire, Nonempty, Understood, Heard, Logged;
    s.queue := s.queue + [item];
    s.accepted := s.accepted + [item];
  }

  /** A socket as its port. */
  ghost function PortOf(s: Socket): Port
    reads s`accepted, s`sent, s`outcomes
  {
    Port(s.capacity, s.accepted, |s.sent|, s.outcomes)
  }

  lemma QueuedIs(s: Socket, ids: Ids)
    requires Faithful(s, ids)
    ensures Queued(PortOf(s)) == |s.queue| && s.sent == s.accepted[..|s.sent|] && s.queue == s.accepted[|s.sent|..]
  {
  }

  lemma OnePort(before: map<Socket, Port>, after: map<Socket, Port>, s: Socket, p: Port)
    requires before.Keys == after.Keys && s in before && after[s] == p
    requires forall r <- before :: r != s ==> after[r] == before[r]
    ensures after == before[s := p]
  {
  }

  lemma NotifiedPorts(before: map<Socket, Port>, after: map<Socket, Port>, paused: bool,
                      told: seq<Socket>, c: Connection)
    requires before.Keys == after.Keys
    requires forall s <- told :: s in before && after[s] == Offered(before[s], paused, Item(c, Disconnect), true)
    requires forall r <- before :: after[r] == before[r] || r in told
    ensures after == Notified(before, paused, told, c)
  {
    hide Offered;
  }

  /** The backend side of one route: its forward socket, which is the first one, and its named
      outputs, with the connections whose memory their queues hold. */
  class Forwarding {
    const sockets: seq<Socket>
    var paused: bool
    var queued: int                      // statistics: messages queued
    ghost var conns: set<Connection>     // in memory
    var live: set<Connection>            // started and not stopped
    var known: set<Connection>           // ever started

    static ghost function QueuesOf(ss: seq<Socket>): (qs: seq<seq<Item>>)
      reads ss`queue
      ensures |qs| == |ss| && forall k :: 0 <= k < |ss| ==> qs[k] == ss[k].queue
    {
      if ss == [] then [] else [ss[0].queue] + QueuesOf(ss[1..])
    }

    ghost function View(): Ledger
      reads `conns, `live, `queued, sockets`queue, conns`refcnt
    {
      Ledger(QueuesOf(sockets), map c | c in conns :: c.refcnt, live, queued)
    }

    /** The ids that the connections have. */
    ghost function Uids(): Ids
      reads `known, known`uid
    {
      map c | c in known :: c.uid
    }

    ghost predicate SocketsFaithful()
      reads `known, known`uid, sockets`accepted, sockets`sent, sockets`queue, sockets`messages, sockets`wire
    {
      && Distinct(sockets)
      && forall k :: 0 <= k < |sockets| ==> Faithful(sockets[k], Uids())
    }

    /** Counts and logs agree. */
    ghost predicate Sound()
      reads `conns, `live, `known, `queued, conns`refcnt, known`uid
      reads sockets`accepted, sockets`sent, sockets`queue, sockets`messages, sockets`wire
    {
      SocketsFaithful() && Balanced(View()) && conns <= known
    }

    ghost predicate Stories()
      reads `live, `known, sockets`accepted
    {
      |sockets| > 0 && StoriesOf(sockets[0].accepted, known, live)
    }

    ghost predicate Valid()
      reads `conns, `live, `known, `queued, conns`refcnt, known`uid
      reads sockets`accepted, sockets`sent, sockets`queue, sockets`messages, sockets`wire
    {
      Sound() && Stories()
    }

    /** Sockets that have taken nothing yet, the forward socket first. */
    constructor (sockets: seq<Socket>)
      requires |sockets| > 0 && Distinct(sockets)
      requires forall s <- sockets ::
        s.accepted == [] && s.sent == [] && s.queue == [] && s.messages == [] && s.wire == []
      ensures Valid() && this.sockets == sockets && !paused && known == live == conns == {}
    {
      hide *;
      this.sockets, paused, queued := sockets, false, 0;
      conns, live, known := {}, {}, {};
      new;
      NoTraffic();
    }

    lemma NoTraffic()
      requires |sockets| > 0 && Distinct(sockets) && conns == known == live == {} && queued == 0
      requires forall s <- sockets ::
        s.accepted == [] && s.sent == [] && s.queue == [] && s.messages == [] && s.wire == []
      ensures Valid()
    {
      hide Faithful, QueuesOf, Uids, Distinct;
      NothingQueued(QueuesOf(sockets));
      forall k | 0 <= k < |sockets| ensures Faithful(sockets[k], Uids()) {
        FaithfulFromTheStart(sockets[k], Uids());
      }
    }

    ghost function Ports(): map<Socket, Port>
      reads sockets`accepted, sockets`sent, sockets`outcomes
    {
      map s | s in sockets :: PortOf(s)
    }

    /** The route's backend side as a value. */
    ghost function State(): Model
      requires |sockets| > 0
      reads `paused, `known, `live, sockets`accepted, sockets`sent, sockets`outcomes
    {
      Model(paused, known, live, sockets[0], Ports())
    }

    lemma Named(k: nat)
      requires Sound() && k < |sockets|
      ensures Faithful(sockets[k], Uids())
      ensures forall item <- sockets[k].queue :: item.conn in conns
      ensures live <= conns <= known
    {
      var l := View();
      assert l.queues[k] == sockets[k].queue;
    }

    lemma Parts()
      requires |sockets| > 0
      ensures State() == Model(paused, known, live, sockets[0], Ports())
      ensures Ports().Keys == Elements(sockets)
      ensures forall s <- sockets :: s in Ports() && Ports()[s] == PortOf(s)
    {
    }

    /** The state after one port changed. */
    lemma Repainted(m: Model, s: Socket)
      requires |sockets| > 0 && s in sockets && m.ports.Keys == Elements(sockets)
      requires forall r <- sockets :: r != s ==> PortOf(r) == m.ports[r]
      ensures State() == Model(paused, known, live, sockets[0], m.ports[s := PortOf(s)])
    {
      hide PortOf;
      assert forall r <- sockets :: r in Elements(sockets);
      assert Ports() == m.ports[s := PortOf(s)];
    }

    /** How the ports look now. */
    lemma Painted()
      requires |sockets| > 0
      ensures State().ports.Keys == Elements(sockets) && State().forward == sockets[0] && sockets[0] in sockets
      ensures State().paused == paused && State().known == known && State().live == live
      ensures forall r <- sockets :: r in State().ports && PortOf(r) == State().ports[r]
    {
    }

    /** A socket has sent the beginning of what it accepted. */
    lemma SentIsPart()
      requires Valid()
      ensures |sockets| > 0 && Solvent(State()) && State().paused == paused
      ensures forall s <- sockets ::
        && s in State().ports && State().ports[s].accepted == s.accepted
        && State().ports[s].sent == |s.sent| && s.sent == s.accepted[..|s.sent|]
    {
      hide Logged, Uids;
      forall s <- sockets ensures |s.sent| <= |s.accepted| && s.sent == s.accepted[..|s.sent|] {
        var k :| 0 <= k < |sockets| && sockets[k] == s;
        Named(k);
      }
    }

    /** What makes the state valid, socket by socket. */
    lemma Valids()
      ensures Valid() <==>
        && Distinct(sockets) && Balanced(View()) && conns <= known && Stories()
        && forall s <- sockets :: Faithful(s, Uids())
    {
      hide Faithful, Balanced, Stories, Distinct, Uids;
    }

    lemma Sounds()
      ensures Sound() <==> SocketsFaithful() && Balanced(View()) && conns <= known
      ensures SocketsFaithful() <==>
        Distinct(sockets) && forall k :: 0 <= k < |sockets| ==> Faithful(sockets[k], Uids())
    {
    }

    lemma StillFaithful()
      requires Distinct(sockets) && forall k :: 0 <= k < |sockets| ==> Faithful(sockets[k], Uids())
      ensures SocketsFaithful()
    {
    }

    lemma SoundAgain()
      requires SocketsFaithful() && Balanced(View()) && conns <= known
      ensures Sound()
    {
    }

    lemma Viewed()
      ensures View().queues == QueuesOf(sockets) && View().live == live && View().queued == queued
      ensures View().refcnt.Keys == conns && forall c <- conns :: View().refcnt[c] == c.refcnt
    {
      hide QueuesOf;
    }

    lemma Halves()
      ensures Valid() <==> Sound() && Stories()
      ensures Stories() <==> |sockets| > 0 && StoriesOf(sockets[0].accepted, known, live)
    {
    }

    lemma IdOf(c: Connection)
      requires c in known
      ensures c in Uids() && Uids()[c] == c.uid
    {
    }

    lemma Running()
      requires Valid()
      ensures |sockets| > 0 && live <= conns <= known
    {
    }

    static lemma OthersQueues(before: seq<seq<Item>>, after: seq<seq<Item>>, k: nat)
      requires |before| == |after| && k < |after|
      requires forall j :: 0 <= j < |after| && j != k ==> after[j] == before[j]
      ensures after == before[k := after[k]]
      ensures after[k] == before[k] ==> after == before
    {
    }

    lemma Apart(s: Socket, k: nat)
      requires Distinct(sockets) && k < |sockets| && sockets[k] == s
      ensures forall j :: 0 <= j < |sockets| && j != k ==> sockets[j] != s
    {
    }

    /** Drops a reference; the last one frees the connection. */
    method Decref(c: Connection)
      requires c in conns
      modifies c`refcnt, `conns
      ensures View().refcnt == Decremented(old(View().refcnt), c) && conns == View().refcnt.Keys
      ensures conns <= old(conns)
    {
      hide QueuesOf;
      c.refcnt := c.refcnt - 1;
      if c.refcnt <= 0 { conns := conns - {c}; }
    }

    /** Appends to the queue of a socket; only forced messages respect its capacity. */
    method Enqueue(s: Socket, ghost k: nat, c: Connection, payload: Payload, force: bool) returns (ok: bool)
      requires Sound() && k < |sockets| && sockets[k] == s && c in conns
      modifies s`queue, s`accepted, c`refcnt, `queued
      ensures Sound()
      ensures ok <==> !force || old(|s.queue|) < s.capacity
      ensures s.queue == if ok then old(s.queue) + [Item(c, payload)] else old(s.queue)
      ensures s.accepted == if ok then old(s.accepted) + [Item(c, payload)] else old(s.accepted)
    {
      hide *;
      if force && |s.queue| >= s.capacity { return false; }
      ghost var l := View();
      Balance();
      Sounds();
      Viewed();
      Named(k);
      Apart(s, k);
      Hold(s, Item(c, payload), Uids());
      Queues(l.queues, k);
      StillFaithful();
      queued := queued + 1;
      c.refcnt := c.refcnt + 1;
      EnqueuedBalanced(l, k, Item(c, payload));
      Viewed();
      EnqueuedIs(l, View(), k, Item(c, payload));
      SoundAgain();
      return true;
    }

    /** Only the queue of one socket changed. */
    lemma Queues(before: seq<seq<Item>>, k: nat)
      requires k < |sockets| == |before|
      requires forall j :: 0 <= j < |sockets| && j != k ==> before[j] == sockets[j].queue
      ensures QueuesOf(sockets) == before[k := sockets[k].queue]
    {
      hide QueuesOf;
    }

    /** Attempts to send a message past an empty queue, as often as the attempt is interrupted. */
    method Attempt(s: Socket, ghost k: nat, c: Connection, payload: Payload) returns (sent: bool)
      requires Sound() && k < |sockets| && sockets[k] == s && c in conns && s.queue == []
      modifies s`accepted, s`wire, s`outcomes, s`sent, s`messages
      ensures Sound()
      ensures sent <==> Willing(old(s.outcomes)) > 0
      ensures s.accepted == if sent then old(s.accepted) + [Item(c, payload)] else old(s.accepted)
      ensures |s.sent| == old(|s.sent|) + if sent then 1 else 0
      ensures s.outcomes == Left(old(s.outcomes), 1)
    {
      hide Balanced, Faithful, Uids, Distinct, QueuesOf;
      Named(k);
      Apart(s, k);
      while true
        invariant SocketsFaithful() && Sound() && s.accepted == old(s.accepted) && s.sent == old(s.sent)
        invariant Willing(s.outcomes) == Willing(old(s.outcomes)) && Left(s.outcomes, 1) == Left(old(s.outcomes), 1)
        decreases |s.outcomes|
      {
        ghost var left := s.outcomes;
        Named(k);
        IdOf(c);
        var outcome := SendNow(s, c, payload, Uids());
        OneLeft(left);
        if outcome != Interrupted { return outcome == Sent; }
      }
    }

    /** Sends a message, or queues it: while paused, behind what is queued, or when the socket
        is not willing. */
    method Send(s: Socket, ghost k: nat, c: Connection, payload: Payload, force: bool) returns (ok: bool)
      requires Sound() && k < |sockets| && sockets[k] == s && c in conns
      modifies s`queue, s`accepted, s`wire, s`outcomes, s`sent, s`messages, c`refcnt, `queued
      ensures Sound()
      ensures ok <==>
        !force || old(|s.queue|) < s.capacity || (!paused && old(s.queue) == [] && WouldSend(old(s.outcomes)))
      ensures s.accepted == if ok then old(s.accepted) + [Item(c, payload)] else old(s.accepted)
      ensures PortOf(s) == Offered(old(PortOf(s)), paused, Item(c, payload), force)
      ensures forall r <- sockets :: r != s ==> PortOf(r) == old(PortOf(r))
    {
      hide Sound, Left, WouldSend;
      WouldSendExactly(s.outcomes);
      Named(k);
      QueuedIs(s, Uids());
      hide Faithful;
      if !paused && |s.queue| == 0 {
        var sent := Attempt(s, k, c, payload);
        if sent { return true; }
      }
      ok := Enqueue(s, k, c, payload, force);
    }

    /** Accounts for a sent message; its connection is freed when that was all that held it. */
    method Settle(c: Connection, ghost l: Ledger, ghost k: nat)
      requires SocketsFaithful() && conns <= known
      requires Balanced(l) && k < |l.queues| && l.queues[k] != [] && l.queues[k][0].conn == c
      requires View() == l.(queues := l.queues[k := l.queues[k][1..]])
      modifies conns`refcnt, `queued, `conns
      ensures Sound() && conns <= old(conns)
    {
      hide Balanced, Faithful, Uids, Distinct, QueuesOf, Decremented, SocketsFaithful;
      DequeuedBalanced(l, k);
      queued := queued - 1;
      assert View().refcnt == l.refcnt;
      Decref(c);
      assert View() == Dequeued(l, k);
    }

    /** Sends the head of a queue. */
    method DrainOne(s: Socket, ghost k: nat) returns (outcome: Outcome)
      requires Sound() && k < |sockets| && sockets[k] == s && s.queue != []
      modifies s`queue, s`wire, s`outcomes, s`sent, s`messages, conns`refcnt, `queued, `conns
      ensures Sound() && conns <= old(conns)
      ensures outcome == if old(s.outcomes) == [] then Again else old(s.outcomes)[0]
      ensures s.outcomes == if old(s.outcomes) == [] then [] else old(s.outcomes)[1..]
      ensures s.queue == if outcome == Sent then old(s.queue)[1..] else old(s.queue)
      ensures s.sent == if outcome == Sent then old(s.sent) + [old(s.queue)[0]] else old(s.sent)
    {
      hide Balanced, Faithful, Uids, Distinct, QueuesOf, Decremented;
      ghost var l := View();
      Named(k);
      Apart(s, k);
      var c := s.queue[0].conn;
      IdOf(c);
      outcome := SendHead(s, Uids());
      assert SocketsFaithful();
      OthersQueues(l.queues, QueuesOf(sockets), k);
      if outcome == Sent { Settle(c, l, k); }
    }

    /** The socket's readiness callback: drains the queue as far as the socket is willing. */
    method Unqueue(s: Socket, ghost k: nat, writable: bool)
      requires Sound() && k < |sockets| && sockets[k] == s
      modifies s`queue, s`wire, s`outcomes, s`sent, s`messages, conns`refcnt, `queued, `conns
      ensures Sound() && conns <= old(conns)
      ensures PortOf(s) == Drained(old(PortOf(s)), paused, writable)
      ensures forall r <- sockets :: r != s ==> PortOf(r) == old(PortOf(r))
    {
      hide Sound, Distinct, Faithful, Uids;
      Named(k);
      QueuedIs(s, Uids());
      if !(writable && |s.queue| > 0 && !paused) { return; }
      ghost var i, outcomes, size := 0, s.outcomes, |s.queue|;
      while |s.queue| > 0
        invariant Sound() && conns <= old(conns) && s.accepted == old(s.accepted)
        invariant i + |s.queue| == size && |s.sent| == old(|s.sent|) + i
        invariant Willing(outcomes) == i + Willing(s.outcomes) && Left(outcomes, size) == Left(s.outcomes, |s.queue|)
        decreases |s.queue|, |s.outcomes|
      {
        ghost var left := s.outcomes;
        var outcome := DrainOne(s, k);
        if outcome == Again {
          assert Willing(left) == 0 && Left(left, |s.queue|) == s.outcomes;
          return;
        }
        if outcome == Sent { i := i + 1; }
      }
    }

    /** A connection comes into being, with one reference. */
    method Admit(c: Connection)
      requires Sound() && c !in known
      modifies c`refcnt, `conns, `live, `known
      ensures Sound()
      ensures conns == old(conns) + {c} && live == old(live) + {c} && known == old(known) + {c}
      ensures Uids() == old(Uids())[c := c.uid]
    {
      hide *;
      ghost var l, ids := View(), Uids();
      Balance();
      UidsAre();
      Sounds();
      Viewed();
      c.refcnt := 1;
      conns := conns + {c};
      live := live + {c};
      known := known + {c};
      AdmittedUids(ids, c);
      Viewed();
      StartedBalanced(l, c);
      StartedIs(l, View(), c);
      forall k | 0 <= k < |sockets| ensures Faithful(sockets[k], Uids()) {
        FaithfulToMore(sockets[k], ids, Uids());
      }
      Sounds();
    }

    lemma UidsAre()
      ensures Uids().Keys == known && forall c <- known :: Uids()[c] == c.uid
    {
    }

    lemma AdmittedUids(ids: Ids, c: Connection)
      requires known == ids.Keys + {c} && c !in ids && forall d <- ids :: ids[d] == d.uid
      ensures Uids() == ids[c := c.uid]
    {
    }

    lemma Balance()
      requires Sound()
      ensures live <= conns <= known && Balanced(View()) && Distinct(sockets)
    {
    }

    /** A connection starts: its connect message is accepted whatever the socket does. */
    method Start(c: Connection)
      requires Valid() && c !in known
      modifies sockets`accepted, sockets`sent, sockets`queue, sockets`messages, sockets`wire, sockets`outcomes
      modifies c`refcnt, `queued, `conns, `live, `known
      ensures Valid() && conns == old(conns) + {c} && Uids() == old(Uids())[c := c.uid]
      ensures State() == Apply(old(State()), Begin(c))
    {
      hide *;
      Running();
      Halves();
      Painted();
      ghost var m := State();
      var s := sockets[0];
      Balance();
      StoriesConnect(s.accepted, c, known, live);
      LogIs(s);
      Admit(c);
      var ok := Send(s, 0, c, Connect, false);
      LogIs(s);
      OfferedLog(m.ports[s], paused, Item(c, Connect), false);
      BegunState(m, c);
      Halves();
      Repainted(m, s);
    }

    static lemma LogIs(s: Socket)
      ensures PortOf(s).accepted == s.accepted
    {
    }

    /** A message of a running connection goes to the socket that its prefix resolves to. */
    method Forward(s: Socket, ghost k: nat, c: Connection, body: Bytes)
      requires Valid() && k < |sockets| && sockets[k] == s && c in live
      modifies sockets`accepted, sockets`sent, sockets`queue, sockets`messages, sockets`wire, sockets`outcomes
      modifies c`refcnt, `queued
      ensures Valid() && State() == Apply(old(State()), Say(c, s, body))
    {
      hide Sound, Distinct, StoriesOf, Offered, State, Apply, Ports;
      ghost var m := State();
      Balance();
      Parts();
      Apart(s, k);
      StoriesMessage(sockets[0].accepted, c, body, known, live);
      var ok := Send(s, k, c, Message(body), false);
      Parts();
      OnePort(m.ports, Ports(), s, Offered(m.ports[s], paused, Item(c, Message(body)), false));
      OfferedLog(m.ports[s], paused, Item(c, Message(body)), false);
      SaidState(m, c, s, body);
    }

    /** Tells sockets of a connection's end, once each, by a forced message that a full queue may
        refuse; the other sockets stay as they are. */
    method Tell(c: Connection, told: seq<Socket>)
      requires Sound() && c in conns && Distinct(told)
      requires forall s <- told :: s in sockets
      modifies sockets`accepted, sockets`sent, sockets`queue, sockets`messages, sockets`wire, sockets`outcomes
      modifies c`refcnt, `queued
      ensures Sound() && Ports() == Notified(old(Ports()), paused, told, c)
    {
      hide Sound, Offered;
      ghost var ports := Ports();
      for i := 0 to |told|
        invariant Sound()
        invariant forall j :: 0 <= j < i ==>
          PortOf(told[j]) == Offered(ports[told[j]], paused, Item(c, Disconnect), true)
        invariant forall s <- sockets :: s in told[..i] || PortOf(s) == ports[s]
      {
        assert told[i] in sockets;
        ghost var k :| 0 <= k < |sockets| && sockets[k] == told[i];
        var ok := Send(told[i], k, c, Disconnect, true);
      }
      NotifiedPorts(ports, Ports(), paused, told, c);
    }

    /** A stopped connection gives up its own reference. */
    method Release(c: Connection)
      requires Sound() && c in live
      modifies c`refcnt, `conns, `live
      ensures Sound() && live == old(live) - {c} && conns <= old(conns)
    {
      hide Balanced, Faithful, Uids, QueuesOf, Decremented, Distinct;
      ghost var l := View();
      StoppedBalanced(l, c);
      live := live - {c};
      assert View().refcnt == l.refcnt;
      Decref(c);
      assert View().queues == Stopped(l, c).queues;
    }

    /** A connection ends: the forward socket is told, then every named output that it used, and
        its own reference goes. */
    method Stop(c: Connection, told: seq<Socket>)
      requires Valid() && c in live && Distinct(told)
      requires forall s <- told :: s in sockets && s != sockets[0]
      modifies sockets`accepted, sockets`sent, sockets`queue, sockets`messages, sockets`wire, sockets`outcomes
      modifies conns`refcnt, `queued, `conns, `live
      ensures Valid() && conns <= old(conns)
      ensures State() == Apply(old(State()), End(c, told))
    {
      hide *;
      Running();
      Halves();
      Painted();
      PortsAre();
      PortsOfState();
      ghost var m := State();
      var s := sockets[0];
      Balance();
      StoriesEnd(s.accepted, c, known, live);
      FirstApart(s, told);
      LogIs(s);
      Tell(c, [s] + told);
      LogIs(s);
      PortsAre();
      OfferedLog(m.ports[s], paused, Item(c, Disconnect), true);
      EndedState(m, c, told);
      Release(c);
      Halves();
      PortsOfState();
    }

    lemma PortsOfState()
      requires |sockets| > 0
      ensures State() == Model(paused, known, live, sockets[0], Ports())
    {
    }

    /** The callbacks that resuming triggers, one for each socket. */
    method DrainAll(writable: bool)
      requires Valid()
      modifies sockets`queue, sockets`wire, sockets`outcomes, sockets`sent, sockets`messages, conns`refcnt
      modifies `queued, `conns
      ensures Valid() && conns <= old(conns)
      ensures Ports() == DrainedAll(old(Ports()), paused, writable)
    {
      hide *;
      Running();
      Halves();
      Balance();
      Painted();
      PortsAre();
      ghost var ports := Ports();
      for i := 0 to |sockets|
        invariant Sound() && Stories() && conns <= old(conns)
        invariant forall k :: i <= k < |sockets| ==> PortOf(sockets[k]) == ports[sockets[k]]
        invariant forall k :: 0 <= k < i ==> PortOf(sockets[k]) == Drained(ports[sockets[k]], paused, writable)
      {
        Apart(sockets[i], i);
        Unqueue(sockets[i], i, writable);
      }
      Halves();
      AllRepainted(ports, writable);
    }

    lemma PortsAre()
      ensures Ports().Keys == Elements(sockets) && forall s <- sockets :: s in Ports() && Ports()[s] == PortOf(s)
    {
    }

    lemma AllRepainted(ports: map<Socket, Port>, writable: bool)
      requires ports.Keys == Elements(sockets)
      requires forall k :: 0 <= k < |sockets| ==> PortOf(sockets[k]) == Drained(ports[sockets[k]], paused, writable)
      ensures Ports() == DrainedAll(ports, paused, writable)
    {
      hide PortOf, Drained;
    }

    /** While paused, everything is queued and nothing is sent; resuming has every queue drained. */
    method Pause(pause: bool, writable: bool)
      requires Valid()
      modifies sockets`queue, sockets`wire, sockets`outcomes, sockets`sent, sockets`messages, conns`refcnt
      modifies `queued, `conns, `paused
      ensures Valid() && conns <= old(conns)
      ensures State() == Apply(old(State()), Pausing(pause, writable))
    {
      hide Sound, StoriesOf, State, Ports, DrainedAll, Drained;
      ghost var ports := Ports();
      Parts();
      PausedStay(ports, writable);
      if paused != pause {
        paused := pause;
        if !pause { DrainAll(writable); }
      }
      Parts();
    }

    /** The readiness callback of one of the sockets. */
    method DrainSocket(s: Socket, writable: bool)
      requires Valid() && s in sockets
      modifies sockets`queue, sockets`wire, sockets`outcomes, sockets`sent, sockets`messages, conns`refcnt
      modifies `queued, `conns
      ensures Valid() && conns <= old(conns)
      ensures State() == Apply(old(State()), Drain(s, writable))
    {
      hide *;
      Running();
      Halves();
      Painted();
      ghost var m := State();
      ghost var k :| 0 <= k < |sockets| && sockets[k] == s;
      EventDoes(m, Drain(s, writable));
      Unqueue(s, k, writable);
      Halves();
      Repainted(m, s);
    }

    /** How the coming attempts on a socket end is up to the network. */
    method SetOutcomes(s: Socket, outcomes: seq<Outcome>)
      requires Valid() && s in sockets
      modifies s`outcomes
      ensures Valid() && State() == Apply(old(State()), Ready(s, outcomes))
    {
      hide Sound, StoriesOf, State, Apply, Ports;
      ghost var m := State();
      Parts();
      EventDoes(m, Ready(s, outcomes));
      s.outcomes := outcomes;
      Parts();
      OnePort(m.ports, Ports(), s, m.ports[s].(outcomes := outcomes));
    }

    /** One event of the loop; what names an unknown connection or socket does nothing. */
    method Execute(e: Event)
      requires Valid() && (e.End? ==> Distinct(e.told))
      modifies sockets`accepted, sockets`sent, sockets`queue, sockets`messages, sockets`wire, sockets`outcomes
      modifies (conns + Newcomers([e]))`refcnt, conns`cookie, `paused, `queued, `conns, `live, `known
      ensures Valid() && conns <= old(conns) + Newcomers([e])
      ensures !e.Begin? ==> known == old(known)
      ensures e.Bake? && e.conn in old(live) ==> e.conn.cookie == Some(e.cookie)
      ensures forall c <- old(known) :: !(e.Bake? && e.conn == c) ==> c.cookie == old(c.cookie)
      ensures State() == Apply(old(State()), e)
    {
      hide Valid, State, Apply;
      Running();
      Parts();
      EventDoes(State(), e);
      match e
      case Begin(c) =>
        if c !in known {
          BegunState(State(), c);
          Start(c);
        }
      case Say(c, s, body) =>
        if c in live && s in sockets {
          ghost var k :| 0 <= k < |sockets| && sockets[k] == s;
          Forward(s, k, c, body);
        }
      case End(c, told) =>
        if c in live && sockets[0] !in told && (forall s <- told :: s in sockets) {
          EndedState(State(), c, told);
          Stop(c, told);
        }
      case Pausing(pause, writable) => Pause(pause, writable);
      case Drain(s, writable) => if s in sockets { DrainSocket(s, writable); }
      case Ready(s, outcomes) => if s in sockets { SetOutcomes(s, outcomes); }
      case Bake(c, cookie) => if c in live { c.cookie := Some(cookie); }
      Running();
      Parts();
    }

    /** Any run of events keeps counts, logs and stories right, and makes of the sockets what it
        makes of their value: no message is lost, reordered or unsent. */
    method ExecuteAll(events: seq<Event>)
      requires Valid() && forall e <- events :: e.End? ==> Distinct(e.told)
      modifies sockets`accepted, sockets`sent, sockets`queue, sockets`messages, sockets`wire, sockets`outcomes
      modifies (conns + Newcomers(events))`refcnt, (conns + Newcomers(events))`cookie
      modifies `paused, `queued, `conns, `live, `known
      ensures Valid() && State() == ApplyAll(old(State()), events)
      ensures forall s <- sockets :: old(s.sent) <= s.sent && old(s.accepted) <= s.accepted
      ensures old(paused) && (forall e <- events :: e.Pausing? ==> e.pause) ==>
        paused && forall s <- sockets :: s.sent == old(s.sent)
    {
      hide *;
      Running();
      SentIsPart();
      ghost var m := State();
      SolventForward(m);
      ApplyAllNone(m, events);
      for i := 0 to |events|
        invariant Valid() && State() == ApplyAll(m, events[..i])
        invariant conns <= old(conns) + Newcomers(events)
      {
        NewcomersHave(events, i);
        ApplyAllStep(m, events, i);
        Execute(events[i]);
      }
      assert events[..|events|] == events;
      RunGrows(m, events);
      SentIsPart();
      forall s <- sockets ensures old(s.sent) <= s.sent && old(s.accepted) <= s.accepted {
        GrownAt(m, State(), s);
      }
      if old(paused) && forall e <- events :: e.Pausing? ==> e.pause {
        PausedSendsNothing(m, events);
      }
    }

    /** A connection is in memory exactly as long as it runs or some queued message names it. */
    lemma InMemoryWhileNeeded(c: Connection)
      requires Valid()
      ensures c in conns <==>
        c in live || exists k, item :: 0 <= k < |sockets| && item in sockets[k].queue && item.conn == c
    {
      var l := View();
      KeptWhileNeeded(l, c);
      if k, item :| 0 <= k < |sockets| && item in sockets[k].queue && item.conn == c {
        assert item in l.queues[k];
      } else {
        forall k | 0 <= k < |l.queues| ensures forall item <- l.queues[k] :: item.conn != c {
          assert l.queues[k] == sockets[k].queue;
        }
        UnmentionedAnywhere(l.queues, c);
      }
    }

    /** On the forward socket a connection is announced first, and after its disconnect nothing
        follows. When ids tell connections apart, what a peer that reads the wire has heard under
        the id of a connection is the beginning of that story. */
    lemma StoryOnTheWire(c: Connection)
      requires Valid() && c in known
      ensures Orderly(Story(sockets[0].accepted, c), c in live)
      ensures (forall d <- known :: d.uid == c.uid ==> d == c) ==>
        Told(Heard(Assembled(sockets[0].wire, [])), c.uid) <= Story(sockets[0].accepted, c)
    {
      hide Heard, Told, Story, Logged, Balanced;
      var s := sockets[0];
      Named(0);
      PeerReadsWhatWasSent(s, Uids());
      StoryOfPrefix(s.sent, s.queue, c);
      if forall d <- known :: d.uid == c.uid ==> d == c { ToldIsStory(s.sent, Uids(), c); }
    }
  }

  lemma OfferedLog(p: Port, paused: bool, item: Item, force: bool)
    ensures var q := Offered(p, paused, item, force);
      q.accepted == p.accepted + [item] || (force && q.accepted == p.accepted)
  {
  }

  lemma OneLeft(outcomes: seq<Outcome>)
    ensures outcomes == [] || outcomes[0] == Again ==> Willing(outcomes) == 0
    ensures outcomes == [] ==> Left(outcomes, 1) == []
    ensures outcomes != [] && outcomes[0] != Interrupted ==> Left(outcomes, 1) == outcomes[1..]
    ensures outcomes != [] && outcomes[0] == Interrupted ==>
      Left(outcomes, 1) == Left(outcomes[1..], 1) && Willing(outcomes) == Willing(outcomes[1..])
  {
    if outcomes != [] { assert Left(outcomes[1..], 0) == outcomes[1..]; }
  }

  /** The connections that start during a run. */
  ghost function Newcomers(events: seq<Event>): set<Connection> {
    set e | e in events && e.Begin? :: e.conn
  }

  lemma NewcomersHave(events: seq<Event>, i: nat)
    requires i < |events|
    ensures Newcomers([events[i]]) <= Newcomers(events)
  {
    assert events[i] in events;
  }

  lemma GrownAt(m: Model, n: Model, s: Socket)
    requires Solvent(m) && Solvent(n) && Grown(m, n) && s in m.ports
    ensures s in n.ports
    ensures var p, q := m.ports[s], n.ports[s];
      && p.accepted <= q.accepted && p.sent <= |p.accepted| && q.sent <= |q.accepted|
      && p.accepted[..p.sent] <= q.accepted[..q.sent]
  {
  }

  /** The cases of an event in which nothing happens, or only one port changes. */
  lemma EventDoes(m: Model, e: Event)
    requires m.forward in m.ports
    ensures e.Begin? && e.conn in m.known ==> Apply(m, e) == m
    ensures e.Say? && (e.conn !in m.live || e.sock !in m.ports) ==> Apply(m, e) == m
    ensures e.End? && (e.conn !in m.live || m.forward in e.told || exists s <- e.told :: s !in m.ports) ==>
      Apply(m, e) == m
    ensures (e.Drain? || e.Ready?) && e.sock !in m.ports ==> Apply(m, e) == m
    ensures e.Drain? && e.sock in m.ports ==>
      Apply(m, e) == m.(ports := m.ports[e.sock := Drained(m.ports[e.sock], m.paused, e.writable)])
    ensures e.Ready? && e.sock in m.ports ==>
      Apply(m, e) == m.(ports := m.ports[e.sock := m.ports[e.sock].(outcomes := e.outcomes)])
    ensures e.Bake? ==> Apply(m, e) == m
  {
    hide Offered, Drained, DrainedAll, Notified;
  }

  lemma BegunState(m: Model, c: Connection)
    requires m.forward in m.ports && c !in m.known
    ensures Apply(m, Begin(c)) ==
      m.(known := m.known + {c}, live := m.live + {c},
         ports := m.ports[m.forward := Offered(m.ports[m.forward], m.paused, Item(c, Connect), false)])
  {
  }

  lemma SaidState(m: Model, c: Connection, s: Socket, body: Bytes)
    requires m.forward in m.ports && s in m.ports && c in m.live
    ensures Apply(m, Say(c, s, body)) ==
      m.(ports := m.ports[s := Offered(m.ports[s], m.paused, Item(c, Message(body)), false)])
  {
  }

  lemma EndedState(m: Model, c: Connection, told: seq<Socket>)
    requires m.forward in m.ports && c in m.live && forall s <- told :: s in m.ports && s != m.forward
    ensures Apply(m, End(c, told)) ==
      m.(live := m.live - {c}, ports := Notified(m.ports, m.paused, [m.forward] + told, c))
    ensures Notified(m.ports, m.paused, [m.forward] + told, c)[m.forward] ==
      Offered(m.ports[m.forward], m.paused, Item(c, Disconnect), true)
  {
  }

  lemma FirstApart<T>(x: T, xs: seq<T>)
    requires Distinct(xs) && x !in xs
    ensures Distinct([x] + xs) && forall y <- [x] + xs :: y == x || y in xs
  {
  }

  lemma PausedStay(ports: map<Socket, Port>, writable: bool)
    ensures DrainedAll(ports, true, writable) == ports
  {
  }
}
