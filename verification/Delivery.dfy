/** The long-polling protocol end to end: one server stream, one browser client, and a network
    that loses, duplicates, reorders and aborts requests and loses and reorders responses. */
module Delivery {
  import opened Lists
  import opened CometStream
  import opened PollingClient
  import Replies

  datatype World = World(
    server: Stream,
    client: Client,
    accepted: seq<Msg>,         // messages that the server took for this connection
    responses: seq<Response>,   // written and neither received nor lost
    indexes: seq<nat>)          // the indexes under which the page was given messages

  datatype Action =
    | Take(m: Msg)              // the backend sends a message
    | Deliver(k: nat)           // the k-th request of the client reaches the server (again)
    | Server(e: Event)          // a timer, the idle watcher, an abort or a disconnect command
    | Say(data: Msg)            // the page sends a message
    | Receive(at: nat)          // a response reaches the client
    | Drop(i: nat)              // a response is lost
    | Fail(id: nat)             // the client gives a request up

  function Begin(capacity: nat): World {
    World(Start(capacity), Connected(), [], [], [])
  }

  /** The server makes a step; what it writes goes out on the network. */
  function Serve(w: World, e: Event): World {
    var server := Step(w.server, e);
    w.(server := server,
       responses := w.responses +
         if |server.replies| >= |w.server.replies| then server.replies[|w.server.replies|..] else [])
  }

  function Next(w: World, a: Action): World {
    match a
    case Take(m) =>
      var v := Serve(w, Push(m));
      if w.server.open && v.server.open then v.(accepted := w.accepted + [m]) else v
    case Deliver(k) => if k < |w.client.sent| then Serve(w, Arrive(w.client.sent[k])) else w
    case Server(e) => if e.Push? || e.Arrive? then w else Serve(w, e)
    case Say(data) => w.(client := Ask(w.client, data))
    case Receive(at) =>
      if at >= |w.responses| then w
      else
        var r := w.responses[at];
        w.(client := Hear(w.client, r),
           responses := w.responses[..at] + w.responses[at + 1..],
           indexes := w.indexes + if News(w.client, r) then [r.reply.index] else [])
    case Drop(i) =>
      if i < |w.responses| then w.(responses := w.responses[..i] + w.responses[i + 1..]) else w
    case Fail(id) => w.(client := Lose(w.client, id))
  }

  /** The client takes the response for a new message. */
  predicate News(c: Client, r: Response) {
    r.id in c.pending && r.reply.One? && r.reply.index != c.last
  }

  /** The highest of some indexes. */
  function Newest(xs: seq<nat>): nat {
    if xs == [] then 0
    else
      var n := |xs| - 1;
      var rest := Newest(xs[..n]);
      if xs[n] > rest then xs[n] else rest
  }

  lemma NewestStep(xs: seq<nat>, x: nat)
    ensures Newest(xs + [x]) == if x > Newest(xs) then x else Newest(xs)
  {
    assert (xs + [x])[..|xs|] == xs;
  }

  function Play(w: World, actions: seq<Action>): World {
    if actions == [] then w else Next(Play(w, actions[..|actions| - 1]), actions[|actions| - 1])
  }

  // ----- the invariant -----

  ghost predicate ServerKnows(w: World) {
    && Sound(w.server)
    && 1 <= w.server.first <= |w.accepted| + 1
    && (w.server.open ==> w.server.queue == w.accepted[w.server.first - 1..])
    && (w.server.parked.Some? ==> w.server.format == Single && w.server.parked.value < |w.client.sent|)
  }

  /** What the page was given are accepted messages, under their own indexes; the server dropped
      nothing that it was not given. */
  ghost predicate ClientKnows(w: World) {
    var top := Newest(w.indexes);
    && w.client.last <= top <= |w.accepted|
    && |w.client.delivered| == |w.indexes|
    && (forall i :: 0 <= i < |w.indexes| ==>
          1 <= w.indexes[i] <= |w.accepted| && w.client.delivered[i] == w.accepted[w.indexes[i] - 1])
    && w.server.first - 1 <= top <= w.server.first
    && (forall k :: 0 <= k < |w.client.sent| ==> Proper(w.client.sent[k], k, top))
  }

  /** A request as the script makes them: it acknowledges nothing past what was received. */
  ghost predicate Proper(r: Request, k: nat, top: nat) {
    r == Request(k, false, r.ack, r.body, Single, Single, -1, false) && r.ack <= top
  }

  /** A response under way carries the message after the newest one, or an older one once more. */
  ghost predicate Fitting(r: Response, w: World) {
    && r.id < |w.client.sent|
    && match r.reply
       case One(index, msg) =>
         && 1 <= index <= Newest(w.indexes) + 1 && index <= w.server.first
         && index <= |w.accepted| && msg == w.accepted[index - 1]
       case Batch(_, _) => false
       case Preflight => false
       case _ => true
  }

  ghost predicate Good(w: World) {
    && ServerKnows(w) && ClientKnows(w) && !w.client.confused
    && forall i :: 0 <= i < |w.responses| ==> Fitting(w.responses[i], w)
  }

  // ----- what a server step does to the queue and writes -----

  ghost predicate Wordless(rs: seq<Response>, from: nat, bound: nat) {
    forall i :: from <= i < |rs| ==> rs[i].reply in {Empty, Closing, Failed} && rs[i].id < bound
  }

  /** The parked request is one of the client's, and asked for single messages. */
  ghost predicate Waits(s: Stream, bound: nat) {
    s.parked.Some? ==> s.format == Single && s.parked.value < bound
  }

  lemma ArriveEffect(s: Stream, r: Request, k: nat, last: nat, bound: nat)
    requires Sound(s) && Proper(r, k, last) && (s.open ==> Covered(s, r.ack).Some?)
    requires k < bound && Waits(s, bound)
    ensures var t := Step(s, Arrive(r));
      && t.open == s.open
      && (s.open ==> t.first == s.first + Covered(s, r.ack).value && t.queue == s.queue[Covered(s, r.ack).value..])
      && (!s.open ==> t.first == s.first)
      && s.replies <= t.replies && Wordless(t.replies, |s.replies|, bound) && Waits(t, bound)
  {
    hide Acknowledge, Covered, Answer;
    if s.open {
      AcknowledgeIs(s, r);
      ReleaseEffect(s, Classified(r), bound);
      AdmitEffect(Dropped(Release(s, Classified(r)), Covered(s, r.ack).value), r, bound);
    }
  }

  /** Requests of this client wait; they ask for nothing else. */
  lemma AcknowledgeIs(s: Stream, r: Request)
    requires Proper(r, r.id, r.ack) && s.open && Covered(s, r.ack).Some?
    ensures Classified(r) in {Get, Bidi} && Covered(s, r.ack).value <= |s.queue|
    ensures var t := Release(s, Classified(r));
      Acknowledge(t, r, Classified(r)) == Admit(Dropped(t, Covered(s, r.ack).value), r)
  {
    hide Admit;
  }

  lemma ReleaseEffect(s: Stream, action: CometStream.Action, bound: nat)
    requires Waits(s, bound)
    ensures var t := Release(s, action);
      && t.open == s.open && t.first == s.first && t.queue == s.queue
      && s.replies <= t.replies && Wordless(t.replies, |s.replies|, bound)
  {
  }

  lemma AdmitEffect(s: Stream, r: Request, bound: nat)
    requires Proper(r, r.id, r.ack) && r.id < bound
    ensures var t := Admit(s, r);
      && t.open == s.open && t.first == s.first && t.queue == s.queue && t.replies == s.replies && Waits(t, bound)
  {
  }

  lemma QuietEffect(s: Stream, e: Event, bound: nat)
    requires Sound(s) && !e.Arrive? && !e.Idle? && Waits(s, bound)
    ensures var t := Step(s, e);
      && (t.open ==> s.open) && t.first == s.first
      && (t.open ==> t.queue == s.queue + if e.Push? then [e.m] else [])
      && s.replies <= t.replies && Wordless(t.replies, |s.replies|, bound) && Waits(t, bound)
  {
  }

  lemma IdleEffect(s: Stream, bound: nat)
    requires Sound(s) && Waits(s, bound)
    ensures var t := Step(s, Idle);
      && t.open == s.open && t.first == s.first && t.queue == s.queue
      && Waits(t, bound)
      && (t.replies != s.replies ==>
            && s.open && s.queue != [] && s.parked.Some?
            && t.replies == s.replies + [Response(s.parked.value, One(s.first, s.queue[0]))])
  {
  }

  /** The acknowledgements of this client never take the "wrong ack" branch. */
  lemma AckIsCovered(w: World, k: nat)
    requires ServerKnows(w) && ClientKnows(w) && k < |w.client.sent| && w.server.open
    ensures Covered(w.server, w.client.sent[k].ack).Some?
    ensures w.server.first + Covered(w.server, w.client.sent[k].ack).value - 1 <= Newest(w.indexes)
  {
    assert Proper(w.client.sent[k], k, Newest(w.indexes));
  }

  lemma WordlessGoesOut(w: World, v: World, server: Stream, accepted: seq<Msg>)
    requires Good(w) && w.server.replies <= server.replies
    requires Wordless(server.replies, |w.server.replies|, |w.client.sent|)
    requires v == w.(
      server := server, accepted := accepted, responses := w.responses + server.replies[|w.server.replies|..])
    requires w.accepted <= accepted && w.server.first <= server.first && ServerKnows(v) && ClientKnows(v)
    ensures Good(v)
  {
    var n := |w.responses|;
    forall i | 0 <= i < |v.responses| ensures Fitting(v.responses[i], v) {
      if i < n {
        assert Fitting(w.responses[i], w);
      } else {
        assert v.responses[i] == server.replies[i - n + |w.server.replies|];
      }
    }
  }

  lemma GoodDeliver(w: World, k: nat)
    requires Good(w)
    ensures Good(Next(w, Deliver(k)))
  {
    hide Step, Covered, Fitting, Sound;
    if k < |w.client.sent| {
      var r := w.client.sent[k];
      assert Proper(r, k, Newest(w.indexes));
      if w.server.open { AckIsCovered(w, k); }
      ArriveEffect(w.server, r, k, Newest(w.indexes), |w.client.sent|);
      StepSound(w.server, Arrive(r));
      if w.server.open {
        var from, n := w.server.first - 1, Covered(w.server, r.ack).value;
        assert w.accepted[from..][n..] == w.accepted[from + n..];
      }
      WordlessGoesOut(w, Next(w, Deliver(k)), Step(w.server, Arrive(r)), w.accepted);
    }
  }

  lemma GoodQuiet(w: World, e: Event)
    requires Good(w) && !e.Arrive? && !e.Idle? && !e.Push?
    ensures Good(Serve(w, e))
  {
    hide Step, Covered, Fitting, Sound;
    QuietEffect(w.server, e, |w.client.sent|);
    StepSound(w.server, e);
    WordlessGoesOut(w, Serve(w, e), Step(w.server, e), w.accepted);
  }

  lemma GoodTake(w: World, m: Msg)
    requires Good(w)
    ensures Good(Next(w, Take(m)))
  {
    hide Step, Covered, Fitting, Sound;
    QuietEffect(w.server, Push(m), |w.client.sent|);
    StepSound(w.server, Push(m));
    var v := Next(w, Take(m));
    assert (w.accepted + [m])[w.server.first - 1..] == w.accepted[w.server.first - 1..] + [m];
    WordlessGoesOut(w, v, Step(w.server, Push(m)), v.accepted);
  }

  lemma GoodIdle(w: World)
    requires Good(w)
    ensures Good(Serve(w, Idle))
  {
    hide Step, Covered, Sound, Newest, Proper;
    IdleEffect(w.server, |w.client.sent|);
    StepSound(w.server, Idle);
    var v := Serve(w, Idle);
    forall i | 0 <= i < |v.responses| ensures Fitting(v.responses[i], v) {
      if i < |w.responses| {
        assert Fitting(w.responses[i], w);
      } else {
        assert w.server.queue[0] == w.accepted[w.server.first - 1];
      }
    }
  }

  lemma GoodAsk(w: World, c: Client, data: Msg)
    requires Good(w.(client := c))
    ensures Good(w.(client := Ask(c, data)))
  {
    hide Sound;
    var v := w.(client := Ask(c, data));
    forall k | 0 <= k < |v.client.sent| ensures Proper(v.client.sent[k], k, Newest(w.indexes)) {
      if k < |c.sent| { assert Proper(c.sent[k], k, Newest(w.indexes)); }
    }
    forall i | 0 <= i < |v.responses| ensures Fitting(v.responses[i], v) {
      assert Fitting(v.responses[i], w.(client := c));
    }
  }

  lemma GoodLater(w: World, c: Client)
    requires Good(w.(client := c))
    ensures Good(w.(client := AskIfIdle(c)))
  {
    hide Good;
    GoodAsk(w, c, []);
  }

  lemma GoodDrop(w: World, i: nat)
    requires Good(w) && i < |w.responses|
    ensures Good(w.(responses := w.responses[..i] + w.responses[i + 1..]))
  {
    hide Sound;
    var v := w.(responses := w.responses[..i] + w.responses[i + 1..]);
    forall j | 0 <= j < |v.responses| ensures Fitting(v.responses[j], v) {
      assert Fitting(w.responses[if j < i then j else j + 1], w);
    }
  }

  /** The client is given a message that is not its last one. */
  lemma GoodNews(w: World, c: Client, r: Response)
    requires Good(w) && r.reply.One? && Fitting(r, w)
    requires c == w.client.(
      pending := c.pending, nrequests := c.nrequests, last := r.reply.index,
      delivered := w.client.delivered + [r.reply.msg])
    ensures Good(w.(client := c, indexes := w.indexes + [r.reply.index]))
  {
    hide Sound, Newest;
    var v := w.(client := c, indexes := w.indexes + [r.reply.index]);
    NewestStep(w.indexes, r.reply.index);
    forall k | 0 <= k < |c.sent| ensures Proper(c.sent[k], k, Newest(v.indexes)) {
      assert Proper(w.client.sent[k], k, Newest(w.indexes));
    }
    forall i | 0 <= i < |v.responses| ensures Fitting(v.responses[i], v) {
      assert Fitting(w.responses[i], w);
    }
  }

  lemma Fits(w: World, at: nat)
    requires Good(w) && at < |w.responses|
    ensures Fitting(w.responses[at], w) && Fitting(w.responses[at], w.(responses := []))
  {
  }

  lemma FitsStill(r: Response, w: World, v: World)
    requires Fitting(r, w)
    requires v == w.(client := v.client, responses := v.responses) && v.client.sent == w.client.sent
    ensures Fitting(r, v) && !r.reply.Batch? && !r.reply.Preflight?
  {
  }

  lemma GoodReceive(w: World, at: nat)
    requires Good(w)
    ensures Good(Next(w, Receive(at)))
  {
    hide Good, AskIfIdle, Fitting;
    if at >= |w.responses| { return; }
    var r := w.responses[at];
    var v := w.(responses := w.responses[..at] + w.responses[at + 1..]);
    GoodDrop(w, at);
    Fits(w, at);
    FitsStill(r, w, v);
    assert w.indexes + [] == w.indexes;
    if r.id !in w.client.pending { return; }
    var d := w.client.(pending := w.client.pending - {r.id}, nrequests := w.client.nrequests - 1);
    GoodCounted(v, d);
    match r.reply
    case One(index, msg) =>
      if index != d.last {
        var e := d.(last := index, delivered := d.delivered + [msg]);
        GoodNews(v, e, r);
        GoodLater(v.(indexes := w.indexes + [index]), e);
        LaterCommutes(d.(last := index), msg);
      } else {
        GoodLater(v, d);
      }
    case Failed => GoodCounted(v, d.(closed := true));
    case _ => GoodLater(v, d);
  }

  lemma GoodCounted(w: World, c: Client)
    requires Good(w)
    requires c == w.client.(pending := c.pending, nrequests := c.nrequests, closed := c.closed)
    ensures Good(w.(client := c))
  {
    hide Sound;
    var v := w.(client := c);
    forall i | 0 <= i < |v.responses| ensures Fitting(v.responses[i], v) {
      assert Fitting(w.responses[i], w);
    }
  }

  lemma LaterCommutes(c: Client, msg: Msg)
    ensures AskIfIdle(c.(delivered := c.delivered + [msg])) ==
            AskIfIdle(c).(delivered := AskIfIdle(c).delivered + [msg])
  {
  }

  lemma NextGood(w: World, a: Action)
    requires Good(w)
    ensures Good(Next(w, a))
  {
    hide Good;
    match a
    case Take(m) => GoodTake(w, m);
    case Deliver(k) => GoodDeliver(w, k);
    case Server(e) =>
      if e.Idle? {
        GoodIdle(w);
      } else if !e.Push? && !e.Arrive? {
        GoodQuiet(w, e);
      }
    case Say(data) => assert w.(client := w.client) == w; GoodAsk(w, w.client, data);
    case Receive(at) => GoodReceive(w, at);
    case Drop(i) => if i < |w.responses| { GoodDrop(w, i); }
    case Fail(id) => assert w.(client := w.client) == w; GoodCounted(w, Lose(w.client, id));
  }

  lemma {:induction false} PlayGood(w: World, actions: seq<Action>)
    requires Good(w)
    ensures Good(Play(w, actions))
  {
    hide Good;
    if actions != [] {
      PlayGood(w, actions[..|actions| - 1]);
      NextGood(Play(w, actions[..|actions| - 1]), actions[|actions| - 1]);
    }
  }

  lemma BeginGood(capacity: nat)
    ensures Good(Begin(capacity))
  {
    hide Newest;
    NewestNone();
    var w := Begin(capacity);
    assert w.server.queue == [] && w.accepted[0..] == [];
    assert ClientKnows(w) by { assert Proper(w.client.sent[0], 0, 0); }
  }

  // ----- the theorems -----

  /** The worlds of a run, one after each action. */
  ghost predicate Trace(ws: seq<World>, capacity: nat, actions: seq<Action>) {
    && |ws| == |actions| + 1 && ws[0] == Begin(capacity)
    && forall i {:trigger actions[i]} :: 0 <= i < |actions| ==> ws[i + 1] == Next(ws[i], actions[i])
  }

  lemma {:induction false} TraceGood(ws: seq<World>, capacity: nat, actions: seq<Action>, k: nat)
    requires Trace(ws, capacity, actions) && k < |ws|
    ensures Good(ws[k])
  {
    hide Good, Next, Begin;
    if k == 0 {
      BeginGood(capacity);
    } else {
      TraceGood(ws, capacity, actions, k - 1);
      NextGood(ws[k - 1], actions[k - 1]);
    }
  }

  /** The arriving response carries a message from before the last one, and the client takes it. */
  predicate Stale(w: World, a: Action) {
    && a.Receive? && a.at < |w.responses|
    && w.responses[a.at].id in w.client.pending
    && w.responses[a.at].reply.One? && w.responses[a.at].reply.index < w.client.last
  }

  ghost predicate InStep(indexes: seq<nat>) {
    forall i :: 0 <= i < |indexes| ==> indexes[i] == i + 1
  }

  lemma {:induction false} NewestInStep(xs: seq<nat>)
    requires InStep(xs)
    ensures Newest(xs) == |xs|
  {
    if xs != [] { NewestInStep(xs[..|xs| - 1]); }
  }

  /** What an action does to the client's last index and to the indexes given to the page. */
  lemma IndexStep(w: World, a: Action)
    ensures var v := Next(w, a);
      if a.Receive? && a.at < |w.responses| && News(w.client, w.responses[a.at])
      then v.indexes == w.indexes + [w.responses[a.at].reply.index] && v.client.last == w.responses[a.at].reply.index
      else v.indexes == w.indexes && v.client.last == w.client.last
  {
    hide Step;
  }

  lemma StaleBreaksStep(w: World, a: Action)
    requires Good(w) && InStep(w.indexes) && w.client.last == |w.indexes|
    ensures Stale(w, a) ==> !InStep(Next(w, a).indexes)
    ensures !Stale(w, a) ==> InStep(Next(w, a).indexes) && Next(w, a).client.last == |Next(w, a).indexes|
  {
    hide Next;
    IndexStep(w, a);
    NewestInStep(w.indexes);
    var v := Next(w, a);
    if a.Receive? && a.at < |w.responses| && News(w.client, w.responses[a.at]) {
      Fits(w, a.at);
      assert v.indexes[|w.indexes|] == w.responses[a.at].reply.index;
    }
  }

  lemma OutOfStepStays(w: World, a: Action)
    requires !InStep(w.indexes)
    ensures !InStep(Next(w, a).indexes)
  {
    hide Next;
    IndexStep(w, a);
    var i :| 0 <= i < |w.indexes| && w.indexes[i] != i + 1;
    assert Next(w, a).indexes[i] != i + 1;
  }

  /** The page is given the messages 1, 2, 3 and so on, each once, if and only if no response of
      an older message arrives at a client that takes it. */
  lemma {:induction false} InStepExactly(ws: seq<World>, capacity: nat, actions: seq<Action>, k: nat)
    requires Trace(ws, capacity, actions) && k < |ws|
    ensures InStep(ws[k].indexes) <==> forall i :: 0 <= i < k ==> !Stale(ws[i], actions[i])
    ensures InStep(ws[k].indexes) ==> ws[k].client.last == |ws[k].indexes|
  {
    hide Good, Next, Stale, InStep;
    if k == 0 {
      NobodyInStep(capacity);
    } else {
      InStepExactly(ws, capacity, actions, k - 1);
      TraceGood(ws, capacity, actions, k - 1);
      var w, a := ws[k - 1], actions[k - 1];
      if InStep(w.indexes) { StaleBreaksStep(w, a); } else { OutOfStepStays(w, a); }
    }
  }

  lemma NobodyInStep(capacity: nat)
    ensures InStep(Begin(capacity).indexes) && Begin(capacity).client.last == |Begin(capacity).indexes|
  {
  }

  /** Whatever the network does to requests and responses: exactly in the runs without a stale
      response the page is given the messages 1, 2, 3 and so on, each once. It then has a prefix of
      the accepted messages, and what it was not given is still queued as long as the server keeps
      the connection. */
  lemma ExactlyOnceInOrder(ws: seq<World>, capacity: nat, actions: seq<Action>, k: nat)
    requires Trace(ws, capacity, actions) && k < |ws|
    ensures InStep(ws[k].indexes) <==> forall i :: 0 <= i < k ==> !Stale(ws[i], actions[i])
    ensures InStep(ws[k].indexes) ==>
      var w := ws[k];
      && w.client.delivered <= w.accepted
      && (w.server.open ==>
            && 0 <= w.client.last + 1 - w.server.first <= |w.server.queue|
            && w.client.delivered + w.server.queue[w.client.last + 1 - w.server.first..] == w.accepted)
  {
    hide Good, Trace, InStep, Stale;
    InStepExactly(ws, capacity, actions, k);
    TraceGood(ws, capacity, actions, k);
    if InStep(ws[k].indexes) { Outstanding(ws[k]); }
  }

  lemma Outstanding(w: World)
    requires Good(w) && InStep(w.indexes) && w.client.last == |w.indexes|
    ensures w.client.delivered <= w.accepted && |w.client.delivered| == w.client.last
    ensures w.server.open ==>
      && 0 <= w.client.last + 1 - w.server.first <= |w.server.queue|
      && w.client.delivered + w.server.queue[w.client.last + 1 - w.server.first..] == w.accepted
  {
    hide Sound, Fitting, Proper, Newest;
    NewestInStep(w.indexes);
    assert w.client.delivered == w.accepted[..w.client.last];
    Queued(w);
    assert w.accepted[..w.client.last] + w.accepted[w.client.last..] == w.accepted;
  }

  /** What the page was not given yet is queued. */
  lemma Queued(w: World)
    requires Good(w)
    ensures w.server.open ==>
      var n := Newest(w.indexes) + 1 - w.server.first;
      0 <= n <= |w.server.queue| && w.server.queue[n..] == w.accepted[Newest(w.indexes)..]
  {
    hide Sound, Fitting, Proper;
    if w.server.open {
      var n := Newest(w.indexes) + 1 - w.server.first;
      assert w.accepted[w.server.first - 1..][n..] == w.accepted[Newest(w.indexes)..];
    }
  }

  // ----- responses in order -----

  /** The responses under way are in the order of their messages, and none is stale. */
  ghost predicate Ordered(w: World) {
    && (forall i :: 0 <= i < |w.responses| && w.responses[i].reply.One? ==>
          w.client.last <= w.responses[i].reply.index)
    && (forall i, j :: 0 <= i < j < |w.responses| && w.responses[i].reply.One? && w.responses[j].reply.One? ==>
          w.responses[i].reply.index <= w.responses[j].reply.index)
  }

  ghost predicate WritesNext(more: seq<Response>, first: nat) {
    || (forall i :: 0 <= i < |more| ==> !more[i].reply.One?)
    || (|more| == 1 && more[0].reply.One? && more[0].reply.index == first)
  }

  /** What the server writes in one step carries no message, or the first one that it has kept. */
  lemma ServerWrites(w: World, e: Event)
    requires Good(w) && (e.Arrive? ==> exists k :: 0 <= k < |w.client.sent| && e.r == w.client.sent[k])
    ensures w.server.replies <= Step(w.server, e).replies
    ensures WritesNext(Step(w.server, e).replies[|w.server.replies|..], w.server.first)
  {
    hide Step, Covered, Sound, Fitting;
    if e.Arrive? {
      var k :| 0 <= k < |w.client.sent| && e.r == w.client.sent[k];
      assert Proper(w.client.sent[k], k, Newest(w.indexes));
      if w.server.open { AckIsCovered(w, k); }
      ArriveEffect(w.server, e.r, k, Newest(w.indexes), |w.client.sent|);
    } else if e.Idle? {
      IdleEffect(w.server, |w.client.sent|);
    } else {
      QuietEffect(w.server, e, |w.client.sent|);
    }
  }

  lemma ServeOrdered(w: World, e: Event)
    requires Good(w) && Ordered(w) && (e.Arrive? ==> exists k :: 0 <= k < |w.client.sent| && e.r == w.client.sent[k])
    ensures Ordered(Serve(w, e))
  {
    hide Step, Sound;
    ServerWrites(w, e);
    LastBelow(w);
    forall i | 0 <= i < |w.responses| && w.responses[i].reply.One?
      ensures w.responses[i].reply.index <= w.server.first
    {
      Fits(w, i);
    }
  }

  lemma OrderedStep(w: World, a: Action)
    requires Good(w) && Ordered(w) && (a.Receive? ==> a.at == 0)
    ensures Ordered(Next(w, a)) && !Stale(w, a)
  {
    hide Good, Serve, Ordered;
    match a
    case Take(m) =>
      ServeOrdered(w, Push(m));
      AcceptedMore(Serve(w, Push(m)), w.accepted + [m]);
    case Deliver(k) => if k < |w.client.sent| { ServeOrdered(w, Arrive(w.client.sent[k])); }
    case Server(e) => if !e.Push? && !e.Arrive? { ServeOrdered(w, e); }
    case _ => ClientOrdered(w, a);
  }

  lemma AcceptedMore(w: World, accepted: seq<Msg>)
    requires Ordered(w)
    ensures Ordered(w.(accepted := accepted))
  {
  }

  lemma ClientOrdered(w: World, a: Action)
    requires Ordered(w) && (a.Receive? ==> a.at == 0) && !a.Take? && !a.Deliver? && !a.Server?
    ensures Ordered(Next(w, a)) && !Stale(w, a)
  {
    hide Ask, Hear, Lose, Serve;
    IndexStep(w, a);
  }

  /** When responses arrive in the order in which the server wrote them, none is stale. */
  lemma {:induction false} OldestFirstIsInStep(ws: seq<World>, capacity: nat, actions: seq<Action>, k: nat)
    requires Trace(ws, capacity, actions) && k < |ws|
    requires forall a <- actions :: a.Receive? ==> a.at == 0
    ensures Ordered(ws[k]) && InStep(ws[k].indexes)
  {
    hide Good, Next, Ordered, Stale, InStep;
    BeginOrdered(capacity);
    if k > 0 {
      OldestFirstIsInStep(ws, capacity, actions, k - 1);
      TraceGood(ws, capacity, actions, k - 1);
      assert actions[k - 1] in actions;
      OrderedStep(ws[k - 1], actions[k - 1]);
      InStepExactly(ws, capacity, actions, k - 1);
      InStepExactly(ws, capacity, actions, k);
    } else {
      NobodyInStep(capacity);
    }
  }

  lemma BeginOrdered(capacity: nat)
    ensures Ordered(Begin(capacity))
  {
  }

  /** A message that the page sends while a poll is under way opens a second request. When the
      answers overtake each other, the page is given the first message once more. */
  lemma StaleRun(first: Msg, second: Msg, data: Msg)
    requires data != []
    ensures var actions := [
        Deliver(0), Take(first), Server(Idle), Say(data), Deliver(1), Server(Idle), Receive(1),
        Say(data), Deliver(2), Take(second), Server(Idle), Receive(1), Receive(0)];
      var w := Play(Begin(2), actions);
      w.client.delivered == [first, second, first] && w.accepted == [first, second]
  {
    hide Next, Play;
    var w := Begin(2);
    var early := [Deliver(0), Take(first), Server(Idle), Say(data)];
    var middle := [Deliver(1), Server(Idle), Receive(1), Say(data)];
    var late := [Deliver(2), Take(second), Server(Idle), Receive(1)];
    FirstUnderWay(first, data);
    OvertakingAnswer(first, data);
    NextMessage(first, second, data);
    PlayFour(w, early);
    PlayFour(Play(w, early), middle);
    PlayFour(Play(Play(w, early), middle), late);
    PlayTwice(w, early, middle);
    PlayTwice(w, early + middle, late);
    PlayTwice(w, early + middle + late, [Receive(0)]);
    LateArrival(first, second, data);
    assert early + middle + late + [Receive(0)] == [
        Deliver(0), Take(first), Server(Idle), Say(data), Deliver(1), Server(Idle), Receive(1),
        Say(data), Deliver(2), Take(second), Server(Idle), Receive(1), Receive(0)];
  }

  function Asked(id: nat, ack: nat, body: Msg): Request {
    Request(id, false, ack, body, Single, Single, -1, false)
  }

  function Answered(first: Msg): seq<Response> {
    [Response(0, One(1, first)), Response(1, One(1, first))]
  }

  /** The answer of the first poll is under way, and a second request. */
  function TwoRequests(first: Msg, data: Msg): World {
    World(
      Stream(2, true, None, false, Single, 2, 1, [first], false, true, Answered(first)[..1], [], [], false),
      Client(0, 2, false, {0, 1}, [Asked(0, 0, []), Asked(1, 0, data)], [], false),
      [first], Answered(first)[..1], [])
  }

  /** The second answer came first; the page has the message and sends another one. */
  function Overtaken(first: Msg, data: Msg): World {
    World(
      Stream(2, true, None, false, Single, 2, 1, [first], false, true, Answered(first), [], [data], false),
      Client(1, 2, false, {0, 2}, [Asked(0, 0, []), Asked(1, 0, data), Asked(2, 1, data)], [first], false),
      [first], Answered(first)[..1], [1])
  }

  /** The page has the next message, too, and the first answer is still under way. */
  function Ahead(first: Msg, second: Msg, data: Msg): World {
    World(
      Stream(2, true, None, false, Single, 2, 2, [second], false, true,
             Answered(first) + [Response(2, One(2, second))], [], [data, data], false),
      Client(2, 1, false, {0}, [Asked(0, 0, []), Asked(1, 0, data), Asked(2, 1, data)], [first, second], false),
      [first, second], Answered(first)[..1], [1, 2])
  }

  lemma FirstUnderWay(first: Msg, data: Msg)
    ensures Next(Next(Next(Next(Begin(2), Deliver(0)), Take(first)), Server(Idle)), Say(data)) ==
            TwoRequests(first, data)
  {
  }

  lemma OvertakingAnswer(first: Msg, data: Msg)
    requires data != []
    ensures Next(Next(Next(Next(TwoRequests(first, data), Deliver(1)), Server(Idle)), Receive(1)), Say(data)) ==
            Overtaken(first, data)
  {
  }

  lemma NextMessage(first: Msg, second: Msg, data: Msg)
    requires data != []
    ensures Next(Next(Next(Next(Overtaken(first, data), Deliver(2)), Take(second)), Server(Idle)), Receive(1)) ==
            Ahead(first, second, data)
  {
  }

  lemma LateArrival(first: Msg, second: Msg, data: Msg)
    ensures var w := Play(Ahead(first, second, data), [Receive(0)]);
      w.client.delivered == [first, second, first] && w.accepted == [first, second]
  {
    PlayOne(Ahead(first, second, data), Receive(0));
  }

  lemma PlayOne(w: World, a: Action)
    ensures Play(w, [a]) == Next(w, a)
  {
    hide Next;
    assert [a][..0] == [];
  }

  lemma PlayFour(w: World, rs: seq<Action>)
    requires |rs| == 4
    ensures Play(w, rs) == Next(Next(Next(Next(w, rs[0]), rs[1]), rs[2]), rs[3])
  {
    hide Next;
    PlayOne(w, rs[0]);
    assert rs[..1] == [rs[0]] && rs[..2][..1] == rs[..1] && rs[..3][..2] == rs[..2] && rs[..4] == rs;
    assert Play(w, rs[..2]) == Next(Play(w, rs[..1]), rs[1]);
    assert Play(w, rs[..3]) == Next(Play(w, rs[..2]), rs[2]);
  }

  // ----- every run -----

  /** Nothing is given to the page before what comes before it. */
  ghost predicate Gapless(indexes: seq<nat>) {
    forall i :: 0 <= i < |indexes| ==> 1 <= indexes[i] <= Newest(indexes[..i]) + 1
  }

  lemma {:induction false} TraceGapless(ws: seq<World>, capacity: nat, actions: seq<Action>, k: nat)
    requires Trace(ws, capacity, actions) && k < |ws|
    ensures Gapless(ws[k].indexes)
  {
    hide Good, Next;
    if k > 0 {
      TraceGapless(ws, capacity, actions, k - 1);
      TraceGood(ws, capacity, actions, k - 1);
      GaplessStep(ws[k - 1], actions[k - 1]);
    }
  }

  lemma GaplessStep(w: World, a: Action)
    requires Good(w) && Gapless(w.indexes)
    ensures Gapless(Next(w, a).indexes)
  {
    hide Next, Newest;
    IndexStep(w, a);
    var v := Next(w, a);
    if a.Receive? && a.at < |w.responses| && News(w.client, w.responses[a.at]) {
      Fits(w, a.at);
      forall i | 0 <= i < |v.indexes| ensures 1 <= v.indexes[i] <= Newest(v.indexes[..i]) + 1 {
        assert v.indexes[..i] == w.indexes[..i];
        assert w.indexes[..|w.indexes|] == w.indexes;
      }
    }
  }

  lemma {:induction false} GaplessHasAll(xs: seq<nat>, n: nat)
    requires Gapless(xs)
    ensures 1 <= n <= Newest(xs) <==> n in xs
  {
    hide Newest, Gapless;
    if xs == [] {
      NewestNone();
    } else {
      var m := |xs| - 1;
      assert xs == xs[..m] + [xs[m]];
      GaplessLess(xs[..m], xs[m]);
      GaplessHasAll(xs[..m], n);
      NewestStep(xs[..m], xs[m]);
    }
  }

  lemma NewestNone()
    ensures Newest([]) == 0
  {
  }

  lemma GaplessLess(xs: seq<nat>, x: nat)
    requires Gapless(xs + [x])
    ensures Gapless(xs) && 1 <= x <= Newest(xs) + 1
  {
    hide Newest;
    forall i | 0 <= i < |xs| ensures 1 <= xs[i] <= Newest(xs[..i]) + 1 {
      assert (xs + [x])[..i] == xs[..i] && (xs + [x])[i] == xs[i];
    }
    assert (xs + [x])[|xs|] == x && (xs + [x])[..|xs|] == xs;
  }

  /** In every run, also with stale responses, the page is given accepted messages under their own
      indexes, at least once each up to the newest one and none before those before it; and what it
      was not given is still queued as long as the server keeps the connection. */
  lemma AtLeastOnce(ws: seq<World>, capacity: nat, actions: seq<Action>, k: nat)
    requires Trace(ws, capacity, actions) && k < |ws|
    ensures var w, top := ws[k], Newest(ws[k].indexes);
      && |w.client.delivered| == |w.indexes| && top <= |w.accepted| && Gapless(w.indexes)
      && (forall i :: 0 <= i < |w.indexes| ==>
            1 <= w.indexes[i] <= |w.accepted| && w.client.delivered[i] == w.accepted[w.indexes[i] - 1])
      && (forall n: nat :: 1 <= n <= top <==> n in w.indexes)
      && (w.server.open ==>
            && 0 <= top + 1 - w.server.first <= |w.server.queue|
            && w.server.queue[top + 1 - w.server.first..] == w.accepted[top..])
  {
    hide Trace, Newest, Gapless;
    var w := ws[k];
    TraceGood(ws, capacity, actions, k);
    TraceGapless(ws, capacity, actions, k);
    forall n: nat ensures 1 <= n <= Newest(w.indexes) <==> n in w.indexes { GaplessHasAll(w.indexes, n); }
    Queued(w);
  }
  /** No acknowledgement of this client is taken for a wrong one, and no reply is of a kind
      that its script does not understand. */
  lemma AcksAreRight(ws: seq<World>, capacity: nat, actions: seq<Action>, k: nat, id: nat)
    requires Trace(ws, capacity, actions) && k < |ws|
    ensures var w := ws[k];
      && !w.client.confused
      && (w.server.open && id < |w.client.sent| ==> Covered(w.server, w.client.sent[id].ack).Some?)
  {
    hide Trace;
    var w := ws[k];
    TraceGood(ws, capacity, actions, k);
    if w.server.open && id < |w.client.sent| { AckIsCovered(w, id); }
  }

  /** The script counts its outstanding requests, and always has one unless a request failed. */
  ghost predicate Alert(c: Client) {
    && c.nrequests == |c.pending|
    && (forall id <- c.pending :: id < |c.sent|)
    && (c.pending != {} || c.closed || c.confused)
  }

  lemma AskAlert(c: Client, data: Msg)
    requires c.nrequests == |c.pending| && forall id <- c.pending :: id < |c.sent|
    ensures Alert(Ask(c, data))
  {
  }

  lemma NextAlert(w: World, a: Action)
    requires Alert(w.client)
    ensures Alert(Next(w, a).client)
  {
    hide Alert, Ask, Hear;
    match a
    case Say(data) => AlertMeans(w.client); AskAlert(w.client, data);
    case Receive(at) => if at < |w.responses| { HearAlert(w.client, w.responses[at]); }
    case Fail(id) => LoseAlert(w.client, id);
    case Take(_) =>
    case Deliver(_) =>
    case Server(_) =>
    case Drop(_) =>
  }

  lemma HearAlert(c: Client, r: Response)
    requires Alert(c)
    ensures Alert(Hear(c, r))
  {
    if r.id in c.pending {
      var d := c.(pending := c.pending - {r.id}, nrequests := c.nrequests - 1);
      AskAlert(d, []);
      if r.reply.One? { AskAlert(d.(last := r.reply.index), []); }
    }
  }

  lemma LoseAlert(c: Client, id: nat)
    requires Alert(c)
    ensures Alert(Lose(c, id))
  {
  }

  lemma AlwaysAsking(ws: seq<World>, capacity: nat, actions: seq<Action>, k: nat)
    requires Trace(ws, capacity, actions) && k < |ws|
    ensures var c := ws[k].client;
      c.nrequests == |c.pending| && (c.pending != {} || c.closed)
  {
    hide Trace, Alert;
    AcksAreRight(ws, capacity, actions, k, 0);
    TraceAlert(ws, capacity, actions, k);
    AlertMeans(ws[k].client);
  }

  lemma AlertMeans(c: Client)
    requires Alert(c)
    ensures c.nrequests == |c.pending| && (c.pending != {} || c.closed || c.confused)
    ensures forall id <- c.pending :: id < |c.sent|
  {
  }

  lemma {:induction false} TraceAlert(ws: seq<World>, capacity: nat, actions: seq<Action>, k: nat)
    requires Trace(ws, capacity, actions) && k < |ws|
    ensures Alert(ws[k].client)
  {
    hide Alert, Next;
    if k == 0 {
      AskAlert(Client(0, 0, false, {}, [], [], false), []);
    } else {
      TraceAlert(ws, capacity, actions, k - 1);
      NextAlert(ws[k - 1], actions[k - 1]);
    }
  }

  // ----- an open server -----

  /** As long as the server keeps the connection, nothing makes the page give it up. */
  ghost predicate Calm(w: World) {
    w.server.open ==>
      !w.client.closed && forall i :: 0 <= i < |w.responses| ==> w.responses[i].reply != Failed
  }

  ghost predicate Unfailing(s: Stream, t: Stream) {
    s.replies <= t.replies && forall i :: |s.replies| <= i < |t.replies| ==> t.replies[i].reply != Failed
  }

  lemma EventUnfailing(s: Stream, e: Event)
    requires Sound(s) && s.open && !e.Arrive?
    ensures Unfailing(s, Step(s, e))
  {
    hide CometStream.Delivery;
    if s.queue != [] { Replies.CarriesMessages(s); }
  }

  /** A request of this client is never failed by a server that keeps the connection. */
  lemma ArrivalUnfailing(s: Stream, r: Request)
    requires Sound(s) && s.open && !Replies.Wrong(s, r) && Proper(r, r.id, r.ack)
    ensures Unfailing(s, Step(s, Arrive(r)))
  {
    hide Step, Replies.Wrong, Sound;
    Replies.OpenIsWhole(s);
    Replies.ArrivalIsAnswered(s, r);
    if s.parked.Some? { Replies.WaitingIsAnswered(s, Arrive(r)); }
    RepliesStay(s, Arrive(r));
  }

  lemma RepliesStay(s: Stream, e: Event)
    ensures s.replies <= Step(s, e).replies
  {
    hide Acknowledge, CometStream.Delivery;
    if e.Arrive? { Replies.AcknowledgeWrites(Release(s, Classified(e.r)), e.r, Classified(e.r)); }
  }

  lemma ServeCalm(w: World, e: Event)
    requires Good(w) && Calm(w) && (e.Arrive? ==> exists k :: 0 <= k < |w.client.sent| && e.r == w.client.sent[k])
    ensures Calm(Serve(w, e))
  {
    hide Step, Covered, Sound, Fitting;
    if w.server.open {
      if e.Arrive? {
        var k :| 0 <= k < |w.client.sent| && e.r == w.client.sent[k];
        assert Proper(w.client.sent[k], k, Newest(w.indexes));
        AckIsCovered(w, k);
        FirstOfGood(w);
        Replies.CoveredBy(w.server, e.r);
        ArrivalUnfailing(w.server, e.r);
      } else {
        EventUnfailing(w.server, e);
      }
    } else {
      StaysClosed(w.server, e);
    }
  }

  lemma FirstOfGood(w: World)
    requires Good(w)
    ensures w.server.first >= 1 && Sound(w.server)
  {
  }

  lemma StaysClosed(s: Stream, e: Event)
    requires Sound(s) && !s.open
    ensures !Step(s, e).open
  {
    hide Acknowledge, CometStream.Delivery;
  }

  lemma CalmStep(w: World, a: Action)
    requires Good(w) && Calm(w) && !a.Fail?
    ensures Calm(Next(w, a))
  {
    hide Good, Serve;
    match a
    case Take(m) => ServeCalm(w, Push(m)); AcceptedCalm(Serve(w, Push(m)), w.accepted + [m]);
    case Deliver(k) => if k < |w.client.sent| { ServeCalm(w, Arrive(w.client.sent[k])); }
    case Server(e) => if !e.Push? && !e.Arrive? { ServeCalm(w, e); }
    case _ =>
  }

  lemma AcceptedCalm(w: World, accepted: seq<Msg>)
    requires Calm(w)
    ensures Calm(w.(accepted := accepted))
  {
  }

  /** In every run in which the page itself gives no request up, it goes on asking for as long as the
      server keeps the connection, whatever times out and whatever is lost. */
  lemma {:induction false} AsksWhileOpen(ws: seq<World>, capacity: nat, actions: seq<Action>, k: nat)
    requires Trace(ws, capacity, actions) && k < |ws| && forall a <- actions :: !a.Fail?
    ensures Calm(ws[k])
    ensures ws[k].server.open ==> !ws[k].client.closed && ws[k].client.pending != {}
  {
    hide Good, Next, Calm;
    if k == 0 {
      BeginCalm(capacity);
    } else {
      AsksWhileOpen(ws, capacity, actions, k - 1);
      TraceGood(ws, capacity, actions, k - 1);
      assert actions[k - 1] in actions;
      CalmStep(ws[k - 1], actions[k - 1]);
    }
    AlwaysAsking(ws, capacity, actions, k);
    CalmMeans(ws[k]);
  }

  lemma BeginCalm(capacity: nat)
    ensures Calm(Begin(capacity))
  {
  }

  lemma CalmMeans(w: World)
    requires Calm(w)
    ensures w.server.open ==> !w.client.closed
  {
  }

  /** What the page sends is forwarded when its request arrives at a server that keeps the connection. */
  lemma SayIsForwarded(w: World, data: Msg)
    requires Good(w) && w.server.open && data != []
    ensures Next(Next(w, Say(data)), Deliver(|w.client.sent|)).server.forwarded == w.server.forwarded + [data]
  {
    hide Step, Sound, Fitting;
    var v := Next(w, Say(data));
    var r := v.client.sent[|w.client.sent|];
    AskSends(w.client, data);
    NextGood(w, Say(data));
    AckIsCovered(v, |w.client.sent|);
    FirstOfGood(v);
    Replies.OpenIsWhole(v.server);
    Replies.CoveredBy(v.server, r);
    Replies.ArrivalIsAnswered(v.server, r);
  }

  // ----- progress -----

  lemma {:induction false} PlayFirst(w: World, a: Action, rest: seq<Action>)
    ensures Play(w, [a] + rest) == Play(Next(w, a), rest)
  {
    var all := [a] + rest;
    if rest == [] {
      assert all == [a] && all[..0] == [];
    } else {
      var n := |rest| - 1;
      PlayFirst(w, a, rest[..n]);
      assert all[..|all| - 1] == [a] + rest[..n];
    }
  }

  /** A plain poll: it releases the parked request, acknowledges, and waits in its place. */
  lemma PollEffect(s: Stream, r: Request)
    requires Sound(s) && s.open && Proper(r, r.id, r.ack) && r.body == [] && Covered(s, r.ack).Some?
    ensures var t := Step(s, Arrive(r));
      && t.open && t.parked == Some(r.id) && t.format == Single
      && t.first == s.first + Covered(s, r.ack).value && t.queue == s.queue[Covered(s, r.ack).value..]
      && t.replies == s.replies + if s.parked.Some? then [Response(s.parked.value, Empty)] else []
  {
  }

  /** One more poll parks in the place of whatever waited, with everything acknowledged that the
      client had last. */
  lemma PollParks(w: World)
    requires Good(w) && w.server.open && Newest(w.indexes) < |w.accepted|
    ensures var id := |w.client.sent|;
      var v := Next(Next(w, Say([])), Deliver(id));
      && Good(v) && v.accepted == w.accepted && v.indexes == w.indexes
      && v.client.last == w.client.last && id in v.client.pending
      && v.server.open && v.server.parked == Some(id) && v.server.format == Single && Sound(v.server)
      && v.server.first == (if w.client.last < w.server.first then w.server.first else w.server.first + 1)
      && v.server.queue != [] && v.server.queue[0] == w.accepted[v.server.first - 1]
  {
    hide Step, Sound, Fitting;
    var id := |w.client.sent|;
    var w1 := Next(w, Say([]));
    var r := w1.client.sent[id];
    NextGood(w, Say([]));
    NextGood(w1, Deliver(id));
    AckIsCovered(w1, id);
    PollEffect(w1.server, r);
  }
  lemma FlushReply(s: Stream)
    requires Sound(s) && s.open && s.parked.Some? && s.queue != [] && s.format == Single
    ensures Step(s, Idle).replies == s.replies + [Response(s.parked.value, One(s.first, s.queue[0]))]
  {
  }

  /** A poll, the watcher that answers it, and the arrival of the answer. */
  function Round(w: World): seq<Action> {
    var v := Next(Next(Next(w, Say([])), Deliver(|w.client.sent|)), Server(Idle));
    [Say([]), Deliver(|w.client.sent|), Server(Idle), Receive(if v.responses == [] then 0 else |v.responses| - 1)]
  }

  /** After one more poll, the message that the client misses is under way. */
  lemma PollSends(w: World)
    requires Good(w) && w.server.open && Newest(w.indexes) < |w.accepted|
    ensures var id := |w.client.sent|;
      var v := Next(Next(Next(w, Say([])), Deliver(id)), Server(Idle));
      var index := if w.client.last < w.server.first then w.server.first else w.server.first + 1;
      && Good(v) && v.server.open && v.server.first == index && v.accepted == w.accepted && v.indexes == w.indexes
      && id in v.client.pending && v.client.last == w.client.last && v.responses != []
      && 1 <= index <= |w.accepted|
      && v.responses[|v.responses| - 1] == Response(id, One(index, w.accepted[index - 1]))
  {
    hide Good, Step, Sound;
    var id := |w.client.sent|;
    var u := Next(Next(w, Say([])), Deliver(id));
    PollParks(w);
    NextGood(u, Server(Idle));
    FlushReply(u.server);
    IdleEffect(u.server, |u.client.sent|);
    FirstIsAccepted(u);
    var r := Response(id, One(u.server.first, u.server.queue[0]));
    GoesOut(u, Server(Idle), r);
    var v := Next(u, Server(Idle));
    assert v.responses[|v.responses| - 1] == r;
    assert u.server.queue[0] == w.accepted[u.server.first - 1];
    assert u == Next(Next(w, Say([])), Deliver(id));
  }

  /** What the server writes is the last thing under way. */
  lemma GoesOut(w: World, a: Action, r: Response)
    requires a == Server(Idle) && Step(w.server, Idle).replies == w.server.replies + [r]
    ensures Next(w, a).responses == w.responses + [r]
    ensures Next(w, a) == w.(server := Step(w.server, Idle), responses := w.responses + [r])
  {
    hide Step;
  }

  lemma FirstIsAccepted(w: World)
    requires Good(w) && w.server.open && w.server.queue != []
    ensures 1 <= w.server.first <= |w.accepted|
  {
  }

  lemma RoundIs(w: World)
    ensures var u := Next(Next(Next(w, Say([])), Deliver(|w.client.sent|)), Server(Idle));
      u.responses != [] ==> Play(w, Round(w)) == Next(u, Receive(|u.responses| - 1))
  {
    hide Next;
    PlayFour(w, Round(w));
  }

  /** A round gives the page the first message that the server has kept, or the one after it when
      the client has that one last. */
  lemma RoundDelivers(w: World)
    requires Good(w) && w.server.open && Newest(w.indexes) < |w.accepted|
    ensures var v := Play(w, Round(w));
      var index := if w.client.last < w.server.first then w.server.first else w.server.first + 1;
      && Good(v) && v.server.open && v.accepted == w.accepted
      && v.server.first == index == v.client.last && v.indexes == w.indexes + [index]
  {
    hide Good, Next, Play, Newest, Round, Sound;
    var id := |w.client.sent|;
    var u := Next(Next(Next(w, Say([])), Deliver(id)), Server(Idle));
    PollSends(w);
    RoundIs(w);
    LastBelow(w);
    Arrival(u, |u.responses| - 1);
  }

  /** The client takes a response that it waits for. */
  lemma Arrival(w: World, at: nat)
    requires Good(w) && at < |w.responses| && News(w.client, w.responses[at])
    ensures var v := Next(w, Receive(at));
      && Good(v) && v.server == w.server && v.accepted == w.accepted
      && v.client.last == w.responses[at].reply.index && v.indexes == w.indexes + [w.responses[at].reply.index]
  {
    hide Good, Step;
    IndexStep(w, Receive(at));
    NextGood(w, Receive(at));
  }

  lemma LastBelow(w: World)
    requires Good(w)
    ensures w.client.last <= Newest(w.indexes) <= w.server.first <= Newest(w.indexes) + 1
  {
  }

  lemma {:induction false} PlayTwice(w: World, first: seq<Action>, more: seq<Action>)
    ensures Play(w, first + more) == Play(Play(w, first), more)
  {
    if more == [] {
      assert first + more == first;
    } else {
      var n := |more| - 1;
      PlayTwice(w, first, more[..n]);
      assert (first + more)[..|first + more| - 1] == first + more[..n];
    }
  }

  /** From every reachable state in which the server keeps the connection, the next missing
      message can still be delivered: by one poll, or by two when a stale response made the client
      forget how far it was. */
  lemma NeverStuck(ws: seq<World>, capacity: nat, actions: seq<Action>, k: nat)
    requires Trace(ws, capacity, actions) && k < |ws|
    requires ws[k].server.open && Newest(ws[k].indexes) < |ws[k].accepted|
    ensures exists more: seq<Action> :: Newest(ws[k].indexes) + 1 in Play(ws[k], more).indexes
  {
    hide Trace, Good, Next, Newest, Play;
    var w, top := ws[k], Newest(ws[k].indexes);
    TraceGood(ws, capacity, actions, k);
    LastBelow(w);
    RoundDelivers(w);
    var v := Play(w, Round(w));
    if v.client.last == top + 1 {
      assert v.indexes[|w.indexes|] == top + 1;
    } else {
      NewestStep(w.indexes, v.client.last);
      RoundDelivers(v);
      PlayTwice(w, Round(w), Round(v));
      var u := Play(w, Round(w) + Round(v));
      assert u.indexes[|v.indexes|] == top + 1;
    }
  }
}
