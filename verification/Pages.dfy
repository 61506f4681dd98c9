/** A page that polls, and the gateway that it polls (examples/ws.js against src/websocket.c and
    src/polling.c): what the backend sends to a connection reaches its page, whatever other
    clients, topics, outputs and sockets do, and whatever the network does between the two. */
module Pages {
  import opened Entities
  import CometStream
  import Delivery
  import Frontends

  /** An event of the gateway, in which a request of the page may arrive: the `k`-th one that it
      made; or something that happens to the page or on the network. */
  datatype Happening =
    | Gate(event: Frontends.Event, k: nat)
    | Page(action: Delivery.Action)

  predicate OnPage(a: Delivery.Action) {
    a.Say? || a.Receive? || a.Drop? || a.Fail?
  }

  /** An action that changes nothing. */
  const NOTHING: Delivery.Action := Delivery.Server(CometStream.Push([]))

  /** What a happening is to the page of a connection and its stream. */
  ghost function ActionOf(c: Connection, s: Frontends.Scene, h: Happening): Delivery.Action {
    match h
    case Page(a) => if OnPage(a) then a else NOTHING
    case Gate(e, k) =>
      var seen := Frontends.Seen(s, e, c);
      if seen == [] then NOTHING
      else if seen[0].Push? then Delivery.Take(seen[0].m)
      else if seen[0].Arrive? then Delivery.Deliver(k)
      else Delivery.Server(seen[0])
  }

  /** The requests of a connection are those that its page made. */
  ghost predicate Honest(c: Connection, s: Frontends.Scene, w: Delivery.World, h: Happening) {
    h.Gate? && Frontends.OfStream(s, h.event) && h.event.conn == c && h.event.step.Arrive? ==>
      h.k < |w.client.sent| && h.event.step.r == w.client.sent[h.k]
  }

  /** A run of the gateway and of the page of one connection, which begins with its stream. */
  ghost predicate Together(c: Connection, ss: seq<Frontends.Scene>, ws: seq<Delivery.World>, hs: seq<Happening>,
                           parts: seq<Frontends.Part>)
  {
    && |ss| == |ws| == |hs| + 1 && |parts| == |hs|
    && Frontends.Agree(ss[0]) && c in ss[0].streams && ss[0].streams[c] == CometStream.Start(ss[0].limit)
    && ws[0] == Delivery.Begin(ss[0].limit)
    && forall i :: 0 <= i < |hs| ==>
         && Honest(c, ss[i], ws[i], hs[i])
         && (if hs[i].Gate? then Frontends.Moves(ss[i], hs[i].event, parts[i], ss[i + 1]) else ss[i + 1] == ss[i])
         && ws[i + 1] == Delivery.Next(ws[i], ActionOf(c, ss[i], hs[i]))
  }

  lemma ServerStep(c: Connection, s: Frontends.Scene, w: Delivery.World, h: Happening)
    requires Frontends.Agree(s) && c in s.streams && w.server == s.streams[c] && Honest(c, s, w, h)
    ensures Delivery.Next(w, ActionOf(c, s, h)).server ==
      if h.Page? || Frontends.Seen(s, h.event, c) == [] then s.streams[c]
      else CometStream.Step(s.streams[c], Frontends.Seen(s, h.event, c)[0])
  {
    hide CometStream.Step, Frontends.Agree, Frontends.Reached;
  }

  /** The page's server is the stream of its connection in the gateway, at every moment. */
  lemma {:induction false} OneServer(c: Connection, ss: seq<Frontends.Scene>, ws: seq<Delivery.World>,
                                     hs: seq<Happening>, parts: seq<Frontends.Part>, n: nat)
    requires Together(c, ss, ws, hs, parts) && n < |ss|
    ensures Frontends.Agree(ss[n]) && c in ss[n].streams && ws[n].server == ss[n].streams[c]
  {
    hide CometStream.Step, Frontends.Agree, Frontends.Acts, Frontends.Seen, Delivery.Next, ActionOf, Honest;
    if n == 0 {
      BeginsAlike(ss[0].limit);
    } else {
      OneServer(c, ss, ws, hs, parts, n - 1);
      var s, h := ss[n - 1], hs[n - 1];
      ServerStep(c, s, ws[n - 1], h);
      if h.Gate? {
        Frontends.OneStream(s, h.event, c);
        Frontends.MovesAgree(s, h.event, parts[n - 1], ss[n]);
      }
    }
  }

  lemma BeginsAlike(limit: nat)
    ensures Delivery.Begin(limit).server == CometStream.Start(limit)
  {
  }

  /** What happened, as the network of the page sees it. */
  ghost function Actions(c: Connection, ss: seq<Frontends.Scene>, hs: seq<Happening>): seq<Delivery.Action>
    requires |ss| == |hs| + 1
  {
    seq(|hs|, i requires 0 <= i < |hs| => ActionOf(c, ss[i], hs[i]))
  }

  lemma IsTrace(c: Connection, ss: seq<Frontends.Scene>, ws: seq<Delivery.World>, hs: seq<Happening>,
                parts: seq<Frontends.Part>)
    requires Together(c, ss, ws, hs, parts)
    ensures |ws| == |ss| == |hs| + 1
    ensures Delivery.Trace(ws, ss[0].limit, Actions(c, ss, hs))
  {
    hide Delivery.Next, Delivery.Begin, Frontends.Agree, Frontends.Moves, Honest, ActionOf;
  }

  /** In every run, as long as the connection of a page is connected, each message that was sent
      to it was given to the page under its own index, or is in its queue, in order; with the
      connection ends its stream. */
  lemma NothingIsLost(c: Connection, ss: seq<Frontends.Scene>, ws: seq<Delivery.World>,
                      hs: seq<Happening>, parts: seq<Frontends.Part>, n: nat)
    requires Together(c, ss, ws, hs, parts) && n < |ss|
    ensures c in ss[n].streams
    ensures var w, t := ws[n], ss[n].streams[c];
      var top := Delivery.Newest(w.indexes);
      && (t.open <==> c in ss[n].gate.net.live) && top <= |w.accepted|
      && |w.client.delivered| == |w.indexes|
      && (forall i :: 0 <= i < |w.indexes| ==>
            1 <= w.indexes[i] <= |w.accepted| && w.client.delivered[i] == w.accepted[w.indexes[i] - 1])
      && (forall i: nat :: 1 <= i <= top <==> i in w.indexes)
      && (t.open ==> 0 <= top + 1 - t.first <= |t.queue| && t.queue[top + 1 - t.first..] == w.accepted[top..])
  {
    hide Delivery.Trace, Delivery.Newest, Together, CometStream.Sound;
    OneServer(c, ss, ws, hs, parts, n);
    IsTrace(c, ss, ws, hs, parts);
    OpenWhileLive(ss[n], c);
    Delivery.AtLeastOnce(ws, ss[0].limit, Actions(c, ss, hs), n);
  }

  /** What counts as sent to it are exactly the messages that reach its connection, but for the
      one that finds the queue full, with which it ends. */
  lemma SentIsAccepted(c: Connection, ss: seq<Frontends.Scene>, ws: seq<Delivery.World>,
                       hs: seq<Happening>, parts: seq<Frontends.Part>, n: nat)
    requires Together(c, ss, ws, hs, parts) && n < |hs| && hs[n].Gate? && c in ss[n].streams
    ensures var e, t := hs[n].event, ss[n].streams[c];
      ws[n + 1].accepted == ws[n].accepted +
        if Frontends.IsMessage(e) && c in Frontends.Reached(ss[n], e) && !Frontends.Full(t) then [e.data] else []
  {
    hide CometStream.Receive, Frontends.Acts, Frontends.Reached, Frontends.Agree, Frontends.Full, CometStream.Sound;
    hide CometStream.Step;
    OneServer(c, ss, ws, hs, parts, n);
    OpenWhileLive(ss[n], c);
    var e := hs[n].event;
    if Frontends.IsMessage(e) && c in Frontends.Reached(ss[n], e) {
      Frontends.ReachedLive(ss[n], e);
      Frontends.StreamStep(ss[n].streams[c], CometStream.Push(e.data));
    }
  }

  lemma OpenWhileLive(s: Frontends.Scene, c: Connection)
    requires Frontends.Agree(s) && c in s.streams
    ensures (s.streams[c].open <==> c in s.gate.net.live) && CometStream.Sound(s.streams[c])
  {
    hide CometStream.Sound;
  }

  /** And the page is given the messages 1, 2, 3 and so on, each once, exactly in the runs in which
      no stale response arrives at it. */
  lemma OnceUnlessStale(c: Connection, ss: seq<Frontends.Scene>, ws: seq<Delivery.World>,
                        hs: seq<Happening>, parts: seq<Frontends.Part>, n: nat)
    requires Together(c, ss, ws, hs, parts) && n < |ss|
    ensures Delivery.InStep(ws[n].indexes) <==>
      forall i :: 0 <= i < n && hs[i].Page? ==> !Delivery.Stale(ws[i], hs[i].action)
  {
    hide Together, Delivery.Trace, Delivery.InStep;
    IsTrace(c, ss, ws, hs, parts);
    Delivery.InStepExactly(ws, ss[0].limit, Actions(c, ss, hs), n);
    forall i | 0 <= i < n
      ensures Delivery.Stale(ws[i], Actions(c, ss, hs)[i]) <==> hs[i].Page? && Delivery.Stale(ws[i], hs[i].action)
    {
      StaleOnPage(c, ss[i], ws[i], hs[i]);
    }
  }

  lemma StaleOnPage(c: Connection, s: Frontends.Scene, w: Delivery.World, h: Happening)
    ensures Delivery.Stale(w, ActionOf(c, s, h)) <==> h.Page? && Delivery.Stale(w, h.action)
  {
    hide Frontends.Seen;
  }
}
