/** Which reply every request of a long-polling stream gets (src/polling.c), told by the fields of
    the request and of the stream. */
module Replies {
  import opened Lists
  import opened CometStream

  /** An acknowledgement of messages that were never queued. */
  predicate Wrong(s: Stream, r: Request) {
    r.ack >= s.first && r.ack != 0 && r.ack - s.first >= |s.queue|
  }

  /** A request with nothing to say and nothing to wait for. */
  predicate Pointless(r: Request) {
    !r.close && r.body == [] && r.limit == 0
  }

  /** A request that will not wait and closes nothing. */
  predicate Brief(r: Request) {
    !r.close && r.body != [] && r.limit == 0
  }

  lemma ActionBy(r: Request)
    ensures Classified(r) == Senseless <==> Pointless(r)
    ensures Classified(r) == Action.Close <==> r.close
    ensures Classified(r) == Post <==> Brief(r)
    ensures Classified(r) == Bidi <==> !r.close && r.body != [] && r.limit != 0
  {
  }

  lemma CoveredBy(s: Stream, r: Request)
    requires s.first >= 1
    ensures Covered(s, r.ack).None? <==> Wrong(s, r)
    ensures !Wrong(s, r) ==>
      Covered(s, r.ack).value == if r.ack >= s.first then r.ack - s.first + 1 else 0
    ensures !Wrong(s, r) ==> Covered(s, r.ack).value <= |s.queue|
  {
  }

  // ----- the request that waits -----

  /** The request that waits is answered. */
  predicate Released(s: Stream, e: Event) {
    && s.open && s.parked.Some?
    && match e
       case Arrive(r) => !Pointless(r) && !r.preflight && (!Brief(r) || Wrong(s, r))
       case Push(m) => |s.queue| >= s.capacity
       case Idle => s.sendLater && s.queue != []
       case RequestTimeout => s.requestTimer
       case Disconnect => true
       case _ => false
  }

  /** The answer carries messages when the watcher gives it; it is the close mark when the stream
      closes, except on behalf of a request that takes its place first; and else it is empty. */
  ghost predicate RightAnswer(s: Stream, e: Event)
    requires s.parked.Some?
  {
    var t := Step(s, e);
    && |t.replies| > |s.replies| && s.replies <= t.replies
    && t.replies[|s.replies|].id == s.parked.value
    && var reply := t.replies[|s.replies|].reply;
       && (reply.One? || reply.Batch? || reply == Empty || reply == Closing)
       && (reply.One? || reply.Batch? <==> e.Idle?)
       && (reply == Closing <==> !t.open && !(e.Arrive? && !Brief(e.r)))
  }

  lemma WaitingIsAnswered(s: Stream, e: Event)
    requires Sound(s) && !s.broken && s.parked.Some?
    ensures Released(s, e) ==> RightAnswer(s, e)
    ensures !Released(s, e) && !e.Abort? && !e.Inactivity? ==> Step(s, e).parked == s.parked
    ensures e.Abort? || e.Inactivity? ==> Step(s, e).replies == s.replies
  {
    hide Delivery, Receive;
    if e.Arrive? { ArrivalReleases(s, e.r); }
    if e.Idle? && s.queue != [] { CarriesMessages(s); }
  }

  lemma CarriesMessages(s: Stream)
    requires s.queue != []
    ensures CometStream.Delivery(s).One? || CometStream.Delivery(s).Batch?
  {
  }

  lemma ArrivalReleases(s: Stream, r: Request)
    requires Sound(s) && !s.broken && s.parked.Some?
    ensures Released(s, Arrive(r)) ==> RightAnswer(s, Arrive(r))
    ensures !Released(s, Arrive(r)) ==> Step(s, Arrive(r)).parked == s.parked
  {
    hide Classified, Covered, Acknowledge, Pointless, Brief, Wrong, Sound;
    FirstIndex(s);
    ActionBy(r);
    var t := Release(s, Classified(r));
    CoveredBy(s, r);
    ReleasedSame(s, r);
    AcknowledgeWrites(t, r, Classified(r));
    if Brief(r) && Covered(s, r.ack).Some? { BriefKeeps(s, r); }
  }

  lemma ReleasedSame(s: Stream, r: Request)
    ensures var t := Release(s, Classified(r));
      && t.first == s.first && t.queue == s.queue && t.open == s.open && t.forwarded == s.forwarded
      && t.broken == s.broken && t.capacity == s.capacity
      && (Covered(t, r.ack) == Covered(s, r.ack)) && (Wrong(t, r) <==> Wrong(s, r))
  {
    hide Classified;
  }

  /** What a request writes after it released the one that waited. */
  lemma AcknowledgeWrites(s: Stream, r: Request, action: Action)
    ensures s.replies <= Acknowledge(s, r, action).replies
    ensures (Covered(s, r.ack).None? || action == Action.Close) ==>
      var t := Acknowledge(s, r, action);
      && !t.open && t.forwarded == s.forwarded
      && t.replies == s.replies + (if s.parked.Some? then [Response(s.parked.value, Closing)] else [])
                      + [Response(r.id, Closing)]
    ensures Covered(s, r.ack).Some? && action != Action.Close ==>
      Acknowledge(s, r, action) == Admit(Dropped(s, Covered(s, r.ack).value), r)
      && Acknowledge(s, r, action).open == s.open
  {
    hide Classified, Closed, Admit;
    ClosedWrites(s);
    if Covered(s, r.ack).Some? {
      var u := Dropped(s, Covered(s, r.ack).value);
      ClosedWrites(u);
      AdmitWrites(u, r);
    }
  }

  lemma ClosedWrites(s: Stream)
    ensures var t := Closed(s);
      && !t.open && t.forwarded == s.forwarded
      && t.replies == s.replies + (if s.parked.Some? then [Response(s.parked.value, Closing)] else [])
  {
  }

  lemma AdmitWrites(s: Stream, r: Request)
    ensures Admit(s, r).open == s.open && s.replies <= Admit(s, r).replies
  {
    hide Classified;
  }

  lemma BriefKeeps(s: Stream, r: Request)
    requires Brief(r) && Covered(s, r.ack).Some?
    ensures Admit(Dropped(s, Covered(s, r.ack).value), r).parked == s.parked
  {
  }

  /** Over all runs: a request that waited is answered with messages, with nothing or with the close
      mark, and with the latter exactly as just said. */
  lemma WaitedRightly(capacity: nat, events: seq<Event>, i: nat)
    requires i < |events|
    ensures var s := Run(Start(capacity), events[..i]);
      s.parked.Some? && Released(s, events[i]) ==> RightAnswer(s, events[i])
  {
    hide Step, RightAnswer;
    var s := Run(Start(capacity), events[..i]);
    BeginSound(capacity);
    RunSound(Start(capacity), events[..i]);
    if s.parked.Some? && Released(s, events[i]) {
      OpenIsWhole(s);
      WaitingIsAnswered(s, events[i]);
    }
  }

  lemma BeginSound(capacity: nat)
    ensures Sound(Start(capacity))
  {
  }

  lemma OpenIsWhole(s: Stream)
    requires Sound(s) && s.open
    ensures !s.broken
  {
  }

  // ----- the request that arrives -----

  /** What a request is told at once; None when it waits. */
  function Told(s: Stream, r: Request): Option<Reply> {
    if !s.open || Pointless(r) then Some(Failed)
    else if r.preflight then Some(Preflight)
    else if r.close || Wrong(s, r) then Some(Closing)
    else if r.body != [] && r.inFormat != Single then Some(Failed)
    else if r.limit == 0 then Some(Empty)
    else None
  }

  /** The body of a request goes to the backend. */
  predicate Forwards(s: Stream, r: Request) {
    && s.open && !s.broken && !r.close && r.body != [] && !r.preflight
    && !Wrong(s, r) && r.inFormat == Single
  }

  /** A request is answered at once or waits, after the one that it releases; its body is forwarded
      or not; and what it acknowledges is dropped. */
  lemma ArrivalIsAnswered(s: Stream, r: Request)
    requires Sound(s) && !s.broken
    ensures var t := Step(s, Arrive(r));
      var first := if s.parked.Some? && Released(s, Arrive(r)) then 1 else 0;
      && |t.replies| == |s.replies| + first + (if Told(s, r).Some? then 1 else 0)
      && (Told(s, r).Some? ==> t.replies[|t.replies| - 1] == Response(r.id, Told(s, r).value))
      && (Told(s, r).None? ==> t.parked == Some(r.id) && t.open)
      && t.forwarded == s.forwarded + (if Forwards(s, r) then [r.body] else [])
  {
    hide Classified, Covered, Acknowledge, Admit, Pointless, Brief, Wrong, Sound;
    FirstIndex(s);
    ActionBy(r);
    CoveredBy(s, r);
    var t := Release(s, Classified(r));
    ReleasedSame(s, r);
    AcknowledgeWrites(t, r, Classified(r));
    BodyGiven(r);
    if Covered(s, r.ack).Some? && !r.close { AdmitTells(Dropped(t, Covered(s, r.ack).value), r); }
  }

  lemma BodyGiven(r: Request)
    ensures Brief(r) ==> r.body != [] && r.limit == 0 && !r.close
    ensures !Brief(r) && !r.close && r.body != [] ==> r.limit != 0
    ensures Pointless(r) <==> !r.close && r.body == [] && r.limit == 0
  {
  }

  /** What is written to a request that is let in, if it does not wait. */
  lemma AdmitTells(s: Stream, r: Request)
    requires !r.close
    ensures var t := Admit(s, r);
      && t.open == s.open
      && (r.body != [] && r.inFormat != Single ==> t == Write(s, r.id, Failed))
      && (!(r.body != [] && r.inFormat != Single) ==>
            && t.forwarded == s.forwarded + (if r.body != [] then [r.body] else [])
            && (Brief(r) ==> t.replies == s.replies + [Response(r.id, Empty)])
            && (!Brief(r) && !Pointless(r) ==> t.replies == s.replies && t.parked == Some(r.id)))
  {
  }

  lemma FirstIndex(s: Stream)
    requires Sound(s)
    ensures s.first >= 1 && (s.open ==> !s.broken) && (!s.open && !s.broken ==> s.parked.None?)
  {
  }

  /** No other event forwards anything. */
  lemma OnlyRequestsForward(s: Stream, e: Event)
    requires !e.Arrive?
    ensures Step(s, e).forwarded == s.forwarded
  {
    hide Delivery;
  }

  /** A request whose acknowledgement is right moves the first index past it. */
  lemma AcknowledgedExactly(s: Stream, r: Request)
    requires Sound(s) && s.open && !Pointless(r) && !r.preflight && !r.close && !Wrong(s, r)
    ensures var t := Step(s, Arrive(r));
      && t.open && t.first == (if r.ack >= s.first then r.ack + 1 else s.first)
      && t.queue == s.queue[t.first - s.first..]
  {
    hide Classified, Covered, Acknowledge, Admit, Pointless, Brief, Wrong, Sound;
    FirstIndex(s);
    ActionBy(r);
    CoveredBy(s, r);
    ReleasedSame(s, r);
    var t := Release(s, Classified(r));
    AcknowledgeWrites(t, r, Classified(r));
    AdmitKeepsQueue(Dropped(t, Covered(s, r.ack).value), r);
  }

  lemma AdmitKeepsQueue(s: Stream, r: Request)
    ensures var t := Admit(s, r); t.open == s.open && t.first == s.first && t.queue == s.queue
  {
    hide Classified;
  }

  /** A request that waits with messages in the queue is answered from its head: with the first one,
      or with as many as its limit and the capacity allow. */
  lemma AnsweredFromHead(s: Stream, r: Request)
    requires Sound(s) && s.open && Told(s, r).None?
    requires Step(s, Arrive(r)).queue != []
    ensures var t := Step(s, Arrive(r));
      var reply := Step(t, Idle).replies[|t.replies|];
      && t.sendLater && |Step(t, Idle).replies| == |t.replies| + 1 && reply.id == r.id
      && match r.outFormat
         case Single => reply.reply == One(t.first, t.queue[0])
         case JsonList =>
           var limit := if 0 <= r.limit < s.capacity then r.limit else s.capacity;
           reply.reply.Batch? && reply.reply.msgs == t.queue[..if |t.queue| < limit then |t.queue| else limit]
  {
  }

  /** A stream can close and yet tell the waiting request nothing of it: when a request that closes
      the stream takes its place first. */
  lemma EmptyThoughClosed()
    ensures var get := Request(0, false, 0, [], Single, Single, -1, false);
      var close := Request(1, true, 0, [], Single, Single, -1, false);
      var t := Run(Start(1), [Arrive(get), Arrive(close)]);
      !t.open && t.replies == [Response(0, Empty), Response(1, Closing)]
  {
    hide Step;
    var get := Request(0, false, 0, [], Single, Single, -1, false);
    var close := Request(1, true, 0, [], Single, Single, -1, false);
    var s, events := Start(1), [Arrive(get), Arrive(close)];
    RunNone(s, events);
    RunStep(s, events, 0);
    RunStep(s, events, 1);
    GetThenClose(get, close);
  }

  lemma GetThenClose(get: Request, close: Request)
    requires get == Request(0, false, 0, [], Single, Single, -1, false)
    requires close == Request(1, true, 0, [], Single, Single, -1, false)
    ensures var t := Step(Step(Start(1), Arrive(get)), Arrive(close));
      !t.open && t.replies == [Response(0, Empty), Response(1, Closing)]
  {
  }

  // ----- what closes a stream, and what keeps a request from waiting forever -----

  /** A stream is closed by a disconnect, a message for a full queue, its inactivity timer, and a
      request that says so or acknowledges wrongly; by nothing else. */
  lemma ClosedExactly(s: Stream, e: Event)
    requires Sound(s) && s.open
    ensures Step(s, e).open <==>
      match e
      case Arrive(r) => Pointless(r) || r.preflight || !(r.close || Wrong(s, r))
      case Push(m) => |s.queue| < s.capacity
      case Inactivity => !s.inactivity
      case Disconnect => false
      case _ => true
  {
    hide Receive, CometStream.Delivery, Sound;
    FirstIndex(s);
    if e.Arrive? { ArrivalCloses(s, e.r); }
  }

  lemma ArrivalCloses(s: Stream, r: Request)
    requires s.first >= 1 && s.open
    ensures Receive(s, r).open <==> Pointless(r) || r.preflight || !(r.close || Wrong(s, r))
  {
    hide Classified, Covered, Acknowledge, Pointless, Brief, Wrong;
    ActionBy(r);
    CoveredBy(s, r);
    ReleasedSame(s, r);
    AcknowledgeWrites(Release(s, Classified(r)), r, Classified(r));
  }

  /** Something is going to end the waiting: the request's timer, the watcher, or the stream's timer. */
  ghost predicate Timed(s: Stream) {
    s.open && s.parked.Some? ==> s.requestTimer || s.sendLater || s.inactivity
  }

  lemma StepTimed(s: Stream, e: Event)
    requires Sound(s) && Timed(s)
    ensures Timed(Step(s, e))
  {
    hide Receive, CometStream.Delivery;
    if e.Arrive? { ArrivalTimed(s, e.r); }
  }

  lemma ArrivalTimed(s: Stream, r: Request)
    requires Timed(s)
    ensures Timed(Receive(s, r))
  {
    hide Classified, Covered, Closed;
    Shut(Release(s, Classified(r)), r);
  }

  lemma Shut(s: Stream, r: Request)
    ensures !Closed(s).open
    ensures Covered(s, r.ack).Some? ==> !Closed(Dropped(s, Covered(s, r.ack).value)).open
  {
  }

  /** In every run a request that waits has a timer or an answer coming. */
  lemma {:induction false} NobodyWaitsForever(capacity: nat, events: seq<Event>)
    ensures Timed(Run(Start(capacity), events))
  {
    hide Step, Timed, Sound;
    var s := Start(capacity);
    if events == [] {
      BeginTimed(capacity);
    } else {
      NobodyWaitsForever(capacity, events[..|events| - 1]);
      BeginSound(capacity);
      RunSound(s, events[..|events| - 1]);
      StepTimed(Run(s, events[..|events| - 1]), events[|events| - 1]);
    }
  }

  lemma BeginTimed(capacity: nat)
    ensures Timed(Start(capacity))
  {
  }
}
