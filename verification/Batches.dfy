/** Which messages of a long-polling stream its replies carried, and which were acknowledged away
    without that (src/polling.c), over whole runs and for any clients. */
module Batches {
  import opened Lists
  import opened CometStream

  /** A reply with messages: the index of the first one, the messages, and the index that the
      reply names for acknowledging it. */
  datatype Span = Span(from: nat, msgs: seq<Msg>, named: int)

  /** The reply with messages that a step writes. */
  function Sends(s: Stream, e: Event): Option<Span> {
    if s.broken || !e.Idle? || !s.sendLater || s.parked.None? || s.queue == [] then None
    else
      match Delivery(s)
      case One(index, msg) => Some(Span(index, [msg], index))
      case Batch(last, msgs) => Some(Span(s.first, msgs, last))
      case _ => None
  }

  function Sent(s: Stream, events: seq<Event>): seq<Span> {
    if events == [] then []
    else
      var n := |events| - 1;
      var span := Sends(Run(s, events[..n]), events[n]);
      Sent(s, events[..n]) + if span.Some? then [span.value] else []
  }

  /** The messages that a stream took. */
  function Taken(s: Stream, events: seq<Event>): seq<Msg> {
    if events == [] then []
    else
      var n := |events| - 1;
      Taken(s, events[..n]) + if Takes(Run(s, events[..n]), events[n]) then [events[n].m] else []
  }

  predicate Takes(s: Stream, e: Event) {
    e.Push? && s.open && !s.broken && |s.queue| < s.capacity
  }

  function Says(reply: Reply, span: Span): bool {
    match reply
    case One(index, msg) => span == Span(index, [msg], index)
    case Batch(last, msgs) => span.msgs == msgs && span.named == last
    case _ => false
  }

  /** Some replies were written, none of them with messages. */
  ghost predicate Wordlessly(s: Stream, t: Stream) {
    && s.replies <= t.replies
    && forall i :: |s.replies| <= i < |t.replies| ==> !t.replies[i].reply.One? && !t.replies[i].reply.Batch?
  }

  lemma ReceiveIsWordless(s: Stream, r: Request)
    ensures Wordlessly(s, Receive(s, r))
  {
    hide Classified, Covered, Acknowledge;
    AcknowledgeIsWordless(Release(s, Classified(r)), r, Classified(r));
  }

  lemma AcknowledgeIsWordless(s: Stream, r: Request, action: Action)
    ensures Wordlessly(s, Acknowledge(s, r, action))
  {
    hide Classified, Closed, Admit;
    ClosedIsWordless(s);
    var covered := Covered(s, r.ack);
    if covered.Some? {
      ClosedIsWordless(Dropped(s, covered.value));
      AdmitIsWordless(Dropped(s, covered.value), r);
    }
  }

  lemma ClosedIsWordless(s: Stream)
    ensures Wordlessly(s, Closed(s))
  {
  }

  lemma AdmitIsWordless(s: Stream, r: Request)
    ensures Wordlessly(s, Admit(s, r))
  {
    hide Classified;
  }

  /** A step writes one reply with messages, or none. */
  lemma SendsIsReply(s: Stream, e: Event)
    ensures match Sends(s, e)
            case Some(span) =>
              && s.parked.Some? && |Step(s, e).replies| == |s.replies| + 1
              && s.replies <= Step(s, e).replies && Step(s, e).replies[|s.replies|].id == s.parked.value
              && Says(Step(s, e).replies[|s.replies|].reply, span)
            case None => Wordlessly(s, Step(s, e))
  {
    hide Receive;
    if e.Arrive? { ReceiveIsWordless(s, e.r); }
  }

  /** What the stream holds and what it sent are the messages that it took, in their order. */
  ghost predicate Ordered(s: Stream, spans: seq<Span>, taken: seq<Msg>) {
    && 1 <= s.first <= |taken| + 1
    && (s.open ==> s.queue == taken[s.first - 1..])
    && (forall i :: 0 <= i < |spans| ==>
          && 1 <= spans[i].from <= s.first && spans[i].from - 1 + |spans[i].msgs| <= |taken|
          && spans[i].msgs == taken[spans[i].from - 1..spans[i].from - 1 + |spans[i].msgs|])
  }

  lemma OrderedStep(s: Stream, spans: seq<Span>, taken: seq<Msg>, e: Event)
    requires Sound(s) && Ordered(s, spans, taken)
    ensures var span := Sends(s, e);
      Ordered(Step(s, e), spans + if span.Some? then [span.value] else [], taken + if Takes(s, e) then [e.m] else [])
  {
    hide Step, Sound, Sends;
    FirstStep(s, e);
    QueueStep(s, e);
    SpanAtHead(s, e);
    var more := taken + if Takes(s, e) then [e.m] else [];
    forall i | 0 <= i < |spans|
      ensures spans[i].msgs == more[spans[i].from - 1..spans[i].from - 1 + |spans[i].msgs|]
    {
    }
  }

  lemma QueueStep(s: Stream, e: Event)
    requires Sound(s)
    ensures Step(s, e).open ==>
      && s.open
      && Step(s, e).first - s.first <= |s.queue| && s.first <= Step(s, e).first
      && Step(s, e).queue == s.queue[Step(s, e).first - s.first..] + if Takes(s, e) then [e.m] else []
    ensures Step(s, e).first <= s.first + |s.queue|
    ensures !s.open ==> Step(s, e).first == s.first && Sends(s, e).None? && !Takes(s, e)
  {
    hide Receive;
    if e.Arrive? && !s.broken {
      hide Step;
      ReceiveQueue(s, e.r);
      ArriveIs(s, e.r);
    }
  }

  lemma ArriveIs(s: Stream, r: Request)
    ensures !s.broken ==> Step(s, Arrive(r)) == Receive(s, r)
  {
    hide Receive;
  }

  lemma ReceiveQueue(s: Stream, r: Request)
    requires s.first >= 1
    ensures var t := Receive(s, r);
      && s.first <= t.first <= s.first + |s.queue| && (!s.open ==> t.first == s.first)
      && (t.open ==> s.open && t.queue == s.queue[t.first - s.first..])
  {
    hide Acknowledge, Classified;
    AcknowledgeQueue(Release(s, Classified(r)), r, Classified(r));
  }

  lemma AcknowledgeQueue(s: Stream, r: Request, action: Action)
    requires s.first >= 1
    ensures var t := Acknowledge(s, r, action);
      && s.first <= t.first <= s.first + |s.queue|
      && (t.open ==> s.open && t.queue == s.queue[t.first - s.first..])
  {
    hide Admit, Classified;
    if Covered(s, r.ack).Some? {
      AdmitQueue(Dropped(s, Covered(s, r.ack).value), r);
    }
  }

  lemma AdmitQueue(s: Stream, r: Request)
    ensures Admit(s, r).open == s.open && Admit(s, r).first == s.first && Admit(s, r).queue == s.queue
  {
    hide Classified;
  }

  lemma SpanAtHead(s: Stream, e: Event)
    requires Sound(s)
    ensures Sends(s, e).Some? ==> s.open && Sends(s, e).value.from == s.first && Sends(s, e).value.msgs <= s.queue
  {
  }

  /** Over whole runs, every reply with messages carries the accepted messages that it says. */
  lemma {:induction false} RunOrdered(capacity: nat, events: seq<Event>)
    ensures Ordered(Run(Start(capacity), events), Sent(Start(capacity), events), Taken(Start(capacity), events))
  {
    hide Step, Ordered, Sound, Sends, Takes;
    var s := Start(capacity);
    if events == [] {
      StartOrdered(capacity);
    } else {
      var rest := events[..|events| - 1];
      RunOrdered(capacity, rest);
      StartSound(capacity);
      RunSound(s, rest);
      OrderedStep(Run(s, rest), Sent(s, rest), Taken(s, rest), events[|events| - 1]);
    }
  }

  lemma StartOrdered(capacity: nat)
    ensures Ordered(Start(capacity), [], [])
  {
  }

  lemma StartSound(capacity: nat)
    ensures Sound(Start(capacity))
  {
  }

  // ----- what replies carry -----

  ghost predicate Carries(span: Span, n: nat) {
    span.from <= n < span.from + |span.msgs|
  }

  /** A message that was dropped as acknowledged and was in no reply. */
  ghost predicate Missed(s: Stream, spans: seq<Span>, n: nat) {
    1 <= n < s.first && forall i :: 0 <= i < |spans| ==> !Carries(spans[i], n)
  }

  /** The highest index that replies have carried. */
  function Reach(spans: seq<Span>): nat {
    if spans == [] then 0
    else
      var n := |spans| - 1;
      var rest, last := Reach(spans[..n]), spans[n].from + |spans[n].msgs|;
      if last > rest + 1 then last - 1 else rest
  }

  lemma {:induction false} ReachIsHighest(spans: seq<Span>, i: nat)
    requires i < |spans|
    ensures spans[i].from + |spans[i].msgs| <= Reach(spans) + 1
  {
    if i < |spans| - 1 { ReachIsHighest(spans[..|spans| - 1], i); }
  }

  lemma {:induction false} ReachIsCarried(spans: seq<Span>)
    ensures Reach(spans) == 0 || exists i :: 0 <= i < |spans| && spans[i].from + |spans[i].msgs| == Reach(spans) + 1
  {
    if spans != [] {
      var n := |spans| - 1;
      ReachIsCarried(spans[..n]);
      if Reach(spans) == Reach(spans[..n]) {
        if i :| 0 <= i < n && spans[..n][i].from + |spans[..n][i].msgs| == Reach(spans) + 1 {
          assert spans[i] == spans[..n][i];
        }
      }
    }
  }

  /** Every reply carried messages from what was the head of the queue at its time. */
  ghost predicate Behind(s: Stream, spans: seq<Span>) {
    forall i :: 0 <= i < |spans| ==> 1 <= spans[i].from <= s.first
  }

  /** An acknowledgement that is taken and goes beyond what replies have carried. */
  predicate Overreaches(s: Stream, spans: seq<Span>, e: Event) {
    && e.Arrive? && s.open && !s.broken && Classified(e.r) != Senseless && !e.r.preflight
    && Covered(s, e.r.ack).Some? && e.r.ack > Reach(spans)
  }

  /** Only acknowledgements move the first index, and only forward. */
  lemma FirstStep(s: Stream, e: Event)
    requires s.first >= 1
    ensures Step(s, e).first ==
      if && e.Arrive? && s.open && !s.broken && Classified(e.r) != Senseless && !e.r.preflight
         && Covered(s, e.r.ack).Some? && e.r.ack >= s.first
      then e.r.ack + 1 else s.first
  {
    hide Classified, Acknowledge;
    if e.Arrive? {
      AcknowledgeFirst(Release(s, Classified(e.r)), e.r, Classified(e.r));
    }
  }

  lemma AcknowledgeFirst(s: Stream, r: Request, action: Action)
    requires s.first >= 1
    ensures Acknowledge(s, r, action).first ==
      if Covered(s, r.ack).Some? && r.ack >= s.first then r.ack + 1 else s.first
  {
    hide Admit, Classified, Closed;
    ClosedFirst(s);
    if Covered(s, r.ack).Some? {
      ClosedFirst(Dropped(s, Covered(s, r.ack).value));
      AdmitQueue(Dropped(s, Covered(s, r.ack).value), r);
    }
  }

  lemma ClosedFirst(s: Stream)
    ensures Closed(s).first == s.first
  {
  }

  ghost predicate AnyMissed(s: Stream, spans: seq<Span>) {
    exists n :: Missed(s, spans, n)
  }

  lemma MissedStep(s: Stream, spans: seq<Span>, e: Event)
    requires Sound(s) && Behind(s, spans)
    ensures var span := Sends(s, e);
      var more := spans + if span.Some? then [span.value] else [];
      && Behind(Step(s, e), more)
      && (AnyMissed(Step(s, e), more) <==> AnyMissed(s, spans) || Overreaches(s, spans, e))
  {
    hide Step, Sound, Sends, Overreaches, Reach, AnyMissed;
    var t, span := Step(s, e), Sends(s, e);
    var more := spans + if span.Some? then [span.value] else [];
    assert s.first >= 1 by { FirstPositive(s); }
    SpanAtHead(s, e);
    FirstStep(s, e);
    MissedStays(s, t, spans, more);
    assert spans + [] == spans;
    if Overreaches(s, spans, e) { OverreachMisses(s, spans, e); }
    if !AnyMissed(s, spans) && !Overreaches(s, spans, e) { ReachCovers(s, spans, e); }
  }

  lemma FirstPositive(s: Stream)
    requires Sound(s)
    ensures s.first >= 1
  {
  }

  lemma MissedStays(s: Stream, t: Stream, spans: seq<Span>, more: seq<Span>)
    requires s.first <= t.first && spans <= more && forall i :: |spans| <= i < |more| ==> more[i].from >= s.first
    ensures AnyMissed(s, spans) ==> AnyMissed(t, more)
  {
    if n :| Missed(s, spans, n) {
      assert Missed(t, more, n);
    }
  }

  /** Beyond the reach nothing was carried. */
  lemma OverreachMisses(s: Stream, spans: seq<Span>, e: Event)
    requires Sound(s) && Overreaches(s, spans, e)
    ensures Sends(s, e).None?
    ensures AnyMissed(s, spans) || AnyMissed(Step(s, e), spans)
  {
    hide Step, Reach, Classified, Covered;
    FirstStep(s, e);
    var n := if e.r.ack >= s.first then e.r.ack else Reach(spans) + 1;
    forall i | 0 <= i < |spans| ensures !Carries(spans[i], n) { ReachIsHighest(spans, i); }
    assert Missed(Step(s, e), spans, n);
  }

  /** As long as nothing was missed, everything up to the reach was carried. */
  lemma ReachCovers(s: Stream, spans: seq<Span>, e: Event)
    requires Sound(s) && Behind(s, spans) && !AnyMissed(s, spans) && !Overreaches(s, spans, e)
    ensures var span := Sends(s, e);
      !AnyMissed(Step(s, e), spans + if span.Some? then [span.value] else [])
  {
    hide Step, Reach, Classified, Covered, Sends;
    FirstStep(s, e);
    ReachIsCarried(spans);
    var span := Sends(s, e);
    var more := spans + if span.Some? then [span.value] else [];
    forall n: nat ensures !Missed(Step(s, e), more, n) {
      if 1 <= n < s.first {
        assert !Missed(s, spans, n);
        var i :| 0 <= i < |spans| && Carries(spans[i], n);
        assert more[i] == spans[i];
      } else if s.first <= n < Step(s, e).first {
        var i :| 0 <= i < |spans| && spans[i].from + |spans[i].msgs| == Reach(spans) + 1;
        assert more[i] == spans[i] && Carries(spans[i], n);
      }
    }
  }

  ghost predicate OverreachedAt(s: Stream, events: seq<Event>, i: nat)
    requires i < |events|
  {
    Overreaches(Run(s, events[..i]), Sent(s, events[..i]), events[i])
  }

  lemma OverreachedInPrefix(s: Stream, events: seq<Event>, n: nat)
    requires n <= |events|
    ensures forall i :: 0 <= i < n ==> (OverreachedAt(s, events[..n], i) <==> OverreachedAt(s, events, i))
  {
    hide Run, Sent, Overreaches;
    assert forall i :: 0 <= i < n ==> events[..n][..i] == events[..i];
  }

  /** Over whole runs, some message that the server dropped as acknowledged was in no reply, if and
      only if some acknowledgement that was taken went beyond what replies had carried. */
  lemma {:induction false} MissedExactly(capacity: nat, events: seq<Event>)
    ensures var s := Start(capacity);
      && Behind(Run(s, events), Sent(s, events))
      && (AnyMissed(Run(s, events), Sent(s, events)) <==> exists i :: 0 <= i < |events| && OverreachedAt(s, events, i))
  {
    hide Step, Sound, Sends, Overreaches, AnyMissed, Behind;
    var s := Start(capacity);
    if events == [] {
      NothingMissed(capacity);
    } else {
      var n := |events| - 1;
      var rest := events[..n];
      MissedExactly(capacity, rest);
      StartSound(capacity);
      RunSound(s, rest);
      MissedStep(Run(s, rest), Sent(s, rest), events[n]);
      OverreachedInPrefix(s, events, n);
      assert OverreachedAt(s, events, n) <==> Overreaches(Run(s, rest), Sent(s, rest), events[n]);
      hide OverreachedAt, Run, Sent;
    }
  }

  lemma NothingMissed(capacity: nat)
    ensures Behind(Start(capacity), []) && !AnyMissed(Start(capacity), [])
  {
  }

  // ----- clients that acknowledge what replies name -----

  /** The limit cut the batch: the reply names more than it carries. */
  predicate Cut(span: Span) {
    span.named >= span.from + |span.msgs|
  }

  /** Every acknowledgement is missing, or is the index that an earlier reply names. */
  ghost predicate Polite(s: Stream, events: seq<Event>) {
    forall i :: 0 <= i < |events| && events[i].Arrive? ==>
      || events[i].r.ack == 0
      || exists j :: 0 <= j < |Sent(s, events[..i])| && Sent(s, events[..i])[j].named == events[i].r.ack
  }

  /** Such a client goes too far only by the index of a cut batch. */
  lemma OverreachIsCut(s: Stream, spans: seq<Span>, e: Event, j: nat)
    requires e.Arrive? && j < |spans| && spans[j].named == e.r.ack
    ensures Overreaches(s, spans, e) ==> Cut(spans[j])
  {
    hide Classified, Covered, Reach;
    ReachIsHighest(spans, j);
  }

  lemma NamedStaysInReach(s: Stream, spans: seq<Span>, e: Event)
    requires forall i :: 0 <= i < |spans| ==> !Cut(spans[i])
    requires e.Arrive? ==> e.r.ack == 0 || exists j :: 0 <= j < |spans| && spans[j].named == e.r.ack
    ensures !Overreaches(s, spans, e)
  {
    hide Cut, Reach, Classified, Covered;
    if e.Arrive? && e.r.ack != 0 {
      var j :| 0 <= j < |spans| && spans[j].named == e.r.ack;
      OverreachIsCut(s, spans, e, j);
    }
  }

  /** So it misses nothing as long as no batch is cut. */
  lemma UncutMissesNothing(capacity: nat, events: seq<Event>)
    requires Polite(Start(capacity), events)
    requires forall i :: 0 <= i < |Sent(Start(capacity), events)| ==> !Cut(Sent(Start(capacity), events)[i])
    ensures !AnyMissed(Run(Start(capacity), events), Sent(Start(capacity), events))
  {
    hide Run, Sent, Cut, AnyMissed, Overreaches;
    var s := Start(capacity);
    MissedExactly(capacity, events);
    forall i | 0 <= i < |events| ensures !OverreachedAt(s, events, i) {
      SentBefore(s, events, i);
      NamedStaysInReach(Run(s, events[..i]), Sent(s, events[..i]), events[i]);
    }
  }

  lemma {:induction false} SentBefore(s: Stream, events: seq<Event>, i: nat)
    requires i <= |events|
    ensures Sent(s, events[..i]) <= Sent(s, events)
    decreases |events|
  {
    hide Sends, Run;
    if i == |events| {
      assert events[..i] == events;
    } else {
      SentBefore(s, events[..|events| - 1], i);
      assert events[..|events| - 1][..i] == events[..i];
    }
  }

  // ----- acknowledging a cut batch -----

  lemma {:induction false} RunSentOn(s: Stream, events: seq<Event>, more: seq<Event>)
    ensures Run(s, events + more) == Run(Run(s, events), more)
    ensures Sent(s, events + more) == Sent(s, events) + Sent(Run(s, events), more)
  {
    hide Step, Sends;
    if more == [] {
      assert events + more == events;
    } else {
      var n := |more| - 1;
      RunSentOn(s, events, more[..n]);
      assert (events + more)[..|events| + n] == events + more[..n];
    }
  }

  lemma RunSentTwo(s: Stream, a: Event, b: Event)
    ensures Run(s, [a, b]) == Step(Step(s, a), b)
    ensures Sent(s, [a, b]) ==
      (if Sends(s, a).Some? then [Sends(s, a).value] else [])
      + (if Sends(Step(s, a), b).Some? then [Sends(Step(s, a), b).value] else [])
  {
    hide Step, Sends;
    assert [a, b][..1] == [a] && [a][..0] == [];
    assert Run(s, [a]) == Step(s, a) && Run(s, []) == s && Sent(s, []) == [];
  }

  function Listing(id: nat, ack: nat, limit: int): Request {
    Request(id, false, ack, [], Single, JsonList, limit, false)
  }

  /** The stream after both messages were pushed. */
  function Full(first: Msg, second: Msg): Stream {
    Stream(2, true, None, false, Single, 0, 1, [first, second], false, true, [], [], [], false)
  }

  /** The same after replies, as long as nothing was acknowledged. */
  function Replied(first: Msg, second: Msg, limit: nat, replies: seq<Response>): Stream {
    Full(first, second).(format := JsonList, limit := limit, replies := replies)
  }

  lemma PushTwo(first: Msg, second: Msg)
    ensures Step(Step(Start(2), Push(first)), Push(second)) == Full(first, second)
    ensures Sends(Start(2), Push(first)) == None && Sends(Step(Start(2), Push(first)), Push(second)) == None
  {
  }

  lemma ListReply(s: Stream, first: Msg, second: Msg, id: nat, limit: nat)
    requires s == Full(first, second).(format := s.format, limit := s.limit, replies := s.replies)
    requires limit in {1, 2}
    ensures var t := Step(s, Arrive(Listing(id, 0, limit)));
      && Sends(s, Arrive(Listing(id, 0, limit))) == None
      && Sends(t, Idle) == Some(Span(1, [first, second][..limit], 2))
      && Step(t, Idle) ==
           Replied(first, second, limit, s.replies + [Response(id, Batch(2, [first, second][..limit]))])
  {
  }

  lemma AckBoth(s: Stream, first: Msg, second: Msg, id: nat)
    requires s == Full(first, second).(format := s.format, limit := s.limit, replies := s.replies)
    ensures var t := Step(s, Arrive(Listing(id, 2, 1)));
      && t.open && t.first == 3 && t.queue == [] && t.replies == s.replies && Step(t, Idle) == t
      && Sends(s, Arrive(Listing(id, 2, 1))) == None && Sends(t, Idle) == None
  {
  }

  function Pushes(first: Msg, second: Msg): seq<Event> {
    [Push(first), Push(second)]
  }

  function Poll(id: nat, ack: nat, limit: nat): seq<Event> {
    [Arrive(Listing(id, ack, limit)), Idle]
  }

  lemma PollReplied(s: Stream, first: Msg, second: Msg, id: nat, limit: nat)
    requires s == Full(first, second).(format := s.format, limit := s.limit, replies := s.replies)
    requires limit in {1, 2}
    ensures Sent(s, Poll(id, 0, limit)) == [Span(1, [first, second][..limit], 2)]
    ensures Run(s, Poll(id, 0, limit)) ==
      Replied(first, second, limit, s.replies + [Response(id, Batch(2, [first, second][..limit]))])
  {
    hide Step, Sends, Sent, Run, Replied;
    ListReply(s, first, second, id, limit);
    RunSentTwo(s, Arrive(Listing(id, 0, limit)), Idle);
  }

  lemma AcknowledgedAll(s: Stream, first: Msg, second: Msg, id: nat)
    requires s == Full(first, second).(format := s.format, limit := s.limit, replies := s.replies)
    ensures Sent(s, Poll(id, 2, 1)) == [] && Run(s, Poll(id, 2, 1)).first == 3
  {
    hide Step, Sends, Sent, Run;
    AckBoth(s, first, second, id);
    RunSentTwo(s, Arrive(Listing(id, 2, 1)), Idle);
  }

  lemma PushesTaken(first: Msg, second: Msg)
    ensures Run(Start(2), Pushes(first, second)) == Full(first, second) && Sent(Start(2), Pushes(first, second)) == []
  {
    hide Step, Sends, Sent, Run;
    PushTwo(first, second);
    RunSentTwo(Start(2), Push(first), Push(second));
  }

  /** A batch is cut to one message, and the client acknowledges what the reply names: the other
      message is gone and was in no reply. */
  lemma CutBatchMisses(first: Msg, second: Msg)
    ensures var s, events := Start(2), Pushes(first, second) + Poll(0, 0, 1) + Poll(1, 2, 1);
      Sent(s, events) == [Span(1, [first], 2)] && Missed(Run(s, events), Sent(s, events), 2)
  {
    hide Run, Sent, Poll, Pushes;
    var s := Start(2);
    var pushes := Pushes(first, second);
    PushesTaken(first, second);
    PollReplied(Full(first, second), first, second, 0, 1);
    RunSentOn(s, pushes, Poll(0, 0, 1));
    AcknowledgedAll(Run(s, pushes + Poll(0, 0, 1)), first, second, 1);
    RunSentOn(s, pushes + Poll(0, 0, 1), Poll(1, 2, 1));
    assert [first, second][..1] == [first];
  }

  /** But not every acknowledgement of a cut batch loses something: here an earlier reply, which
      was not acknowledged, carried both messages. */
  lemma CutBatchHarmless(first: Msg, second: Msg)
    ensures var s, events := Start(2), Pushes(first, second) + Poll(0, 0, 2) + Poll(1, 0, 1) + Poll(2, 2, 1);
      && Sent(s, events) == [Span(1, [first, second], 2), Span(1, [first], 2)]
      && Run(s, events).first == 3 && !AnyMissed(Run(s, events), Sent(s, events))
  {
    hide Run, Sent, Poll, Pushes;
    var s := Start(2);
    var pushes := Pushes(first, second);
    PushesTaken(first, second);
    PollReplied(Full(first, second), first, second, 0, 2);
    RunSentOn(s, pushes, Poll(0, 0, 2));
    PollReplied(Run(s, pushes + Poll(0, 0, 2)), first, second, 1, 1);
    RunSentOn(s, pushes + Poll(0, 0, 2), Poll(1, 0, 1));
    AcknowledgedAll(Run(s, pushes + Poll(0, 0, 2) + Poll(1, 0, 1)), first, second, 2);
    RunSentOn(s, pushes + Poll(0, 0, 2) + Poll(1, 0, 1), Poll(2, 2, 1));
    assert [first, second][..1] == [first] && [first, second][..2] == [first, second];
    var both := Span(1, [first, second], 2);
    assert forall n :: 1 <= n < 3 ==> Carries(both, n);
    assert Sent(s, pushes + Poll(0, 0, 2) + Poll(1, 0, 1) + Poll(2, 2, 1))[0] == both;
  }
}
