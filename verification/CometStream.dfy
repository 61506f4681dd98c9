/** The long-polling stream of one connection as a state machine (src/polling.c): a bounded
    queue with a sliding first index, cumulative acknowledgements, at most one parked request,
    an idle watcher that answers it and the timers that answer it empty or close the stream. */
module CometStream {
  import opened Lists
  import Entities

  type Msg = Entities.Bytes

  datatype Format = Single | JsonList

  datatype Action = Senseless | Get | Post | Bidi | Close

  /** A parsed request that is not a CONNECT; `ack` is 0 and `limit` is -1 when missing. */
  datatype Request = Request(
    id: nat, close: bool, ack: nat, body: Msg,
    inFormat: Format, outFormat: Format, limit: int, preflight: bool)

  datatype Reply =
    | Empty                                           // X-Messages: 0
    | Closing                                         // X-Messages: 0, X-Connection: close
    | One(index: nat, msg: Msg)                       // X-Format: single
    | Batch(lastIndex: int, msgs: seq<Msg>)           // X-Format: jsonlist
    | Preflight
    | Failed                                          // the request is dropped with an error

  datatype Response = Response(id: nat, reply: Reply)

  datatype Stream = Stream(
    capacity: nat,
    open: bool,
    parked: Option<nat>,
    requestTimer: bool,  // timer of the parked request
    format: Format,
    limit: nat,
    first: nat,          // index of the oldest queued message
    queue: seq<Msg>,
    sendLater: bool,     // idle watcher
    inactivity: bool,    // inactivity timer
    replies: seq<Response>,
    aborted: seq<nat>,   // parked requests whose client went away
    forwarded: seq<Msg>, // request bodies handed to the backend
    broken: bool)        // the inactivity timer found a parked request: the server's assertion fails

  function Start(capacity: nat): Stream {
    Stream(capacity, true, None, false, Single, 0, 1, [], false, true, [], [], [], false)
  }

  // ----- pieces -----

  function Answer(s: Stream, reply: Reply): Stream
    requires s.parked.Some?
  {
    s.(parked := None, requestTimer := false, replies := s.replies + [Response(s.parked.value, reply)])
  }

  function Stopped(s: Stream): Stream {
    s.(open := false, sendLater := false, inactivity := false, queue := [])
  }

  function Closed(s: Stream): Stream {
    Stopped(if s.parked.Some? then Answer(s, Closing) else s)
  }

  /** How many queued messages an acknowledgement covers; None when it runs past the queue. */
  function Covered(s: Stream, ack: nat): Option<nat> {
    if ack == 0 || ack < s.first then Some(0)
    else if ack - s.first + 1 > |s.queue| then None
    else Some(ack - s.first + 1)
  }

  function Dropped(s: Stream, n: nat): Stream
    requires n <= |s.queue|
  {
    s.(queue := s.queue[n..], first := s.first + n)
  }

  /** The action that the arguments and the body of a request ask for. */
  function Classified(r: Request): Action {
    if r.close then Close
    else if r.body != [] then (if r.limit != 0 then Bidi else Post)
    else if r.limit != 0 then Get
    else Senseless
  }

  function Park(s: Stream, r: Request): Stream {
    s.(parked := Some(r.id),
       format := r.outFormat,
       limit := if 0 <= r.limit < s.capacity then r.limit else s.capacity,
       sendLater := s.sendLater || s.queue != [],
       requestTimer := s.queue == [],
       inactivity := false)
  }

  function Write(s: Stream, id: nat, reply: Reply): Stream {
    s.(replies := s.replies + [Response(id, reply)])
  }

  // ----- events -----

  /** An event whose timer or watcher is not active, or whose stream is closed, does nothing. */
  datatype Event =
    | Arrive(r: Request)   // comet_request
    | Push(m: Msg)         // comet_send
    | Idle                 // send_later
    | RequestTimeout       // polling_timeout
    | Inactivity           // inactivity_timeout
    | Abort                // comet_request_aborted
    | Disconnect           // comet_close

  /** A request whose acknowledgement was taken. */
  function Admit(s: Stream, r: Request): Stream {
    var action := Classified(r);
    if action in {Post, Bidi} && r.inFormat != Single then Write(s, r.id, Failed)
    else
      var t := if action in {Post, Bidi} then s.(forwarded := s.forwarded + [r.body]) else s;
      if action == Post then Write(t, r.id, Empty) else Park(t, r)
  }

  /** A request that is going to wait, or to close, first releases the one that waits now. */
  function Release(s: Stream, action: Action): Stream {
    if action != Post && s.parked.Some? then Answer(s, Empty) else s
  }

  function Acknowledge(s: Stream, r: Request, action: Action): Stream {
    var covered := Covered(s, r.ack);
    if covered.None? then Write(Closed(s), r.id, Closing)
    else if action == Close then Write(Closed(Dropped(s, covered.value)), r.id, Closing)
    else Admit(Dropped(s, covered.value), r)
  }

  function Receive(s: Stream, r: Request): Stream {
    var action := Classified(r);
    if !s.open || action == Senseless then Write(s, r.id, Failed)
    else if r.preflight then Write(s, r.id, Preflight)
    else Acknowledge(Release(s, action), r, action)
  }

  function Enqueue(s: Stream, m: Msg): Stream {
    if |s.queue| >= s.capacity then Closed(s)
    else s.(queue := s.queue + [m], sendLater := s.sendLater || s.parked.Some?)
  }

  /** The reply that carries messages: the oldest one, or a batch up to the limit, which
      nevertheless names the index of the newest message of the whole queue. */
  function Delivery(s: Stream): Reply
    requires s.queue != []
  {
    match s.format
    case Single => One(s.first, s.queue[0])
    case JsonList =>
      Batch(s.first + |s.queue| - 1, s.queue[..if |s.queue| > s.limit then s.limit else |s.queue|])
  }

  function Flush(s: Stream): Stream {
    if s.parked.None? then s.(sendLater := false)
    else if s.queue == [] then s.(sendLater := false, inactivity := true)
    else Answer(s, Delivery(s)).(sendLater := false, inactivity := true)
  }

  function Step(s: Stream, e: Event): Stream {
    if s.broken then s else
    match e
    case Arrive(r) => Receive(s, r)
    case Push(m) => if s.open then Enqueue(s, m) else s
    case Idle => if s.sendLater then Flush(s) else s
    case RequestTimeout => if s.requestTimer && s.parked.Some? then Answer(s, Empty).(inactivity := true) else s
    case Inactivity => if s.inactivity then Stopped(s).(broken := s.parked.Some?) else s
    case Abort =>
      if s.parked.None? then s
      else s.(parked := None, requestTimer := false, aborted := s.aborted + [s.parked.value], inactivity := true)
    case Disconnect => if s.open then Closed(s) else s
  }

  function Run(s: Stream, events: seq<Event>): Stream {
    if events == [] then s else Step(Run(s, events[..|events| - 1]), events[|events| - 1])
  }

  // ----- what every step keeps -----

  /** The queue is bounded, a parked request with something to send has its answer scheduled,
      and timers belong to what they time. */
  ghost predicate Sound(s: Stream) {
    && |s.queue| <= s.capacity
    && s.first >= 1
    && (s.parked.Some? && s.queue != [] ==> s.sendLater)
    && (s.requestTimer ==> s.parked.Some?)
    && (s.open ==> !s.broken)
    && (!s.open ==> !s.sendLater && !s.inactivity && s.queue == [])
    && (!s.open && !s.broken ==> s.parked.None?)
  }

  lemma AdmitSound(s: Stream, r: Request)
    requires Sound(s) && s.open
    ensures Sound(Admit(s, r))
  {
  }

  lemma AcknowledgeSound(s: Stream, r: Request, action: Action)
    requires Sound(s) && s.open
    ensures Sound(Acknowledge(s, r, action))
  {
    hide Admit;
    if Covered(s, r.ack).Some? {
      AdmitSound(Dropped(s, Covered(s, r.ack).value), r);
    }
  }

  lemma ReceiveSound(s: Stream, r: Request)
    requires Sound(s) && !s.broken
    ensures Sound(Receive(s, r))
  {
    hide Acknowledge, Classified;
    if s.open {
      AcknowledgeSound(Release(s, Classified(r)), r, Classified(r));
    }
  }

  lemma StepSound(s: Stream, e: Event)
    requires Sound(s)
    ensures Sound(Step(s, e))
  {
    hide Receive;
    if e.Arrive? && !s.broken {
      ReceiveSound(s, e.r);
    }
  }

  lemma {:induction false} RunSound(s: Stream, events: seq<Event>)
    requires Sound(s)
    ensures Sound(Run(s, events))
  {
    if events != [] {
      RunSound(s, events[..|events| - 1]);
      StepSound(Run(s, events[..|events| - 1]), events[|events| - 1]);
    }
  }

  // ----- every request is answered once -----

  ghost function Ids(rs: seq<Response>): multiset<nat> {
    multiset(seq(|rs|, i requires 0 <= i < |rs| => rs[i].id))
  }

  ghost function Waiting(s: Stream): multiset<nat> {
    if s.parked.Some? then multiset{s.parked.value} else multiset{}
  }

  /** Requests that were answered, aborted by their client, or are still waiting. */
  ghost function Handled(s: Stream): multiset<nat> {
    Ids(s.replies) + multiset(s.aborted) + Waiting(s)
  }

  ghost function Arriving(e: Event): multiset<nat> {
    if e.Arrive? then multiset{e.r.id} else multiset{}
  }

  ghost function Arrived(events: seq<Event>): multiset<nat> {
    if events == [] then multiset{}
    else Arrived(events[..|events| - 1]) + Arriving(events[|events| - 1])
  }

  lemma IdsAppend(rs: seq<Response>, id: nat, reply: Reply)
    ensures Ids(rs + [Response(id, reply)]) == Ids(rs) + multiset{id}
  {
    var ids := seq(|rs|, i requires 0 <= i < |rs| => rs[i].id);
    var all := rs + [Response(id, reply)];
    assert seq(|all|, i requires 0 <= i < |all| => all[i].id) == ids + [id];
  }

  lemma AnswerHandles(s: Stream, reply: Reply)
    requires s.parked.Some?
    ensures Handled(Answer(s, reply)) == Handled(s)
  {
    IdsAppend(s.replies, s.parked.value, reply);
  }

  lemma ClosedHandles(s: Stream)
    ensures Handled(Closed(s)) == Handled(s) && Closed(s).parked.None?
  {
    if s.parked.Some? { AnswerHandles(s, Closing); }
  }

  lemma WriteHandles(s: Stream, id: nat, reply: Reply)
    ensures Handled(Write(s, id, reply)) == Handled(s) + multiset{id}
  {
    IdsAppend(s.replies, id, reply);
  }

  lemma AdmitHandles(s: Stream, r: Request)
    requires Classified(r) != Post ==> s.parked.None?
    ensures Handled(Admit(s, r)) == Handled(s) + multiset{r.id}
  {
    hide Ids;
    WriteHandles(s, r.id, Failed);
    WriteHandles(s.(forwarded := s.forwarded + [r.body]), r.id, Empty);
  }

  lemma AcknowledgeHandles(s: Stream, r: Request)
    requires Classified(r) != Post ==> s.parked.None?
    ensures Handled(Acknowledge(s, r, Classified(r))) == Handled(s) + multiset{r.id}
  {
    hide Ids, Admit, Write, Closed, Classified;
    var covered := Covered(s, r.ack);
    var t := if covered.Some? then Dropped(s, covered.value) else s;
    assert Handled(t) == Handled(s);
    ClosedHandles(t);
    WriteHandles(Closed(t), r.id, Closing);
    AdmitHandles(t, r);
  }

  lemma ReceiveHandles(s: Stream, r: Request)
    ensures Handled(Receive(s, r)) == Handled(s) + multiset{r.id}
  {
    hide Handled, Write, Acknowledge, Classified;
    WriteHandles(s, r.id, Failed);
    WriteHandles(s, r.id, Preflight);
    var t := Release(s, Classified(r));
    if Classified(r) != Post && s.parked.Some? { AnswerHandles(s, Empty); }
    AcknowledgeHandles(t, r);
  }

  lemma PushHandles(s: Stream, m: Msg)
    ensures Handled(Step(s, Push(m))) == Handled(s)
  {
    hide Ids, Closed;
    ClosedHandles(s);
  }

  lemma IdleHandles(s: Stream)
    ensures Handled(Step(s, Idle)) == Handled(s)
  {
    hide Ids, Delivery, Answer;
    if s.parked.Some? && s.queue != [] { AnswerHandles(s, Delivery(s)); }
  }

  lemma TimeoutHandles(s: Stream)
    ensures Handled(Step(s, RequestTimeout)) == Handled(s)
  {
    hide Ids, Answer;
    if s.parked.Some? { AnswerHandles(s, Empty); }
  }

  lemma InactivityHandles(s: Stream)
    requires !Step(s, Inactivity).broken
    ensures Handled(Step(s, Inactivity)) == Handled(s)
  {
    hide Ids;
  }

  lemma AbortHandles(s: Stream)
    ensures Handled(Step(s, Abort)) == Handled(s)
  {
    hide Ids;
    if s.parked.Some? {
      assert multiset(s.aborted + [s.parked.value]) == multiset(s.aborted) + multiset{s.parked.value};
    }
  }

  lemma DisconnectHandles(s: Stream)
    ensures Handled(Step(s, Disconnect)) == Handled(s)
  {
    hide Handled, Closed;
    ClosedHandles(s);
  }

  lemma ArriveHandles(s: Stream, r: Request)
    requires !s.broken
    ensures Handled(Step(s, Arrive(r))) == Handled(s) + multiset{r.id}
  {
    hide Handled, Receive;
    ReceiveHandles(s, r);
  }

  lemma BrokenStays(s: Stream, e: Event)
    ensures s.broken ==> Step(s, e).broken
  {
  }

  lemma StepHandles(s: Stream, e: Event)
    requires !Step(s, e).broken
    ensures Handled(Step(s, e)) == Handled(s) + Arriving(e)
  {
    hide Handled, Step;
    BrokenStays(s, e);
    match e
    case Arrive(r) => ArriveHandles(s, r);
    case Push(m) => PushHandles(s, m);
    case Abort => AbortHandles(s);
    case Disconnect => DisconnectHandles(s);
    case Idle => IdleHandles(s);
    case RequestTimeout => TimeoutHandles(s);
    case Inactivity => InactivityHandles(s);
  }

  /** Conservation of requests over whole runs: each one that arrived is answered once, or
      aborted once, or parked. */
  lemma {:induction false} EveryRequestIsHandledOnce(s: Stream, events: seq<Event>)
    requires !Run(s, events).broken
    ensures Handled(Run(s, events)) == Handled(s) + Arrived(events)
  {
    hide Handled;
    if events != [] {
      EveryRequestIsHandledOnce(s, events[..|events| - 1]);
      StepHandles(Run(s, events[..|events| - 1]), events[|events| - 1]);
    }
  }

  // ----- timers -----

  /** A stream that has nobody waiting is closed sooner or later. */
  ghost predicate Armed(s: Stream) {
    s.open && s.parked.None? ==> s.inactivity
  }

  /** The one step that leaves a stream without its inactivity timer: a message request with an
      unsupported input format releases the parked request and is then itself refused. */
  predicate Disarms(s: Stream, e: Event) {
    && e.Arrive? && s.open && s.parked.Some? && !s.inactivity
    && Classified(e.r) == Bidi && e.r.inFormat != Single && !e.r.preflight && Covered(s, e.r.ack).Some?
  }

  lemma ArmedUnlessDisarmed(s: Stream, e: Event)
    requires Sound(s) && Armed(s)
    ensures Armed(Step(s, e)) <==> !Disarms(s, e)
  {
    hide Classified;
  }

  /** What brings a stream that lost its timer back into order: a request is parked, or the
      stream is closed. */
  predicate Rearms(s: Stream, e: Event) {
    match e
    case Arrive(r) =>
      && Classified(r) != Senseless && !r.preflight
      && (Covered(s, r.ack).None? || Classified(r) in {Close, Get} || (Classified(r) == Bidi && r.inFormat == Single))
    case Push(m) => |s.queue| >= s.capacity
    case Disconnect => true
    case _ => false
  }

  lemma UnarmedUnlessRearmed(s: Stream, e: Event)
    requires Sound(s) && !Armed(s)
    ensures Armed(Step(s, e)) <==> Rearms(s, e)
  {
    hide Classified;
  }

  /** Some step disarmed the stream and nothing since has brought it back into order. */
  ghost predicate Neglected(s: Stream, events: seq<Event>, i: nat)
    requires i < |events|
  {
    && Disarms(Run(s, events[..i]), events[i])
    && forall k :: i < k < |events| ==> !Rearms(Run(s, events[..k]), events[k])
  }

  lemma NeglectedOneMore(s: Stream, events: seq<Event>, n: nat, i: nat)
    requires i <= n && |events| == n + 1
    ensures i < n ==>
      (Neglected(s, events, i) <==> Neglected(s, events[..n], i) && !Rearms(Run(s, events[..n]), events[n]))
    ensures i == n ==> (Neglected(s, events, i) <==> Disarms(Run(s, events[..n]), events[n]))
  {
    hide Run, Disarms, Rearms;
    assert forall k :: 0 <= k <= n ==> events[..n][..k] == events[..k];
  }

  /** Over whole runs a stream is without both a waiting request and a timer exactly if it was
      disarmed and not brought back into order; so it never is when no step disarms. */
  lemma {:induction false} UnarmedExactly(s: Stream, events: seq<Event>)
    requires Sound(s) && Armed(s)
    ensures !Armed(Run(s, events)) <==> exists i :: 0 <= i < |events| && Neglected(s, events, i)
  {
    hide Step, Armed, Disarms, Rearms, Sound, Neglected;
    if events != [] {
      var n := |events| - 1;
      var rest, e := events[..n], events[n];
      UnarmedExactly(s, rest);
      RunSound(s, rest);
      var t := Run(s, rest);
      if Armed(t) { ArmedUnlessDisarmed(t, e); } else { UnarmedUnlessRearmed(t, e); }
      forall i | 0 <= i < n ensures Neglected(s, events, i) <==> Neglected(s, rest, i) && !Rearms(t, e) {
        NeglectedOneMore(s, events, n, i);
      }
      NeglectedOneMore(s, events, n, n);
      assert Neglected(s, events, n) <==> Disarms(t, e);
      DisarmsMeans(t, e);
    }
  }

  lemma DisarmsMeans(s: Stream, e: Event)
    ensures Disarms(s, e) ==> Armed(s)
    ensures Disarms(s, e) && Sound(s) ==> !Rearms(s, e)
  {
  }

  /** A stream from its start that is left without a timer: a waiting request, and a message
      request in a format that is not taken. */
  lemma DisarmedRun(body: Msg)
    requires body != []
    ensures var get := Request(0, false, 0, [], Single, Single, -1, false);
      var bidi := Request(1, false, 0, body, JsonList, Single, -1, false);
      var s := Run(Start(1), [Arrive(get), Arrive(bidi)]);
      s.open && s.parked.None? && !s.inactivity
  {
    hide Step;
    var get := Request(0, false, 0, [], Single, Single, -1, false);
    var bidi := Request(1, false, 0, body, JsonList, Single, -1, false);
    var s, events := Start(1), [Arrive(get), Arrive(bidi)];
    RunNone(s, events);
    RunStep(s, events, 0);
    RunStep(s, events, 1);
    assert var t := Step(Step(s, Arrive(get)), Arrive(bidi)); t.open && t.parked.None? && !t.inactivity by {
      GetParks(s, get);
      BidiIsRefused(Step(s, Arrive(get)), bidi);
    }
  }

  lemma GetParks(s: Stream, r: Request)
    requires s.open && !s.broken && s.parked.None? && s.queue == [] && r.ack == 0
    requires Classified(r) == Get && !r.preflight
    ensures var t := Step(s, Arrive(r));
      t.open && !t.broken && t.parked == Some(r.id) && !t.inactivity
  {
    hide Classified;
  }

  lemma BidiIsRefused(s: Stream, r: Request)
    requires s.open && !s.broken && s.parked.Some? && !s.inactivity && r.ack == 0
    requires Classified(r) == Bidi && r.inFormat != Single && !r.preflight
    ensures var t := Step(s, Arrive(r)); t.open && t.parked.None? && !t.inactivity
  {
    hide Classified;
  }

  /** While a request waits, the stream is not about to be closed for inactivity. */
  ghost predicate Quiet(s: Stream) {
    s.parked.Some? ==> !s.inactivity
  }

  /** The idle watcher fires after the queue was acknowledged away. */
  predicate StaleIdle(s: Stream, e: Event) {
    e.Idle? && s.sendLater && s.parked.Some? && s.queue == []
  }

  lemma QuietUnlessStaleIdle(s: Stream, e: Event)
    requires Sound(s) && Quiet(s) && !s.broken
    ensures Quiet(Step(s, e)) <==> !StaleIdle(s, e)
    ensures !Step(s, e).broken
  {
    hide Receive, Delivery;
    if e.Arrive? { ReceiveStaysQuiet(s, e.r); }
  }

  lemma ReceiveStaysQuiet(s: Stream, r: Request)
    requires Quiet(s) && !s.broken
    ensures Quiet(Receive(s, r)) && !Receive(s, r).broken
  {
    hide Classified, Covered;
  }

  ghost predicate NeverStale(s: Stream, events: seq<Event>) {
    forall i :: 0 <= i < |events| ==> !StaleIdle(Run(s, events[..i]), events[i])
  }

  /** The assertion of free_comet, that no request is parked, holds in every run in which
      the idle watcher never fires on an emptied queue. */
  lemma {:induction false} BrokenOnlyByStaleIdle(s: Stream, events: seq<Event>)
    requires Sound(s) && Quiet(s) && !s.broken && NeverStale(s, events)
    ensures !Run(s, events).broken && Quiet(Run(s, events))
  {
    if events != [] {
      var n := |events| - 1;
      var rest := events[..n];
      forall i | 0 <= i < |rest| ensures !StaleIdle(Run(s, rest[..i]), rest[i]) {
        assert rest[..i] == events[..i] && !StaleIdle(Run(s, events[..i]), events[i]);
      }
      BrokenOnlyByStaleIdle(s, rest);
      RunSound(s, rest);
      QuietUnlessStaleIdle(Run(s, rest), events[n]);
    }
  }

  lemma ClosedBreaksNothing(s: Stream)
    ensures Closed(s).broken == s.broken
  {
  }

  lemma AcknowledgeBreaksNothing(s: Stream, r: Request, action: Action)
    ensures Acknowledge(s, r, action).broken == s.broken
  {
    hide Classified, Closed;
    ClosedBreaksNothing(s);
    if Covered(s, r.ack).Some? { ClosedBreaksNothing(Dropped(s, Covered(s, r.ack).value)); }
  }

  lemma ReceiveBreaksNothing(s: Stream, r: Request)
    ensures Receive(s, r).broken == s.broken
  {
    hide Classified, Acknowledge;
    AcknowledgeBreaksNothing(Release(s, Classified(r)), r, Classified(r));
  }

  lemma StepBreaks(s: Stream, e: Event)
    requires Sound(s)
    ensures Step(s, e).broken <==> s.broken || (e.Inactivity? && !Quiet(s))
  {
    hide Receive, Delivery;
    if e.Arrive? { ReceiveBreaksNothing(s, e.r); }
  }

  /** What ends the danger after a stale idle: the waiting request is answered or goes away. */
  predicate Relieves(s: Stream, e: Event) {
    && s.open && s.parked.Some?
    && match e
       case Arrive(r) =>
         Classified(r) != Senseless && !r.preflight && !(Classified(r) == Post && Covered(s, r.ack).Some?)
       case Push(m) => |s.queue| >= s.capacity
       case Idle => s.sendLater && s.queue != []
       case RequestTimeout => s.requestTimer
       case Inactivity => false
       case Abort => true
       case Disconnect => true
  }

  lemma LoudUnlessRelieved(s: Stream, e: Event)
    requires Sound(s) && !s.broken && !Quiet(s) && !e.Inactivity?
    ensures Quiet(Step(s, e)) <==> Relieves(s, e)
  {
    hide Classified, Delivery;
  }

  /** Event `i` is a stale idle, and nothing before event `j` ends the danger. */
  ghost predicate Lingers(s: Stream, events: seq<Event>, i: nat, j: nat)
    requires i < j <= |events|
  {
    && StaleIdle(Run(s, events[..i]), events[i])
    && forall k :: i < k < j ==> !Relieves(Run(s, events[..k]), events[k])
  }

  lemma LingersInPrefix(s: Stream, events: seq<Event>, n: nat, i: nat, j: nat)
    requires i < j <= n <= |events|
    ensures Lingers(s, events[..n], i, j) <==> Lingers(s, events, i, j)
  {
    hide Run, StaleIdle, Relieves;
    assert forall k :: 0 <= k <= n ==> events[..n][..k] == events[..k];
  }

  lemma LingersOneMore(s: Stream, events: seq<Event>, n: nat, i: nat)
    requires i <= n < |events|
    ensures i < n ==>
      (Lingers(s, events, i, n + 1) <==> Lingers(s, events, i, n) && !Relieves(Run(s, events[..n]), events[n]))
    ensures i == n ==> (Lingers(s, events, i, n + 1) <==> StaleIdle(Run(s, events[..n]), events[n]))
  {
    hide Run, StaleIdle, Relieves;
  }

  lemma StaleIdleIsQuiet(s: Stream, e: Event)
    requires StaleIdle(s, e)
    ensures !Relieves(s, e) && !e.Inactivity?
  {
  }

  /** As long as nothing broke, the timer runs on a waiting request exactly if a stale idle
      lingers. */
  lemma {:induction false} LoudExactly(s: Stream, events: seq<Event>)
    requires Sound(s) && Quiet(s) && !Run(s, events).broken
    ensures !Quiet(Run(s, events)) <==> exists i :: 0 <= i < |events| && Lingers(s, events, i, |events|)
  {
    hide Step, Quiet, Sound, StaleIdle, Relieves, Lingers;
    if events != [] {
      var n := |events| - 1;
      var rest, e := events[..n], events[n];
      var t := Run(s, rest);
      RunSound(s, rest);
      StepBreaks(t, e);
      LoudExactly(s, rest);
      if StaleIdle(t, e) { StaleIdleIsQuiet(t, e); }
      if Quiet(t) { QuietUnlessStaleIdle(t, e); } else { LoudUnlessRelieved(t, e); }
      forall i | 0 <= i < n
        ensures Lingers(s, events, i, |events|) <==> Lingers(s, rest, i, |rest|) && !Relieves(t, e)
      {
        LingersOneMore(s, events, n, i);
        LingersInPrefix(s, events, n, i, n);
      }
      LingersOneMore(s, events, n, n);
      assert Lingers(s, events, n, |events|) <==> StaleIdle(t, e);
    }
  }

  /** The assertion fails in exactly the runs in which, after a stale idle, the inactivity timer
      fires before the waiting request is answered or goes away. */
  lemma {:induction false} BrokenExactly(s: Stream, events: seq<Event>)
    requires Sound(s) && Quiet(s) && !s.broken
    ensures Run(s, events).broken <==>
      exists i, j :: 0 <= i < j < |events| && Lingers(s, events, i, j) && events[j].Inactivity?
  {
    hide Step, Quiet, Sound, Lingers;
    if events != [] {
      var n := |events| - 1;
      var rest, e := events[..n], events[n];
      BrokenExactly(s, rest);
      RunSound(s, rest);
      StepBreaks(Run(s, rest), e);
      if !Run(s, rest).broken { LoudExactly(s, rest); }
      forall i, j | 0 <= i < j <= n ensures Lingers(s, rest, i, j) <==> Lingers(s, events, i, j) {
        LingersInPrefix(s, events, n, i, j);
      }
    }
  }

  lemma RunNone(s: Stream, events: seq<Event>)
    ensures Run(s, events[..0]) == s
  {
  }

  lemma RunStep(s: Stream, events: seq<Event>, i: nat)
    requires i < |events|
    ensures Run(s, events[..i + 1]) == Step(Run(s, events[..i]), events[i])
    ensures events[..|events|] == events
  {
    assert events[..i + 1][..i] == events[..i];
  }

  lemma PostEmptiesQueue(s: Stream, r: Request)
    requires s.open && !s.broken && |s.queue| == 1 && r.ack == s.first >= 1
    requires Classified(r) == Post && r.inFormat == Single && !r.preflight
    ensures var t := Step(s, Arrive(r));
      t.open && !t.broken && t.queue == [] && t.parked == s.parked && t.sendLater == s.sendLater
  {
  }

  lemma GetWaits(m: Msg, r: Request)
    requires Classified(r) == Get && !r.preflight && r.ack == 0
    ensures var t := Step(Step(Start(1), Push(m)), Arrive(r));
      t.open && !t.broken && t.queue == [m] && t.parked == Some(r.id) && t.sendLater && t.first == 1
  {
    hide Classified;
  }

  lemma StaleIdleThenInactivity(s: Stream)
    requires s.open && !s.broken && StaleIdle(s, Idle)
    ensures Step(Step(s, Idle), Inactivity).broken
  {
  }

  /** ... and it does fail otherwise: a waiting request, an acknowledgement of the whole queue
      by another request, the idle watcher and the inactivity timer, in this order. */
  lemma StaleIdleBreaks(m: Msg, body: Msg)
    requires body != []
    ensures var get := Request(0, false, 0, [], Single, Single, -1, false);
      var post := Request(1, false, 1, body, Single, Single, 0, false);
      Run(Start(1), [Push(m), Arrive(get), Arrive(post), Idle, Inactivity]).broken
  {
    hide Step;
    var get := Request(0, false, 0, [], Single, Single, -1, false);
    var post := Request(1, false, 1, body, Single, Single, 0, false);
    var s, events := Start(1), [Push(m), Arrive(get), Arrive(post), Idle, Inactivity];
    GetWaits(m, get);
    PostEmptiesQueue(Step(Step(s, Push(m)), Arrive(get)), post);
    StaleIdleThenInactivity(Step(Step(Step(s, Push(m)), Arrive(get)), Arrive(post)));
    RunNone(s, events);
    RunStep(s, events, 0);
    RunStep(s, events, 1);
    RunStep(s, events, 2);
    RunStep(s, events, 3);
    RunStep(s, events, 4);
  }

  // ----- batches -----

  /** Acknowledging the last index that a batch names removes exactly the batch, if and only
      if the limit did not cut the batch; otherwise messages that were never sent go too. */
  lemma BatchIndexIsExact(s: Stream)
    requires s.queue != [] && s.format == JsonList && s.first >= 1
    ensures var batch := Delivery(s);
      && batch.msgs <= s.queue
      && Covered(s, batch.lastIndex) == Some(|s.queue|)
      && (Dropped(s, Covered(s, batch.lastIndex).value).queue == s.queue[|batch.msgs|..] <==> |s.queue| <= s.limit)
  {
    var batch := Delivery(s);
    if |s.queue| <= s.limit {
      assert batch.msgs == s.queue;
    }
  }

  lemma BatchIsCut(s: Stream, first: Msg, second: Msg)
    requires s.open && !s.broken && s.parked == Some(0) && s.format == JsonList && s.limit == 1
    requires s.queue == [first, second] && s.first == 1 && s.sendLater && s.replies == []
    ensures var t := Step(s, Idle);
      && t.open && !t.broken && t.parked.None? && t.first == 1 && t.queue == [first, second]
      && t.replies == [Response(0, Batch(2, [first]))]
  {
    assert s.queue[..1] == [first];
  }

  lemma ListGetWaits(first: Msg, second: Msg, r: Request)
    requires Classified(r) == Get && !r.preflight && r.ack == 0 && r.id == 0
    requires r.outFormat == JsonList && r.limit == 1
    ensures var t := Step(Step(Step(Start(2), Push(first)), Push(second)), Arrive(r));
      && t.open && !t.broken && t.parked == Some(0) && t.format == JsonList && t.limit == 1
      && t.queue == [first, second] && t.first == 1 && t.sendLater && t.replies == []
  {
    hide Classified;
  }

  lemma AckEmptiesQueue(s: Stream, r: Request)
    requires s.open && !s.broken && s.parked.None? && |s.queue| == 2 && s.first == 1 && r.ack == 2
    requires Classified(r) == Get && !r.preflight
    ensures var t := Step(s, Arrive(r)); t.open && t.queue == [] && t.first == 3 && t.replies == s.replies
  {
    hide Classified;
  }

  /** Two accepted messages, a batch that is cut to one, and an acknowledgement of the index that
      the batch names: the second message is gone and was in no reply. */
  lemma CutBatchLoses(first: Msg, second: Msg)
    ensures var list := Request(0, false, 0, [], Single, JsonList, 1, false);
      var next := Request(1, false, 2, [], Single, JsonList, 1, false);
      var s := Run(Start(2), [Push(first), Push(second), Arrive(list), Idle, Arrive(next)]);
      s.open && s.queue == [] && s.first == 3 && s.replies == [Response(0, Batch(next.ack, [first]))]
  {
    hide Step;
    var list := Request(0, false, 0, [], Single, JsonList, 1, false);
    var next := Request(1, false, 2, [], Single, JsonList, 1, false);
    var s, events := Start(2), [Push(first), Push(second), Arrive(list), Idle, Arrive(next)];
    ListGetWaits(first, second, list);
    var waiting := Step(Step(Step(s, Push(first)), Push(second)), Arrive(list));
    BatchIsCut(waiting, first, second);
    AckEmptiesQueue(Step(waiting, Idle), next);
    RunNone(s, events);
    RunStep(s, events, 0);
    RunStep(s, events, 1);
    RunStep(s, events, 2);
    RunStep(s, events, 3);
    RunStep(s, events, 4);
  }
}
