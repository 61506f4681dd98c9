/** One long-polling connection as the server keeps it (comet_t of src/polling.c): each callback
    updates the fields in place and acts on them as the stream machine does on its state. */
module Comet {
  import opened Lists
  import opened CometStream

  class Connection {
    const capacity: nat
    var open: bool
    var curRequest: Option<nat>
    var timeoutActive: bool    // timer of the current request
    var curFormat: Format
    var curLimit: nat
    var firstIndex: nat
    var queue: seq<Msg>
    var sendLaterActive: bool
    var inactivityActive: bool
    var replies: seq<Response>
    var aborted: seq<nat>
    var forwarded: seq<Msg>
    var broken: bool

    ghost function State(): Stream
      reads this
    {
      Stream(capacity, open, curRequest, timeoutActive, curFormat, curLimit, firstIndex, queue,
             sendLaterActive, inactivityActive, replies, aborted, forwarded, broken)
    }

    constructor (capacity: nat)
      ensures State() == Start(capacity)
    {
      this.capacity := capacity;
      open, curRequest, timeoutActive, curFormat, curLimit := true, None, false, Single, 0;
      firstIndex, queue := 1, [];
      sendLaterActive, inactivityActive := false, true;
      replies, aborted, forwarded, broken := [], [], [], false;
    }

    method Reply(id: nat, reply: Reply)
      modifies `replies
      ensures replies == old(replies) + [Response(id, reply)]
    {
      replies := replies + [Response(id, reply)];
    }

    /** Answers the current request with no messages. */
    method EmptyReply()
      requires curRequest.Some?
      modifies this
      ensures State() == Answer(old(State()), Empty)
    {
      if timeoutActive { timeoutActive := false; }
      Reply(curRequest.value, Empty);
      curRequest := None;
    }

    method CloseReply()
      requires curRequest.Some?
      modifies this
      ensures State() == Answer(old(State()), Closing)
    {
      if timeoutActive { timeoutActive := false; }
      Reply(curRequest.value, Closing);
      curRequest := None;
    }

    method FreeComet()
      modifies this
      ensures State() == Stopped(old(State())).(broken := old(broken) || old(curRequest).Some?)
    {
      if curRequest.Some? { broken := true; }
      if sendLaterActive { sendLaterActive := false; }
      if inactivityActive { inactivityActive := false; }
      while queue != []
        modifies `queue
        decreases |queue|
      {
        queue := queue[1..];
      }
      open := false;
    }

    method Close()
      requires !broken
      modifies this
      ensures State() == Closed(old(State()))
    {
      if curRequest.Some? { CloseReply(); }
      FreeComet();
    }

    /** Drops the acknowledged messages from the head of the queue, one after the other. */
    method MoveQueue(ack: nat) returns (ok: bool)
      modifies this`queue, this`firstIndex
      ensures ok <==> Covered(old(State()), ack).Some?
      ensures State() == if ok then Dropped(old(State()), Covered(old(State()), ack).value) else old(State())
    {
      if ack == 0 || ack < firstIndex { return true; }
      var amount := ack - firstIndex + 1;
      if amount > |queue| { return false; }
      for i := 0 to amount
        invariant queue == old(queue)[i..] && firstIndex == old(firstIndex)
      {
        queue := queue[1..];
      }
      firstIndex := firstIndex + amount;
      return true;
    }

    /** The idle watcher: answers the current request from the queue. */
    method SendLater()
      requires sendLaterActive
      modifies this
      ensures State() == Flush(old(State()))
    {
      if curRequest.None? {
        sendLaterActive := false;
        return;
      }
      if |queue| > 0 {
        var request := curRequest.value;
        if timeoutActive { timeoutActive := false; }
        curRequest := None;
        match curFormat
        case Single =>
          Reply(request, One(firstIndex, queue[0]));
        case JsonList =>
          var num := |queue|;
          if num > curLimit { num := curLimit; }
          var pieces := [];
          for i := 0 to num
            invariant pieces == queue[..i]
          {
            pieces := pieces + [queue[i]];
          }
          Reply(request, Batch(firstIndex + |queue| - 1, pieces));
      }
      sendLaterActive := false;
      inactivityActive := true;
    }

    /** Parks a request: it is answered at the next idle moment, or else it is timed. */
    method Wait(r: Request)
      requires !timeoutActive
      modifies this
      ensures State() == Park(old(State()), r)
    {
      curRequest := Some(r.id);
      curFormat := r.outFormat;
      var limit := capacity;
      if r.limit >= 0 && r.limit < limit { limit := r.limit; }
      curLimit := limit;
      if |queue| > 0 {
        sendLaterActive := true;
      } else {
        timeoutActive := true;
      }
      inactivityActive := false;
    }

    /** Closes the connection on behalf of a request, which is told so. */
    method Refuse(r: Request)
      requires !broken && (timeoutActive ==> curRequest.Some?)
      modifies this
      ensures State() == Write(Closed(old(State())), r.id, Closing)
    {
      if curRequest.Some? { CloseReply(); }
      curRequest := Some(r.id);
      Close();
    }

    /** The second half of a request: takes the body, then parks or answers the request. */
    method Take(r: Request, action: Action)
      requires action == Classified(r) && action in {Get, Post, Bidi}
      requires action != Post ==> !timeoutActive
      modifies this
      ensures State() == Admit(old(State()), r)
    {
      hide Park;
      if action == Post || action == Bidi {
        if r.inFormat == Single {
          forwarded := forwarded + [r.body];
        } else {
          Reply(r.id, Failed);
          return;
        }
      }
      if action == Get || action == Bidi {
        Wait(r);
      } else if action == Post {
        Reply(r.id, Empty);
      }
    }

    /** The whole of a request that is not a CONNECT. */
    method Request(r: Request)
      requires !broken && (timeoutActive ==> curRequest.Some?)
      modifies this
      ensures State() == Receive(old(State()), r)
    {
      hide Admit, Closed;
      if !open {
        Reply(r.id, Failed);
        return;
      }
      var action := Action.Close;
      if !r.close {
        if |r.body| > 0 {
          action := if r.limit != 0 then Bidi else Post;
        } else if r.limit == 0 {
          Reply(r.id, Failed);
          return;
        } else {
          action := Get;
        }
      }
      if r.preflight {
        Reply(r.id, Preflight);
        return;
      }
      if action == Get || action == Bidi || action == Action.Close {
        if curRequest.Some? { EmptyReply(); }
      }
      var moved := MoveQueue(r.ack);
      if !moved || action == Action.Close {
        Refuse(r);
        return;
      }
      Take(r, action);
    }

    /** Queues a message; a full queue closes the connection instead. */
    method Send(m: Msg) returns (ok: bool)
      requires open && !broken
      modifies this
      ensures State() == Enqueue(old(State()), m)
      ensures ok <==> old(|queue|) < capacity
    {
      if |queue| >= capacity {
        Close();
        return false;
      }
      queue := queue + [m];
      if curRequest.Some? && !sendLaterActive { sendLaterActive := true; }
      return true;
    }

    method PollingTimeout()
      requires timeoutActive && curRequest.Some? && !broken
      modifies this
      ensures State() == Step(old(State()), RequestTimeout)
    {
      EmptyReply();
      inactivityActive := true;
    }

    method RequestAborted()
      requires curRequest.Some? && !broken
      modifies this
      ensures State() == Step(old(State()), Abort)
    {
      if timeoutActive { timeoutActive := false; }
      aborted := aborted + [curRequest.value];
      curRequest := None;
      inactivityActive := true;
    }

    method InactivityTimeout()
      requires inactivityActive && !broken
      modifies this
      ensures State() == Step(old(State()), Inactivity)
    {
      inactivityActive := false;
      FreeComet();
    }

    /** The event loop: a callback runs only when its timer, watcher or connection is there. */
    method Handle(e: Event)
      modifies this
      requires Sound(State())
      ensures State() == Step(old(State()), e)
    {
      hide Receive, Flush, Enqueue, Stopped, Closed, Answer;
      if broken { return; }
      match e
      case Arrive(r) => Request(r);
      case Push(m) => if open { var ok := Send(m); }
      case Idle => if sendLaterActive { SendLater(); }
      case RequestTimeout => if timeoutActive && curRequest.Some? { PollingTimeout(); }
      case Inactivity => if inactivityActive { InactivityTimeout(); }
      case Abort => if curRequest.Some? { RequestAborted(); }
      case Disconnect => if open { Close(); }
    }

    method HandleAll(events: seq<Event>)
      modifies this
      requires Sound(State())
      ensures State() == Run(old(State()), events) && Sound(State())
    {
      hide *;
      ghost var start := State();
      RunNone(start, events);
      for i := 0 to |events|
        invariant State() == Run(start, events[..i]) && Sound(State())
      {
        RunStep(start, events, i);
        StepSound(State(), events[i]);
        Handle(events[i]);
      }
      assert events[..|events|] == events;
    }
  }
}
