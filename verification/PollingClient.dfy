/** The browser half of the long-polling stream (HTTPPolling of examples/ws.js). The index of the
    last message is 0 where the script has the empty string; indexes start at 1. */
module PollingClient {
  import opened CometStream

  datatype Client = Client(
    last: nat,
    nrequests: int,
    closed: bool,
    pending: set<nat>,      // requests without a response
    sent: seq<Request>,     // every request, numbered by its position
    delivered: seq<Msg>,    // what onmessage was given
    confused: bool)         // a reply made the script throw

  function Ask(c: Client, data: Msg): Client {
    var id := |c.sent|;
    c.(sent := c.sent + [Request(id, false, c.last, data, Single, Single, -1, false)],
       pending := c.pending + {id},
       nrequests := c.nrequests + 1)
  }

  function AskIfIdle(c: Client): Client {
    if c.nrequests == 0 then Ask(c, []) else c
  }

  /** A request acknowledges the last message, carries the page's own one, and may wait for an answer
      with a single message. */
  lemma AskSends(c: Client, data: Msg)
    ensures var d := Ask(c, data);
      && d.sent == c.sent + [Request(|c.sent|, false, c.last, data, Single, Single, -1, false)]
      && d.pending == c.pending + {|c.sent|} && d.nrequests == c.nrequests + 1
      && d.delivered == c.delivered && d.last == c.last && d.closed == c.closed
  {
  }

  /** A response ends its request; only the first response to a request is seen. */
  function Hear(c: Client, r: Response): Client {
    if r.id !in c.pending then c
    else
      var d := c.(pending := c.pending - {r.id}, nrequests := c.nrequests - 1);
      match r.reply
      case Failed => d.(closed := true)
      case Empty => AskIfIdle(d)
      case Closing => AskIfIdle(d)
      case One(index, msg) =>
        if d.last != index then
          var e := AskIfIdle(d.(last := index));
          e.(delivered := e.delivered + [msg])
        else AskIfIdle(d)
      case Batch(_, _) => d.(confused := true)
      case Preflight => d.(confused := true)
  }

  /** A request that fails without a response. */
  function Lose(c: Client, id: nat): Client {
    if id in c.pending then c.(pending := c.pending - {id}, nrequests := c.nrequests - 1, closed := true) else c
  }

  /** The client right after its CONNECT was answered. */
  function Connected(): Client {
    Ask(Client(0, 0, false, {}, [], [], false), [])
  }

  class HTTPPolling {
    var lastMessage: nat
    var nrequests: int
    var closed: bool
    var pending: set<nat>
    var sent: seq<Request>
    var delivered: seq<Msg>
    var confused: bool

    ghost function State(): Client
      reads this
    {
      Client(lastMessage, nrequests, closed, pending, sent, delivered, confused)
    }

    /** The constructor and the handler of the CONNECT response. */
    constructor ()
      ensures State() == Connected()
    {
      nrequests := 1;
      closed, pending, sent, delivered, confused := false, {}, [], [], false;
      lastMessage := 0;
      new;
      nrequests := nrequests - 1;
      RequestNext([]);
    }

    method RequestNext(data: Msg)
      modifies this
      ensures State() == Ask(old(State()), data)
    {
      pending := pending + {|sent|};
      sent := sent + [Request(|sent|, false, lastMessage, data, Single, Single, -1, false)];
      nrequests := nrequests + 1;
    }

    method OnMessage(data: Msg)
      modifies `delivered
      ensures delivered == old(delivered) + [data]
    {
      delivered := delivered + [data];
    }

    method MessageReq(r: Response)
      requires r.id in pending
      modifies this
      ensures State() == Hear(old(State()), r)
    {
      pending := pending - {r.id};
      nrequests := nrequests - 1;
      match r.reply
      case Failed =>
        closed := true;
      case Empty =>
        if nrequests == 0 { RequestNext([]); }
      case Closing =>
        if nrequests == 0 { RequestNext([]); }
      case One(id, data) =>
        if lastMessage != id {
          lastMessage := id;
          if nrequests == 0 { RequestNext([]); }
          OnMessage(data);
        } else {
          if nrequests == 0 { RequestNext([]); }
        }
      case Batch(_, _) =>
        confused := true;
      case Preflight =>
        confused := true;
    }
  }
}
