/** The records that the gateway links together: connections, topics, the
    subscription and output nodes that sit in two lists at once, and sockets. */
module Entities {
  import opened Lists

  type Byte = b: int | 0 <= b < 0x100

  type Bytes = seq<Byte>

  datatype Payload = Connect | Disconnect | Message(body: Bytes)

  /** A queued backend message: it names its connection. */
  datatype Item = Item(conn: Connection, payload: Payload)

  /** A part of a multipart message on a socket. */
  datatype Frame = Frame(data: Bytes, more: bool)

  /** What a non-blocking send can come back with. */
  datatype Outcome = Sent | Again | Interrupted

  /** hybi_t */
  class Connection {
    var uid: Bytes
    var refcnt: int
    var cookie: Option<Bytes>
    var subscribers: seq<Subscription>  // client_list of the subscriptions
    var outputs: seq<Output>            // client_list of the outputs

    constructor ()
      ensures uid == [] && refcnt == 0 && cookie == None
      ensures subscribers == [] && outputs == []
    {
      uid, refcnt, cookie := [], 0, None;
      subscribers, outputs := [], [];
    }
  }

  /** topic_t */
  class Topic {
    const name: Bytes
    const hash: nat
    var subscribers: seq<Subscription>  // topic_list

    constructor (name: Bytes, hash: nat)
      ensures this.name == name && this.hash == hash && subscribers == []
    {
      this.name, this.hash, subscribers := name, hash, [];
    }
  }

  /** subscriber_t: a node of one topic's list and of one connection's list. */
  class Subscription {
    const topic: Topic
    const connection: Connection

    constructor (topic: Topic, connection: Connection)
      ensures this.topic == topic && this.connection == connection
    {
      this.topic, this.connection := topic, connection;
    }
  }

  /** output_t: a node of one connection's list and of one socket's list. */
  class Output {
    const connection: Connection
    const prefix: Bytes
    var socket: Socket

    constructor (connection: Connection, prefix: Bytes, socket: Socket)
      ensures this.connection == connection && this.prefix == prefix && this.socket == socket
    {
      this.connection, this.prefix, this.socket := connection, prefix, socket;
    }
  }

  /** A backend socket with its queue of unsent messages (config_zmqsocket_t), and the
      outputs that refer to it when it is a named output (config_namedoutput_t). */
  class Socket {
    const capacity: nat
    var queue: seq<Item>
    var wire: seq<Frame>         // frames handed to the socket
    var outcomes: seq<Outcome>   // what the next sends come back with; Again after that
    var outputs: seq<Output>     // output_list
    ghost var accepted: seq<Item>
    ghost var sent: seq<Item>
    ghost var messages: seq<seq<Bytes>>

    constructor (capacity: nat)
      ensures this.capacity == capacity && queue == [] && wire == [] && outputs == []
      ensures accepted == [] && sent == [] && messages == []
    {
      this.capacity := capacity;
      queue, wire, outcomes, outputs := [], [], [], [];
      accepted, sent, messages := [], [], [];
    }
  }
}
