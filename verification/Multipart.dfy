/** Multipart messages as frames on a socket: every frame but the last has its "more" flag set. */
module Multipart {
  import opened Lists
  import opened Entities

  function Leading(parts: seq<Bytes>): seq<Frame> {
    seq(|parts|, i requires 0 <= i < |parts| => Frame(parts[i], true))
  }

  /** The frames of one message. */
  function Framed(parts: seq<Bytes>): (frames: seq<Frame>)
    requires parts != []
    ensures |frames| == |parts|
  {
    Leading(parts[..|parts| - 1]) + [Frame(parts[|parts| - 1], false)]
  }

  lemma LeadingStep(parts: seq<Bytes>, a: Bytes, b: Bytes)
    requires parts != []
    ensures var longer := parts + [a, b];
      Leading(longer[..|longer| - 1]) ==
        Leading(parts[..|parts| - 1]) + [Frame(parts[|parts| - 1], true), Frame(a, true)]
  {
  }

  lemma LeadingOne(parts: seq<Bytes>)
    requires |parts| == 2
    ensures Leading(parts[..1]) == [Frame(parts[0], true)]
  {
  }

  lemma FramedIs(parts: seq<Bytes>)
    requires parts != []
    ensures Framed(parts) == Leading(parts[..|parts| - 1]) + [Frame(parts[|parts| - 1], false)]
  {
  }

  ghost predicate Nonempty(messages: seq<seq<Bytes>>) {
    forall i :: 0 <= i < |messages| ==> messages[i] != []
  }

  /** The frames of a sequence of messages. */
  ghost function Wire(messages: seq<seq<Bytes>>): seq<Frame>
    requires Nonempty(messages)
  {
    if messages == [] then []
    else Wire(messages[..|messages| - 1]) + Framed(messages[|messages| - 1])
  }

  /** How a receiver puts frames together again; a message without its last frame is left out. */
  function Assembled(frames: seq<Frame>, parts: seq<Bytes>): seq<seq<Bytes>> {
    if frames == [] then []
    else if frames[0].more then Assembled(frames[1..], parts + [frames[0].data])
    else [parts + [frames[0].data]] + Assembled(frames[1..], [])
  }

  lemma {:induction false} AssembledMessage(parts: seq<Bytes>, before: seq<Bytes>, rest: seq<Frame>)
    requires parts != []
    ensures Assembled(Framed(parts) + rest, before) == [before + parts] + Assembled(rest, [])
    decreases |parts|
  {
    var frames := Framed(parts) + rest;
    if |parts| == 1 {
      assert frames == [Frame(parts[0], false)] + rest && parts == [parts[0]];
    } else {
      assert frames[1..] == Framed(parts[1..]) + rest;
      AssembledMessage(parts[1..], before + [parts[0]], rest);
      assert before + [parts[0]] + parts[1..] == before + parts;
    }
  }

  lemma {:induction false} AssembledWire(messages: seq<seq<Bytes>>, rest: seq<Frame>)
    requires Nonempty(messages)
    ensures Assembled(Wire(messages) + rest, []) == messages + Assembled(rest, [])
    decreases |messages|
  {
    if messages == [] {
      assert Wire(messages) + rest == rest;
    } else {
      var n := |messages| - 1;
      AssembledWire(messages[..n], Framed(messages[n]) + rest);
      AssembledMessage(messages[n], [], rest);
      assert Wire(messages) + rest == Wire(messages[..n]) + (Framed(messages[n]) + rest);
      assert [] + messages[n] == messages[n] && messages == messages[..n] + [messages[n]];
    }
  }

  /** What goes over a socket is read back as the messages that were sent. */
  lemma WireIsReadBack(messages: seq<seq<Bytes>>)
    requires Nonempty(messages)
    ensures Assembled(Wire(messages), []) == messages
  {
    AssembledWire(messages, []);
    assert Wire(messages) + [] == Wire(messages);
  }

  // ----- messages to the backend -----

  const CONNECT: Bytes := [0x63, 0x6f, 0x6e, 0x6e, 0x65, 0x63, 0x74]
  const DISCONNECT: Bytes := [0x64, 0x69, 0x73, 0x63, 0x6f, 0x6e, 0x6e, 0x65, 0x63, 0x74]
  const MESSAGE: Bytes := [0x6d, 0x65, 0x73, 0x73, 0x61, 0x67, 0x65]
  const MSGFROM: Bytes := [0x6d, 0x73, 0x67, 0x66, 0x72, 0x6f, 0x6d]

  /** What a backend makes of the parts of a message; a cookie may follow any kind of message. */
  function Understood(parts: seq<Bytes>): Option<(Bytes, Payload)> {
    if |parts| < 2 then None
    else if parts[1] == CONNECT then Some((parts[0], Payload.Connect))
    else if parts[1] == DISCONNECT then Some((parts[0], Payload.Disconnect))
    else if parts[1] == MESSAGE && |parts| == 3 then Some((parts[0], Message(parts[2])))
    else if parts[1] == MSGFROM && |parts| == 4 then Some((parts[0], Message(parts[3])))
    else None
  }

  /** The parts of a message of a connection: its cookie, once it has one, goes with everything. */
  function Parts(uid: Bytes, payload: Payload, cookie: Option<Bytes>): seq<Bytes> {
    [uid]
    + [match payload
       case Connect => CONNECT
       case Disconnect => DISCONNECT
       case Message(_) => if cookie.Some? then MSGFROM else MESSAGE]
    + (if cookie.Some? then [cookie.value] else [])
    + (if payload.Message? then [payload.body] else [])
  }

  /** The cookie that a message about a connection carries: it stands behind the kind. */
  function CookieIn(parts: seq<Bytes>): Option<Bytes> {
    if |parts| < 3 || parts[1] == MESSAGE then None else Some(parts[2])
  }

  lemma CookieIsCarried(uid: Bytes, payload: Payload, cookie: Option<Bytes>)
    ensures CookieIn(Parts(uid, payload, cookie)) == cookie
  {
    KindsDiffer();
  }

  lemma KindsDiffer()
    ensures MSGFROM != MESSAGE && CONNECT != MESSAGE && DISCONNECT != MESSAGE
  {
    assert MSGFROM[1] != MESSAGE[1] && CONNECT[0] != MESSAGE[0] && |DISCONNECT| != |MESSAGE|;
  }

  /** The frames of a message about a connection. */
  lemma FramedParts(uid: Bytes, payload: Payload, cookie: Option<Bytes>)
    ensures Parts(uid, payload, cookie) != []
    ensures var isMsg := payload.Message?;
      var kind := if payload.Connect? then CONNECT else if payload.Disconnect? then DISCONNECT
                  else if cookie.Some? then MSGFROM else MESSAGE;
      Framed(Parts(uid, payload, cookie)) ==
        [Frame(uid, true)] + [Frame(kind, isMsg || cookie.Some?)]
        + (if cookie.Some? then [Frame(cookie.value, isMsg)] else [])
        + (if isMsg then [Frame(payload.body, false)] else [])
  {
    hide CONNECT, DISCONNECT, MESSAGE, MSGFROM;
  }

  lemma PartsAreUnderstood(uid: Bytes, payload: Payload, cookie: Option<Bytes>)
    ensures Parts(uid, payload, cookie) != []
    ensures Understood(Parts(uid, payload, cookie)) == Some((uid, payload))
  {
    assert CONNECT[0] != DISCONNECT[0] && |MESSAGE| == |CONNECT|;
    assert MESSAGE[0] != CONNECT[0] && MSGFROM[1] != MESSAGE[1];
    assert |DISCONNECT| != |CONNECT| && |DISCONNECT| != |MESSAGE| && |MSGFROM| == |MESSAGE| && MSGFROM[0] != CONNECT[0];
  }

  const SYNC: Bytes := [0x73, 0x79, 0x6e, 0x63]

  /** A sync message is about no connection in particular. */
  lemma SyncSaysNothing(parts: seq<Bytes>)
    requires |parts| >= 2 && parts[1] == SYNC
    ensures Understood(parts) == None
  {
    assert |SYNC| != |CONNECT| && |SYNC| != |DISCONNECT| && |SYNC| != |MESSAGE| && |SYNC| != |MSGFROM|;
  }

  /** What a backend makes of a sequence of messages; it leaves out what it does not understand. */
  function Heard(messages: seq<seq<Bytes>>): seq<(Bytes, Payload)> {
    if messages == [] then []
    else
      var n := |messages| - 1;
      Heard(messages[..n]) + match Understood(messages[n]) { case None => [] case Some(h) => [h] }
  }

  lemma HeardStep(messages: seq<seq<Bytes>>, parts: seq<Bytes>)
    ensures Heard(messages + [parts]) ==
      Heard(messages) + match Understood(parts) { case None => [] case Some(h) => [h] }
  {
    assert (messages + [parts])[..|messages|] == messages;
  }

  lemma WireStep(messages: seq<seq<Bytes>>, parts: seq<Bytes>)
    requires Nonempty(messages) && parts != []
    ensures Nonempty(messages + [parts]) && Wire(messages + [parts]) == Wire(messages) + Framed(parts)
  {
    assert (messages + [parts])[..|messages|] == messages;
  }

  /** The parts of every kind of message, in letters. */
  lemma PartsPlainly(uid: Bytes, body: Bytes, cookie: Bytes)
    ensures Parts(uid, Connect, None) == [uid, [0x63, 0x6f, 0x6e, 0x6e, 0x65, 0x63, 0x74]]
    ensures Parts(uid, Disconnect, None) ==
      [uid, [0x64, 0x69, 0x73, 0x63, 0x6f, 0x6e, 0x6e, 0x65, 0x63, 0x74]]
    ensures Parts(uid, Message(body), None) == [uid, [0x6d, 0x65, 0x73, 0x73, 0x61, 0x67, 0x65], body]
    ensures Parts(uid, Connect, Some(cookie)) == [uid, [0x63, 0x6f, 0x6e, 0x6e, 0x65, 0x63, 0x74], cookie]
    ensures Parts(uid, Disconnect, Some(cookie)) ==
      [uid, [0x64, 0x69, 0x73, 0x63, 0x6f, 0x6e, 0x6e, 0x65, 0x63, 0x74], cookie]
    ensures Parts(uid, Message(body), Some(cookie)) ==
      [uid, [0x6d, 0x73, 0x67, 0x66, 0x72, 0x6f, 0x6d], cookie, body]
  {
  }
}
