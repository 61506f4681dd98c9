/** Named outputs (src/websocket.c): each output node sits in a list of its connection and in a
    list of its socket. The lists keep equal neighbours together, on which the single disconnect
    per socket and the sync message rest. */
module Outputs {
  import opened Lists
  import opened Runs
  import opened Entities
  import opened Multipart
  import opened OutputLinks

  class Switchboard {
    var conns: set<Connection>   // the connections of this route that a lookup by uid finds
    var sockets: set<Socket>     // the configured named outputs
    ghost var outs: set<Output>

    ghost function View(): Links
      reads this, conns`outputs, sockets`outputs, outs`socket
    {
      Links(map c | c in conns :: c.outputs, map s | s in sockets :: s.outputs, map o | o in outs :: o.socket)
    }

    ghost predicate Valid()
      reads this, conns`outputs, sockets`outputs, outs`socket
    {
      Tied(View())
    }

    lemma Shown()
      ensures View().ofConn.Keys == conns && forall c <- conns :: View().ofConn[c] == c.outputs
      ensures View().ofSock.Keys == sockets && forall s <- sockets :: View().ofSock[s] == s.outputs
      ensures View().sockOf.Keys == outs && forall o <- outs :: View().sockOf[o] == o.socket
    {
    }

    /** Which socket gets the messages with which prefix of which connection. */
    ghost function Routing(): OutputLinks.Routing
      reads this, outs`socket
    {
      set o | o in outs :: (o.connection, o.prefix, o.socket)
    }

    lemma RoutingIsRoutes()
      ensures Routing() == Routes(View().sockOf)
    {
    }

    constructor ()
      ensures Valid() && conns == {} && sockets == {} && outs == {}
    {
      conns, sockets, outs := {}, {}, {};
    }

    /** A connection starts without outputs. */
    method Open(c: Connection)
      requires Valid() && c !in conns
      modifies `conns, c`outputs
      ensures Valid() && conns == old(conns) + {c} && Routing() == old(Routing())
    {
      hide Tied;
      ghost var l := View();
      c.outputs := [];
      conns := conns + {c};
      assert View() == l.(ofConn := l.ofConn[c := []]);
      WithConn(l, c);
    }

    /** So does a named output of the configuration. */
    method Bind(s: Socket)
      requires Valid() && s !in sockets
      modifies `sockets, s`outputs
      ensures Valid() && sockets == old(sockets) + {s}
    {
      hide Tied;
      ghost var l := View();
      s.outputs := [];
      sockets := sockets + {s};
      assert View() == l.(ofSock := l.ofSock[s := []]);
      WithSocket(l, s);
    }

    lemma NodeOf(o: Output)
      requires Valid() && o in outs
      ensures o.connection in conns && o in o.connection.outputs && Distinct(o.connection.outputs)
      ensures o.socket in sockets && o in o.socket.outputs && Distinct(o.socket.outputs)
    {
      var l := View();
      assert o in l.sockOf && o.connection in l.ofConn && l.sockOf[o] in l.ofSock;
    }

    lemma ListOf(c: Connection)
      requires Valid() && c in conns
      ensures Distinct(c.outputs)
      ensures forall i :: 0 <= i < |c.outputs| ==> c.outputs[i] in outs && c.outputs[i].connection == c
      ensures forall o <- outs :: o.connection == c ==> o in c.outputs
    {
      var l := View();
      assert c in l.ofConn && l.ofConn[c] == c.outputs;
      forall i | 0 <= i < |c.outputs| ensures c.outputs[i] in outs && c.outputs[i].connection == c {
        var o := c.outputs[i];
        assert o in l.ofConn[c];
        assert o in l.sockOf && o.connection == c;
      }
      forall o <- outs | o.connection == c ensures o in c.outputs {
        assert o in l.sockOf;
      }
    }

    lemma OneRoute(o: Output)
      requires Valid() && o in outs
      ensures forall u <- outs :: u.connection == o.connection && u.prefix == o.prefix ==> u == o
      ensures Routing() == Rerouted(Routing(), o.connection, o.prefix, o.socket)
    {
      var l := View();
      forall u <- outs | u.connection == o.connection && u.prefix == o.prefix ensures u == o {
        assert u in l.sockOf && o in l.sockOf;
      }
    }

    /** Unlinks a node from both of its lists. */
    method Unlink(o: Output)
      requires Valid() && o in outs
      modifies `outs, o.connection`outputs, o.socket`outputs
      ensures Valid() && outs == old(outs) - {o}
      ensures o.connection.outputs == Without(old(o.connection.outputs), o)
      ensures Routing() == set p | p in old(Routing()) && !(p.0 == o.connection && p.1 == o.prefix)
    {
      hide *;
      Shown();
      Sane();
      ghost var l := View();
      NodeOf(o);
      RoutingIsRoutes();
      UnlinkedTied(l, o);
      UnlinkedRoutesOf(l, o);
      o.socket.outputs := Without(o.socket.outputs, o);
      o.connection.outputs := Without(o.connection.outputs, o);
      outs := outs - {o};
      Shown();
      UnlinkedIs(l, View(), o);
      Sane();
      RoutingIsRoutes();
    }

    lemma Sane()
      ensures Valid() <==> Tied(View())
    {
    }

    ghost predicate Unlisted(o: Output)
      reads this, o`socket
    {
      && o !in outs && o.connection in conns && o.socket in sockets
      && forall u <- outs :: !(u.connection == o.connection && u.prefix == o.prefix)
    }

    /** Links a node at the heads of both lists: the first of its connection for its socket. */
    method LinkFirst(o: Output)
      requires Valid() && Unlisted(o) && forall u <- o.connection.outputs :: u.socket != o.socket
      modifies `outs, o.connection`outputs, o.socket`outputs
      ensures Valid() && outs == old(outs) + {o}
      ensures Routing() == old(Routing()) + {(o.connection, o.prefix, o.socket)}
    {
      hide Valid, View, Tied, Routes, Put, Distinct;
      Shown();
      Sane();
      ghost var l := View();
      ListOf(o.connection);
      RoutingIsRoutes();
      PutAt(o.connection.outputs, -1, o);
      PutAt(o.socket.outputs, -1, o);
      o.connection.outputs := [o] + o.connection.outputs;
      o.socket.outputs := [o] + o.socket.outputs;
      outs := outs + {o};
      assert Fresh(l, o, o.socket) && Place(l, o.connection, o.socket, -1, -1);
      Shown();
      LinkedIs(l, View(), o, o.socket, -1, -1);
      LinkedTied(l, o, o.socket, -1, -1);
      LinkedRoutes(l, o, o.socket, -1, -1);
      Sane();
      RoutingIsRoutes();
    }

    /** Links a node after another one of its connection and socket, in both lists. */
    method LinkAfter(o: Output, prev: Output)
      requires Valid() && Unlisted(o)
      requires prev in outs && prev.connection == o.connection && prev.socket == o.socket
      requires prev in o.connection.outputs && prev in o.socket.outputs
      modifies `outs, o.connection`outputs, o.socket`outputs
      ensures Valid() && outs == old(outs) + {o}
      ensures Routing() == old(Routing()) + {(o.connection, o.prefix, o.socket)}
    {
      hide Valid, View, Tied, InsertAfter, Routes, Put, Distinct, IndexIn;
      Shown();
      Sane();
      ghost var l := View();
      NodeOf(prev);
      RoutingIsRoutes();
      ghost var at, beside := IndexIn(o.connection.outputs, prev), IndexIn(o.socket.outputs, prev);
      InsertAfterAt(o.connection.outputs, at, o);
      InsertAfterAt(o.socket.outputs, beside, o);
      PutAt(o.connection.outputs, at, o);
      PutAt(o.socket.outputs, beside, o);
      o.connection.outputs := InsertAfter(o.connection.outputs, prev, o);
      o.socket.outputs := InsertAfter(o.socket.outputs, prev, o);
      outs := outs + {o};
      assert Fresh(l, o, o.socket) && Place(l, o.connection, o.socket, at, beside);
      Shown();
      LinkedIs(l, View(), o, o.socket, at, beside);
      LinkedTied(l, o, o.socket, at, beside);
      LinkedRoutes(l, o, o.socket, at, beside);
      Sane();
      RoutingIsRoutes();
    }

    /** The last of the first `n` outputs of a list that are for a socket. */
    static ghost function LastOf(xs: seq<Output>, n: nat, sock: Socket): Option<Output>
      requires n <= |xs|
      reads xs`socket
    {
      if n == 0 then None
      else if xs[n - 1].socket == sock then Some(xs[n - 1])
      else LastOf(xs, n - 1, sock)
    }

    /** The output of a connection with a prefix, and the last one for a socket. */
    method Survey(c: Connection, prefix: Bytes, sock: Socket) returns (oldPrefix: Option<Output>, prev: Option<Output>)
      requires Valid() && c in conns
      ensures oldPrefix.Some? ==>
        oldPrefix.value in outs && oldPrefix.value.connection == c && oldPrefix.value.prefix == prefix
      ensures oldPrefix.None? ==> forall u <- outs :: !(u.connection == c && u.prefix == prefix)
      ensures prev.Some? ==> prev.value in outs && prev.value.connection == c && prev.value.socket == sock
      ensures prev.None? ==> forall u <- c.outputs :: u.socket != sock
      ensures prev == LastOf(c.outputs, |c.outputs|, sock)
    {
      hide Tied;
      ListOf(c);
      oldPrefix, prev := None, None;
      for i := 0 to |c.outputs|
        invariant oldPrefix.Some? ==>
          oldPrefix.value in outs && oldPrefix.value.connection == c && oldPrefix.value.prefix == prefix
        invariant oldPrefix.None? ==> forall j :: 0 <= j < i ==> c.outputs[j].prefix != prefix
        invariant prev.Some? ==> prev.value in outs && prev.value.connection == c && prev.value.socket == sock
        invariant prev.None? ==> forall j :: 0 <= j < i ==> c.outputs[j].socket != sock
        invariant prev == LastOf(c.outputs, i, sock)
      {
        var cur := c.outputs[i];
        if |cur.prefix| == |prefix| && cur.prefix == prefix { oldPrefix := Some(cur); }
        if cur.socket == sock { prev := Some(cur); }
      }
    }

    /** Takes an output out of its lists and points it at another socket. */
    method Retarget(o: Output, sock: Socket)
      requires Valid() && o in outs && o.connection in conns && sock in sockets
      modifies `outs, o`socket, o.connection`outputs, o.socket`outputs
      ensures Valid() && Unlisted(o) && outs == old(outs) - {o} && o.socket == sock
      ensures forall u <- o.connection.outputs :: u in old(o.connection.outputs) && u != o
      ensures Routing() == set p | p in old(Routing()) && !(p.0 == o.connection && p.1 == o.prefix)
    {
      hide Tied, Without;
      NodeOf(o);
      OneRoute(o);
      Unlink(o);
      o.socket := sock;
    }

    /** Routes the messages with a prefix to a socket; an old route of the prefix is replaced. */
    method AddOutput(c: Connection, prefix: Bytes, sock: Socket)
      requires Valid() && c in conns && sock in sockets
      modifies `outs, outs`socket, conns`outputs, sockets`outputs
      ensures Valid() && fresh(outs - old(outs))
      ensures Routing() == Rerouted(old(Routing()), c, prefix, sock)
    {
      hide Valid, LastOf, Without;
      var oldPrefix, prev := Survey(c, prefix, sock);
      var output;
      if oldPrefix == None {
        output := new Output(c, prefix, sock);
      } else if oldPrefix.value.socket != sock {
        output := oldPrefix.value;
        NodeOf(output);
        Retarget(output, sock);
      } else {
        OneRoute(oldPrefix.value);
        return;
      }
      if prev.Some? {
        NodeOf(prev.value);
        LinkAfter(output, prev.value);
      } else {
        LinkFirst(output);
      }
    }

    /** Removes the route of a prefix, if there is one. */
    method DelOutput(c: Connection, prefix: Bytes)
      requires Valid() && c in conns
      modifies `outs, conns`outputs, sockets`outputs
      ensures Valid() && outs <= old(outs)
      ensures Routing() == set p | p in old(Routing()) && !(p.0 == c && p.1 == prefix)
    {
      hide Tied;
      ListOf(c);
      for i := 0 to |c.outputs|
        invariant forall j :: 0 <= j < i ==> c.outputs[j].prefix != prefix
      {
        var out := c.outputs[i];
        if |out.prefix| == |prefix| && out.prefix == prefix {
          NodeOf(out);
          Unlink(out);
          return;
        }
      }
    }

    static ghost function SocketsOf(xs: seq<Output>): (ss: seq<Socket>)
      reads xs`socket
      ensures |ss| == |xs| && forall i :: 0 <= i < |xs| ==> ss[i] == xs[i].socket
    {
      if xs == [] then [] else [xs[0].socket] + SocketsOf(xs[1..])
    }

    /** The sockets that a connection's outputs name, in the order of its list. */
    ghost function Named(c: Connection): seq<Socket>
      reads c`outputs, c.outputs`socket
    {
      SocketsOf(c.outputs)
    }

    lemma NamedRuns(c: Connection)
      requires Valid() && c in conns
      ensures Contiguous(Named(c)) && forall s <- Named(c) :: s in sockets
      ensures forall s :: s in Named(c) <==> exists p <- Routing() :: p.0 == c && p.2 == s
    {
      var l := View();
      ListOf(c);
      assert c in l.ofConn && Targets(l.ofConn[c], l.sockOf) == Named(c);
      forall s ensures s in Named(c) <==> exists p <- Routing() :: p.0 == c && p.2 == s
        ensures s in Named(c) ==> s in sockets
      {
        if s in Named(c) {
          var i :| 0 <= i < |c.outputs| && c.outputs[i].socket == s;
          NodeOf(c.outputs[i]);
          assert (c, c.outputs[i].prefix, s) in Routing();
        }
        if p :| p in Routing() && p.0 == c && p.2 == s {
          var o :| o in outs && o.connection == c && o.socket == s;
          var i :| 0 <= i < |c.outputs| && c.outputs[i] == o;
          assert Named(c)[i] == s;
        }
      }
    }

    /** The loop of Stop: tells a socket at the end of its run, and unlinks every output. */
    method Unroute(c: Connection) returns (told: seq<Socket>)
      requires Valid() && c in conns
      modifies `outs, conns`outputs, sockets`outputs
      ensures Valid() && c.outputs == [] && outs <= old(outs) && told == Ends(old(Named(c)))
      ensures Routing() <= old(Routing()) && forall p <- old(Routing()) :: p.0 != c ==> p in Routing()
    {
      hide Valid, Routing, SocketsOf, Distinct, After, Without, Ends;
      ghost var all, keys, k := c.outputs, Named(c), 0;
      told := [];
      EndsOfNone(keys);
      var out := First(c.outputs);
      while out.Some?
        invariant 0 <= k <= |all| && c.outputs == all[k..] && out == First(c.outputs)
        invariant Valid() && outs <= old(outs) && told + Ends(keys[k..]) == Ends(keys)
        invariant Routing() <= old(Routing()) && forall p <- old(Routing()) :: p.0 != c ==> p in Routing()
        decreases |all| - k
      {
        ListOf(c);
        HeadGone(c.outputs);
        EndsStep(keys, k);
        assert all[k..][1..] == all[k + 1..];
        var nxt := After(c.outputs, out.value);
        if nxt.None? || nxt.value.socket != out.value.socket {
          // The last one of a run sends: once for each socket.
          told := told + [out.value.socket];
        }
        NodeOf(out.value);
        Unlink(out.value);
        k := k + 1;
        out := nxt;
      }
      assert keys[k..] == [];
      EndsOfNone(keys);
    }

    /** The part of a connection's end that concerns its outputs: every socket that some output
        names is told of the disconnect exactly once, and all its outputs go. */
    method Stop(c: Connection) returns (told: seq<Socket>)
      requires Valid() && c in conns
      modifies `outs, `conns, conns`outputs, sockets`outputs
      ensures Valid() && conns == old(conns) - {c} && c.outputs == [] && outs <= old(outs)
      ensures Distinct(told) && forall s <- told :: s in sockets
      ensures Elements(told) == NamedBy(old(Routing()), c)
      ensures Routing() == Dropped(old(Routing()), c)
    {
      hide Valid, Ends, Contiguous, SocketsOf;
      NamedRuns(c);
      EndsAreDistinct(Named(c));
      EndsAreKeys(Named(c));
      told := Unroute(c);
      Forget(c);
    }

    /** A connection without outputs goes. */
    method Forget(c: Connection)
      requires Valid() && c in conns && c.outputs == []
      modifies `conns
      ensures Valid() && conns == old(conns) - {c}
      ensures forall p <- Routing() :: p.0 != c
    {
      hide Tied, Routes;
      ListOf(c);
      ghost var l := View();
      WithoutConn(l, c);
      conns := conns - {c};
      assert View() == l.(ofConn := l.ofConn - {c});
    }

    // ----- runs -----

    /** One event; what names an unknown connection or an unknown output changes nothing. */
    method Execute(e: Change) returns (told: seq<Socket>)
      requires Valid()
      modifies `outs, `conns, `sockets, outs`socket
      modifies (conns + Opened([e]))`outputs, (sockets + Bound([e]))`outputs
      ensures Valid() && fresh(outs - old(outs))
      ensures conns <= old(conns) + Opened([e]) && sockets <= old(sockets) + Bound([e])
      ensures State() == Apply(old(State()), e)
      ensures Distinct(told) && Elements(told) == Notified(old(State()), e)
    {
      hide Valid, Tied, Routes;
      told := [];
      match e
      case Open(c) =>
        if c !in conns { Open(c); }
      case Bind(s) =>
        if s !in sockets { Bind(s); }
      case Add(c, prefix, sock) =>
        if c in conns && sock in sockets { AddOutput(c, prefix, sock); }
      case Del(c, prefix) =>
        if c in conns { DelOutput(c, prefix); }
      case End(c) =>
        if c in conns { told := Stop(c); }
    }

    ghost function State(): Board
      reads this, outs`socket
    {
      Board(conns, sockets, Routing())
    }

    /** Any sequence of events keeps the runs whole, and acts as it does on a plain table. */
    method ExecuteAll(events: seq<Change>)
      requires Valid()
      modifies `outs, `conns, `sockets, outs`socket
      modifies (conns + Opened(events))`outputs, (sockets + Bound(events))`outputs
      ensures Valid() && State() == ApplyAll(old(State()), events)
    {
      hide *;
      ghost var start := State();
      ApplyAllNone(start, events);
      for i := 0 to |events|
        invariant Valid() && State() == ApplyAll(start, events[..i])
        invariant fresh(outs - old(outs))
        invariant conns <= old(conns) + Opened(events) && sockets <= old(sockets) + Bound(events)
      {
        NewOnes(events, i);
        ApplyAllStep(start, events, i);
        var told := Execute(events[i]);
      }
      assert events[..|events|] == events;
    }

    // ----- messages -----

    /** The output whose prefix a message begins with, the first one in the connection's list. */
    method Resolve(c: Connection, data: Bytes) returns (sock: Option<Socket>)
      requires Valid() && c in conns
      ensures sock.Some? ==> exists p <- Routing() :: p.0 == c && p.2 == sock.value && Matches(data, p.1)
      ensures sock.None? ==> forall p <- Routing() :: p.0 == c ==> !Matches(data, p.1)
      ensures sock.Some? ==> exists i ::
        && 0 <= i < |c.outputs| && c.outputs[i].socket == sock.value && Matches(data, c.outputs[i].prefix)
        && forall j :: 0 <= j < i ==> !Matches(data, c.outputs[j].prefix)
    {
      hide Tied, Matches;
      ListOf(c);
      for i := 0 to |c.outputs|
        invariant forall j :: 0 <= j < i ==> !Matches(data, c.outputs[j].prefix)
      {
        var item := c.outputs[i];
        if Matches(data, item.prefix) {
          assert (c, item.prefix, item.socket) in Routing();
          return Some(item.socket);
        }
      }
      forall p <- Routing() | p.0 == c ensures !Matches(data, p.1) {
        var o :| o in outs && p == (o.connection, o.prefix, o.socket);
        assert o in c.outputs;
      }
      return None;
    }

    // ----- synchronisation -----

    /** The connections that a sync message names, in the order of the socket's list. */
    function Synced(s: Socket): seq<Connection>
      reads s`outputs
    {
      Starts(Owners(s.outputs), None)
    }

    /** A sync message names every connection with a route to the socket, and each once. */
    lemma SyncedOnce(s: Socket)
      requires Valid() && s in sockets
      ensures Distinct(Synced(s))
      ensures forall c :: c in Synced(s) <==> exists p <- Routing() :: p.0 == c && p.2 == s
    {
      var l := View();
      assert s in l.ofSock && l.ofSock[s] == s.outputs;
      StartsAreDistinct(Owners(s.outputs), None);
      StartsAreKeys(Owners(s.outputs), None);
      forall c ensures c in Synced(s) <==> exists p <- Routing() :: p.0 == c && p.2 == s {
        if c in Owners(s.outputs) {
          var i :| 0 <= i < |s.outputs| && s.outputs[i].connection == c;
          assert s.outputs[i] in l.ofSock[s];
          assert s.outputs[i] in l.sockOf && l.sockOf[s.outputs[i]] == s;
          assert (c, s.outputs[i].prefix, s) in Routing();
        }
        if p :| p in Routing() && p.0 == c && p.2 == s {
          var o :| o in outs && o.connection == c && o.socket == s;
          assert o in l.sockOf && o in l.ofSock[s];
          var i :| 0 <= i < |s.outputs| && s.outputs[i] == o;
          assert Owners(s.outputs)[i] == c;
        }
      }
    }

    /** The sync timer. Every part is sent when the next one is known, so that only the last
        one goes without the "more" flag; sending a part leaves the message empty. */
    method SendSync(s: Socket, instance: Bytes, ready: bool)
      modifies s`wire, s`messages
      ensures s.outputs == [] || !ready ==> s.wire == old(s.wire) && s.messages == old(s.messages)
      ensures s.outputs != [] && ready ==>
        && s.wire == old(s.wire) + Framed([instance, SYNC] + Pairs(Synced(s)))
        && s.messages == old(s.messages) + [[instance, SYNC] + Pairs(Synced(s))]
    {
      hide Leading, Framed, Starts, Pairs;
      if First(s.outputs).None? { return; }
      if !ready { return; }
      s.wire := s.wire + [Frame(instance, true)];
      var msg := SYNC;
      var prev := None;
      ghost var keys, parts := Owners(s.outputs), [instance, SYNC];
      ghost var whole := parts + Pairs(Starts(keys, None));
      StartsOfNone(keys, None);
      LeadingOne(parts);
      for i := 0 to |s.outputs|
        invariant |parts| > 1 && msg == parts[|parts| - 1]
        invariant s.wire == old(s.wire) + Leading(parts[..|parts| - 1])
        invariant parts + Pairs(Starts(keys[i..], prev)) == whole && s.messages == old(s.messages)
      {
        var item := s.outputs[i];
        StartsStep(keys, i, prev);
        if prev == Some(item.connection) { continue; }
        prev := Some(item.connection);
        s.wire := s.wire + [Frame(msg, true)];
        msg := item.connection.uid;
        s.wire := s.wire + [Frame(msg, true)];
        msg := [];
        if item.connection.cookie.Some? {
          msg := item.connection.cookie.value;
        }
        PairsStep(item.connection, Starts(keys[i + 1..], prev));
        LeadingStep(parts, item.connection.uid, msg);
        parts := parts + [item.connection.uid, msg];
      }
      s.wire := s.wire + [Frame(msg, false)];
      StartsOfNone(keys, prev);
      PairsNone();
      FramedIs(parts);
      assert parts == whole;
      s.messages := s.messages + [parts];
    }
  }

  // ----- prefixes -----

  /** The comparison of the first `n` bytes as of strings, which ends at a NUL byte. */
  predicate SameText(a: Bytes, b: Bytes, n: nat)
    requires n <= |a| && n <= |b|
  {
    n == 0 || (a[0] == b[0] && (a[0] == 0 || SameText(a[1..], b[1..], n - 1)))
  }

  predicate Matches(data: Bytes, prefix: Bytes) {
    |prefix| <= |data| && SameText(data, prefix, |prefix|)
  }

  /** A prefix up to its first NUL byte, and that byte. */
  function Effective(prefix: Bytes): (e: Bytes)
    ensures e <= prefix && (0 !in prefix ==> e == prefix)
  {
    if prefix == [] then [] else if prefix[0] == 0 then [0] else [prefix[0]] + Effective(prefix[1..])
  }

  /** A message matches a prefix without NUL bytes if and only if it begins with it; of another
      one only the part up to the first NUL byte has to agree. */
  lemma {:induction false} MatchesExactly(data: Bytes, prefix: Bytes)
    ensures Matches(data, prefix) <==> |prefix| <= |data| && Effective(prefix) <= data
  {
    if prefix != [] && |prefix| <= |data| && data[0] == prefix[0] && data[0] != 0 {
      MatchesExactly(data[1..], prefix[1..]);
      assert Effective(prefix) <= data <==> Effective(prefix[1..]) <= data[1..];
    }
  }

  /** One uid and one cookie, empty when there is none, for each connection. */
  function Pairs(cs: seq<Connection>): seq<Bytes>
    reads cs`uid, cs`cookie
  {
    if cs == [] then []
    else [cs[0].uid, if cs[0].cookie.Some? then cs[0].cookie.value else []] + Pairs(cs[1..])
  }

  lemma PairsNone()
    ensures Pairs([]) == []
  {
  }

  /** Every connection has two parts: its uid, and its cookie or nothing. */
  lemma {:induction false} PairsAt(cs: seq<Connection>, i: nat)
    requires i < |cs|
    ensures |Pairs(cs)| == 2 * |cs| && Pairs(cs)[2 * i] == cs[i].uid
    ensures Pairs(cs)[2 * i + 1] == if cs[i].cookie.Some? then cs[i].cookie.value else []
  {
    if |cs| > 1 {
      PairsAt(cs[1..], if i > 0 then i - 1 else 0);
    } else {
      PairsNone();
    }
  }

  lemma PairsStep(c: Connection, rest: seq<Connection>)
    ensures Pairs([c] + rest) == [c.uid, if c.cookie.Some? then c.cookie.value else []] + Pairs(rest)
  {
  }

  /** The sockets that the outputs of a connection name. */
  ghost function NamedBy(r: Routing, c: Connection): set<Socket> {
    set p | p in r && p.0 == c :: p.2
  }

  /** The table without the outputs of a connection. */
  ghost function Dropped(r: Routing, c: Connection): Routing {
    set p | p in r && p.0 != c
  }

  ghost function Rerouted(r: Routing, c: Connection, prefix: Bytes, sock: Socket): Routing {
    (set p | p in r && !(p.0 == c && p.1 == prefix)) + {(c, prefix, sock)}
  }

  datatype Change =
    | Open(conn: Connection)
    | Bind(sock: Socket)
    | Add(conn: Connection, prefix: Bytes, sock: Socket)
    | Del(conn: Connection, prefix: Bytes)
    | End(conn: Connection)

  ghost function Opened(events: seq<Change>): set<Connection> {
    set e | e in events && e.Open? :: e.conn
  }

  ghost function Bound(events: seq<Change>): set<Socket> {
    set e | e in events && e.Bind? :: e.sock
  }

  lemma NewOnes(events: seq<Change>, i: nat)
    requires i < |events|
    ensures Opened([events[i]]) <= Opened(events) && Bound([events[i]]) <= Bound(events)
  {
    assert events[i] in events;
  }

  datatype Board = Board(conns: set<Connection>, sockets: set<Socket>, routing: Routing)

  /** The sockets that are told of a disconnect. */
  ghost function Notified(b: Board, e: Change): set<Socket> {
    if e.End? && e.conn in b.conns then NamedBy(b.routing, e.conn) else {}
  }

  ghost function Apply(b: Board, e: Change): Board {
    match e
    case Open(c) => b.(conns := b.conns + {c})
    case Bind(s) => b.(sockets := b.sockets + {s})
    case Add(c, prefix, s) =>
      if c in b.conns && s in b.sockets then b.(routing := Rerouted(b.routing, c, prefix, s)) else b
    case Del(c, prefix) =>
      if c in b.conns then b.(routing := set p | p in b.routing && !(p.0 == c && p.1 == prefix)) else b
    case End(c) =>
      if c in b.conns then b.(conns := b.conns - {c}, routing := Dropped(b.routing, c)) else b
  }

  ghost function ApplyAll(b: Board, events: seq<Change>): Board {
    if events == [] then b else Apply(ApplyAll(b, events[..|events| - 1]), events[|events| - 1])
  }

  lemma ApplyAllNone(b: Board, events: seq<Change>)
    ensures ApplyAll(b, events[..0]) == b
  {
  }

  lemma ApplyAllStep(b: Board, events: seq<Change>, i: nat)
    requires i < |events|
    ensures ApplyAll(b, events[..i + 1]) == Apply(ApplyAll(b, events[..i]), events[i])
  {
    assert events[..i + 1][..i] == events[..i];
  }

  /** The table gives every prefix of a connection at most one socket, in every run from an empty
      board. */
  lemma {:induction false} OneSocketPerPrefix(events: seq<Change>)
    ensures var b := ApplyAll(Board({}, {}, {}), events);
      && (forall p <- b.routing, q <- b.routing :: p.0 == q.0 && p.1 == q.1 ==> p == q)
      && (forall p <- b.routing :: p.0 in b.conns && p.2 in b.sockets)
  {
    if events != [] {
      OneSocketPerPrefix(events[..|events| - 1]);
    }
  }

  /** An event is about a prefix of a connection: it routes the prefix anew, deletes it, or ends
      the connection. */
  ghost predicate Touches(b: Board, e: Change, c: Connection, prefix: Bytes) {
    && c in b.conns
    && ((e.Add? && e.conn == c && e.prefix == prefix && e.sock in b.sockets) || e == Del(c, prefix) || e == End(c))
  }

  ghost predicate Sets(b: Board, e: Change, c: Connection, prefix: Bytes, s: Socket) {
    e == Add(c, prefix, s) && c in b.conns && s in b.sockets
  }

  lemma RouteStep(b: Board, e: Change, c: Connection, prefix: Bytes, s: Socket)
    requires forall p <- b.routing :: p.0 in b.conns
    ensures forall p <- Apply(b, e).routing :: p.0 in Apply(b, e).conns
    ensures (c, prefix, s) in Apply(b, e).routing <==>
      Sets(b, e, c, prefix, s) || ((c, prefix, s) in b.routing && !Touches(b, e, c, prefix))
  {
  }

  /** The event at `i` routes the prefix to the socket, and no event after it touches the prefix. */
  ghost predicate SetLast(events: seq<Change>, c: Connection, prefix: Bytes, s: Socket, i: nat)
    requires i < |events|
  {
    && Sets(ApplyAll(Board({}, {}, {}), events[..i]), events[i], c, prefix, s)
    && forall k :: i < k < |events| ==> !Touches(ApplyAll(Board({}, {}, {}), events[..k]), events[k], c, prefix)
  }

  lemma SetLastOneMore(events: seq<Change>, c: Connection, prefix: Bytes, s: Socket, m: nat, i: nat)
    requires i <= m && |events| == m + 1
    ensures i < m ==>
      (SetLast(events, c, prefix, s, i) <==>
         SetLast(events[..m], c, prefix, s, i)
         && !Touches(ApplyAll(Board({}, {}, {}), events[..m]), events[m], c, prefix))
    ensures i == m ==>
      (SetLast(events, c, prefix, s, i) <==> Sets(ApplyAll(Board({}, {}, {}), events[..m]), events[m], c, prefix, s))
  {
    hide ApplyAll, Sets, Touches;
    assert forall k :: 0 <= k <= m ==> events[..m][..k] == events[..k];
  }

  /** In every run from an empty board, a prefix of a connection is routed to a socket if and only
      if the last event that touched the prefix routed it there. */
  lemma {:induction false} RoutedExactly(events: seq<Change>, c: Connection, prefix: Bytes, s: Socket)
    ensures (c, prefix, s) in ApplyAll(Board({}, {}, {}), events).routing <==>
      exists i :: 0 <= i < |events| && SetLast(events, c, prefix, s, i)
  {
    hide Apply, Sets, Touches, SetLast;
    if events != [] {
      var m := |events| - 1;
      var b := ApplyAll(Board({}, {}, {}), events[..m]);
      RoutedExactly(events[..m], c, prefix, s);
      OneSocketPerPrefix(events[..m]);
      RouteStep(b, events[m], c, prefix, s);
      forall i | 0 <= i < m
        ensures SetLast(events, c, prefix, s, i) <==>
          SetLast(events[..m], c, prefix, s, i) && !Touches(b, events[m], c, prefix)
      {
        SetLastOneMore(events, c, prefix, s, m, i);
      }
      SetLastOneMore(events, c, prefix, s, m, m);
      assert SetLast(events, c, prefix, s, m) <==> Sets(b, events[m], c, prefix, s);
    }
  }
}
