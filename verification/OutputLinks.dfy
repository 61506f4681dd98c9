/** Named outputs as a value: which output nodes the connections' lists and the sockets' lists
    hold, in which order, and what each relinking keeps. */
module OutputLinks {
  import opened Lists
  import opened Runs
  import opened Entities

  datatype Links = Links(
    ofConn: map<Connection, seq<Output>>,
    ofSock: map<Socket, seq<Output>>,
    sockOf: map<Output, Socket>)

  type Routing = set<(Connection, Bytes, Socket)>

  ghost function Targets(xs: seq<Output>, sockOf: map<Output, Socket>): seq<Socket>
    requires forall o <- xs :: o in sockOf
  {
    seq(|xs|, i requires 0 <= i < |xs| => sockOf[xs[i]])
  }

  function Owners(xs: seq<Output>): seq<Connection> {
    seq(|xs|, i requires 0 <= i < |xs| => xs[i].connection)
  }

  ghost predicate ConnSide(l: Links) {
    && (forall c <- l.ofConn :: Distinct(l.ofConn[c]))
    && (forall c <- l.ofConn, o <- l.ofConn[c] :: o in l.sockOf && o.connection == c)
  }

  ghost predicate SockSide(l: Links) {
    && (forall s <- l.ofSock :: Distinct(l.ofSock[s]))
    && (forall s <- l.ofSock, o <- l.ofSock[s] :: o in l.sockOf && l.sockOf[o] == s)
  }

  ghost predicate Nodes(l: Links) {
    && (forall o <- l.sockOf :: o.connection in l.ofConn && o in l.ofConn[o.connection])
    && (forall o <- l.sockOf :: l.sockOf[o] in l.ofSock && o in l.ofSock[l.sockOf[o]])
    && (forall o <- l.sockOf, o' <- l.sockOf :: o.connection == o'.connection && o.prefix == o'.prefix ==> o == o')
  }

  /** Outputs of one socket stand together in a connection's list. */
  ghost predicate SocketRuns(l: Links)
    requires ConnSide(l)
  {
    forall c <- l.ofConn :: Contiguous(Targets(l.ofConn[c], l.sockOf))
  }

  /** Outputs of one connection stand together in a socket's list. */
  ghost predicate OwnerRuns(l: Links) {
    forall s <- l.ofSock :: Contiguous(Owners(l.ofSock[s]))
  }

  ghost predicate Tied(l: Links) {
    ConnSide(l) && SockSide(l) && Nodes(l) && SocketRuns(l) && OwnerRuns(l)
  }

  ghost function Routes(sockOf: map<Output, Socket>): Routing {
    set o | o in sockOf :: (o.connection, o.prefix, sockOf[o])
  }

  // ----- unlinking -----

  ghost function Unlinked(l: Links, o: Output): Links
    requires o in l.sockOf && o.connection in l.ofConn && l.sockOf[o] in l.ofSock
  {
    Links(l.ofConn[o.connection := Without(l.ofConn[o.connection], o)],
          l.ofSock[l.sockOf[o] := Without(l.ofSock[l.sockOf[o]], o)],
          l.sockOf - {o})
  }

  lemma UnlinkedIs(l: Links, h: Links, o: Output)
    requires o in l.sockOf && o.connection in l.ofConn && l.sockOf[o] in l.ofSock
    requires h.ofConn.Keys == l.ofConn.Keys && h.ofSock.Keys == l.ofSock.Keys && h.sockOf.Keys == l.sockOf.Keys - {o}
    requires h.ofConn[o.connection] == Without(l.ofConn[o.connection], o)
    requires h.ofSock[l.sockOf[o]] == Without(l.ofSock[l.sockOf[o]], o)
    requires forall c <- l.ofConn :: c != o.connection ==> h.ofConn[c] == l.ofConn[c]
    requires forall s <- l.ofSock :: s != l.sockOf[o] ==> h.ofSock[s] == l.ofSock[s]
    requires forall u <- l.sockOf :: u != o ==> h.sockOf[u] == l.sockOf[u]
    ensures h == Unlinked(l, o)
  {
    hide Without;
    assert h.ofConn == Unlinked(l, o).ofConn;
    assert h.ofSock == Unlinked(l, o).ofSock;
    assert h.sockOf == Unlinked(l, o).sockOf;
  }

  lemma UnlinkedConnSide(l: Links, o: Output)
    requires ConnSide(l) && Nodes(l) && o in l.sockOf
    ensures ConnSide(Unlinked(l, o))
  {
    hide Without, Distinct;
    var h := Unlinked(l, o);
    assert forall c <- h.ofConn, u <- h.ofConn[c] :: u in l.ofConn[c];
  }

  lemma UnlinkedSockSide(l: Links, o: Output)
    requires SockSide(l) && Nodes(l) && o in l.sockOf
    ensures SockSide(Unlinked(l, o))
  {
    hide Without, Distinct;
    var h := Unlinked(l, o);
    assert forall s <- h.ofSock, u <- h.ofSock[s] :: u in l.ofSock[s];
  }

  lemma UnlinkedNodes(l: Links, o: Output)
    requires Nodes(l) && o in l.sockOf
    ensures Nodes(Unlinked(l, o))
  {
  }

  lemma TargetsCut(xs: seq<Output>, sockOf: map<Output, Socket>, less: map<Output, Socket>, k: nat)
    requires k < |xs| && forall o <- xs :: o in sockOf
    requires forall o <- xs[..k] + xs[k + 1..] :: o in less && less[o] == sockOf[o]
    ensures Targets(xs[..k] + xs[k + 1..], less) == Targets(xs, sockOf)[..k] + Targets(xs, sockOf)[k + 1..]
  {
  }

  lemma UnlinkedSocketRuns(l: Links, o: Output)
    requires ConnSide(l) && Nodes(l) && SocketRuns(l) && o in l.sockOf && ConnSide(Unlinked(l, o))
    ensures SocketRuns(Unlinked(l, o))
  {
    hide Without, Contiguous, Distinct;
    var h, c := Unlinked(l, o), o.connection;
    var xs := l.ofConn[c];
    var k :| 0 <= k < |xs| && xs[k] == o;
    WithoutAt(xs, k);
    CutOne(Targets(xs, l.sockOf), k);
    assert h.ofConn[c] == xs[..k] + xs[k + 1..];
    TargetsCut(xs, l.sockOf, h.sockOf, k);
    forall d <- h.ofConn | d != c ensures Contiguous(Targets(h.ofConn[d], h.sockOf)) {
      assert Targets(h.ofConn[d], h.sockOf) == Targets(l.ofConn[d], l.sockOf);
    }
  }

  lemma UnlinkedOwnerRuns(l: Links, o: Output)
    requires SockSide(l) && Nodes(l) && OwnerRuns(l) && o in l.sockOf
    ensures OwnerRuns(Unlinked(l, o))
  {
    hide Without, Contiguous, Distinct;
    var h, s := Unlinked(l, o), l.sockOf[o];
    var xs := l.ofSock[s];
    var k :| 0 <= k < |xs| && xs[k] == o;
    WithoutAt(xs, k);
    CutOne(Owners(xs), k);
    assert Owners(h.ofSock[s]) == Owners(xs)[..k] + Owners(xs)[k + 1..];
  }

  lemma UnlinkedTied(l: Links, o: Output)
    requires Tied(l) && o in l.sockOf
    ensures o.connection in l.ofConn && l.sockOf[o] in l.ofSock
    ensures Tied(Unlinked(l, o))
  {
    UnlinkedConnSide(l, o);
    UnlinkedSockSide(l, o);
    UnlinkedNodes(l, o);
    UnlinkedSocketRuns(l, o);
    UnlinkedOwnerRuns(l, o);
  }

  lemma UnlinkedRoutes(l: Links, o: Output)
    requires Nodes(l) && o in l.sockOf
    ensures Routes(Unlinked(l, o).sockOf) == set p | p in Routes(l.sockOf) && !(p.0 == o.connection && p.1 == o.prefix)
  {
    var kept := set p | p in Routes(l.sockOf) && !(p.0 == o.connection && p.1 == o.prefix);
    forall p <- kept ensures p in Routes(Unlinked(l, o).sockOf) {
      var u :| u in l.sockOf && p == (u.connection, u.prefix, l.sockOf[u]);
      assert u in Unlinked(l, o).sockOf;
    }
  }

  // ----- linking: both lists get the node at their heads, or both after one other node -----

  ghost predicate Fresh(l: Links, o: Output, s: Socket) {
    && o !in l.sockOf && o.connection in l.ofConn && s in l.ofSock
    && forall u <- l.sockOf :: !(u.connection == o.connection && u.prefix == o.prefix)
  }

  /** The place for a new node: `at` and `beside` are the positions of its predecessors. */
  ghost predicate Place(l: Links, c: Connection, s: Socket, at: int, beside: int) {
    && c in l.ofConn && s in l.ofSock
    && -1 <= at < |l.ofConn[c]| && -1 <= beside < |l.ofSock[s]|
    && (if at == -1 || beside == -1
        then at == beside == -1 && forall u <- l.ofConn[c] :: u in l.sockOf && l.sockOf[u] != s
        else l.ofConn[c][at] == l.ofSock[s][beside])
  }

  ghost function Put<T>(xs: seq<T>, at: int, x: T): (ys: seq<T>)
    requires -1 <= at < |xs|
    ensures x in ys && |ys| == |xs| + 1
    ensures forall y <- xs :: y in ys
    ensures forall y <- ys :: y in xs || y == x
    ensures Distinct(xs) && x !in xs ==> Distinct(ys)
  {
    var ys := xs[..at + 1] + [x] + xs[at + 1..];
    assert xs == xs[..at + 1] + xs[at + 1..];
    ys
  }

  lemma PutAt<T>(xs: seq<T>, at: int, x: T)
    requires -1 <= at < |xs|
    ensures Put(xs, at, x) == xs[..at + 1] + [x] + xs[at + 1..]
    ensures at == -1 ==> Put(xs, at, x) == [x] + xs
  {
    assert at == -1 ==> xs[..0] + [x] + xs[0..] == [x] + xs;
  }

  ghost function IndexIn<T>(xs: seq<T>, x: T): (k: nat)
    requires x in xs
    ensures k < |xs| && xs[k] == x
  {
    var k :| 0 <= k < |xs| && xs[k] == x;
    k
  }

  ghost function Linked(l: Links, o: Output, s: Socket, at: int, beside: int): Links
    requires Place(l, o.connection, s, at, beside)
  {
    Links(l.ofConn[o.connection := Put(l.ofConn[o.connection], at, o)],
          l.ofSock[s := Put(l.ofSock[s], beside, o)],
          l.sockOf[o := s])
  }

  lemma LinkedIs(l: Links, h: Links, o: Output, s: Socket, at: int, beside: int)
    requires Place(l, o.connection, s, at, beside)
    requires h.ofConn.Keys == l.ofConn.Keys && h.ofSock.Keys == l.ofSock.Keys && h.sockOf.Keys == l.sockOf.Keys + {o}
    requires o.connection in h.ofConn && s in h.ofSock && h.sockOf[o] == s
    requires h.ofConn[o.connection] == Put(l.ofConn[o.connection], at, o)
    requires h.ofSock[s] == Put(l.ofSock[s], beside, o)
    requires forall c <- l.ofConn :: c != o.connection ==> h.ofConn[c] == l.ofConn[c]
    requires forall r <- l.ofSock :: r != s ==> h.ofSock[r] == l.ofSock[r]
    requires forall u <- l.sockOf :: u != o ==> h.sockOf[u] == l.sockOf[u]
    ensures h == Linked(l, o, s, at, beside)
  {
    hide Put;
    assert h.ofConn == Linked(l, o, s, at, beside).ofConn;
    assert h.ofSock == Linked(l, o, s, at, beside).ofSock;
    assert h.sockOf == Linked(l, o, s, at, beside).sockOf;
  }

  lemma LinkedSides(l: Links, o: Output, s: Socket, at: int, beside: int)
    requires ConnSide(l) && SockSide(l) && Fresh(l, o, s) && Place(l, o.connection, s, at, beside)
    ensures ConnSide(Linked(l, o, s, at, beside)) && SockSide(Linked(l, o, s, at, beside))
  {
  }

  lemma LinkedNodes(l: Links, o: Output, s: Socket, at: int, beside: int)
    requires Nodes(l) && Fresh(l, o, s) && Place(l, o.connection, s, at, beside)
    ensures Nodes(Linked(l, o, s, at, beside))
  {
  }

  lemma TargetsPut(xs: seq<Output>, at: int, o: Output, sockOf: map<Output, Socket>, s: Socket)
    requires -1 <= at < |xs| && o !in sockOf && forall u <- xs :: u in sockOf
    ensures Targets(xs, sockOf[o := s]) == Targets(xs, sockOf)
    ensures var ks := Targets(xs, sockOf);
      && Targets(Put(xs, at, o), sockOf[o := s]) == ks[..at + 1] + [s] + ks[at + 1..]
      && (at == -1 ==> Targets(Put(xs, at, o), sockOf[o := s]) == [s] + ks)
  {
    PutAt(xs, at, o);
  }

  lemma LinkedSocketRuns(l: Links, o: Output, s: Socket, at: int, beside: int)
    requires ConnSide(l) && SockSide(l) && SocketRuns(l) && Fresh(l, o, s) && Place(l, o.connection, s, at, beside)
    requires ConnSide(Linked(l, o, s, at, beside))
    ensures SocketRuns(Linked(l, o, s, at, beside))
  {
    hide Contiguous, Distinct, Put, Targets;
    var h, c := Linked(l, o, s, at, beside), o.connection;
    var ks := Targets(l.ofConn[c], l.sockOf);
    TargetsPut(l.ofConn[c], at, o, l.sockOf, s);
    TargetsAt(l.ofConn[c], l.sockOf);
    if at == -1 {
      InsertNew(ks, s);
    } else {
      assert l.ofConn[c][at] in l.ofSock[s];
      InsertBeside(ks, at);
    }
    assert Contiguous(Targets(h.ofConn[c], h.sockOf));
    forall d <- h.ofConn | d != c ensures Contiguous(Targets(h.ofConn[d], h.sockOf)) {
      TargetsPut(l.ofConn[d], -1, o, l.sockOf, s);
    }
  }

  lemma TargetsAt(xs: seq<Output>, sockOf: map<Output, Socket>)
    requires forall u <- xs :: u in sockOf
    ensures |Targets(xs, sockOf)| == |xs|
    ensures forall i :: 0 <= i < |xs| ==> Targets(xs, sockOf)[i] == sockOf[xs[i]]
    ensures forall s <- Targets(xs, sockOf) :: exists u <- xs :: sockOf[u] == s
  {
    forall s <- Targets(xs, sockOf) ensures exists u <- xs :: sockOf[u] == s {
      var i :| 0 <= i < |xs| && Targets(xs, sockOf)[i] == s;
      assert xs[i] in xs;
    }
  }

  /** A connection that has no output on a socket does not occur in the socket's list. */
  lemma Stranger(l: Links, c: Connection, s: Socket)
    requires SockSide(l) && Nodes(l) && c in l.ofConn && s in l.ofSock
    requires forall u <- l.ofConn[c] :: u in l.sockOf && l.sockOf[u] != s
    ensures c !in Owners(l.ofSock[s])
  {
    var held, there, ks := l.ofConn[c], l.ofSock[s], Owners(l.ofSock[s]);
    forall j | 0 <= j < |ks| ensures ks[j] != c {
      var u := there[j];
      assert u in there && ks[j] == u.connection;
      assert u.connection == c ==> u in held;
    }
  }

  lemma OwnersPut(xs: seq<Output>, at: int, o: Output)
    requires -1 <= at < |xs|
    ensures Owners(Put(xs, at, o)) == Owners(xs)[..at + 1] + [o.connection] + Owners(xs)[at + 1..]
    ensures at == -1 ==> Owners(Put(xs, at, o)) == [o.connection] + Owners(xs)
  {
    PutAt(xs, at, o);
  }

  lemma LinkedOwnerRuns(l: Links, o: Output, s: Socket, at: int, beside: int)
    requires ConnSide(l) && SockSide(l) && Nodes(l) && OwnerRuns(l)
    requires Fresh(l, o, s) && Place(l, o.connection, s, at, beside)
    ensures OwnerRuns(Linked(l, o, s, at, beside))
  {
    hide Contiguous, Distinct, Put, Nodes, SockSide;
    var h, c, xs := Linked(l, o, s, at, beside), o.connection, l.ofSock[s];
    OwnersPut(xs, beside, o);
    if at == -1 {
      Stranger(l, c, s);
      InsertNew(Owners(xs), c);
    } else {
      assert xs[beside] in l.ofConn[c];
      assert Owners(xs)[beside] == c;
      InsertBeside(Owners(xs), beside);
    }
    assert Contiguous(Owners(h.ofSock[s]));
  }

  lemma LinkedTied(l: Links, o: Output, s: Socket, at: int, beside: int)
    requires Tied(l) && Fresh(l, o, s) && Place(l, o.connection, s, at, beside)
    ensures Tied(Linked(l, o, s, at, beside))
  {
    LinkedSides(l, o, s, at, beside);
    LinkedNodes(l, o, s, at, beside);
    LinkedSocketRuns(l, o, s, at, beside);
    LinkedOwnerRuns(l, o, s, at, beside);
  }

  lemma LinkedRoutes(l: Links, o: Output, s: Socket, at: int, beside: int)
    requires Fresh(l, o, s) && Place(l, o.connection, s, at, beside)
    ensures Routes(Linked(l, o, s, at, beside).sockOf) == Routes(l.sockOf) + {(o.connection, o.prefix, s)}
  {
    var h := Linked(l, o, s, at, beside);
    forall p <- Routes(l.sockOf) ensures p in Routes(h.sockOf) {
      var u :| u in l.sockOf && p == (u.connection, u.prefix, l.sockOf[u]);
      assert u in h.sockOf;
    }
    assert o in h.sockOf;
  }

  lemma UnlinkedRoutesOf(l: Links, o: Output)
    requires Tied(l) && o in l.sockOf
    ensures o.connection in l.ofConn && l.sockOf[o] in l.ofSock
    ensures Routes(Unlinked(l, o).sockOf) == set p | p in Routes(l.sockOf) && !(p.0 == o.connection && p.1 == o.prefix)
  {
    UnlinkedRoutes(l, o);
  }

  lemma WithConn(l: Links, c: Connection)
    requires Tied(l) && c !in l.ofConn
    ensures Tied(l.(ofConn := l.ofConn[c := []]))
  {
    var h := l.(ofConn := l.ofConn[c := []]);
    forall d <- h.ofConn ensures Contiguous(Targets(h.ofConn[d], h.sockOf)) {
      if d != c { assert Targets(h.ofConn[d], h.sockOf) == Targets(l.ofConn[d], l.sockOf); }
    }
  }

  lemma WithSocket(l: Links, s: Socket)
    requires Tied(l) && s !in l.ofSock
    ensures Tied(l.(ofSock := l.ofSock[s := []]))
  {
    var h := l.(ofSock := l.ofSock[s := []]);
    forall d <- h.ofConn ensures Contiguous(Targets(h.ofConn[d], h.sockOf)) {
      assert Targets(h.ofConn[d], h.sockOf) == Targets(l.ofConn[d], l.sockOf);
    }
  }

  lemma WithoutConn(l: Links, c: Connection)
    requires Tied(l) && c in l.ofConn && l.ofConn[c] == []
    ensures Tied(l.(ofConn := l.ofConn - {c}))
    ensures forall o <- l.sockOf :: o.connection != c
  {
    var h := l.(ofConn := l.ofConn - {c});
    forall d <- h.ofConn ensures Contiguous(Targets(h.ofConn[d], h.sockOf)) {
      assert Targets(h.ofConn[d], h.sockOf) == Targets(l.ofConn[d], l.sockOf);
    }
  }
}
