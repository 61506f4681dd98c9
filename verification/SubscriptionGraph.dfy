/** The subscription structure as a value: what the two families of linked lists and
    the hash table contain, what makes them consistent, and what each relinking keeps. */
module SubscriptionGraph {
  import opened Lists
  import opened Entities

  type Name = Bytes
  type Relation = set<(Connection, Name)>

  datatype Graph = Graph(
    table: seq<seq<Topic>>,
    ofTopic: map<Topic, seq<Subscription>>,
    ofConn: map<Connection, seq<Subscription>>,
    subs: set<Subscription>)

  // ----- consistency -----

  ghost predicate TopicLists(g: Graph) {
    && (forall t <- g.ofTopic :: Distinct(g.ofTopic[t]))
    && (forall t <- g.ofTopic, s <- g.ofTopic[t] :: s in g.subs && s.topic == t)
  }

  ghost predicate ConnLists(g: Graph) {
    && (forall c <- g.ofConn :: Distinct(g.ofConn[c]))
    && (forall c <- g.ofConn, s <- g.ofConn[c] :: s in g.subs && s.connection == c)
  }

  /** Every node is in both of its lists, and no connection holds two nodes of one topic. */
  ghost predicate Nodes(g: Graph) {
    && (forall s <- g.subs :: s.topic in g.ofTopic && s in g.ofTopic[s.topic])
    && (forall s <- g.subs :: s.connection in g.ofConn && s in g.ofConn[s.connection])
    && (forall s <- g.subs, s' <- g.subs :: s.topic == s'.topic && s.connection == s'.connection ==> s == s')
  }

  /** Topics are in the bucket of their hash, once, and under a name of their own. */
  ghost predicate Buckets(g: Graph) {
    && (forall t <- g.ofTopic :: |g.table| > 0 && t in g.table[t.hash % |g.table|])
    && (forall b :: 0 <= b < |g.table| ==> forall t <- g.table[b] :: t in g.ofTopic && t.hash % |g.table| == b)
    && (forall b :: 0 <= b < |g.table| ==> Distinct(g.table[b]))
    && (forall t <- g.ofTopic, t' <- g.ofTopic :: t.name == t'.name ==> t == t')
  }

  ghost predicate Populated(g: Graph, empties: set<Topic>) {
    forall t <- g.ofTopic :: t !in empties ==> g.ofTopic[t] != []
  }

  ghost predicate Linked(g: Graph, empties: set<Topic>) {
    TopicLists(g) && ConnLists(g) && Nodes(g) && Buckets(g) && Populated(g, empties)
  }

  ghost function Pairs(subs: set<Subscription>): Relation {
    set s | s in subs :: (s.connection, s.topic.name)
  }

  /** The pairs that cloning one topic into another adds. */
  ghost function Copied(rel: Relation, source: Name, target: Name): Relation {
    set p | p in rel && p.1 == source :: (p.0, target)
  }

  /** The relation without the connections that go. */
  ghost function Cut(rel: Relation, gone: set<Connection>): Relation {
    set p | p in rel && p.0 !in gone
  }

  /** The connections that attempts to send stop: those whose queue is full. */
  ghost function Overflown(attempts: seq<Connection>, full: set<Connection>): set<Connection> {
    set c | c in attempts && c in full
  }

  lemma CutNone(rel: Relation)
    ensures Cut(rel, {}) == rel
  {
  }

  lemma CutStep(rel: Relation, attempts: seq<Connection>, c: Connection, full: set<Connection>)
    ensures c !in full ==> Overflown(attempts + [c], full) == Overflown(attempts, full)
    ensures c in full ==> Overflown(attempts + [c], full) == Overflown(attempts, full) + {c}
    ensures c in full ==> Cut(Cut(rel, Overflown(attempts, full)), {c}) == Cut(rel, Overflown(attempts + [c], full))
  {
    assert Overflown(attempts + [c], full) == Overflown(attempts, full) + if c in full then {c} else {};
  }

  /** The pairs that subscribing the owners of some nodes to a topic adds. */
  ghost function Joined(walked: seq<Subscription>, target: Name): Relation {
    set s | s in walked :: (s.connection, target)
  }

  ghost function Names(g: Graph): set<Name> {
    set t | t in g.ofTopic :: t.name
  }

  // ----- relinking -----

  ghost function WithTopic(g: Graph, t: Topic): Graph
    requires |g.table| > 0
  {
    var b := t.hash % |g.table|;
    g.(table := g.table[b := [t] + g.table[b]], ofTopic := g.ofTopic[t := []])
  }

  ghost function WithoutTopic(g: Graph, t: Topic): Graph
    requires |g.table| > 0
  {
    var b := t.hash % |g.table|;
    g.(table := g.table[b := Without(g.table[b], t)], ofTopic := g.ofTopic - {t})
  }

  ghost function Attached(g: Graph, s: Subscription): Graph
    requires s.topic in g.ofTopic && s.connection in g.ofConn
  {
    g.(ofTopic := g.ofTopic[s.topic := [s] + g.ofTopic[s.topic]],
       ofConn := g.ofConn[s.connection := [s] + g.ofConn[s.connection]],
       subs := g.subs + {s})
  }

  ghost function Detached(g: Graph, s: Subscription): Graph
    requires s.topic in g.ofTopic && s.connection in g.ofConn
  {
    g.(ofTopic := g.ofTopic[s.topic := Without(g.ofTopic[s.topic], s)],
       ofConn := g.ofConn[s.connection := Without(g.ofConn[s.connection], s)],
       subs := g.subs - {s})
  }

  lemma SameTopicsSameBuckets(g: Graph, h: Graph)
    requires Buckets(g) && h.table == g.table && h.ofTopic.Keys == g.ofTopic.Keys
    ensures Buckets(h)
  {
    assert forall t <- h.ofTopic :: t in g.ofTopic.Keys;
  }

  lemma WithConnLinked(g: Graph, c: Connection)
    requires Linked(g, {}) && c !in g.ofConn
    ensures Linked(g.(ofConn := g.ofConn[c := []]), {})
  {
  }

  // A new topic.

  lemma WithTopicBuckets(g: Graph, t: Topic)
    requires Buckets(g) && |g.table| > 0 && t !in g.ofTopic && t.name !in Names(g)
    ensures Buckets(WithTopic(g, t))
  {
    var h, n := WithTopic(g, t), |g.table|;
    forall u <- h.ofTopic, u' <- h.ofTopic | u.name == u'.name ensures u == u' {
      assert u == t || u.name in Names(g);
      assert u' == t || u'.name in Names(g);
    }
  }

  lemma WithTopicLists(g: Graph, t: Topic)
    requires TopicLists(g) && ConnLists(g) && Nodes(g) && t !in g.ofTopic && |g.table| > 0
    ensures TopicLists(WithTopic(g, t)) && ConnLists(WithTopic(g, t)) && Nodes(WithTopic(g, t))
  {
  }

  lemma WithTopicPopulated(g: Graph, t: Topic)
    requires Populated(g, {}) && t !in g.ofTopic && |g.table| > 0
    ensures Populated(WithTopic(g, t), {t})
  {
  }

  lemma WithTopicLinked(g: Graph, t: Topic)
    requires Linked(g, {}) && |g.table| > 0 && t !in g.ofTopic && t.name !in Names(g)
    ensures Linked(WithTopic(g, t), {t})
  {
    hide TopicLists, ConnLists, Nodes, Buckets, Populated, WithTopic;
    WithTopicBuckets(g, t);
    WithTopicLists(g, t);
    WithTopicPopulated(g, t);
  }

  // A topic without subscribers goes.

  lemma WithoutTopicBuckets(g: Graph, t: Topic)
    requires Buckets(g) && t in g.ofTopic
    ensures |g.table| > 0 && Buckets(WithoutTopic(g, t))
  {
  }

  lemma WithoutTopicLists(g: Graph, t: Topic)
    requires TopicLists(g) && ConnLists(g) && Nodes(g) && |g.table| > 0 && t in g.ofTopic && g.ofTopic[t] == []
    ensures TopicLists(WithoutTopic(g, t)) && ConnLists(WithoutTopic(g, t)) && Nodes(WithoutTopic(g, t))
  {
  }

  lemma WithoutTopicLinked(g: Graph, t: Topic, empties: set<Topic>)
    requires Linked(g, empties) && t in g.ofTopic && g.ofTopic[t] == []
    ensures |g.table| > 0 && Linked(WithoutTopic(g, t), empties - {t})
  {
    WithoutTopicBuckets(g, t);
    WithoutTopicLists(g, t);
  }

  // A new subscription.

  lemma AttachedNodes(g: Graph, s: Subscription)
    requires Nodes(g) && s.topic in g.ofTopic && s.connection in g.ofConn
    requires forall u <- g.ofConn[s.connection] :: u.topic != s.topic
    ensures Nodes(Attached(g, s))
  {
    assert forall u <- g.subs :: u.connection == s.connection ==> u in g.ofConn[s.connection];
  }

  lemma AttachedLinked(g: Graph, s: Subscription, empties: set<Topic>)
    requires Linked(g, empties) && s !in g.subs && s.topic in g.ofTopic && s.connection in g.ofConn
    requires forall u <- g.ofConn[s.connection] :: u.topic != s.topic
    ensures Linked(Attached(g, s), empties - {s.topic})
  {
    AttachedNodes(g, s);
    SameTopicsSameBuckets(g, Attached(g, s));
    AttachedLists(g, s);
  }

  lemma AttachedLists(g: Graph, s: Subscription)
    requires TopicLists(g) && ConnLists(g) && s !in g.subs && s.topic in g.ofTopic && s.connection in g.ofConn
    ensures TopicLists(Attached(g, s)) && ConnLists(Attached(g, s))
  {
  }

  lemma AttachedPairs(g: Graph, s: Subscription)
    requires s.topic in g.ofTopic && s.connection in g.ofConn
    ensures Pairs(Attached(g, s).subs) == Pairs(g.subs) + {(s.connection, s.topic.name)}
  {
  }

  // A subscription goes.

  lemma DetachedNodes(g: Graph, s: Subscription)
    requires Nodes(g) && s in g.subs
    ensures Nodes(Detached(g, s))
  {
  }

  lemma DetachedLists(g: Graph, s: Subscription)
    requires TopicLists(g) && ConnLists(g) && s in g.subs && s.topic in g.ofTopic && s.connection in g.ofConn
    ensures TopicLists(Detached(g, s)) && ConnLists(Detached(g, s))
  {
    var h := Detached(g, s);
    assert forall t <- h.ofTopic, u <- h.ofTopic[t] :: u in g.ofTopic[t];
    assert forall c <- h.ofConn, u <- h.ofConn[c] :: u in g.ofConn[c];
  }

  lemma DetachedLinked(g: Graph, s: Subscription, empties: set<Topic>)
    requires Linked(g, empties) && s in g.subs
    ensures Linked(Detached(g, s), empties + {s.topic})
  {
    DetachedNodes(g, s);
    DetachedLists(g, s);
    SameTopicsSameBuckets(g, Detached(g, s));
  }

  lemma DetachedPairs(g: Graph, s: Subscription)
    requires Nodes(g) && Buckets(g) && s in g.subs
    ensures Pairs(Detached(g, s).subs) == Pairs(g.subs) - {(s.connection, s.topic.name)}
  {
    var h := Detached(g, s);
    forall u <- h.subs ensures (u.connection, u.topic.name) != (s.connection, s.topic.name) {
      if u.topic.name == s.topic.name { assert u.topic == s.topic; }
    }
    forall p <- Pairs(g.subs) | p != (s.connection, s.topic.name) ensures p in Pairs(h.subs) {
      var u :| u in g.subs && p == (u.connection, u.topic.name);
      assert u in h.subs;
    }
  }

  // ----- the nodes of other connections -----

  /** The nodes of a list that do not belong to `c`. */
  ghost function Others(xs: seq<Subscription>, c: Connection): seq<Subscription> {
    if xs == [] then []
    else (if xs[0].connection == c then [] else [xs[0]]) + Others(xs[1..], c)
  }

  lemma {:induction false} OthersWithout(xs: seq<Subscription>, s: Subscription)
    ensures Others(Without(xs, s), s.connection) == Others(xs, s.connection)
  {
    if xs == [] || xs[0] == s {
    } else {
      OthersWithout(xs[1..], s);
      assert ([xs[0]] + Without(xs[1..], s))[1..] == Without(xs[1..], s);
    }
  }

  lemma {:induction false} OthersAll(xs: seq<Subscription>, c: Connection)
    requires forall x <- xs :: x.connection != c
    ensures Others(xs, c) == xs
  {
    if xs != [] {
      OthersAll(xs[1..], c);
    }
  }

  /** A list of which the front was walked already, and of which the next node is the only
      one left of its connection, loses that node and maybe some of the front. */
  lemma {:induction false} OthersOfWalk(before: seq<Subscription>, rest: seq<Subscription>)
    requires rest != [] && forall j :: 0 < j < |rest| ==> rest[j].connection != rest[0].connection
    ensures Others(before + rest, rest[0].connection) == Others(before, rest[0].connection) + rest[1..]
  {
    hide Others;
    var c := rest[0].connection;
    if before == [] {
      OthersNone(c);
      assert before + rest == [rest[0]] + rest[1..];
      OthersHead(rest[0], rest[1..], c);
      OthersAll(rest[1..], c);
    } else {
      OthersOfWalk(before[1..], rest);
      OthersHead(before[0], before[1..] + rest, c);
      OthersHead(before[0], before[1..], c);
      assert before == [before[0]] + before[1..] && before + rest == [before[0]] + (before[1..] + rest);
    }
  }

  lemma OthersNone(c: Connection)
    ensures Others([], c) == []
  {
  }

  lemma OthersHead(s: Subscription, xs: seq<Subscription>, c: Connection)
    ensures Others([s] + xs, c) == (if s.connection == c then [] else [s]) + Others(xs, c)
  {
    assert ([s] + xs)[1..] == xs;
  }

  /** The connections that own the nodes of a list. */
  ghost function Targets(xs: seq<Subscription>): seq<Connection> {
    seq(|xs|, i requires 0 <= i < |xs| => xs[i].connection)
  }

  // ----- reading the consistent structure -----

  lemma BucketOf(g: Graph, b: nat, empties: set<Topic>)
    requires Linked(g, empties) && b < |g.table|
    ensures forall t <- g.table[b] :: t in g.ofTopic
    ensures forall t <- g.ofTopic :: t.hash % |g.table| == b ==> t in g.table[b]
  {
  }

  lemma NodeOf(g: Graph, s: Subscription, empties: set<Topic>)
    requires Linked(g, empties) && s in g.subs
    ensures s.topic in g.ofTopic && s in g.ofTopic[s.topic]
    ensures s.connection in g.ofConn && s in g.ofConn[s.connection]
  {
  }

  lemma ListOf(g: Graph, t: Topic, empties: set<Topic>)
    requires Linked(g, empties) && t in g.ofTopic
    ensures Distinct(g.ofTopic[t]) && (t !in empties ==> g.ofTopic[t] != [])
    ensures forall s <- g.ofTopic[t] :: s in g.subs && s.topic == t && s.connection in g.ofConn
  {
  }

  lemma Relax(g: Graph, empties: set<Topic>, more: set<Topic>)
    requires Linked(g, empties) && empties <= more
    ensures Linked(g, more)
  {
  }

  lemma NoPairs(g: Graph, t: Topic, empties: set<Topic>)
    requires Linked(g, empties) && t in g.ofTopic && g.ofTopic[t] == []
    ensures forall p <- Pairs(g.subs) :: p.1 != t.name
    ensures forall s <- g.subs :: s.topic != t
  {
    forall s <- g.subs ensures s.topic.name != t.name {
      assert s in g.ofTopic[s.topic];
    }
  }

  lemma DetachedPairsOf(g: Graph, s: Subscription, empties: set<Topic>)
    requires Linked(g, empties) && s in g.subs
    ensures s.topic in g.ofTopic && s.connection in g.ofConn
    ensures Pairs(Detached(g, s).subs) == Pairs(g.subs) - {(s.connection, s.topic.name)}
  {
    DetachedPairs(g, s);
  }

  lemma Held(g: Graph, s: Subscription, c: Connection, empties: set<Topic>)
    requires Linked(g, empties) && c in g.ofConn && s in g.ofConn[c]
    ensures s in g.subs && s.connection == c && s.topic in g.ofTopic && g.ofTopic[s.topic] != []
    ensures Linked(g, empties - {s.topic})
    ensures (c, s.topic.name) in Pairs(g.subs)
  {
    assert s in g.ofTopic[s.topic];
  }

  lemma NotHeld(g: Graph, c: Connection, t: Topic, empties: set<Topic>)
    requires Linked(g, empties) && c in g.ofConn && t in g.ofTopic
    requires forall s <- g.ofConn[c] :: s.topic != t
    ensures (c, t.name) !in Pairs(g.subs)
  {
    forall s <- g.subs ensures (s.connection, s.topic.name) != (c, t.name) {
      if s.topic.name == t.name { assert s.topic == t; }
    }
  }

  lemma Populate(g: Graph, t: Topic)
    requires Linked(g, {t}) && t in g.ofTopic && g.ofTopic[t] != []
    ensures Linked(g, {})
  {
  }

  lemma HeldList(g: Graph, c: Connection, empties: set<Topic>)
    requires Linked(g, empties) && c in g.ofConn
    ensures Distinct(g.ofConn[c])
    ensures forall s <- g.ofConn[c] :: s in g.subs && s.connection == c && s.topic in g.ofTopic
  {
  }

  lemma CopiedAreJoined(g: Graph, t: Topic, target: Name, empties: set<Topic>)
    requires Linked(g, empties) && t in g.ofTopic
    ensures Copied(Pairs(g.subs), t.name, target) == Joined(g.ofTopic[t], target)
  {
    forall p <- Copied(Pairs(g.subs), t.name, target) ensures p in Joined(g.ofTopic[t], target) {
      var s :| s in g.subs && s.topic.name == t.name && p == (s.connection, target);
      assert s.topic == t;
    }
    forall p <- Joined(g.ofTopic[t], target) ensures p in Copied(Pairs(g.subs), t.name, target) {
      var s :| s in g.ofTopic[t] && p == (s.connection, target);
      assert (s.connection, s.topic.name) in Pairs(g.subs);
    }
  }

  lemma JoinedStep(walked: seq<Subscription>, i: nat, target: Name)
    requires i < |walked|
    ensures Joined(walked[..i + 1], target) == Joined(walked[..i], target) + {(walked[i].connection, target)}
  {
    assert walked[..i + 1] == walked[..i] + [walked[i]];
  }

  lemma JoinedNone(target: Name)
    ensures Joined([], target) == {}
  {
  }

  lemma NoNodesOf(g: Graph, t: Topic, c: Connection, empties: set<Topic>)
    requires Linked(g, empties) && t in g.ofTopic && c in g.ofConn && g.ofConn[c] == []
    ensures forall s <- g.ofTopic[t] :: s.connection != c
  {
  }

  lemma NextInWalk(before: seq<Subscription>, rest: seq<Subscription>, g: Graph, t: Topic)
    requires Linked(g, {}) && t in g.ofTopic && g.ofTopic[t] == before + rest && rest != []
    ensures After(g.ofTopic[t], rest[0]) == First(rest[1..])
  {
    var xs := g.ofTopic[t];
    AfterAt(xs, |before|);
    assert xs[|before|] == rest[0] && xs[|before| + 1..] == rest[1..];
  }

  lemma TargetsOf(g: Graph, t: Topic, empties: set<Topic>)
    requires Linked(g, empties) && t in g.ofTopic
    ensures Distinct(Targets(g.ofTopic[t]))
    ensures forall c <- g.ofConn :: c in Targets(g.ofTopic[t]) <==> (c, t.name) in Pairs(g.subs)
    ensures forall c <- Targets(g.ofTopic[t]) :: c in g.ofConn
  {
    var xs := g.ofTopic[t];
    forall c <- g.ofConn ensures c in Targets(xs) <==> (c, t.name) in Pairs(g.subs) {
      if c in Targets(xs) {
        var i :| 0 <= i < |xs| && Targets(xs)[i] == c;
        assert xs[i] in g.subs;
      }
      if (c, t.name) in Pairs(g.subs) {
        var s :| s in g.subs && s.connection == c && s.topic.name == t.name;
        assert s.topic == t && s in xs;
        var i :| 0 <= i < |xs| && xs[i] == s;
        assert Targets(xs)[i] == c;
      }
    }
  }

  // ----- the walk along one list -----

  lemma WalkStart(rel: Relation, xs: seq<Subscription>, full: set<Connection>)
    ensures xs[..0] == [] && xs[0..] == xs && Targets([]) == []
    ensures Overflown([], full) == {} && Cut(rel, {}) == rel
  {
  }

  lemma WalkStep(xs: seq<Subscription>, k: nat)
    requires k <= |xs| && First(xs[k..]).Some? && Distinct(Targets(xs))
    ensures k < |xs| && First(xs[k..]) == Some(xs[k])
    ensures Targets(xs[..k + 1]) == Targets(xs[..k]) + [xs[k].connection]
    ensures xs[k..] != [] && xs[k..][0] == xs[k] && xs[k..][1..] == xs[k + 1..]
    ensures forall j :: 0 < j < |xs[k..]| ==> xs[k..][j].connection != xs[k..][0].connection
  {
    forall j | 0 < j < |xs[k..]| ensures xs[k..][j].connection != xs[k..][0].connection {
      assert Targets(xs)[k] != Targets(xs)[k + j];
    }
  }

  lemma WalkEnd(xs: seq<Subscription>, k: nat)
    requires k <= |xs| && First(xs[k..]).None?
    ensures xs[..k] == xs
  {
  }

  lemma WithoutConnLinked(g: Graph, c: Connection, empties: set<Topic>)
    requires Linked(g, empties) && c in g.ofConn && g.ofConn[c] == []
    ensures Linked(g.(ofConn := g.ofConn - {c}), empties)
    ensures forall p <- Pairs(g.subs) :: p.0 != c
  {
  }

  lemma NoTableNoTopics(g: Graph, empties: set<Topic>)
    requires Linked(g, empties) && g.table == []
    ensures g.ofTopic == map[] && g.subs == {}
  {
  }

  lemma FreshTable(g: Graph, n: nat, table: seq<seq<Topic>>)
    requires Linked(g, {}) && g.table == [] && |table| == n
    requires forall b :: 0 <= b < n ==> table[b] == []
    ensures Linked(g.(table := table), {})
  {
  }
}
