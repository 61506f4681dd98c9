/** Topic subscriptions (src/websocket.c): a bucketed hash table of topics whose
    subscription nodes sit in a list of the topic and in a list of the connection.
    The heap structure refines a plain relation between connections and topic names. */
module TopicGraph {
  import opened Lists
  import opened Entities
  import opened SubscriptionGraph

  class Route {
    const hashSize: nat
    const hash: Name -> nat
    var table: seq<seq<Topic>>  // empty until the first subscription
    var ntopics: int
    var nsubscriptions: int
    var topicsCreated: int
    var topicsRemoved: int
    var subscribed: int
    var unsubscribed: int
    ghost var topics: set<Topic>
    ghost var subs: set<Subscription>
    var conns: set<Connection>  // the connections of this route that a lookup by uid finds

    ghost function View(): Graph
      reads `table, `topics, `conns, `subs, topics`subscribers, conns`subscribers
    {
      Graph(table, map t | t in topics :: t.subscribers, map c | c in conns :: c.subscribers, subs)
    }

    ghost predicate Hashed()
      reads this
    {
      && hashSize > 0
      && (|table| == 0 || |table| == hashSize)
      && forall t <- topics :: t.hash == hash(t.name)
    }

    /** The structure is consistent, except that topics of `empties` may lack subscribers. */
    ghost predicate Linked(empties: set<Topic>)
      reads this, topics, conns`subscribers
    {
      Hashed() && SubscriptionGraph.Linked(View(), empties)
    }

    ghost predicate Counted()
      reads this
    {
      && ntopics == Size(topics) == topicsCreated - topicsRemoved
      && nsubscriptions == Size(subs) == subscribed - unsubscribed
    }

    ghost predicate Valid()
      reads this, topics, conns`subscribers
    {
      Linked({}) && Counted()
    }

    ghost function Rel(): Relation
      reads this
    {
      Pairs(subs)
    }

    ghost function Names(): set<Name>
      reads this
    {
      set t | t in topics :: t.name
    }

    constructor (hashSize: nat, hash: Name -> nat)
      requires hashSize > 0
      ensures Valid() && conns == {} && Rel() == {}
      ensures this.hashSize == hashSize && this.hash == hash
    {
      this.hashSize, this.hash := hashSize, hash;
      table, ntopics, nsubscriptions := [], 0, 0;
      topicsCreated, topicsRemoved, subscribed, unsubscribed := 0, 0, 0, 0;
      topics, subs, conns := {}, {}, {};
    }

    /** A connection of this route starts with no subscription. */
    method Open(c: Connection)
      requires Valid() && c !in conns
      modifies `conns, c`subscribers
      ensures Valid() && conns == old(conns) + {c} && Rel() == old(Rel())
    {
      hide SubscriptionGraph.Linked, Size, Pairs, Without, After;
      ghost var g := View();
      c.subscribers := [];
      conns := conns + {c};
      assert View() == g.(ofConn := g.ofConn[c := []]);
      WithConnLinked(g, c);
    }

    // ----- topics -----

    /** Links a new topic without subscribers into its bucket. */
    method AddTopic(name: Name, h: nat) returns (t: Topic)
      requires Linked({}) && name !in Names() && h == hash(name)
      requires |table| == hashSize
      modifies this`table, this`topics, this`topicsCreated
      ensures fresh(t) && t.name == name && t.subscribers == []
      ensures topics == old(topics) + {t} && topicsCreated == old(topicsCreated) + 1
      ensures Linked({t})
    {
      hide SubscriptionGraph.Linked, Size, Pairs, Without, After;
      ghost var g := View();
      t := new Topic(name, h);
      topicsCreated := topicsCreated + 1;
      var cell := h % hashSize;
      table := table[cell := [t] + table[cell]];
      topics := topics + {t};
      assert View() == WithTopic(g, t);
      WithTopicLinked(g, t);
    }

    /** The bucket table comes into being. */
    method FirstTable()
      requires Valid() && table == []
      modifies this`table, this`ntopics, this`nsubscriptions
      ensures Linked({}) && |table| == hashSize && topics == {} && subs == {}
      ensures ntopics == 1 && nsubscriptions == 0
    {
      hide SubscriptionGraph.Linked, Size, Pairs, Without, After;
      ghost var g := View();
      NoTableNoTopics(g, {});
      assert topics == g.ofTopic.Keys;
      table := seq(hashSize, i => []);
      assert View() == g.(table := table);
      FreshTable(g, hashSize, table);
      ntopics := 1;
      nsubscriptions := 0;
    }

    /** The first topic of a route brings the bucket table into being. */
    method FirstTopic(name: Name, h: nat) returns (t: Topic)
      requires Valid() && table == [] && h == hash(name)
      modifies this`table, this`topics, this`ntopics, this`nsubscriptions, this`topicsCreated
      ensures fresh(t) && t.name == name && t.subscribers == []
      ensures topics == old(topics) + {t} && Linked({t}) && Counted()
    {
      hide Linked, Size, Pairs, Without, After;
      SizeEmpty(topics);
      SizeEmpty(subs);
      FirstTable();
      t := AddTopic(name, h);
      SizeSteps(old(topics), t);
    }

    /** Lookup of a topic by its name; a missing topic is created on demand. */
    method FindTopic(name: Name, create: bool) returns (found: Topic?)
      requires Valid()
      modifies this`table, this`topics, this`ntopics, this`nsubscriptions, this`topicsCreated
      ensures found == null <==> !create && name !in old(Names())
      ensures found != null ==> found in topics && found.name == name
      ensures found == null || name in old(Names()) ==> topics == old(topics) && Valid()
      ensures found != null && name !in old(Names())
        ==> fresh(found) && topics == old(topics) + {found} && found.subscribers == [] && Linked({found}) && Counted()
    {
      hide SubscriptionGraph.Linked, Size, Pairs, Without, After;
      ghost var g := View();
      var h := hash(name);
      if table == [] {
        NoTableNoTopics(g, {});
        assert topics == g.ofTopic.Keys;
        if !create { return null; }
        found := FirstTopic(name, h);
        return;
      }
      var cell := h % hashSize;
      var bucket := table[cell];
      BucketOf(g, cell, {});
      assert topics == g.ofTopic.Keys;
      if bucket == [] {
        if !create { return null; }
        ntopics := ntopics + 1;
        assert View() == g;
        var t := AddTopic(name, h);
        SizeSteps(old(topics), t);
        return t;
      }
      for i := 0 to |bucket|
        invariant forall j :: 0 <= j < i ==> bucket[j].name != name
      {
        var current := bucket[i];
        if |current.name| == |name| && current.hash == h && current.name == name {
          return current;
        }
      }
      if !create { return null; }
      ntopics := ntopics + 1;
      assert View() == g;
      var t := AddTopic(name, h);
      SizeSteps(old(topics), t);
      return t;
    }

    // ----- single nodes -----

    /** Unlinks a subscription from both of its lists. */
    method Unlink(s: Subscription, ghost empties: set<Topic>)
      requires Linked(empties) && s in subs
      modifies `subs, s.topic`subscribers, s.connection`subscribers
      ensures Linked(empties + {s.topic}) && s.topic in topics && s.connection in conns
      ensures subs == old(subs) - {s} && Rel() == old(Rel()) - {(s.connection, s.topic.name)}
      ensures s.topic.subscribers == Without(old(s.topic.subscribers), s)
      ensures s.connection.subscribers == Without(old(s.connection.subscribers), s)
    {
      hide SubscriptionGraph.Linked, Pairs, Without;
      ghost var g := View();
      NodeOf(g, s, empties);
      assert s.topic in topics && s.connection in conns;
      s.topic.subscribers := Without(s.topic.subscribers, s);
      s.connection.subscribers := Without(s.connection.subscribers, s);
      subs := subs - {s};
      assert View() == Detached(g, s);
      DetachedLinked(g, s, empties);
      DetachedPairsOf(g, s, empties);
    }

    /** Unlinks and frees a topic that has no subscribers left. */
    method RemoveTopic(t: Topic, ghost empties: set<Topic>)
      requires Linked(empties) && t in topics && t.subscribers == []
      modifies `table, `topics, `ntopics, `topicsRemoved
      ensures Linked(empties - {t}) && topics == old(topics) - {t}
      ensures ntopics == old(ntopics) - 1 && topicsRemoved == old(topicsRemoved) + 1
    {
      hide SubscriptionGraph.Linked, Pairs, Without;
      ghost var g := View();
      assert t in g.ofTopic && g.ofTopic[t] == [];
      WithoutTopicLinked(g, t, empties);
      var cell := t.hash % hashSize;
      table := table[cell := Without(table[cell], t)];
      topics := topics - {t};
      ntopics := ntopics - 1;
      topicsRemoved := topicsRemoved + 1;
      assert View() == WithoutTopic(g, t);
    }

    /** Links a new subscription at the head of both lists. */
    method Link(c: Connection, t: Topic, ghost empties: set<Topic>) returns (s: Subscription)
      requires Linked(empties) && c in conns && t in topics
      requires forall u <- c.subscribers :: u.topic != t
      modifies `subs, t`subscribers, c`subscribers
      ensures fresh(s) && s.topic == t && s.connection == c
      ensures Linked(empties - {t}) && subs == old(subs) + {s} && s !in old(subs)
      ensures Rel() == old(Rel()) + {(c, t.name)}
      ensures t.subscribers == [s] + old(t.subscribers) && c.subscribers == [s] + old(c.subscribers)
    {
      hide SubscriptionGraph.Linked, Pairs, Without;
      ghost var g := View();
      s := new Subscription(t, c);
      t.subscribers := [s] + t.subscribers;
      c.subscribers := [s] + c.subscribers;
      subs := subs + {s};
      assert View() == Attached(g, s);
      AttachedLinked(g, s, empties);
      AttachedPairs(g, s);
    }

    /** Unlinks a subscription and counts it out. */
    method Cancel(s: Subscription, ghost empties: set<Topic>)
      requires Linked(empties) && s in subs
      modifies `subs, `nsubscriptions, `unsubscribed, s.topic`subscribers, s.connection`subscribers
      ensures Linked(empties + {s.topic}) && s.topic in topics && s.connection in conns
      ensures s.topic.subscribers == Without(old(s.topic.subscribers), s)
      ensures s.connection.subscribers == Without(old(s.connection.subscribers), s)
      ensures Rel() == old(Rel()) - {(s.connection, s.topic.name)}
      ensures subs == old(subs) - {s} && Size(subs) == old(Size(subs)) - 1
      ensures nsubscriptions == old(nsubscriptions) - 1 && unsubscribed == old(unsubscribed) + 1
    {
      hide SubscriptionGraph.Linked, Size, Pairs, Without, After;
      SizeSteps(subs, s);
      Unlink(s, empties);
      nsubscriptions := nsubscriptions - 1;
      unsubscribed := unsubscribed + 1;
    }

    // ----- what a consistent structure says of one topic -----

    lemma Subscribers(t: Topic, empties: set<Topic>)
      requires Linked(empties) && t in topics
      ensures Distinct(t.subscribers) && (t !in empties ==> t.subscribers != [])
      ensures forall s <- t.subscribers :: s in subs && s.topic == t && s.connection in conns
    {
      hide SubscriptionGraph.Linked;
      ListOf(View(), t, empties);
    }

    lemma Unpaired(t: Topic, empties: set<Topic>)
      requires Linked(empties) && t in topics && t.subscribers == []
      ensures forall p <- Rel() :: p.1 != t.name
    {
      hide SubscriptionGraph.Linked, Pairs;
      NoPairs(View(), t, empties);
    }

    lemma Relaxed(empties: set<Topic>, more: set<Topic>)
      requires Linked(empties) && empties <= more
      ensures Linked(more)
    {
      hide SubscriptionGraph.Linked;
      Relax(View(), empties, more);
    }

    lemma CopiedOnes(t: Topic, target: Name, empties: set<Topic>)
      requires Linked(empties) && t in topics
      ensures Copied(Rel(), t.name, target) == Joined(t.subscribers, target)
    {
      hide SubscriptionGraph.Linked, Pairs, Copied, Joined;
      CopiedAreJoined(View(), t, target, empties);
    }

    lemma LinkedIs(empties: set<Topic>)
      ensures Linked(empties) <==> Hashed() && SubscriptionGraph.Linked(View(), empties)
      ensures Valid() <==> Linked({}) && Counted()
    {
    }

    // ----- commands -----

    /** The loop of FreeTopic: cancels every subscription to a topic. */
    method CancelAll(t: Topic, ghost empties: set<Topic>)
      requires Linked(empties) && t in empties && t in topics
      modifies `subs, `nsubscriptions, `unsubscribed, t`subscribers, conns`subscribers
      ensures Linked(empties) && t.subscribers == []
      ensures Rel() == set p | p in old(Rel()) && p.1 != t.name
      ensures forall x <- old(subs) :: x.topic != t ==> x in subs
      ensures nsubscriptions - Size(subs) == old(nsubscriptions - Size(subs))
      ensures nsubscriptions + unsubscribed == old(nsubscriptions + unsubscribed)
    {
      hide Linked, SubscriptionGraph.Linked, Size, Pairs, Rel, View, Hashed, Without, After;
      var sub := First(t.subscribers);
      ghost var gone: Relation := {};
      while sub.Some?
        invariant sub == First(t.subscribers)
        invariant Linked(empties)
        invariant Rel() == old(Rel()) - gone && forall p <- gone :: p.1 == t.name
        invariant forall x <- old(subs) :: x.topic != t ==> x in subs
        invariant nsubscriptions - Size(subs) == old(nsubscriptions - Size(subs))
        invariant nsubscriptions + unsubscribed == old(nsubscriptions + unsubscribed)
        decreases |t.subscribers|
      {
        var nxt := After(t.subscribers, sub.value);
        Subscribers(t, empties);
        HeadGone(t.subscribers);
        assert empties + {t} == empties;
        gone := gone + {(sub.value.connection, t.name)};
        Cancel(sub.value, empties);
        sub := nxt;
      }
      Unpaired(t, empties);
    }

    /** Frees a topic, cancelling whatever subscriptions it has. */
    method FreeTopic(t: Topic, ghost empties: set<Topic>)
      requires Linked(empties) && t in topics
      modifies `table, `topics, `subs, `ntopics, `topicsRemoved, `nsubscriptions, `unsubscribed
      modifies t`subscribers, conns`subscribers
      ensures Linked(empties - {t}) && topics == old(topics) - {t}
      ensures Rel() == set p | p in old(Rel()) && p.1 != t.name
      ensures forall x <- old(subs) :: x.topic != t ==> x in subs
      ensures old(t.subscribers) == [] ==> forall c <- conns :: c.subscribers == old(c.subscribers)
      ensures ntopics == old(ntopics) - 1 && topicsRemoved == old(topicsRemoved) + 1
      ensures nsubscriptions - Size(subs) == old(nsubscriptions - Size(subs))
      ensures nsubscriptions + unsubscribed == old(nsubscriptions + unsubscribed)
    {
      hide SubscriptionGraph.Linked, Size, Pairs, Without, After;
      Relax(View(), empties, empties + {t});
      if First(t.subscribers).Some? { CancelAll(t, empties + {t}); }
      NoPairs(View(), t, empties + {t});
      RemoveTopic(t, empties + {t});
      assert empties + {t} - {t} == empties - {t};
    }

    /** Looks a subscription up in the connection's list, which is the shorter one. */
    method FindHeld(c: Connection, t: Topic, ghost empties: set<Topic>) returns (sub: Option<Subscription>)
      requires Linked(empties) && c in conns && t in topics
      ensures sub.Some? ==> sub.value in subs && sub.value.topic == t && sub.value.connection == c
      ensures sub.Some? ==> Linked(empties - {t})
      ensures sub.None? ==> forall u <- c.subscribers :: u.topic != t
      ensures sub.Some? <==> (c, t.name) in Rel()
    {
      hide SubscriptionGraph.Linked, Size, Pairs, Without, After;
      for i := 0 to |c.subscribers|
        invariant forall j :: 0 <= j < i ==> c.subscribers[j].topic != t
      {
        if c.subscribers[i].topic == t {
          Held(View(), c.subscribers[i], c, empties);
          return Some(c.subscribers[i]);
        }
      }
      NotHeld(View(), c, t, empties);
      return None;
    }

    /** Subscribes a connection; true whether or not it was subscribed before. */
    method Subscribe(c: Connection, t: Topic, ghost empties: set<Topic>) returns (ok: bool)
      requires Linked(empties) && c in conns && t in topics
      modifies `subs, `nsubscriptions, `subscribed, t`subscribers, c`subscribers
      ensures ok && Linked(empties - {t})
      ensures Rel() == old(Rel()) + {(c, t.name)}
      ensures nsubscriptions - Size(subs) == old(nsubscriptions - Size(subs))
      ensures nsubscriptions - subscribed == old(nsubscriptions - subscribed)
    {
      hide SubscriptionGraph.Linked, Size, Pairs, Without, After;
      var sub := FindHeld(c, t, empties);
      if sub.Some? { return true; }
      var s := Link(c, t, empties);
      SizeSteps(old(subs), s);
      nsubscriptions := nsubscriptions + 1;
      subscribed := subscribed + 1;
      return true;
    }

    /** Frees a topic whose last subscription may just have gone. */
    method Reap(t: Topic)
      requires Linked({t}) && Counted() && t in topics
      modifies `table, `topics, `subs, `ntopics, `topicsRemoved, `nsubscriptions, `unsubscribed
      modifies t`subscribers, conns`subscribers
      ensures Valid() && Rel() == old(Rel()) && topics <= old(topics) && old(subs) <= subs
      ensures forall c <- conns :: c.subscribers == old(c.subscribers)
      ensures forall u <- topics :: u.subscribers == old(u.subscribers)
    {
      hide SubscriptionGraph.Linked, Size, Pairs, Without, After, Others;
      if First(t.subscribers) == None {
        NoPairs(View(), t, {t});
        SizeSteps(topics, t);
        FreeTopic(t, {t});
        assert {t} - {t} == {};
      } else {
        Populate(View(), t);
      }
    }

    /** Cancels one subscription, and frees its topic when it was the last one. */
    method CancelAndReap(s: Subscription)
      requires Valid() && s in subs && s.topic in topics && s.connection in conns
      modifies `table, `topics, `subs, `ntopics, `topicsRemoved, `nsubscriptions, `unsubscribed
      modifies s.topic`subscribers, conns`subscribers
      ensures Valid() && Rel() == old(Rel()) - {(s.connection, s.topic.name)}
      ensures topics <= old(topics) && forall x <- old(subs) :: x != s ==> x in subs
      ensures s.connection.subscribers == Without(old(s.connection.subscribers), s)
      ensures forall u <- topics :: Others(u.subscribers, s.connection) == Others(old(u.subscribers), s.connection)
    {
      hide SubscriptionGraph.Linked, Size, Pairs, Without, After, Others;
      OthersWithout(s.topic.subscribers, s);
      assert {} + {s.topic} == {s.topic};
      Cancel(s, {});
      Reap(s.topic);
    }

    /** Cancels a subscription; false when there was none. */
    method Unsubscribe(c: Connection, t: Topic) returns (ok: bool)
      requires Valid() && c in conns && t in topics
      modifies `table, `topics, `subs, `ntopics, `topicsRemoved, `nsubscriptions, `unsubscribed
      modifies t`subscribers, conns`subscribers
      ensures Valid() && (ok <==> (c, t.name) in old(Rel())) && topics <= old(topics)
      ensures Rel() == old(Rel()) - {(c, t.name)}
    {
      hide SubscriptionGraph.Linked, Size, Pairs, Without, After;
      var sub := FindHeld(c, t, {});
      if sub == None { return false; }
      CancelAndReap(sub.value);
      return true;
    }

    /** Subscribes to `target` everyone who is subscribed to `source`. The two may be one
        topic: then nothing is inserted into the list that is being walked. */
    method Clone(source: Topic, target: Topic, ghost empties: set<Topic>)
      requires Linked(empties) && source in topics && target in topics
      requires empties <= {target} && source !in empties
      modifies `subs, `nsubscriptions, `subscribed, target`subscribers, conns`subscribers
      ensures Linked({})
      ensures Rel() == old(Rel()) + Copied(old(Rel()), source.name, target.name)
      ensures nsubscriptions - Size(subs) == old(nsubscriptions - Size(subs))
      ensures nsubscriptions - subscribed == old(nsubscriptions - subscribed)
    {
      hide *;
      var walked := source.subscribers;
      Subscribers(source, empties);
      CopiedOnes(source, target.name, empties);
      JoinedNone(target.name);
      for i := 0 to |walked|
        invariant Linked(empties) && (i > 0 ==> Linked({}))
        invariant source.subscribers == walked || source == target
        invariant Rel() == old(Rel()) + Joined(walked[..i], target.name)
        invariant nsubscriptions - Size(subs) == old(nsubscriptions - Size(subs))
        invariant nsubscriptions - subscribed == old(nsubscriptions - subscribed)
      {
        JoinedStep(walked, i, target.name);
        var ok := Subscribe(walked[i].connection, target, empties);
        assert empties - {target} == {};
        Relaxed({}, empties);
      }
      assert walked[..|walked|] == walked;
      // The target cannot be left without subscribers, because the source has some.
      Subscribers(target, {});
      assert target.subscribers != [];
    }

    /** Cancels all subscriptions of a connection. */
    method CancelHeld(c: Connection)
      requires Valid() && c in conns
      modifies `table, `topics, `subs, `ntopics, `topicsRemoved, `nsubscriptions, `unsubscribed
      modifies topics`subscribers, conns`subscribers
      ensures Valid() && c.subscribers == [] && topics <= old(topics)
      ensures Rel() == Cut(old(Rel()), {c})
      ensures forall s <- old(subs) :: s.connection != c ==> s in subs
      ensures forall u <- topics :: u.subscribers == Others(old(u.subscribers), c)
    {
      hide SubscriptionGraph.Linked, Size, Pairs, Without, After, Others;
      var sub := First(c.subscribers);
      ghost var gone: Relation := {};
      while sub.Some?
        invariant sub == First(c.subscribers)
        invariant Valid() && topics <= old(topics)
        invariant Rel() == old(Rel()) - gone && forall p <- gone :: p.0 == c
        invariant forall s <- old(subs) :: s.connection != c ==> s in subs
        invariant forall u <- topics :: Others(u.subscribers, c) == Others(old(u.subscribers), c)
        decreases |c.subscribers|
      {
        var nxt := After(c.subscribers, sub.value);
        HeldList(View(), c, {});
        HeadGone(c.subscribers);
        gone := gone + {(c, sub.value.topic.name)};
        CancelAndReap(sub.value);
        sub := nxt;
      }
      WithoutConnLinked(View(), c, {});
      forall u <- topics ensures Others(u.subscribers, c) == u.subscribers {
        NoNodesOf(View(), u, c, {});
        OthersAll(u.subscribers, c);
      }
    }

    /** The connection goes, and its subscriptions with it. */
    method Stop(c: Connection)
      requires Valid() && c in conns
      modifies `table, `topics, `subs, `ntopics, `topicsRemoved, `nsubscriptions, `unsubscribed, `conns
      modifies topics`subscribers, conns`subscribers
      ensures Valid() && conns == old(conns) - {c} && c.subscribers == []
      ensures Rel() == Cut(old(Rel()), {c})
      ensures topics <= old(topics)
      ensures forall s <- old(subs) :: s.connection != c ==> s in subs
      ensures forall u <- topics :: u.subscribers == Others(old(u.subscribers), c)
    {
      hide *;
      CancelHeld(c);
      Forget(c);
    }

    /** A connection without subscriptions goes. */
    method Forget(c: Connection)
      requires Valid() && c in conns && c.subscribers == []
      modifies `conns
      ensures Valid() && conns == old(conns) - {c} && Rel() == Cut(Rel(), {c}) && Rel() == old(Rel())
    {
      hide SubscriptionGraph.Linked, Size;
      ghost var g := View();
      NoneHeld(c);
      WithoutConnLinked(g, c, {});
      conns := conns - {c};
      assert View() == g.(ofConn := g.ofConn - {c});
    }

    lemma NoneHeld(c: Connection)
      requires Valid() && c in conns && c.subscribers == []
      ensures Rel() == Cut(Rel(), {c})
    {
      var g := View();
      forall s <- subs ensures s.connection != c { NodeOf(g, s, {}); }
    }

    /** One round of Publish: saves the successor, then sends, which may stop the connection,
        unlink its nodes and free the topic. The saved successor is a live node still. */
    method Deliver(t: Topic, sub: Subscription, full: set<Connection>,
                   ghost before: seq<Subscription>, ghost rest: seq<Subscription>)
      returns (nxt: Option<Subscription>, ghost walked: seq<Subscription>)
      requires Valid() && t in topics && t.subscribers == before + rest && rest != [] && sub == rest[0]
      requires sub.connection in conns
      requires forall j :: 0 <= j < |rest| ==> rest[j] in subs
      requires forall j :: 0 < j < |rest| ==> rest[j].connection != rest[0].connection
      modifies `table, `topics, `subs, `ntopics, `topicsRemoved, `nsubscriptions, `unsubscribed, `conns
      modifies topics`subscribers, conns`subscribers
      ensures Valid() && topics <= old(topics)
      ensures nxt == First(rest[1..]) && (t in topics ==> t.subscribers == walked + rest[1..])
      ensures forall j :: 0 < j < |rest| ==> rest[j] in subs
      ensures conns == if sub.connection in full then old(conns) - {sub.connection} else old(conns)
      ensures Rel() == if sub.connection in full then Cut(old(Rel()), {sub.connection}) else old(Rel())
    {
      hide SubscriptionGraph.Linked, Size, Pairs, Without, After, Others;
      nxt := After(t.subscribers, sub);
      NextInWalk(before, rest, View(), t);
      if sub.connection in full {
        OthersOfWalk(before, rest);
        Stop(sub.connection);
        walked := Others(before, sub.connection);
      } else {
        walked := before + [sub];
        assert before + rest == walked + rest[1..];
      }
    }

    lemma NodesOf(t: Topic)
      requires Valid() && t in topics
      ensures Distinct(Targets(t.subscribers))
      ensures forall j :: 0 <= j < |t.subscribers| ==> t.subscribers[j] in subs && t.subscribers[j].topic == t
      ensures forall c <- conns :: c in Targets(t.subscribers) <==> (c, t.name) in Rel()
      ensures forall c <- Targets(t.subscribers) :: c in conns
    {
      TargetsOf(View(), t, {});
      ListOf(View(), t, {});
    }

    lemma LiveNode(s: Subscription)
      requires Valid() && s in subs
      ensures s.topic in topics && s.connection in conns
    {
      NodeOf(View(), s, {});
    }

    /** Sends to everyone subscribed to a topic. Sending to a connection of `full` overflows
        its queue and stops it at once, while the topic's list is being walked. */
    method Publish(t: Topic, full: set<Connection>) returns (attempts: seq<Connection>)
      requires Valid() && t in topics
      modifies `table, `topics, `subs, `ntopics, `topicsRemoved, `nsubscriptions, `unsubscribed, `conns
      modifies topics`subscribers, conns`subscribers
      ensures Valid() && Distinct(attempts) && topics <= old(topics)
      ensures attempts == Targets(old(t.subscribers))
      ensures forall c <- old(conns) :: c in attempts <==> (c, t.name) in old(Rel())
      ensures forall c <- attempts :: c in old(conns)
      ensures conns == old(conns) - Overflown(attempts, full)
      ensures Rel() == Cut(old(Rel()), Overflown(attempts, full))
    {
      hide *;
      ghost var all, before, k := t.subscribers, [], 0;
      NodesOf(t);
      WalkStart(Rel(), all, full);
      attempts := [];
      var sub := First(t.subscribers);
      while sub.Some?
        invariant 0 <= k <= |all| && sub == First(all[k..])
        invariant Valid() && topics <= old(topics)
        invariant t in topics ==> t.subscribers == before + all[k..]
        invariant forall j :: 0 <= j < |all[k..]| ==> all[k..][j] in subs
        invariant attempts == Targets(all[..k])
        invariant conns == old(conns) - Overflown(attempts, full)
        invariant Rel() == Cut(old(Rel()), Overflown(attempts, full))
        decreases |all| - k
      {
        WalkStep(all, k);
        LiveNode(sub.value);
        CutStep(old(Rel()), attempts, sub.value.connection, full);
        var nxt;
        nxt, before := Deliver(t, sub.value, full, before, all[k..]);
        attempts := attempts + [sub.value.connection];
        k := k + 1;
        sub := nxt;
      }
      WalkEnd(all, k);
    }

    // ----- the command interpreter -----

    lemma UnknownName(name: Name)
      requires Valid() && name !in Names()
      ensures forall p <- Rel() :: p.1 != name
    {
      forall s <- subs ensures s.topic.name != name {
        LiveNode(s);
      }
    }

    lemma KnownName(t: Topic)
      requires Valid() && t in topics
      ensures t.name in Names()
    {
    }

    method SubscribeCommand(c: Connection, name: Name)
      requires Valid()
      modifies this, topics`subscribers, conns`subscribers
      ensures Valid() && conns == old(conns) && fresh(topics - old(topics))
      ensures Rel() == old(Rel()) + if c in conns then {(c, name)} else {}
    {
      hide SubscriptionGraph.Linked, Size, Pairs, Without;
      if c !in conns { return; }
      var t := FindTopic(name, true);
      if t in old(topics) { KnownName(t); }
      Relax(View(), if name in old(Names()) then {} else {t}, {t});
      var ok := Subscribe(c, t, {t});
      assert {t} - {t} == {};
    }

    method UnsubscribeCommand(c: Connection, name: Name)
      requires Valid()
      modifies this, topics`subscribers, conns`subscribers
      ensures Valid() && conns == old(conns) && fresh(topics - old(topics))
      ensures Rel() == old(Rel()) - if c in conns then {(c, name)} else {}
    {
      hide SubscriptionGraph.Linked, Size, Pairs, Without;
      if c !in conns { return; }
      var t := FindTopic(name, false);
      if t == null {
        UnknownName(name);
      } else {
        var ok := Unsubscribe(c, t);
      }
    }

    method CloneCommand(source: Name, target: Name)
      requires Valid()
      modifies this, topics`subscribers, conns`subscribers
      ensures Valid() && conns == old(conns) && fresh(topics - old(topics))
      ensures Rel() == old(Rel()) + Copied(old(Rel()), source, target)
    {
      hide Valid, Linked, SubscriptionGraph.Linked, Size, Pairs, Without, Copied, View;
      var s := FindTopic(source, false);
      if s == null {
        UnknownName(source);
        NothingCopied(Rel(), source, target);
        return;
      }
      KnownName(s);
      CloneInto(s, target);
    }

    /** Clones a topic into the one of some name. */
    method CloneInto(source: Topic, target: Name)
      requires Valid() && source in topics && source.name in Names()
      modifies this, topics`subscribers, conns`subscribers
      ensures Valid() && conns == old(conns) && fresh(topics - old(topics))
      ensures Rel() == old(Rel()) + Copied(old(Rel()), source.name, target)
    {
      hide SubscriptionGraph.Linked, Size, Pairs, Without, Copied;
      var t := FindTopic(target, true);
      if t in old(topics) { KnownName(t); }
      Relaxed(if target in old(Names()) then {} else {t}, {t});
      if source == t {
        Clone(source, t, {});
      } else {
        Clone(source, t, {t});
      }
    }

    static lemma NothingCopied(rel: Relation, source: Name, target: Name)
      requires forall p <- rel :: p.1 != source
      ensures rel + Copied(rel, source, target) == rel
    {
    }

    method DropCommand(name: Name)
      requires Valid()
      modifies this, topics`subscribers, conns`subscribers
      ensures Valid() && conns == old(conns) && topics <= old(topics)
      ensures Rel() == set p | p in old(Rel()) && p.1 != name
    {
      hide SubscriptionGraph.Linked, Size, Pairs, Without;
      var t := FindTopic(name, false);
      if t == null {
        UnknownName(name);
      } else {
        var found: Topic := t;
        SizeSteps(topics, found);
        FreeTopic(found, {});
        assert {} - {found} == {};
      }
    }

    method PublishCommand(name: Name, full: set<Connection>) returns (attempts: seq<Connection>)
      requires Valid()
      modifies this, topics`subscribers, conns`subscribers
      ensures Valid() && topics <= old(topics) && Distinct(attempts)
      ensures Elements(attempts) == set c | c in old(conns) && (c, name) in old(Rel())
      ensures conns == old(conns) - Elements(attempts) * full
      ensures Rel() == Cut(old(Rel()), Elements(attempts) * full)
    {
      hide SubscriptionGraph.Linked, Size, Pairs, Without, Cut, Targets;
      var t := FindTopic(name, false);
      if t == null {
        UnknownName(name);
        CutNone(Rel());
        attempts := [];
        assert Elements(attempts) * full == {};
      } else {
        attempts := Publish(t, full);
        assert Overflown(attempts, full) == Elements(attempts) * full;
      }
    }

    method StopCommand(c: Connection)
      requires Valid()
      modifies this, topics`subscribers, conns`subscribers
      ensures Valid() && topics <= old(topics) && conns == old(conns) - {c}
      ensures Rel() == if c in old(conns) then Cut(old(Rel()), {c}) else old(Rel())
    {
      hide *;
      if c in conns { Stop(c); }
    }

    method OpenCommand(c: Connection)
      requires Valid()
      modifies this, c`subscribers
      ensures Valid() && topics == old(topics) && conns == old(conns) + {c} && Rel() == old(Rel())
    {
      hide *;
      if c !in conns { Open(c); }
    }

    ghost function State(): Model
      reads this
    {
      Model(conns, Rel())
    }

    /** One event. Commands that name an unknown connection or topic change nothing. */
    method Execute(cmd: Command) returns (attempts: seq<Connection>)
      requires Valid()
      modifies this, topics`subscribers, (conns + Opened([cmd]))`subscribers
      ensures Valid() && State() == Apply(old(State()), cmd)
      ensures Distinct(attempts) && Elements(attempts) == Reached(old(State()), cmd)
      ensures cmd.Subscribe? && cmd.conn in old(conns) ==> Rel() == old(Rel()) + {(cmd.conn, cmd.name)}
      ensures cmd.Unsubscribe? && cmd.conn in old(conns) ==> Rel() == old(Rel()) - {(cmd.conn, cmd.name)}
      ensures fresh(topics - old(topics)) && conns <= old(conns) + Opened([cmd])
    {
      hide SubscriptionGraph.Linked, Size, Pairs, Without, Cut, Targets, Copied, Valid;
      attempts := [];
      match cmd
      case Open(c) =>
        assert cmd in [cmd] && c in Opened([cmd]);
        OpenCommand(c);
      case Subscribe(c, name) => SubscribeCommand(c, name);
      case Unsubscribe(c, name) => UnsubscribeCommand(c, name);
      case Clone(source, target) => CloneCommand(source, target);
      case Drop(name) => DropCommand(name);
      case Publish(name, full) => attempts := PublishCommand(name, full);
      case Disconnect(c) => StopCommand(c);
    }

    /** Any sequence of events, in which connections come and go, acts on the two-list structure
        as it does on the relation. */
    method ExecuteAll(cmds: seq<Command>)
      requires Valid()
      modifies this, topics`subscribers, (conns + Opened(cmds))`subscribers
      ensures Valid() && State() == ApplyAll(old(State()), cmds)
    {
      hide *;
      ghost var start := State();
      ApplyAllNone(start, cmds);
      for i := 0 to |cmds|
        invariant Valid() && State() == ApplyAll(start, cmds[..i])
        invariant fresh(topics - old(topics)) && conns <= old(conns) + Opened(cmds)
      {
        OpenedHave(cmds, i);
        ApplyAllStep(start, cmds, i);
        var attempts := Execute(cmds[i]);
      }
      assert cmds[..|cmds|] == cmds;
    }
  }

  datatype Command =
    | Open(conn: Connection)
    | Subscribe(conn: Connection, name: Name)
    | Unsubscribe(conn: Connection, name: Name)
    | Clone(source: Name, target: Name)
    | Drop(name: Name)
    | Publish(name: Name, full: set<Connection>)
    | Disconnect(conn: Connection)

  /** The connections that start during a run. */
  ghost function Opened(cmds: seq<Command>): set<Connection> {
    set cmd | cmd in cmds && cmd.Open? :: cmd.conn
  }

  lemma OpenedHave(cmds: seq<Command>, i: nat)
    requires i < |cmds|
    ensures Opened([cmds[i]]) <= Opened(cmds)
  {
    assert cmds[i] in cmds;
  }

  datatype Model = Model(conns: set<Connection>, rel: Relation)

  /** The connections that a command sends a message to. */
  ghost function Reached(m: Model, cmd: Command): set<Connection> {
    if cmd.Publish? then set c | c in m.conns && (c, cmd.name) in m.rel else {}
  }

  /** What a command does to the relation between connections and topic names. */
  ghost function Apply(m: Model, cmd: Command): Model {
    match cmd
    case Open(c) => m.(conns := m.conns + {c})
    case Subscribe(c, name) => m.(rel := m.rel + if c in m.conns then {(c, name)} else {})
    case Unsubscribe(c, name) => m.(rel := m.rel - if c in m.conns then {(c, name)} else {})
    case Clone(source, target) => m.(rel := m.rel + Copied(m.rel, source, target))
    case Drop(name) => m.(rel := set p | p in m.rel && p.1 != name)
    case Publish(name, full) => Model(m.conns - Reached(m, cmd) * full, Cut(m.rel, Reached(m, cmd) * full))
    case Disconnect(c) => Model(m.conns - {c}, if c in m.conns then Cut(m.rel, {c}) else m.rel)
  }

  ghost function ApplyAll(m: Model, cmds: seq<Command>): Model {
    if cmds == [] then m
    else Apply(ApplyAll(m, cmds[..|cmds| - 1]), cmds[|cmds| - 1])
  }

  lemma ApplyAllNone(m: Model, cmds: seq<Command>)
    ensures ApplyAll(m, cmds[..0]) == m
  {
  }

  lemma ApplyAllStep(m: Model, cmds: seq<Command>, i: nat)
    requires i < |cmds|
    ensures ApplyAll(m, cmds[..i + 1]) == Apply(ApplyAll(m, cmds[..i]), cmds[i])
  {
    assert cmds[..i + 1][..i] == cmds[..i];
  }

  ghost predicate Live(m: Model) {
    forall p <- m.rel :: p.0 in m.conns
  }

  lemma {:induction false} RunsStayLive(m: Model, cmds: seq<Command>)
    requires Live(m)
    ensures Live(ApplyAll(m, cmds)) && ApplyAll(m, cmds).conns <= m.conns + Opened(cmds)
  {
    if cmds != [] {
      RunsStayLive(m, cmds[..|cmds| - 1]);
      OpenedHave(cmds, |cmds| - 1);
      assert cmds[|cmds| - 1].Open? ==> cmds[|cmds| - 1].conn in Opened(cmds);
    }
  }

  /** A connected client that subscribes is reached beside those that were; one that unsubscribes is
      not, and everybody else still is; and nothing changes under other names. */
  lemma SubscribedAreReached(m: Model, c: Connection, n: Name, other: Name, full: set<Connection>)
    requires c in m.conns
    ensures var after := Apply(m, Subscribe(c, n));
      && after.conns == m.conns
      && Reached(after, Publish(n, full)) == Reached(m, Publish(n, full)) + {c}
      && (other != n ==> Reached(after, Publish(other, full)) == Reached(m, Publish(other, full)))
    ensures var after := Apply(m, Unsubscribe(c, n));
      && after.conns == m.conns
      && Reached(after, Publish(n, full)) == Reached(m, Publish(n, full)) - {c}
      && (other != n ==> Reached(after, Publish(other, full)) == Reached(m, Publish(other, full)))
  {
  }

  /** An event makes a client a subscriber of a name: it subscribes, or a topic that it is
      subscribed to is cloned into that name. */
  ghost predicate Adds(m: Model, cmd: Command, c: Connection, n: Name) {
    || (cmd == Subscribe(c, n) && c in m.conns)
    || (cmd.Clone? && cmd.target == n && (c, cmd.source) in m.rel)
  }

  /** An event takes a client from a name: it unsubscribes, the topic is dropped, the client goes, or
      a message that reaches it finds it full. */
  ghost predicate Takes(m: Model, cmd: Command, c: Connection, n: Name) {
    || (cmd == Unsubscribe(c, n) && c in m.conns)
    || (cmd.Drop? && cmd.name == n)
    || (cmd == Command.Disconnect(c) && c in m.conns)
    || (cmd.Publish? && c in cmd.full && c in m.conns && (c, cmd.name) in m.rel)
  }

  lemma PairStep(m: Model, cmd: Command, c: Connection, n: Name)
    requires Live(m)
    ensures Live(Apply(m, cmd)) && !(Adds(m, cmd, c, n) && Takes(m, cmd, c, n))
    ensures (c, n) in Apply(m, cmd).rel <==> Adds(m, cmd, c, n) || ((c, n) in m.rel && !Takes(m, cmd, c, n))
  {
    if cmd.Clone? && (c, cmd.source) in m.rel { assert (c, cmd.target) in Copied(m.rel, cmd.source, cmd.target); }
  }

  /** The event at `i` makes the client a subscriber and none after it takes it away. */
  ghost predicate AddedLast(cmds: seq<Command>, c: Connection, n: Name, i: nat)
    requires i < |cmds|
  {
    && Adds(ApplyAll(Model({}, {}), cmds[..i]), cmds[i], c, n)
    && forall k :: i < k < |cmds| ==> !Takes(ApplyAll(Model({}, {}), cmds[..k]), cmds[k], c, n)
  }

  lemma AddedLastOneMore(cmds: seq<Command>, c: Connection, n: Name, m: nat, i: nat)
    requires i <= m && |cmds| == m + 1
    ensures i < m ==>
      (AddedLast(cmds, c, n, i) <==>
         AddedLast(cmds[..m], c, n, i) && !Takes(ApplyAll(Model({}, {}), cmds[..m]), cmds[m], c, n))
    ensures i == m ==> (AddedLast(cmds, c, n, i) <==> Adds(ApplyAll(Model({}, {}), cmds[..m]), cmds[m], c, n))
  {
    hide ApplyAll, Adds, Takes;
    assert forall k :: 0 <= k <= m ==> cmds[..m][..k] == cmds[..k];
  }

  /** In every run from the start, a message reaches a client under a name if and only if the last
      event that touched the two added it. */
  lemma {:induction false} ReachedExactly(cmds: seq<Command>, c: Connection, n: Name, full: set<Connection>)
    ensures var m := ApplyAll(Model({}, {}), cmds);
      && Live(m) && (c in Reached(m, Publish(n, full)) <==> (c, n) in m.rel)
      && ((c, n) in m.rel <==> exists i :: 0 <= i < |cmds| && AddedLast(cmds, c, n, i))
  {
    hide Apply, Adds, Takes, AddedLast, Live;
    NobodyLive();
    if cmds == [] {
    } else {
      var k := |cmds| - 1;
      ReachedExactly(cmds[..k], c, n, full);
      var m := ApplyAll(Model({}, {}), cmds[..k]);
      PairStep(m, cmds[k], c, n);
      forall i | 0 <= i < k
        ensures AddedLast(cmds, c, n, i) <==> AddedLast(cmds[..k], c, n, i) && !Takes(m, cmds[k], c, n)
      {
        AddedLastOneMore(cmds, c, n, k, i);
      }
      AddedLastOneMore(cmds, c, n, k, k);
      assert AddedLast(cmds, c, n, k) <==> Adds(m, cmds[k], c, n);
    }
    LiveReached(ApplyAll(Model({}, {}), cmds), c, n, full);
  }

  lemma NobodyLive()
    ensures Live(Model({}, {}))
  {
  }

  lemma LiveReached(m: Model, c: Connection, n: Name, full: set<Connection>)
    requires Live(m)
    ensures c in Reached(m, Publish(n, full)) <==> (c, n) in m.rel
  {
  }

  /** Cloning a topic and then dropping it renames it, or joins it to the topic of that name;
      unless the two are one, when everybody loses it. */
  lemma CloneThenDropRenames(m: Model, source: Name, target: Name)
    ensures var after := ApplyAll(m, [Clone(source, target), Drop(source)]);
      forall c, name :: (c, name) in after.rel <==>
        name != source && ((c, name) in m.rel || (name == target && (c, source) in m.rel))
  {
    var cmds := [Clone(source, target), Drop(source)];
    ApplyAllStep(m, cmds, 0);
    ApplyAllStep(m, cmds, 1);
    assert cmds[..0] == [] && cmds[..2] == cmds;
    var cloned := Apply(m, cmds[0]);
    forall c, name
      ensures (c, name) in cloned.rel <==> (c, name) in m.rel || (name == target && (c, source) in m.rel)
    {
      if (c, source) in m.rel { assert (c, target) in Copied(m.rel, source, target); }
    }
  }
}
