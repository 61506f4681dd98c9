# zerogw: the gateway engine, modelled and proved in Dafny

zerogw is an HTTP server that hands requests and WebSocket messages to backends over ZeroMQ, and
backend messages to browsers. It is a single-threaded event loop, so a callback or a backend command
is one atomic step. This project models the parts of it that share state, as classes whose methods
follow the C functions, and proves what they promise over every run.

- `Entities.dfy`: connections, topics, subscription and output nodes, sockets.
- `SubscriptionGraph.dfy`, `TopicGraph.dfy`: topic subscriptions. A bucketed table of topics, and
  nodes that sit in a list of their topic and in a list of their connection, behave like a plain
  relation between connections and topic names, also while publishing tears down the list that is
  being walked.
- `CometStream.dfy`, `Comet.dfy`: the server half of long polling, as a state machine and as the
  class that refines it callback by callback.
- `Replies.dfy`: which reply each request gets, told by its own fields.
- `Batches.dfy`: which messages replies carried, and which were acknowledged away without that.
- `PollingClient.dfy`, `Delivery.dfy`: the browser half, and the protocol from end to end over a
  network that loses, repeats, reorders and aborts requests and loses and reorders responses.
- `Runs.dfy`, `OutputLinks.dfy`, `Outputs.dfy`: named outputs. Nodes in two lists whose runs stay
  whole, on which the single disconnect per socket and the sync message rest.
- `Multipart.dfy`, `Ports.dfy`, `Backend.dfy`: messages to the backend, direct or queued, with
  pausing, the frames on the wire, and the reference counts that keep queued connections in memory.
  `Ports` is what runs of events make of the sockets, as a value; `Backend` refines it.
- `MsgQueue.dfy`: queues whose nodes come from a shared pool of free nodes.
- `Sieve.dfy`, `Identity.dfy`: the next-fit slot allocator and the ids built from slot and serial
  number.
- `Lifecycle.dfy`, `Gateway.dfy`: registry, topics, outputs and sockets together. Clients come, talk
  and go, commands and publishes overflow receivers, and all pieces take part in every event.
- `Frontends.dfy`: the gateway with the streams of its polling clients. A message extends streams and
  closes full ones, and a connection lives exactly as long as its stream.
- `Bodies.dfy`: what clients say to the backend, from the bodies of their requests to the sockets.
- `Pages.dfy`: a page, the network and that gateway together.
- `HttpForward.dfy`: forwarded HTTP requests, retries and the matching of replies.
- `HeaderBlock.dfy`: the NUL-separated header block, its scanner and its writer.
- `ConnectionId.dfy`: the masked hexadecimal id that a long-polling client carries.
- `Resp.dfy`: the Redis client of the chat example.
- `Lists.dfy`: sequences as linked lists.

`dafny verify dfyconfig.toml` checks everything.

A class holds the fields of a C structure; intrusive lists are sequences of node objects, and a node
that is in two lists is one object in two sequences. `Valid()` is the heap invariant: constructors
establish it, and each method keeps it and states its effect on an abstract value (a relation, a
table, the ports of a route, a state machine). For topics, outputs, backend sockets, message queues,
long polling, the gateway and the gateway with its clients, `ExecuteAll` and `HandleAll` extend this to
arbitrary runs of events, in which connections come and go, and the lemmas about runs of the abstract
value carry over to the heap. `Gateway.Boot` builds a gateway from nothing, and `Frontends.Hub` takes it
without further conditions. The slot allocator has `Perform` for its runs. For ids and forwarded requests
the invariant itself holds the history (every id that was issued, every attempt), so a lemma about a valid
state is about every run that leads to it.

Sends, timers and idle watchers are inputs: a socket carries the outcomes of its coming sends
(sent, would block, interrupted), and a timer is a flag with a step that fires it. Random bytes and
the digest that masks ids are arbitrary.

## Where the code differs from what one would claim

- `send_later` re-arms the inactivity timer even when it finds the queue empty and the request stays
  parked (src/polling.c:440-441; the queue can be acknowledged away by a POST while the watcher is
  pending). If that timer then fires, the assertion in `free_comet` (src/polling.c:232) fails.
  `QuietUnlessStaleIdle` says which step starts it, `BrokenExactly` that the assertion fails in exactly
  the runs in which the timer fires after such a step and before anything answers or removes the
  waiting request, and `StaleIdleBreaks` gives a run.
- A message request with an input format other than "single" releases the parked request and is then
  refused (src/polling.c:563-565), which leaves the connection without an inactivity timer:
  `DisarmedRun` is a run from the start that gets there, `ArmedUnlessDisarmed` says which step does it,
  and `UnarmedExactly` in which runs the connection is left so.
- A request that closes the stream, or acknowledges wrongly, first releases the one that waits
  (src/polling.c:541-547). So that one is told nothing of the end: `EmptyThoughClosed`. `WaitingIsAnswered` says
  that a waiting request gets the close mark exactly when the stream closes on behalf of no such request.
- A batch names the index of the newest message in the queue even when the limit cut the batch
  (src/polling.c:403). `BatchIndexIsExact`: acknowledging it removes exactly the batch if and only if
  the limit did not cut it. `CutBatchLoses` is a run from the start in which an accepted message is
  acknowledged away and was in no reply. `MissedExactly` says over all runs when that
  happens: exactly when an acknowledgement goes beyond what replies have carried, which takes a cut batch
  (`OverreachIsCut`), but not every acknowledgement of one (`CutBatchHarmless`).
- The script takes a response for news whenever its index differs from the last one
  (examples/ws.js:158). A message that the page sends while a poll is under way opens a second request,
  and when the two answers overtake each other the page is given an old message again: `StaleRun` is such
  a run from the start. `ExactlyOnceInOrder`: the page is given the messages 1, 2, 3 and so on, each
  once, exactly in the runs in which no response arrives with an index below the last one.
  `OldestFirstIsInStep`: none does when responses arrive as written. `AtLeastOnce`: in all runs nothing is
  skipped or lost, only repeated.
- `sieve_get` lets a slot number equal to the capacity through (src/sieve.c:53). The model returns
  `PastEnd`, and `OutOfBounds` for a reply that names that slot. `PastEndId`: there are bytes of the length of
  an id that do so, whatever is registered.
- `backend_send` pushes with a bound when it is told to force, and without one otherwise
  (src/websocket.c:168-172). So a forced disconnect is refused by a full queue, and nothing else is.
  `LostDisconnect` is a run from the start after which no backend hears of a connection's end, and
  `EndIsToldExactly` says over all runs whose ends are told: those for which the socket was willing or had room.
- doc/proto.rst gives "connect" no further parts, but a queued connect that is drained after a cookie
  was set carries the cookie (src/websocket.c:105-111). `PartsAreUnderstood` covers both forms.
- The browser script sets `readyState` to a constant that it does not define (examples/ws.js:108), so
  a connection never reads as open; the model keeps the closed flag only.

## Model

| member | source | states |
|---|---|---|
| TopicGraph.Route.FindTopic | src/websocket.c:388-438 | the lookup finds the topic of that name whatever the hash collisions; a missing one is created when asked for, in the bucket of its hash, without disturbing the others |
| TopicGraph.Route.AddTopic | src/websocket.c:376-386 | a new topic has an unused name and is linked into its bucket; only it lacks subscribers |
| TopicGraph.Route.FirstTopic | src/websocket.c:388-410 | the bucket table comes into being with the first topic, and the counters are right |
| TopicGraph.Route.Subscribe | src/websocket.c:440-457 | adds the pair to the relation; a second subscription adds no second node and no count |
| TopicGraph.Route.Unsubscribe | src/websocket.c:459-477 | removes the pair, reports whether it was there, and frees the topic with its last subscriber |
| TopicGraph.Route.FreeTopic | src/websocket.c:36-51 | all pairs of the topic go, from both families of lists, and the counters follow |
| TopicGraph.Route.CancelAll | src/websocket.c:36-45 | the loop with the saved successor unlinks every node of the topic, whatever connections hold them |
| TopicGraph.Route.Clone | src/websocket.c:520-530 | the target's subscribers become the union, also when source and target are one topic |
| TopicGraph.Route.CancelHeld | src/websocket.c:188-200 | walks a connection's own list, unlinks every node and frees the topics that become empty |
| TopicGraph.Route.Stop | src/websocket.c:184-200 | exactly the pairs of the connection go; every other topic keeps its list in order |
| TopicGraph.Route.Deliver | src/websocket.c:479-499 | the successor saved before a send that closes the receiver is still in the list afterwards |
| TopicGraph.Route.Publish | src/websocket.c:479-499 | one attempt to each connection subscribed at the start, in list order, even when attempts overflow receivers, remove their nodes and free the topic; exactly the overflown connections go |
| TopicGraph.Route.NodesOf | src/websocket.c:479-499 | a topic's list names each subscribed connection once |
| TopicGraph.Route.CloneCommand | src/websocket.c:599-615 | clone by names: an unknown source changes nothing, an unknown target is created |
| TopicGraph.Route.DropCommand | src/websocket.c:616-622 | drop by name removes all pairs of that name |
| TopicGraph.Route.PublishCommand | src/websocket.c:570-580 | publish by name reaches exactly the connections related to the name |
| TopicGraph.Route.Execute | src/websocket.c:542-757 | every command on topics, and a client's coming and going, has the effect of set operations on the relation; subscribing adds the pair, unsubscribing removes it, and unknown names have none |
| TopicGraph.Route.ExecuteAll | src/websocket.c:532-757 | any run of commands, with connections that come and go, refines the relation and keeps the invariant: both lists agree, names unique, buckets right, no topic empty, all statistics equal to the real counts |
| TopicGraph.SubscribedAreReached | src/websocket.c:544-569 | after a subscribe a publish reaches the client beside whomever it reached before, after an unsubscribe everyone but the client, and under other names nothing changes |
| TopicGraph.ReachedExactly | src/websocket.c:544-622 | in every run from the start, a publish reaches a client under a name if and only if the last event that touched the two added it: a subscribe or a clone, as against an unsubscribe, a drop, the client's end or an overflow |
| TopicGraph.RunsStayLive | src/websocket.c:184-200 | in every run only connected connections occur in the relation, and only opened ones are connected |
| TopicGraph.CloneThenDropRenames | src/websocket.c:520-530 | clone and drop together rename a topic or join it to an existing one, and empty it when both names are one |
| SubscriptionGraph.AttachedLinked | src/websocket.c:440-457 | linking a node into both lists keeps the structure |
| SubscriptionGraph.DetachedLinked | src/websocket.c:459-477 | unlinking a node from both lists keeps the structure up to its topic becoming empty |
| SubscriptionGraph.WithTopicLinked | src/websocket.c:376-386 | a new topic keeps buckets and names right |
| SubscriptionGraph.OthersOfWalk | src/websocket.c:479-499 | removing the receiver's nodes from a list that is being walked removes one node at the place of the walk, so the rest is what was saved |
| CometStream.RunSound | src/polling.c:487-606 | over all runs the queue is bounded, a parked request with messages has its answer scheduled, and a closed stream keeps nothing |
| CometStream.EveryRequestIsHandledOnce | src/polling.c:487-606 | requests are conserved: each that arrived is answered once, aborted once, or parked |
| CometStream.ReceiveSound | src/polling.c:541-597 | whatever branch one request takes, the queue stays bounded, a parked request with messages has its answer scheduled, and a closed stream keeps nothing |
| CometStream.ReceiveHandles | src/polling.c:541-604 | one request adds itself once to what was handled or waits, whatever branch it takes |
| Replies.WaitingIsAnswered | src/polling.c:214-321 | a request that waits is answered with messages by the watcher, with nothing by its timer or by a request that takes its place, and with the close mark when the stream closes otherwise; by nothing else |
| Replies.WaitedRightly | src/polling.c:214-321 | the same over all runs: no request that waited is ever failed |
| Replies.EmptyThoughClosed | src/polling.c:541-557 | a run from the start in which the stream closes and the waiting request gets an empty answer |
| Replies.ArrivalIsAnswered | src/polling.c:508-606 | whether a request is told at once, and what, or waits, and whether its body is forwarded, by its fields and those of the stream |
| Replies.AcknowledgedExactly | src/polling.c:323-345 | a right acknowledgement moves the first index past itself and drops exactly what it covers |
| Replies.AnsweredFromHead | src/polling.c:360-442 | a request that waits is answered from the head of the queue, in its own format and up to its own limit |
| Replies.ClosedExactly | src/polling.c:230-345 | what closes a stream, and that nothing else does |
| Replies.NobodyWaitsForever | src/polling.c:568-597 | in every run a request that waits has a timer or an answer coming |
| CometStream.ArmedUnlessDisarmed | src/polling.c:563-565 | nobody waiting implies that the inactivity timer runs, after every step but one kind, which is described exactly |
| CometStream.UnarmedExactly | src/polling.c:541-597 | over all runs, a stream is left without both a waiting request and a timer if and only if some step disarmed it and nothing since parked a request or closed it |
| CometStream.DisarmedRun | src/polling.c:563-565 | a run from the start that leaves an open stream so: one request waits, then a message request in an unsupported format |
| CometStream.QuietUnlessStaleIdle | src/polling.c:436-442 | a waiting request implies that the inactivity timer is off, unless the watcher fires on an emptied queue; both directions |
| CometStream.BrokenOnlyByStaleIdle | src/polling.c:230-244 | the assertion of free_comet holds in all runs without that step |
| CometStream.BrokenExactly | src/polling.c:313-345 | over all runs, the assertion of free_comet fails if and only if, after the watcher fired on an emptied queue, the inactivity timer fires before any event that answers or removes the waiting request |
| CometStream.LoudExactly | src/polling.c:436-442 | as long as nothing failed, the inactivity timer runs beside a waiting request if and only if a stale idle lingers |
| CometStream.LoudUnlessRelieved | src/polling.c:214-267 | which events end that: those whose guards let them answer or remove the waiting request, no others |
| CometStream.StaleIdleBreaks | src/polling.c:313-321 | and a run with it in which the assertion fails |
| CometStream.BatchIndexIsExact | src/polling.c:394-404 | the last index that one batch names acknowledges exactly the batch if and only if the limit did not cut it |
| CometStream.CutBatchLoses | src/polling.c:394-404 | a run from the start in which two messages are accepted, one is sent, both are acknowledged and the second was in no reply |
| Batches.MissedExactly | src/polling.c:323-442 | over all runs and for any clients, a message that was dropped as acknowledged was in no reply if and only if some acknowledgement that was taken went beyond what replies had carried |
| Batches.RunOrdered | src/polling.c:360-442 | over all runs, every reply with messages carries the accepted messages from its first index on, and the queue is what is left of them |
| Batches.SendsIsReply | src/polling.c:360-442 | no other step writes a reply with messages |
| Batches.OverreachIsCut | src/polling.c:394-404 | a client that acknowledges what a reply names goes too far only if the reply was cut |
| Batches.UncutMissesNothing | src/polling.c:394-404 | over all runs in which no batch is cut, a client that acknowledges what replies name misses nothing |
| Batches.CutBatchMisses | src/polling.c:394-404 | a run from the start in which a client that acknowledges what the reply names misses a message |
| Batches.CutBatchHarmless | src/polling.c:394-404 | and one in which it misses none, because an earlier reply had carried all |
| Comet.Connection.EmptyReply | src/polling.c:214-228 | answers the parked request, stops its timer and unparks it |
| Comet.Connection.FreeComet | src/polling.c:230-244 | stops all timers, empties the stream, and breaks if a request is parked |
| Comet.Connection.Close | src/polling.c:262-267 | answers the parked request with the close mark and stops the stream |
| Comet.Connection.MoveQueue | src/polling.c:323-345 | refuses an acknowledgement past the queue, else drops exactly the covered messages from the head and moves the first index |
| Comet.Connection.SendLater | src/polling.c:360-442 | the watcher answers from the head of the queue, one message or a batch cut to the limit |
| Comet.Connection.Wait | src/polling.c:568-597 | parks a request with its format and its limit, and schedules or times its answer |
| Comet.Connection.Request | src/polling.c:508-606 | the whole of a request refines the state machine's step |
| Comet.Connection.Send | src/polling.c:609-625 | queues a message, or closes the connection when the queue is full |
| Comet.Connection.PollingTimeout | src/polling.c:302-311 | the request timer refines its step, which answers the request with nothing |
| Comet.Connection.RequestAborted | src/polling.c:289-300 | an abort refines its step |
| Comet.Connection.InactivityTimeout | src/polling.c:313-321 | the inactivity timer refines its step |
| Comet.Connection.HandleAll | src/polling.c:289-625 | all runs of the callbacks refine the state machine and stay sound |
| PollingClient.HTTPPolling.RequestNext | examples/ws.js:124-133 | a request carries the index of the last message as its acknowledgement |
| PollingClient.AskSends | examples/ws.js:124-133 | the fields of a request: the last index, the page's own message, one message at most |
| PollingClient.HTTPPolling.MessageReq | examples/ws.js:135-174 | a response delivers its message only if its index is new, and is followed by a request if none is under way |
| Delivery.ExactlyOnceInOrder | examples/ws.js:124-174 | whatever happens to requests and responses, the page is given the messages 1, 2, 3 and so on, each once, if and only if no stale response arrives; it then has a prefix of the accepted messages, and the rest is still queued while the server keeps the connection |
| Delivery.AtLeastOnce | examples/ws.js:124-174 | in every run, also with stale responses, the page is given accepted messages under their own indexes, all up to the newest one and none before those before it, and the rest is still queued while the server keeps the connection |
| Delivery.OldestFirstIsInStep | examples/ws.js:152-162 | when responses arrive in the order in which they were written, none is stale |
| Delivery.StaleRun | examples/ws.js:152-162 | a run from the start in which two answers overtake each other and the page is given the first message twice |
| Delivery.AcksAreRight | src/polling.c:323-331 | in every run, no acknowledgement of this client, delivered at any time and any number of times, takes the "wrong ack" branch, and it never gets a reply that it does not understand |
| Delivery.AlwaysAsking | examples/ws.js:135-174 | the client counts its requests right and always has one under way until a request fails |
| Delivery.AsksWhileOpen | examples/ws.js:135-174 | in every run in which the page gives no request up itself, the client is not closed and has a request under way as long as the server keeps the connection |
| Delivery.SayIsForwarded | examples/ws.js:176-178 | what the page sends is forwarded when its request arrives at an open server |
| Delivery.NeverStuck | src/polling.c:360-442 | from every reachable state with a message that the page was never given and an open server, some continuation delivers it |
| Delivery.TraceGood | src/polling.c:487-625 | every world of every run keeps the protocol invariant: what the server dropped the page was given, acknowledgements never run ahead, and messages under way are accepted ones under their own index |
| Delivery.NextGood | src/polling.c:487-625 | every action of server, client and network keeps the protocol invariant |
| Delivery.AckIsCovered | src/polling.c:323-331 | an acknowledgement of the client covers messages that the queue still has or that are gone already |
| Delivery.PollSends | src/polling.c:541-597 | one more poll brings the first message that the server has kept, or the one after it, onto the network |
| Delivery.RoundDelivers | src/polling.c:360-442 | one poll, one answer and its arrival give the page that message |
| Runs.InsertBeside | src/websocket.c:679-693 | inserting an equal key next to an old one keeps runs whole |
| Runs.EndsAreDistinct | src/websocket.c:201-214 | in whole runs, taking the last of each run takes each key once |
| Runs.StartsAreDistinct | src/websocket.c:824-840 | in whole runs, skipping repetitions of the last key takes each key once |
| OutputLinks.LinkedSocketRuns | src/websocket.c:679-693 | a new node after the last one for its socket, or at the head, keeps a connection's list in runs by socket |
| OutputLinks.LinkedOwnerRuns | src/websocket.c:679-693 | the same insertion keeps the socket's list in runs by connection |
| OutputLinks.UnlinkedTied | src/websocket.c:702-708 | removing a node keeps both lists tied and in runs |
| Outputs.Switchboard.Survey | src/websocket.c:648-657 | one pass finds the output with the prefix and the last one for the socket |
| Outputs.Switchboard.AddOutput | src/websocket.c:623-694 | afterwards the prefix is routed to the socket and everything else as before: new prefix, re-targeted prefix and same prefix alike |
| Outputs.Switchboard.DelOutput | src/websocket.c:696-716 | the prefix is not routed any more and everything else is |
| Outputs.Switchboard.Unroute | src/websocket.c:201-214 | the loop that sends on the last of a run tells the ends of the runs |
| Outputs.Switchboard.Stop | src/websocket.c:201-214 | tells each distinct socket that the connection's outputs name exactly once, and drops exactly its routes |
| Outputs.Switchboard.ExecuteAll | src/websocket.c:623-716 | any run in which connections open, outputs are bound, added, deleted and connections stop acts as on a plain table and keeps the runs whole |
| Outputs.OneSocketPerPrefix | src/websocket.c:648-676 | in every run from an empty board a prefix of a connection has at most one socket, and only open connections and bound sockets occur |
| Outputs.RoutedExactly | src/websocket.c:623-716 | in every run from an empty board, a prefix is routed to a socket if and only if the last event that touched the prefix routed it there |
| Outputs.PairsAt | src/websocket.c:824-840 | a sync has the uid and the cookie, or nothing for it, of each connection |
| Outputs.Switchboard.Resolve | src/websocket.c:337-343 | a message goes to the socket of the first output in the list whose prefix it matches, no earlier one matching, or of none if and only if none matches |
| Outputs.MatchesExactly | src/websocket.c:339-340 | a message matches a prefix if and only if it is long enough and begins with the prefix up to and including its first NUL byte |
| Outputs.Switchboard.SyncedOnce | src/websocket.c:809-843 | the connections named by a sync are those with a route to the socket, each once |
| Outputs.Switchboard.SendSync | src/websocket.c:809-843 | the deferred sends put instance id, "sync", then uid and cookie for each of them in list order on the socket's wire, with the more flag on all frames but the last, and nothing for an empty list or an unwilling socket |
| Multipart.WireIsReadBack | src/websocket.c:73-125 | frames with more flags are put together again as the messages that were sent |
| Multipart.PartsAreUnderstood | src/websocket.c:84-123 | from the parts of a message a backend tells the connection and what happened, with and without a cookie |
| Multipart.PartsPlainly | src/websocket.c:84-123 | the parts of connect, disconnect and messages, with and without a cookie, in letters |
| Multipart.CookieIsCarried | src/websocket.c:105-111 | the cookie of a connection is in every message about it |
| Multipart.SyncSaysNothing | src/websocket.c:809-843 | a backend does not take a sync message for one about a connection |
| Backend.SendReal | src/websocket.c:73-125 | one attempt puts all frames of a message on the wire or none |
| Backend.PeerReadsWhatWasSent | src/websocket.c:73-182 | a peer that puts the frames together again hears, id by id and in order, exactly what the socket sent, which is the beginning of what it accepted; sync messages in between do not disturb it |
| Backend.Forwarding.Send | src/websocket.c:153-182 | a message goes out at once if and only if nothing is paused or queued and the next attempt that is not interrupted sends, else it is queued; it is refused only if forced when the queue has no room |
| Backend.Forwarding.Unqueue | src/websocket.c:127-150 | drains exactly as many messages as the socket is willing to take, oldest first, interruptions retried, and none while paused |
| Backend.Forwarding.DrainOne | src/websocket.c:138-149 | a sent head leaves the queue, and its connection is freed when that was all that held it |
| Backend.Forwarding.Start | src/websocket.c:249-279 | the connect message is accepted on the forward socket, whatever its state |
| Backend.Forwarding.Forward | src/websocket.c:351-354 | a message to a given socket is accepted, sent at once or queued behind the others; no other socket changes |
| Backend.Forwarding.Tell | src/websocket.c:201-214 | each told socket takes one disconnect unless its queue is full, and no other socket changes |
| Backend.Forwarding.Stop | src/websocket.c:184-216 | all sockets afterwards: the forward socket and the told ones took the disconnect if they had room, and the connection's own reference is given up |
| Backend.Forwarding.Pause | src/websocket.c:979-984 | pausing sends nothing; resuming drains every socket as far as it is willing; the same state again changes nothing |
| Backend.Forwarding.Execute | src/websocket.c:718-730 | one event has its effect on the sockets, and a cookie is set by its own event only and then stays |
| Backend.Forwarding.ExecuteAll | src/websocket.c:127-216 | any run of starts, messages, ends, drains, pauses and resumes over sockets that may be unwilling at any time keeps counts, logs and stories right and goes as it does on values; what was sent or accepted stays so, and from a paused state without a resume nothing is sent |
| Backend.Forwarding.constructor | src/websocket.c:988-999 | sockets without traffic establish the invariant |
| Ports.RunGrows | src/websocket.c:127-182 | over all runs every socket's log only grows, sent items stay sent, and more is never sent than accepted |
| Ports.PausedSendsNothing | src/websocket.c:127-182 | over all runs without a resume a paused route sends nothing |
| Ports.ResumeEmpties | src/websocket.c:979-984 | resuming empties the queue of a socket that is willing enough |
| Ports.NothingAfterTheEnd | src/websocket.c:184-216 | over all runs, on every socket nothing of a connection follows its disconnect, so there is at most one, and only of a stopped connection |
| Ports.EndIsHeard | src/websocket.c:153-182 | a connection's end appends its disconnect to the log of a socket that is told if and only if fewer messages than its capacity are queued, or nothing is paused or queued and the first outcome that is no interruption is a send |
| Ports.EndWhilePaused | src/websocket.c:154-181 | the disconnect of a connection that ends while paused is queued where there is room and goes out at a willing resume |
| Ports.SentAtOnce | src/websocket.c:153-174 | a message goes out at once if and only if nothing is paused or queued and the first outcome that is no interruption is a send |
| Ports.WillingExactly | src/websocket.c:127-150 | a socket takes as many messages as attempts succeed before the first that would block |
| Ports.DrainedExactly | src/websocket.c:127-150 | after a drain nothing is queued or the socket took all that it would |
| Ports.EventPlainly | src/websocket.c:127-279 | what each event adds to each log, and who is known, running and paused after it |
| Ports.LostDisconnect | src/websocket.c:165-174 | a run from the start after which a connection has ended and no socket was told |
| Backend.Forwarding.InMemoryWhileNeeded | src/websocket.h:12-13 | a connection is in memory if and only if it was not stopped or some queued message names it |
| Backend.Forwarding.StoryOnTheWire | src/websocket.c:184-279 | on the forward socket every connection's story is connect, messages, and at most one disconnect, which is last; when its id is its own, what a reader of the frames hears under that id is a prefix of the story |
| Backend.EnqueuedBalanced | src/websocket.c:176-181 | queueing keeps counts equal to references and the statistics equal to the queue sizes |
| Backend.DequeuedBalanced | src/websocket.c:145-148 | so does removing the head, and nothing queued names a freed connection |
| Backend.StoppedBalanced | src/websocket.c:215-215 | so does giving up the own reference |
| Backend.KeptWhileNeeded | src/websocket.h:12-13 | in balanced books a connection is kept exactly while it runs or is referred to |
| MsgQueue.Pool.Alloc | src/pool.c:24-32 | hands out the node freed last, or a new one when none is kept |
| MsgQueue.Pool.Free | src/pool.c:33-41 | keeps a node unless enough are kept |
| MsgQueue.Queue.Push | src/msgqueue.c:22-25 | refuses at the capacity, else links a node that no queue holds |
| MsgQueue.Queue.ForcePush | src/msgqueue.c:27-33 | appends a node that was free or is new, whatever the capacity |
| MsgQueue.Queue.Remove | src/msgqueue.c:35-39 | unlinks the item and keeps free list and all queues disjoint |
| MsgQueue.Queue.RemoveFirst | src/polling.c:333-343 | removal while walking, with the successor read before the node is freed, drops exactly the head part |
| MsgQueue.Queue.FreeQueue | src/msgqueue.c:14-20 | gives the nodes of an abandoned queue back: the pool keeps as many of the first ones as it has room for, in reverse, and the other queues stay intact |
| MsgQueue.ExecuteAll | src/msgqueue.c:22-39 | over all runs, queues that share a pool behave as independent sequences of messages, and no node is in two places |
| MsgQueue.QueuesAreIndependent | src/msgqueue.c:22-39 | what a queue holds after a run depends on the operations on that queue alone |
| Sieve.Sieve.FindHole | src/sieve.c:8-33 | fails, with nothing changed, if and only if all slots are taken; else takes the first free slot in circular order from the cursor, with the next serial number |
| Sieve.NearestInScans | src/sieve.c:8-33 | the slot that is taken: all others are taken from the cursor to it, or to the end and from the beginning to it |
| Sieve.Sieve.Full | src/sieve.c:48-50 | the counter says full if and only if every slot is taken |
| Sieve.Sieve.Get | src/sieve.c:52-57 | what a slot number finds, including the one that passes the test and should not |
| Sieve.Sieve.Empty | src/sieve.c:59-63 | frees one slot and counts it |
| Sieve.NearestIsUnique | src/sieve.c:8-33 | circular order determines the slot |
| Sieve.ReusedLast | src/sieve.c:8-33 | between two allocations of one slot, every other slot was found taken by the cursor or handed out |
| Sieve.Sieve.Perform | src/sieve.c:8-63 | any run of allocations and releases on the array is such a history of the cursor |
| Identity.UidInjective | src/uidgen.c:36-58 | an id determines slot, serial number and random bytes |
| Identity.UidPieces | src/uidgen.h:7-10 | instance, slot number, serial number and random bytes are read back from the bytes of an id |
| Identity.StoredPlainly | src/uidgen.c:36-58 | numbers stand in an id with the least significant byte first |
| Identity.Registry.Register | src/uidgen.c:36-58 | gives an object a slot and a fresh serial number, and fails only when every slot is taken |
| Identity.Registry.VacancyExactly | src/sieve.c:48-50 | there is a free slot if and only if fewer objects are registered than there are slots |
| Identity.Registry.Find | src/websocket.c:358-365 | returns an object if and only if the bytes are the id of that object, which is still registered |
| Identity.Registry.PastEndId | src/sieve.c:52-57 | bytes of the length of an id with the capacity for a slot number are looked up past the end |
| Identity.Registry.All | src/websocket.c:512-516 | a walk over the slots meets every registered object once |
| Identity.Registry.Unregister | src/websocket.c:184-185 | the object is not found any more, and there is a free slot |
| Identity.AlikeOnlyAfterWrap | src/sieve.c:8-33 | two issued ids are equal only a whole number of serial cycles apart |
| Identity.Registry.StaleIdFindsNobody | src/websocket.c:358-365 | before the serial number wraps, the id of a removed object leads to nobody, however often its slot was used again |
| Identity.Registry.SameIdSameNumber | src/websocket.c:358-365 | before the serial number wraps, a found object is the one that the id was issued to |
| Gateway.Boot | src/websocket.c:988-999 | a server that comes up has a gateway whose pieces are consistent, agree and know nobody |
| Gateway.Gateway.StartConnection | src/websocket.c:249-279 | fails if and only if no slot is free; else the connection has an id, is open for topics and outputs and is announced, on the forward socket only |
| Gateway.Gateway.Say | src/websocket.c:332-356 | a message goes to the socket of an output whose prefix it matches, or else to the forward socket |
| Gateway.Gateway.Depart | src/websocket.c:184-216 | the end of one connection beside the topics: found by no id, routed nowhere, its distinct named sockets told |
| Gateway.Gateway.Command | src/websocket.c:479-622 | a command on topics, or a client's going: every connection that it stops, by overflow in the middle of a publish or by itself, leaves registry, topics, outputs and sockets, each once |
| Gateway.Gateway.RouteCommand | src/websocket.c:623-716 | adding or deleting an output changes the table for its prefix only, and no socket hears of it |
| Gateway.Gateway.SyncOutput | src/websocket.c:809-843 | the sync timer puts its message on the wire of a socket that also carries backend messages, and nothing else changes |
| Gateway.Gateway.Execute | src/websocket.c:184-757 | one event of clients, backends, timers or sockets has its effect on all pieces together and keeps them in agreement; a sync timer's event adds its message to the wire |
| Gateway.Gateway.ExecuteAll | src/websocket.c:184-757 | any run of such events goes as it does on values, and the invariant of registry, topics, outputs and sockets holds all along |
| Gateway.Gateway.HeardUnderItsId | src/websocket.c:73-279 | before the serial number wraps, what a reader of the forward socket's wire hears under the id of a connection is a prefix of connect, its messages in order, and at most one disconnect |
| Frontends.Hub.PublishTo | src/websocket.c:479-499 | each polling subscriber's stream gets the message, or closes if its queue is full and takes its connection out of the gateway; no other stream changes |
| Frontends.Hub.SendTo | src/websocket.c:582-598 | a message to one connection |
| Frontends.Hub.SendToAll | src/websocket.c:501-518 | a message to every connection, found by the walk over the slots |
| Frontends.Hub.Poll | src/polling.c:230-345 | a request or a timer of one stream; a body that is let in goes to the backend, and when the stream closes the connection leaves registry, topics, outputs and sockets |
| Frontends.Hub.Accept | src/polling.c:444-463 | a polling client gets a connection and an empty stream, unless every slot is taken |
| Frontends.Hub.ExecuteAll | src/websocket.c:184-757 | any run of clients that poll, come and go, and backends that publish and send, goes as it does on values, with streams, topics, outputs and sockets in agreement all along |
| Frontends.MovesAgree | src/polling.c:230-267 | after every event a polling client's connection is connected if and only if its stream is open, and every stream is sound |
| Frontends.MessageIsQueued | src/polling.c:609-625 | a message that is published to a polling client's topic, sent to it or to all is queued for it and it stays connected, or its queue is full and it is not connected any more; other streams stay |
| Frontends.MessageToSockets | src/websocket.c:281-297 | a WebSocket leaves the gateway on a message if and only if the message is for it and closes it |
| Frontends.ComingHasStream | src/polling.c:444-463 | who comes to a free slot has an empty stream and is connected, and nobody else |
| Frontends.OthersPass | src/websocket.c:346-356 | everything else goes to the gateway as it is |
| Bodies.BodyIsSaid | src/polling.c:560-562 | a request with a body that is let in has the gateway say that body |
| Bodies.BodiesReachSockets | src/polling.c:270-287 | in every run, what the sockets are given of a client are exactly the bodies of its requests that were let in, or the messages of its WebSocket, each once and in order; and each socket accepts exactly those that go to it, in that order |
| Frontends.EachStreamAlone | src/polling.c:487-625 | in every run a stream is exactly what the events that concern it make of it, whatever happens to the others, so that all facts about runs of streams hold for it |
| Pages.OneServer | examples/ws.js:124-174 | in every run of a page and the gateway, the server of the page is the stream of its connection |
| Pages.NothingIsLost | examples/ws.js:124-174 | in every such run, each message that was sent to the page's connection was given to the page or is in its queue, in order, as long as it is connected |
| Pages.SentIsAccepted | src/websocket.c:281-297 | what counts as sent are exactly the published and sent messages that reach the connection, but for one that finds the queue full |
| Pages.OnceUnlessStale | examples/ws.js:152-162 | and each is given once and in order if and only if no stale response arrives at the page |
| Lifecycle.IdsDiffer | src/uidgen.c:36-58 | before the serial number wraps, all connections ever started have different ids |
| Lifecycle.StepHealthy | src/websocket.c:184-757 | after every event only connected clients occur in topics and outputs, and sockets hear nothing of a connection after its disconnect |
| Lifecycle.EndedExactly | src/websocket.c:184-216 | the connections that are gone after an event are exactly those that it ends, each by one end |
| Lifecycle.GoneForGood | src/websocket.c:184-216 | in every run a connection that is gone comes back to no topic and no output, and no socket accepts anything of it any more |
| Lifecycle.ToldExactly | src/websocket.c:184-216 | over all runs of the sockets, the story of an ended connection ends in a disconnect if and only if, when it ended, the queue had room, or nothing was paused or queued and the socket was willing |
| Lifecycle.EndIsToldExactly | src/websocket.c:184-216 | the same over all runs of the gateway, for every connection that goes by itself or by overflow, on the forward socket and on those that it was routed to |
| Lifecycle.TopicEventsPass | src/websocket.c:544-622 | what each command makes of each pair of client and name, in the gateway |
| Lifecycle.RouteEventsPass | src/websocket.c:623-716 | what adding and deleting an output makes of each route, in the gateway |
| Lifecycle.SocketEventsPass | src/websocket.c:127-150 | pauses, drains and cookies reach the sockets as they are |
| Lifecycle.PausedIsSilent | src/websocket.c:950-986 | in every run of a paused gateway without a resume, whatever clients and backends do, nothing that was accepted goes out |
| HttpForward.Forwarder.HttpRequest | src/http.c:408-422 | a request is forwarded under a new id and timed, or answered at once when the send fails, or not taken when no slot is free |
| HttpForward.Forwarder.DoForward | src/http.c:297-335 | an accepted send is one more attempt under the current id; a refused one is the answer |
| HttpForward.Forwarder.RequestTimeout | src/http.c:337-368 | gives up after the configured count, else forwards once more, under the old id or under a newer one as the mode says |
| HttpForward.Forwarder.Renew | src/http.c:356-359 | taking a slot right after releasing one cannot fail |
| HttpForward.Forwarder.HttpProcess | src/http.c:48-148 | a reply answers exactly the request that has the id now, which was not answered before, with what the parts behind the id, and behind the empty part where there is one, convey; no other request changes |
| HttpForward.ReadReply | src/http.c:77-131 | status line, headers and body are there or not as the number of parts says, the date and the route's own headers are added, a missing status is "200 OK", and too many parts are answered with an internal error |
| HttpForward.RestExactly | src/http.c:69-77 | the rest of a reply is what follows the id and the empty part that some sockets ask for; replies of other shapes have none |
| HttpForward.AnswerByShape | src/http.c:77-131 | the answers to one, two, three and more parts, by the parts |
| HttpForward.Forwarder.RequestFinish | src/request.c:16-24 | gives slot and timer back |
| HttpForward.Forwarder.AnsweredOnce | src/http.c:337-368 | in every reachable state a request has at most one answer and at most max(1, count) attempts, and an answered one has no id and no timer |
| HttpForward.Forwarder.ReplyToAttempt | src/http.c:60-68 | a reply to an attempt reaches its own request or nobody: that request if and only if it waits and, when retries have new ids, no later attempt was made |
| HeaderBlock.Read | src/http.c:89-113 | for all bytes the scan yields headers and a rest with fewer than two NULs that make up the input, and warns if and only if the rest is not empty |
| HeaderBlock.ReadingIsUnique | src/http.c:89-113 | this decomposition is unique, so the scan's result is determined |
| HeaderBlock.Write | src/disk.c:329-349 | the bytes written fill the size computed beforehand, with and without gzip, are name and value of each header with a NUL behind each, and are the block of the file's headers |
| HeaderBlock.ReadBack | src/disk.c:476-502 | reading a written block gives exactly its headers and no warning |
| HeaderBlock.Serve | src/disk.c:329-502 | writer and reader together |
| ConnectionId.PrintedIsDecoded | src/polling.c:465-482 | for any mask function, decoding a printed id gives the uid |
| ConnectionId.DecodedIsPrinted | src/polling.c:62-100 | printing the uid of an accepted id gives that id, so ids and uids are one to one |
| ConnectionId.MaskedTwice | src/polling.c:89-99 | the mask is computed from bytes that it leaves alone, so it undoes itself |
| ConnectionId.PrintId | src/polling.c:465-482 | the loops fill the buffer with the printed id |
| ConnectionId.PrintedPlainly | src/polling.c:465-482 | each byte is two upper-case digits, the first 32 of them masked |
| ConnectionId.ReadId | src/polling.c:62-100 | accepts exactly 80 upper-case hexadecimal digits and decodes them in place |
| Resp.EncodeCommand | examples/tabbedchat/tabbedchat/redis.py:9-18 | appends the array of bulk strings of the parts |
| Resp.CommandBytes | examples/tabbedchat/tabbedchat/redis.py:9-18 | the bytes of a command: the number of parts, and each part with its length |
| Resp.ReadPrinted | examples/tabbedchat/tabbedchat/redis.py:55-75 | reading a printed reply gives it back and leaves exactly what follows |
| Resp.CommandReadBack | examples/tabbedchat/tabbedchat/redis.py:9-75 | a command is read back as its parts, any number of them and any bytes in them |
| Resp.CommandsReadBack | examples/tabbedchat/tabbedchat/redis.py:43-47 | a server that reads a bulk gets all commands in order |
| Resp.Redis.ReadLine | examples/tabbedchat/tabbedchat/redis.py:77-87 | the line before the first line end of the stream, however it is cut into pieces, also between the two bytes of a line end |
| Resp.Redis.ReadSlice | examples/tabbedchat/tabbedchat/redis.py:89-97 | exactly the asked bytes of the stream, or the end of it |
| Resp.Redis.ReadOne | examples/tabbedchat/tabbedchat/redis.py:55-75 | one reply of the stream and exactly the unread rest, or the error of a malformed or short stream |
| Resp.Redis.Execute | examples/tabbedchat/tabbedchat/redis.py:34-41 | one command out, its reply in; an error reply is raised and another one returned |
| Resp.Redis.BulkExecute | examples/tabbedchat/tabbedchat/redis.py:43-53 | all commands out at once, one reply for each in order; without an error among them they are returned, else exactly the error replies are raised, in their order |
| Resp.JudgedExactly | examples/tabbedchat/tabbedchat/redis.py:43-53 | results if and only if no reply is an error, else all errors, counted and in order |
| Resp.ParsePrinted | examples/tabbedchat/tabbedchat/redis.py:58-69 | printed numbers are read back, negative ones too |

## Left out

- TopicGraph.Route.Execute: without the decoding of commands from message parts; `send` and `sendall` are
  events of `Frontends`, and `set_cookie` is one of the sockets.
- TopicGraph.Route.ExecuteAll: likewise.
- Gateway.Gateway.Execute: likewise; which receivers overflow is given there and decided in `Frontends`;
  connections are named by object and not by the bytes of their id, whose lookup is `Registry.Find`.
- Gateway.Gateway.ExecuteAll: likewise.
- Frontends.Hub.PublishTo: takes which WebSockets close on a message as given, because their library decides
  that; it pushes to the streams after the walk over the topic, and the gateway's part of an event comes in
  one piece, since streams and the rest do not see each other. A stream whose assertion failed ends its connection.
- Gateway.Gateway.Command: takes a connection out of the topics before registry, outputs and sockets,
  while the code visits them in another order (src/websocket.c:184-216); the pieces do not see each other.
- Backend.Forwarding.Pause: the messages "ZEROGW:paused" and "ZEROGW:resumed" to frontends
  (src/websocket.c:953-977) are not sent.
- Several routes at once: the model is one route with its own statistics; the code keeps some counters globally.
- Gateway.Gateway.Say: takes every message as one for a backend, without frontend commands (messages that
  begin with "ZEROGW:", src/websocket.c:305-331), which can echo into the stream in the middle of a request.
- Comet.Connection.Request: takes every body as a message for a backend, without frontend commands; their echo
  can fill the queue in the middle of the request.
- Pings, heartbeats, idle timers of WebSocket connections.
- The parsing of request arguments other than the id, and of acknowledgements as text.
- The list format from end to end: the browser script asks for single messages only.
- The hash function of topics (src/websocket.c:367-374): any function of the name will do.
- Lookups by an id whose slot number equals the capacity: the model reports them and makes no claim
  about what is found there. Some commands read 40 bytes of a shorter part; the model takes ids whole.
- Request reference counts, and the id sent without copying (src/http.c:304): an attempt carries the
  serial number of its id at the time.
- `free_comet` leaves the nodes of its queue unreturned to the pool; the model's queue is a sequence,
  and pooled nodes are in `MsgQueue` only.
- TopicGraph.Route.Publish: takes the case of long polling, in which an overflow closes the receiver at
  once; when a WebSocket connection closes is decided by libwebsite, which is not part of this model.
- The width of `first_index`, which is a natural number here; the serial number does wrap.
- Text parts of a command, which Python encodes to bytes first.
- Out-of-memory branches, logging, configuration, statistics output, startup and shutdown, URL routing,
  static files, the chat services.
- Sieve.Sieve.Get: the slot that lies past the end is reported, because its content is not the allocator's.
