/** HTTP requests that are forwarded to a backend (src/http.c, src/request.c): matching replies by
    id, and retrying on timeouts under the first id or under a new one. */
module HttpForward {
  import opened Lists
  import opened Entities
  import opened Sieve
  import opened HeaderBlock
  import opened Identity

  datatype RetryMode = NoRetry | RetryFirst | RetryLast

  datatype Answer =
    | FromBackend(status: Bytes, headers: seq<Header>, body: Bytes)
    | GatewayTimeout
    | Unavailable
    | InternalError

  /** What the first non-blocking send of a forwarded request comes back with. */
  datatype SendResult = Accepted | Busy | Broken

  /** What becomes of a backend reply. */
  datatype Match = Answered | Orphan | OutOfBounds

  // ----- the state of the requests as a value -----

  /** The parts of a reply that follow the id, and the empty part behind it where the kind of
      socket asks for one; None when they are not there. */
  function Rest(parts: seq<Bytes>, sentinel: bool): (rest: Option<seq<Bytes>>)
    ensures rest.Some? ==> rest.value != []
  {
    if |parts| < 2 then None
    else if !sentinel then Some(parts[1..])
    else if |parts| < 3 || parts[1] != [] then None
    else Some(parts[2..])
  }

  const OK_STATUS: Bytes := [0x32, 0x30, 0x30, 0x20, 0x4f, 0x4b]

  /** What a client is sent for the rest of a reply: a status line and a header block come before
      the body if they are there, every reply gets some headers more, and with more parts than these
      the reply is no good. */
  ghost predicate Conveys(a: Answer, rest: seq<Bytes>, always: seq<Header>)
    requires rest != []
  {
    if |rest| > 3 then a == InternalError
    else
      && a.FromBackend? && a.body == rest[|rest| - 1]
      && a.status == (if |rest| > 1 then rest[0] else OK_STATUS)
      && (if |rest| == 3 then exists own, left :: Parsed(rest[1], own, left) && a.headers == own + always
          else a.headers == always)
  }

  /** What comes before the rest of a reply. */
  function Envelope(id: Bytes, sentinel: bool): seq<Bytes> {
    [id] + if sentinel then [[]] else []
  }

  ghost predicate Complete(parts: seq<Bytes>, sentinel: bool) {
    exists rest: seq<Bytes> :: rest != [] && parts != [] && parts == Envelope(parts[0], sentinel) + rest
  }

  /** An answer is what the parts behind the envelope convey. */
  ghost predicate Reads(a: Answer, parts: seq<Bytes>, sentinel: bool, always: seq<Header>) {
    exists rest: seq<Bytes> ::
      rest != [] && parts != [] && parts == Envelope(parts[0], sentinel) + rest && Conveys(a, rest, always)
  }

  /** The rest of a reply is what follows its envelope; other replies have none. */
  lemma RestExactly(parts: seq<Bytes>, sentinel: bool)
    ensures Rest(parts, sentinel).Some? <==> Complete(parts, sentinel)
    ensures forall id, rest :: rest != [] ==> Rest(Envelope(id, sentinel) + rest, sentinel) == Some(rest)
    ensures Rest(parts, sentinel).Some? ==>
      parts != [] && parts == Envelope(parts[0], sentinel) + Rest(parts, sentinel).value
  {
    forall id, rest: seq<Bytes> | rest != []
      ensures Rest(Envelope(id, sentinel) + rest, sentinel) == Some(rest)
    {
      var whole := Envelope(id, sentinel) + rest;
      assert if sentinel then whole[2..] == rest else whole[1..] == rest;
    }
    if Rest(parts, sentinel).Some? {
      var rest := Rest(parts, sentinel).value;
      assert parts == Envelope(parts[0], sentinel) + rest;
    }
  }

  /** The four shapes of a reply: a body; a status and a body; a status, headers and a body; and
      too many parts. */
  lemma AnswerByShape(a: Answer, id: Bytes, sentinel: bool, status: Bytes, block: Bytes, body: Bytes,
                      more: seq<Bytes>, always: seq<Header>)
    requires more != []
    ensures var head := [id] + if sentinel then [[]] else [];
      && (Reads(a, head + [body], sentinel, always) <==>
            a == FromBackend([0x32, 0x30, 0x30, 0x20, 0x4f, 0x4b], always, body))
      && (Reads(a, head + [status, body], sentinel, always) <==> a == FromBackend(status, always, body))
      && (Reads(a, head + [status, block, body], sentinel, always) <==>
            && a.FromBackend? && a.status == status && a.body == body
            && exists own, left :: Parsed(block, own, left) && a.headers == own + always)
      && (Reads(a, head + [status, block, body] + more, sentinel, always) <==> a == InternalError)
  {
    hide Parsed, Conveys, Reads;
    ReadsOf(a, id, sentinel, [body], always);
    ReadsOf(a, id, sentinel, [status, body], always);
    ReadsOf(a, id, sentinel, [status, block, body], always);
    ReadsOf(a, id, sentinel, [status, block, body] + more, always);
    ConveysBy(a, status, block, body, more, always);
    var head := Envelope(id, sentinel);
    assert head + [status, block, body] + more == head + ([status, block, body] + more);
  }

  lemma ReadsOf(a: Answer, id: Bytes, sentinel: bool, rest: seq<Bytes>, always: seq<Header>)
    requires rest != []
    ensures Reads(a, Envelope(id, sentinel) + rest, sentinel, always) <==> Conveys(a, rest, always)
  {
    hide Conveys;
    var whole := Envelope(id, sentinel) + rest;
    var n := |Envelope(id, sentinel)|;
    assert whole[0] == id && whole[n..] == rest;
    forall other: seq<Bytes> | whole == Envelope(whole[0], sentinel) + other ensures other == rest {
      assert whole[n..] == other;
    }
  }

  lemma ConveysBy(a: Answer, status: Bytes, block: Bytes, body: Bytes, more: seq<Bytes>, always: seq<Header>)
    requires more != []
    ensures Conveys(a, [body], always) <==> a == FromBackend([0x32, 0x30, 0x30, 0x20, 0x4f, 0x4b], always, body)
    ensures Conveys(a, [status, body], always) <==> a == FromBackend(status, always, body)
    ensures Conveys(a, [status, block, body], always) <==>
      && a.FromBackend? && a.status == status && a.body == body
      && exists own, left :: Parsed(block, own, left) && a.headers == own + always
    ensures Conveys(a, [status, block, body] + more, always) <==> a == InternalError
  {
    hide Parsed;
    var rest, long := [status, block, body], [status, block, body] + more;
    assert rest[1] == block && |long| > 3;
  }

  datatype Info = Info(
    mode: RetryMode,
    count: int,
    inSieve: bool,
    timerActive: bool,
    retries: nat,
    answers: seq<Answer>,   // what the client was sent
    attempts: seq<nat>)     // under which issued ids the request was forwarded

  datatype Desk = Desk(infos: map<Request, Info>, number: map<Request, nat>, owner: seq<Request>)

  function MaxAttempts(count: int): nat {
    if count > 1 then count else 1
  }

  /** At most one answer, after which nothing is expected any more; bounded attempts. */
  ghost predicate Bounded(i: Info) {
    && |i.answers| <= 1
    && (i.answers != [] ==> !i.inSieve)
    && (i.timerActive ==> i.inSieve)
    && |i.attempts| <= MaxAttempts(i.count)
    && (i.inSieve ==> |i.attempts| <= i.retries + 1 && (i.retries == 0 || i.retries < i.count))
  }

  /** The attempts are under one id, or each under a newer one. */
  ghost predicate Ordered(i: Info) {
    if i.mode == RetryLast
    then forall j, k :: 0 <= j < k < |i.attempts| ==> i.attempts[j] < i.attempts[k]
    else forall k :: 0 <= k < |i.attempts| ==> i.attempts[k] == i.attempts[0]
  }

  /** What the id that a request has now is to its attempts. */
  ghost predicate Current(i: Info, n: nat) {
    i.attempts != [] ==> if i.mode == RetryLast then i.attempts[|i.attempts| - 1] <= n else i.attempts[0] == n
  }

  ghost predicate Owns(owner: seq<Request>, r: Request, n: nat) {
    n < |owner| && owner[n] == r
  }

  ghost predicate OwnsAll(owner: seq<Request>, r: Request, ns: seq<nat>) {
    forall k :: 0 <= k < |ns| ==> Owns(owner, r, ns[k])
  }

  ghost predicate Fine(d: Desk) {
    && (forall r <- d.infos :: d.infos[r].inSieve <==> r in d.number)
    && (forall r <- d.infos :: Bounded(d.infos[r]) && Ordered(d.infos[r]) && OwnsAll(d.owner, r, d.infos[r].attempts))
    && (forall r <- d.number :: r in d.infos && Owns(d.owner, r, d.number[r]) && Current(d.infos[r], d.number[r]))
  }

  /** The ids of the requests that wait are those of their last attempts, but for one request. */
  ghost predicate NewestBut(d: Desk, one: Request) {
    forall r <- d.infos :: r != one && d.infos[r].inSieve ==>
      r in d.number && d.infos[r].attempts != [] && d.infos[r].attempts[|d.infos[r].attempts| - 1] == d.number[r]
  }

  lemma WaitingBounded(i: Info)
    requires Bounded(i) && i.answers == [] && |i.attempts| <= i.retries + 1 && (i.retries == 0 || i.retries < i.count)
    ensures Bounded(i.(inSieve := true))
  {
  }

  lemma PutAgain<K, V>(m: map<K, V>, k: K, v: V)
    ensures (m - {k})[k := v] == m[k := v]
  {
  }

  ghost function Updated(d: Desk, r: Request, i: Info, current: Option<nat>): Desk {
    Desk(d.infos[r := i], if current.Some? then d.number[r := current.value] else d.number - {r}, d.owner)
  }

  lemma UpdatedFine(d: Desk, r: Request, i: Info, current: Option<nat>)
    requires Fine(d) && (i.inSieve <==> current.Some?)
    requires Bounded(i) && Ordered(i) && OwnsAll(d.owner, r, i.attempts)
    requires current.Some? ==> Owns(d.owner, r, current.value) && Current(i, current.value)
    ensures Fine(Updated(d, r, i, current))
  {
    hide Bounded, Ordered, Current, Owns, OwnsAll;
  }

  lemma IssuedFine(d: Desk, r: Request)
    requires Fine(d)
    ensures Fine(d.(owner := d.owner + [r]))
  {
    hide Bounded, Ordered, Current;
  }

  lemma NewFine(d: Desk, r: Request)
    requires Fine(d) && r !in d.infos
    ensures Fine(d.(infos := d.infos[r := Info(r.mode, r.count, false, false, 0, [], [])]))
  {
  }

  lemma FineAt(d: Desk, r: Request)
    requires Fine(d) && r in d.infos
    ensures d.infos[r].inSieve <==> r in d.number
    ensures Bounded(d.infos[r]) && Ordered(d.infos[r]) && OwnsAll(d.owner, r, d.infos[r].attempts)
    ensures r in d.number ==> Owns(d.owner, r, d.number[r]) && Current(d.infos[r], d.number[r])
  {
  }

  // ----- requests -----

  /** request_t, with the retry settings of its route. */
  class Request {
    const mode: RetryMode
    const count: int
    const timeout: bool            // whether the route has a timeout
    var inSieve: bool
    var timerActive: bool
    var retries: nat
    var answers: seq<Answer>
    ghost var attempts: seq<nat>

    ghost function State(): Info
      reads this
    {
      Info(mode, count, inSieve, timerActive, retries, answers, attempts)
    }

    constructor (mode: RetryMode, count: int, timeout: bool)
      ensures State() == Info(mode, count, false, false, 0, [], [])
      ensures this.timeout == timeout
    {
      this.mode, this.count, this.timeout := mode, count, timeout;
      inSieve, timerActive, retries := false, false, 0;
      answers, attempts := [], [];
    }
  }

  class Forwarder {
    const registry: Registry<Request>
    ghost var requests: set<Request>
    ghost var owner: seq<Request>   // of every issued id

    ghost function View(): Desk
      reads this, registry, requests
    {
      Desk(map r | r in requests :: r.State(), registry.number, owner)
    }

    ghost predicate Valid()
      reads this, registry, registry.sieve, registry.sieve.items, requests
    {
      registry.Valid() && |owner| == |registry.issued| && Fine(View())
    }

    /** The id of a request that waits is the one of its last attempt. */
    ghost predicate Latest()
      reads `requests, registry`number, requests`inSieve, requests`attempts
    {
      forall r <- requests :: r.inSieve ==>
        r in registry.number && r.attempts != [] && r.attempts[|r.attempts| - 1] == registry.number[r]
    }

    ghost predicate LatestBut(one: Request)
      reads `requests, registry`number, requests`inSieve, requests`attempts
    {
      forall r <- requests :: r != one && r.inSieve ==>
        r in registry.number && r.attempts != [] && r.attempts[|r.attempts| - 1] == registry.number[r]
    }

    lemma ButOne(r: Request)
      ensures Latest() ==> LatestBut(r)
      ensures LatestBut(r) && !r.inSieve ==> Latest()
    {
    }

    /** The invariant between two events of the loop. */
    ghost predicate AtRest()
      reads this, registry, registry.sieve, registry.sieve.items, requests
    {
      Valid() && Latest()
    }

    constructor (instance: Bytes, size: nat)
      requires |instance| == IID_LEN && size < WRAP
      ensures AtRest() && requests == {}
      ensures fresh(registry) && fresh(registry.sieve) && fresh(registry.sieve.items)
    {
      registry := new Registry<Request>(instance, size);
      requests, owner := {}, [];
      new;
      registry.Keys();
    }

    lemma At(r: Request)
      requires Valid() && r in requests
      ensures r.inSieve <==> r in registry.uids
      ensures registry.number.Keys == registry.uids.Keys
      ensures Bounded(r.State()) && Ordered(r.State()) && OwnsAll(owner, r, r.attempts)
      ensures r.inSieve ==>
        r in registry.number && Owns(owner, r, registry.number[r]) && Current(r.State(), registry.number[r])
    {
      FineAt(View(), r);
      registry.Keys();
    }

    lemma Drawn()
      ensures View().infos.Keys == requests && forall q <- requests :: View().infos[q] == q.State()
      ensures View().number == registry.number && View().owner == owner
      ensures Valid() <==> registry.Valid() && |owner| == |registry.issued| && Fine(View())
      ensures AtRest() <==> Valid() && Latest()
    {
    }

    lemma Redrawn(d: Desk, r: Request, current: Option<nat>)
      requires d.infos.Keys == requests && owner == d.owner && r in requests
      requires forall q <- requests :: q != r ==> q.State() == d.infos[q]
      requires registry.number == if current.Some? then d.number[r := current.value] else d.number - {r}
      ensures View() == Updated(d, r, r.State(), current)
    {
    }

    lemma Undrawn(d: Desk)
      requires d.infos.Keys == requests && owner == d.owner && registry.number == d.number
      requires forall q <- requests :: q.State() == d.infos[q]
      ensures View() == d
    {
    }

    /** A request that has its answer is fine. */
    lemma Ended(d: Desk, r: Request, i: Info)
      requires Fine(d) && d.infos.Keys == requests && owner == d.owner && r in requests
      requires forall q <- requests :: q != r ==> q.State() == d.infos[q]
      requires registry.number == d.number - {r} && Bounded(i) && Ordered(i) && OwnsAll(owner, r, i.attempts)
      requires i.answers == [] || r.answers == i.answers
      requires |r.answers| <= 1
      requires r.State() == i.(inSieve := false, timerActive := false, retries := r.retries, answers := r.answers)
      ensures Fine(View()) && (LatestBut(r) ==> Latest())
    {
      hide Fine, OwnsAll;
      Redrawn(d, r, None);
      UpdatedFine(d, r, r.State(), None);
      ButOne(r);
    }

    /** Releases the slot and the timer of a request. */
    method RequestFinish(r: Request)
      requires registry.Valid() && (r.inSieve <==> r in registry.uids)
      modifies r`inSieve, r`timerActive, registry, registry.sieve`filled, registry.sieve.items
      ensures registry.Valid() && registry.sieve.items == old(registry.sieve.items)
      ensures !r.inSieve && !r.timerActive
      ensures registry.uids == old(registry.uids) - {r} && registry.number == old(registry.number) - {r}
      ensures registry.issued == old(registry.issued)
    {
      hide Registry.Valid;
      registry.Keys();
      if r.inSieve {
        registry.Unregister(r);
        r.inSieve := false;
      }
      if r.timerActive { r.timerActive := false; }
    }

    /** Ends a request with an answer. */
    method Finish(r: Request, answer: Answer)
      requires Valid() && r in requests && r.answers == []
      modifies r`inSieve, r`timerActive, r`answers, registry, registry.sieve`filled, registry.sieve.items
      ensures Valid() && registry.sieve.items == old(registry.sieve.items)
      ensures r.answers == [answer] && !r.inSieve && !r.timerActive
      ensures registry.uids == old(registry.uids) - {r} && registry.number == old(registry.number) - {r}
      ensures registry.issued == old(registry.issued)
      ensures old(LatestBut(r)) ==> Latest()
    {
      hide *;
      Drawn();
      ghost var d, i := View(), r.State();
      StateIs(r);
      At(r);
      OthersLatest(d, r);
      r.answers := r.answers + [answer];
      RequestFinish(r);
      StateIs(r);
      Ended(d, r, i);
      OthersLatest(d, r);
      Drawn();
    }

    static lemma StateIs(r: Request)
      ensures r.State() == Info(r.mode, r.count, r.inSieve, r.timerActive, r.retries, r.answers, r.attempts)
    {
    }

    lemma Older(r: Request)
      requires Valid() && r in requests
      ensures Bounded(r.State()) && (r.inSieve <==> r in registry.uids)
      ensures r.attempts != [] ==> r.attempts[|r.attempts| - 1] < |registry.issued|
    {
      At(r);
      if r.attempts != [] { assert Owns(owner, r, r.attempts[|r.attempts| - 1]); }
    }

    /** The newest id makes a waiting request fine again. */
    lemma Numbered(d: Desk, r: Request, n: nat)
      requires Fine(d) && d.infos.Keys == requests && r in requests && |d.owner| == n && owner == d.owner + [r]
      requires forall q <- requests :: q != r ==> q.State() == d.infos[q]
      requires r.State() == d.infos[r].(inSieve := true) && Bounded(r.State())
      requires r.mode != RetryLast ==> r.attempts == []
      requires registry.number == d.number[r := n] || registry.number == (d.number - {r})[r := n]
      ensures Fine(View())
    {
      hide Fine, Bounded;
      var e := d.(owner := owner);
      IssuedFine(d, r);
      FineAt(d, r);
      FineAt(e, r);
      UpdatedFine(e, r, r.State(), Some(n));
      assert View().infos == e.infos[r := r.State()];
      assert View() == Updated(e, r, r.State(), Some(n));
    }

    /** Gives a request an id, a newer one than any before. */
    method MakeUid(r: Request, random: Bytes) returns (ok: bool)
      requires Valid() && r in requests && !r.inSieve && r.answers == [] && |random| == NRANDOM
      requires |r.attempts| <= r.retries + 1 && (r.retries == 0 || r.retries < r.count)
      requires r.mode != RetryLast ==> r.attempts == []
      modifies r`inSieve, `owner, registry, registry.sieve, registry.sieve.items
      ensures registry.sieve.items == old(registry.sieve.items)
      ensures ok <==> exists k :: 0 <= k < registry.sieve.max && old(registry.sieve.items[k]).None?
      ensures Valid()
      ensures ok ==> r.inSieve && registry.number == old(registry.number)[r := |old(registry.issued)|]
      ensures !ok ==> !r.inSieve && registry.number == old(registry.number)
      ensures r.mode == RetryLast && r.attempts != [] ==> r.attempts[|r.attempts| - 1] < |old(registry.issued)|
      ensures old(LatestBut(r)) ==> LatestBut(r)
    {
      hide *;
      Drawn();
      ghost var d := View();
      StateIs(r);
      Older(r);
      WaitingBounded(r.State());
      OthersLatest(d, r);
      ok := registry.Register(r, random);
      if ok {
        r.inSieve := true;
        owner := owner + [r];
        StateIs(r);
        Numbered(d, r, |old(registry.issued)|);
      } else {
        Undrawn(d);
      }
      OthersLatest(d, r);
      Drawn();
    }

    /** What the others are to their ids depends on the others alone. */
    lemma OthersLatest(d: Desk, r: Request)
      requires d.infos.Keys == requests
      requires forall q <- requests :: q != r ==>
        && q.State() == d.infos[q] && (q in registry.number <==> q in d.number)
        && (q in d.number ==> registry.number[q] == d.number[q])
      ensures LatestBut(r) <==> NewestBut(d, r)
    {
    }

    /** An attempt under the current id. */
    ghost method Attempt(r: Request)
      requires Valid() && r in requests && r.inSieve && r.answers == [] && |r.attempts| <= r.retries
      requires r in registry.number
      requires r.mode == RetryLast && r.attempts != [] ==> r.attempts[|r.attempts| - 1] < registry.number[r]
      modifies r`attempts
      ensures Valid() && r.attempts == old(r.attempts) + [registry.number[r]]
      ensures old(LatestBut(r)) ==> Latest()
    {
      hide Registry.Valid, Fine;
      ghost var d := View();
      At(r);
      r.attempts := r.attempts + [registry.number[r]];
      UpdatedFine(d, r, r.State(), Some(registry.number[r]));
      Redrawn(d, r, Some(registry.number[r]));
    }

    /** Sends a request to the backend under its current id; a refusal is answered at once. */
    method DoForward(r: Request, result: SendResult) returns (ok: bool)
      requires Valid() && r in requests && r.inSieve && r.answers == [] && |r.attempts| <= r.retries
      requires r.mode == RetryLast && r.attempts != [] && r in registry.number ==>
        r.attempts[|r.attempts| - 1] < registry.number[r]
      modifies r`inSieve, r`timerActive, r`answers, r`attempts, registry, registry.sieve`filled, registry.sieve.items
      ensures Valid() && registry.sieve.items == old(registry.sieve.items) && registry.issued == old(registry.issued)
      ensures ok <==> result == Accepted
      ensures old(r in registry.number)
      ensures ok ==> r.attempts == old(r.attempts + [registry.number[r]]) && registry.uids == old(registry.uids)
      ensures registry.number == if ok then old(registry.number) else old(registry.number) - {r}
      ensures ok ==> r.answers == [] && r.inSieve && r.timerActive == old(r.timerActive)
      ensures !ok ==> r.attempts == old(r.attempts) && !r.inSieve && !r.timerActive
      ensures !ok ==> r.answers == [if result == Busy then Unavailable else InternalError]
      ensures old(LatestBut(r)) ==> Latest()
    {
      hide *;
      Drawn();
      At(r);
      ButOne(r);
      if result == Accepted {
        Attempt(r);
        return true;
      }
      if result == Busy {
        Finish(r, Unavailable);
      } else {
        Finish(r, InternalError);
      }
      return false;
    }

    /** A request arrives; false when there is no slot for it, and then it is not answered. */
    method HttpRequest(r: Request, random: Bytes, result: SendResult) returns (taken: bool)
      requires AtRest() && r !in requests && r.State() == Info(r.mode, r.count, false, false, 0, [], [])
      requires |random| == NRANDOM
      modifies r, `owner, `requests, registry, registry.sieve, registry.sieve.items
      ensures registry.sieve.items == old(registry.sieve.items)
      ensures taken <==> exists k :: 0 <= k < registry.sieve.max && old(registry.sieve.items[k]).None?
      ensures AtRest() && requests == old(requests) + {r}
      ensures taken && result == Accepted ==>
        r.attempts == [old(|registry.issued|)] && r.answers == [] && r.timerActive == r.timeout
      ensures taken && result != Accepted ==>
        r.attempts == [] && r.answers == [if result == Busy then Unavailable else InternalError] && !r.timerActive
      ensures !taken ==> r.attempts == [] && r.answers == []
    {
      hide Valid, Latest, LatestBut;
      ButOne(r);
      Arrive(r);
      taken := MakeUid(r, random);
      ButOne(r);
      if taken {
        var ok := DoForward(r, result);
        if ok && r.timeout { StartTimer(r); }
      }
    }

    ghost method Arrive(r: Request)
      requires Valid() && r !in requests && r.State() == Info(r.mode, r.count, false, false, 0, [], [])
      modifies `requests
      ensures Valid() && requests == old(requests) + {r}
      ensures old(LatestBut(r)) ==> LatestBut(r)
    {
      hide Registry.Valid, Fine;
      ghost var d := View();
      NewFine(d, r);
      requests := requests + {r};
      assert View() == d.(infos := d.infos[r := r.State()]);
    }

    method StartTimer(r: Request)
      requires Valid() && r in requests && r.inSieve
      modifies r`timerActive
      ensures Valid() && r.timerActive
    {
      hide Registry.Valid, Fine;
      ghost var d := View();
      At(r);
      r.timerActive := true;
      UpdatedFine(d, r, r.State(), Some(registry.number[r]));
      assert View() == Updated(d, r, r.State(), Some(registry.number[r]));
    }

    method CountRetry(r: Request)
      requires Valid() && r in requests && r.inSieve && r.retries + 1 < r.count
      modifies r`retries
      ensures Valid() && r.retries == old(r.retries) + 1
    {
      hide Registry.Valid, Fine;
      ghost var d := View();
      At(r);
      r.retries := r.retries + 1;
      UpdatedFine(d, r, r.State(), Some(registry.number[r]));
      assert View() == Updated(d, r, r.State(), Some(registry.number[r]));
    }

    /** The last timeout of a request. */
    method GiveUp(r: Request)
      requires Valid() && r in requests && r.inSieve
      modifies r`inSieve, r`timerActive, r`answers, r`retries, registry, registry.sieve`filled, registry.sieve.items
      ensures Valid() && registry.sieve.items == old(registry.sieve.items)
      ensures r.answers == [GatewayTimeout] && !r.inSieve && !r.timerActive
      ensures registry.uids == old(registry.uids) - {r} && registry.number == old(registry.number) - {r}
      ensures old(LatestBut(r)) ==> Latest()
    {
      hide *;
      Drawn();
      ghost var d, i := View(), r.State();
      StateIs(r);
      At(r);
      Unanswered(i);
      OthersLatest(d, r);
      r.retries := r.retries + 1;
      r.answers := r.answers + [GatewayTimeout];
      RequestFinish(r);
      StateIs(r);
      Ended(d, r, i);
      OthersLatest(d, r);
      Drawn();
    }

    static lemma Unanswered(i: Info)
      requires Bounded(i) && i.inSieve
      ensures i.answers == []
    {
    }

    /** Releases the slot of a request and takes one again, which cannot fail. */
    method Renew(r: Request, random: Bytes)
      requires Valid() && r in requests && r.inSieve && r.mode == RetryLast && |random| == NRANDOM
      modifies `owner, registry, registry.sieve, registry.sieve.items
      ensures Valid() && registry.sieve.items == old(registry.sieve.items)
      ensures registry.number == old(registry.number)[r := |old(registry.issued)|]
      ensures r.attempts != [] ==> r.attempts[|r.attempts| - 1] < registry.number[r]
      ensures old(LatestBut(r)) ==> LatestBut(r)
    {
      hide *;
      Drawn();
      ghost var d := View();
      StateIs(r);
      Older(r);
      OthersLatest(d, r);
      registry.Unregister(r);
      var ok := registry.Register(r, random);
      assert ok;
      owner := owner + [r];
      PutAgain(d.number, r, |old(registry.issued)|);
      Numbered(d, r, |old(registry.issued)|);
      OthersLatest(d, r);
      Drawn();
    }

    /** The timer of a request fires: it is given up, or forwarded once more, under the id that it
        has or under a new one. */
    method RequestTimeout(r: Request, random: Bytes, result: SendResult)
      requires AtRest() && r in requests && r.timerActive && |random| == NRANDOM
      modifies r, `owner, registry, registry.sieve, registry.sieve.items
      ensures AtRest() && registry.sieve.items == old(registry.sieve.items)
      ensures var retry := r.mode != NoRetry && old(r.retries) + 1 < r.count;
        && old(r in registry.number)
        && (!retry ==> r.answers == [GatewayTimeout] && r.attempts == old(r.attempts) && !r.timerActive)
        && (retry && result == Accepted ==> r.answers == [] && r.timerActive)
        && (retry && result == Accepted ==>
              r.attempts == old(r.attempts) +
                [if r.mode == RetryLast then old(|registry.issued|) else old(registry.number[r])])
        && (retry && result != Accepted ==>
              && r.answers == [if result == Busy then Unavailable else InternalError]
              && r.attempts == old(r.attempts) && !r.timerActive)
    {
      hide Valid, Latest, LatestBut;
      At(r);
      ButOne(r);
      var mode := r.mode;
      if r.retries + 1 >= r.count { mode := NoRetry; }
      match mode {
      case NoRetry =>
        GiveUp(r);
      case RetryFirst =>
        CountRetry(r);
        var ok := DoForward(r, result);
        if ok { StartTimer(r); }
      case RetryLast =>
        CountRetry(r);
        Renew(r, random);
        var ok := DoForward(r, result);
        if ok { StartTimer(r); }
      }
    }

    /** A reply whose id is a request's now: it is the answer if it is complete. */
    method Conclude(r: Request, parts: seq<Bytes>, sentinel: bool, always: seq<Header>) returns (ok: bool)
      requires AtRest() && r in requests && r in registry.uids
      modifies r`inSieve, r`timerActive, r`answers, registry, registry.sieve`filled, registry.sieve.items
      ensures AtRest() && registry.sieve.items == old(registry.sieve.items)
      ensures ok <==> Complete(parts, sentinel)
      ensures ok ==> old(r.answers) == [] && |r.answers| == 1 && Reads(r.answers[0], parts, sentinel, always)
      ensures !ok ==> r.State() == old(r.State())
    {
      hide *;
      var rest := Rest(parts, sentinel);
      RestExactly(parts, sentinel);
      if rest.None? { return false; }
      Drawn();
      At(r);
      ButOne(r);
      StateIs(r);
      Unanswered(r.State());
      var answer := ReadReply(parts, sentinel, rest.value, always);
      Finish(r, answer);
      Drawn();
      return true;
    }

    /** A reply of the backend: it answers the request that has the id now, if there is one. */
    method HttpProcess(parts: seq<Bytes>, sentinel: bool, always: seq<Header>)
      returns (m: Match, ghost r: Option<Request>)
      requires AtRest() && parts != []
      modifies requests, registry, registry.sieve`filled, registry.sieve.items
      ensures AtRest() && registry.sieve.items == old(registry.sieve.items)
      ensures m == OutOfBounds <==>
        |parts| > 1 && |parts[0]| == UID_LEN && HoleOf(parts[0]) == registry.sieve.max
      ensures m == Answered <==> r.Some?
      ensures r.Some? ==> r.value in old(registry.uids) && old(registry.uids)[r.value] == parts[0]
      ensures r.Some? ==> old(r.value.answers) == [] && |r.value.answers| == 1
      ensures r.Some? ==> Reads(r.value.answers[0], parts, sentinel, always)
      ensures m == Orphan ==>
        !Complete(parts, sentinel) || forall q <- old(registry.uids) :: old(registry.uids)[q] != parts[0]
      ensures forall q <- requests :: r != Some(q) ==> q.State() == old(q.State())
    {
      hide Valid, Uid, HoleOf, Reads, Complete, Latest;
      r := None;
      Registrations();
      RestExactly(parts, sentinel);
      if |parts| < 2 { return Orphan, None; }
      var data := parts[0];
      if |data| != UID_LEN { return Orphan, None; }
      var found := registry.Find(data);
      match found
      case PastEnd => m := OutOfBounds;
      case Vacant => m := Orphan;
      case Taken(req) =>
        var ok := Conclude(req, parts, sentinel, always);
        if !ok { return Orphan, None; }
        m, r := Answered, Some(req);
    }

    /** What the slots hold are requests that wait, under ids of full length. */
    lemma Registrations()
      requires Valid()
      ensures registry.Valid()
      ensures forall q <- registry.uids :: q in requests && q.inSieve && |registry.uids[q]| == UID_LEN
    {
      registry.Keys();
      forall q <- registry.uids ensures q in requests && q.inSieve && |registry.uids[q]| == UID_LEN {
        assert q in View().number;
        registry.HoleOfUid(q);
      }
    }

    lemma Registered(r: Request)
      requires Valid() && r in registry.uids
      ensures r in requests && r.inSieve
    {
      registry.Keys();
      assert r in View().number;
    }

    /** The client goes away: the request is not expected to be answered any more. */
    method Abandon(r: Request)
      requires AtRest() && r in requests
      modifies r`inSieve, r`timerActive, registry, registry.sieve`filled, registry.sieve.items
      ensures AtRest() && registry.sieve.items == old(registry.sieve.items)
      ensures !r.inSieve && !r.timerActive && registry.uids == old(registry.uids) - {r}
    {
      hide *;
      Drawn();
      ghost var d, i := View(), r.State();
      StateIs(r);
      At(r);
      OthersLatest(d, r);
      ButOne(r);
      RequestFinish(r);
      StateIs(r);
      Few(i);
      Ended(d, r, i);
      OthersLatest(d, r);
      Drawn();
    }

    static lemma Few(i: Info)
      requires Bounded(i)
      ensures |i.answers| <= 1
    {
    }

    // ----- what holds in every state -----

    /** One answer at most, and no more attempts than configured. */
    lemma AnsweredOnce(r: Request)
      requires Valid() && r in requests
      ensures |r.answers| <= 1 && |r.attempts| <= (if r.count > 1 then r.count else 1)
      ensures r.answers != [] ==> r !in registry.uids && !r.timerActive
    {
      At(r);
    }

    /** A reply to the k-th attempt of a request reaches this request or nobody: this request
        exactly as long as it waits, and with new ids for retries only if no later attempt was made. */
    lemma ReplyToAttempt(r: Request, k: nat)
      requires AtRest() && r in requests && k < |r.attempts| && |registry.issued| <= WRAP
      ensures r.attempts[k] < |registry.issued|
      ensures var data := Uid(registry.instance, registry.issued[r.attempts[k]]);
        && (forall q <- registry.uids :: registry.uids[q] == data ==> q == r)
        && (r in registry.uids && registry.uids[r] == data <==>
              r.inSieve && (r.mode == RetryLast ==> k == |r.attempts| - 1))
    {
      hide Registry.Valid, Fine, Uid;
      At(r);
      var n := r.attempts[k];
      assert Owns(owner, r, n);
      forall q <- registry.uids | registry.uids[q] == Uid(registry.instance, registry.issued[n])
        ensures q == r && registry.number[q] == n
      {
        Registered(q);
        At(q);
        registry.SameIdSameNumber(q, n);
        assert Owns(owner, q, registry.number[q]);
      }
      if r in registry.uids { registry.HoleIs(r); }
    }
  }

  /** The parts of a reply behind the id; `always` are the date and the headers of the route. */
  method ReadReply(ghost parts: seq<Bytes>, ghost sentinel: bool, rest: seq<Bytes>, always: seq<Header>)
    returns (a: Answer)
    requires Rest(parts, sentinel) == Some(rest)
    ensures Reads(a, parts, sentinel, always)
  {
    hide Parsed;
    RestExactly(parts, sentinel);
    var status, headers := OK_STATUS, [];
    if |rest| > 1 {
      status := rest[0];
      if |rest| > 2 {
        var garbage;
        headers, garbage := Read(rest[1]);
        if |rest| > 3 { return InternalError; }
      }
    }
    assert |rest| <= 2 ==> headers + always == always;
    a := FromBackend(status, headers + always, rest[|rest| - 1]);
  }
}
