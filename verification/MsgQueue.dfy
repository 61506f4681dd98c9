/** Message queues whose nodes come from a shared pool of free nodes (src/pool.c, src/msgqueue.c).
    However many queues share a pool, and however nodes wander between them, each queue behaves
    like a sequence of messages of its own. */
module MsgQueue {
  import opened Lists
  import opened Entities

  /** A node: it is in the list of free nodes, in one queue, or given back to the allocator. */
  class Node {
    var msg: Bytes

    constructor () {
      msg := [];
    }
  }

  class Pool {
    const maxFree: nat
    var currentFree: nat
    var objects: seq<Node>

    constructor (maxFree: nat)
      ensures Valid() && objects == [] && this.maxFree == maxFree
    {
      this.maxFree, currentFree, objects := maxFree, 0, [];
    }

    ghost predicate Valid()
      reads this
    {
      currentFree == |objects| <= maxFree && Distinct(objects)
    }

    /** The node that was freed last, or a new one when none is kept. */
    method Alloc() returns (node: Node)
      requires Valid()
      modifies this
      ensures Valid() && node !in objects
      ensures if old(objects) == [] then fresh(node) && objects == []
              else node == old(objects)[0] && objects == old(objects)[1..]
      ensures forall n :: n in objects ==> n in old(objects)
    {
      if currentFree != 0 {
        node := objects[0];
        objects := objects[1..];
        currentFree := currentFree - 1;
      } else {
        node := new Node();
      }
    }

    /** Keeps the node for the next allocation, unless enough nodes are kept already. */
    method Free(node: Node)
      requires Valid() && node !in objects
      modifies this
      ensures Valid()
      ensures objects == if |old(objects)| < maxFree then [node] + old(objects) else old(objects)
    {
      if currentFree < maxFree {
        objects := [node] + objects;
        currentFree := currentFree + 1;
      }
    }
  }

  class Queue {
    const pool: Pool
    const capacity: int
    var size: nat
    var items: seq<Node>

    constructor (capacity: int, pool: Pool)
      ensures Valid() && items == [] && this.capacity == capacity && this.pool == pool
    {
      this.capacity, this.pool, size, items := capacity, pool, 0, [];
    }

    ghost predicate Valid()
      reads this
    {
      size == |items| && Distinct(items)
    }

    /** The messages in the queue, oldest first. */
    ghost function Contents(): seq<Bytes>
      reads this, items
    {
      Messages(items)
    }

    /** Links a free node at the end, whatever the capacity. */
    method ForcePush(ghost queues: set<Queue>) returns (item: Node)
      requires this in queues && Owned(pool, queues)
      modifies this, pool
      ensures Owned(pool, queues)
      ensures items == old(items) + [item]
      ensures forall q :: q in queues ==> item !in old(q.items)
      ensures fresh(item) || item in old(pool.objects)
      ensures forall n :: n in pool.objects ==> n in old(pool.objects)
    {
      item := pool.Alloc();
      assert !fresh(item) ==> item in old(pool.objects);
      forall q | q in queues ensures item !in old(q.items) {
        assert fresh(item) || forall n :: n in old(q.items) ==> n !in old(pool.objects);
      }
      items := items + [item];
      size := size + 1;
    }

    /** Refuses the push when the queue is full. */
    method Push(ghost queues: set<Queue>) returns (item: Node?)
      requires this in queues && Owned(pool, queues)
      modifies this, pool
      ensures Owned(pool, queues)
      ensures item == null <==> |old(items)| >= capacity
      ensures item == null ==> items == old(items) && pool.objects == old(pool.objects)
      ensures item != null ==> items == old(items) + [item]
      ensures item != null ==> forall q :: q in queues ==> item !in old(q.items)
      ensures item != null ==> fresh(item) || item in old(pool.objects)
      ensures forall n :: n in pool.objects ==> n in old(pool.objects)
    {
      if size >= capacity { return null; }
      item := ForcePush(queues);
    }

    /** Unlinks an item and gives its node back to the pool. */
    method Remove(item: Node, ghost queues: set<Queue>)
      requires this in queues && Owned(pool, queues) && item in items
      modifies this, pool
      ensures Owned(pool, queues)
      ensures items == Without(old(items), item)
      ensures forall n :: n in pool.objects ==> n == item || n in old(pool.objects)
    {
      items := Without(items, item);
      pool.Free(item);
      size := size - 1;
    }

    /** Queues a message: at most up to the capacity when the push is bounded. */
    method Store(msg: Bytes, bounded: bool, ghost queues: set<Queue>) returns (ok: bool)
      requires this in queues && Owned(pool, queues)
      modifies this, pool, pool.objects
      ensures Owned(pool, queues)
      ensures ok <==> !bounded || |old(items)| < capacity
      ensures Contents() == old(Contents()) + if ok then [msg] else []
      ensures forall q :: q in queues && q != this ==> q.Contents() == old(q.Contents())
      ensures forall n :: n in pool.objects ==> n in old(pool.objects)
      ensures forall n :: n in items ==> n in old(items) || n in old(pool.objects) || fresh(n)
    {
      var item: Node?;
      if bounded {
        item := Push(queues);
        if item == null { return false; }
      } else {
        item := ForcePush(queues);
      }
      item.msg := msg;
      ok := true;
    }

    /** Walks from the head and removes items on the way; the successor is read before the node
        goes back to the pool. */
    method RemoveFirst(amount: nat, ghost queues: set<Queue>)
      requires this in queues && Owned(pool, queues) && amount <= size
      modifies this, pool
      ensures Owned(pool, queues)
      ensures items == old(items)[amount..]
      ensures forall n :: n in pool.objects ==> n in old(items) || n in old(pool.objects)
    {
      var cur := First(items);
      for i := 0 to amount
        invariant Owned(pool, queues)
        invariant items == old(items)[i..] && cur == First(items)
        invariant forall n :: n in pool.objects ==> n in old(items) || n in old(pool.objects)
      {
        var nxt := After(items, cur.value);
        HeadGone(items);
        Remove(cur.value, queues);
        cur := nxt;
      }
    }

    method Execute(op: Op, ghost queues: set<Queue>)
      requires this in queues && Owned(pool, queues)
      modifies this, pool, pool.objects
      ensures Owned(pool, queues)
      ensures Contents() == Applied(old(Contents()), capacity, op)
      ensures op.Push? && |old(Contents())| < capacity ==> Contents() == old(Contents()) + [op.msg]
      ensures op.Push? && |old(Contents())| >= capacity ==> Contents() == old(Contents())
      ensures op.ForcePush? ==> Contents() == old(Contents()) + [op.msg]
      ensures op.RemoveFirst? && op.amount <= |old(Contents())| ==> Contents() == old(Contents())[op.amount..]
      ensures forall q :: q in queues && q != this ==> q.Contents() == old(q.Contents())
      ensures forall n :: n in NodesIn(pool, queues) ==> fresh(n) || n in old(NodesIn(pool, queues))
    {
      hide Owned, Without;
      OwnedQueue(pool, queues, this);
      match op
      case Push(msg) =>
        var _ := Store(msg, true, queues);
      case ForcePush(msg) =>
        var _ := Store(msg, false, queues);
      case RemoveAt(k) =>
        if k < |items| {
          WithoutAt(items, k);
          Remove(items[k], queues);
          assert Contents() == old(Contents())[..k] + old(Contents())[k + 1..];
        }
      case RemoveFirst(amount) =>
        if amount <= size {
          RemoveFirst(amount, queues);
          assert forall n :: n in items ==> n in old(items);
          assert Contents() == old(Contents())[amount..];
        }
    }

    /** Gives the nodes of a queue that is not used any more back to the pool, which keeps as many
        as there is room for, the first ones of the queue, in reverse. */
    method FreeQueue(ghost queues: set<Queue>)
      requires this !in queues && Owned(pool, queues + {this})
      modifies pool
      ensures Owned(pool, queues)
      ensures pool.objects ==
        Reversed(items[..Min(pool.maxFree - |old(pool.objects)|, size)]) + old(pool.objects)
    {
      hide Reversed, Min;
      ghost var room := pool.maxFree - |pool.objects|;
      RoomStep(room, 0);
      ReversedNone(items);
      for i := 0 to |items|
        invariant Owned(pool, queues) && 0 <= Min(room, i) <= |items|
        invariant pool.objects == Reversed(items[..Min(room, i)]) + old(pool.objects)
        invariant forall k :: i <= k < |items| ==> items[k] !in pool.objects
      {
        RoomStep(room, i);
        ReversedStep(items, i);
        pool.Free(items[i]);
      }
    }
  }

  lemma RoomStep(room: int, i: nat)
    ensures 0 <= room ==> Min(room, 0) == 0
    ensures i < room ==> Min(room, i) == i && Min(room, i + 1) == i + 1
    ensures room <= i ==> Min(room, i) == Min(room, i + 1) == room
    ensures 0 <= room ==> 0 <= Min(room, i) <= i
  {
  }

  lemma ReversedNone(items: seq<Node>)
    ensures Reversed(items[..0]) == []
  {
  }

  function Reversed(items: seq<Node>): (r: seq<Node>)
    ensures |r| == |items|
  {
    if items == [] then [] else Reversed(items[1..]) + [items[0]]
  }

  lemma {:induction false} ReversedStep(items: seq<Node>, i: nat)
    requires i < |items|
    ensures Reversed(items[..i + 1]) == [items[i]] + Reversed(items[..i])
  {
    if i > 0 {
      ReversedStep(items[1..], i - 1);
      assert items[..i + 1][1..] == items[1..][..i] && items[..i][1..] == items[1..][..i - 1];
    } else {
      assert items[..1][1..] == [] && items[..0] == [];
    }
  }

  function Min(a: int, b: int): int {
    if a <= b then a else b
  }

  ghost function Messages(items: seq<Node>): (ms: seq<Bytes>)
    reads items
    ensures |ms| == |items|
  {
    seq(|items|, i requires 0 <= i < |items| reads items => items[i].msg)
  }

  /** No node is in two places, and the counters are right. */
  ghost predicate Owned(pool: Pool, queues: set<Queue>)
    reads pool, queues
  {
    && pool.Valid()
    && (forall q :: q in queues ==> q.pool == pool && q.Valid())
    && (forall q, n :: q in queues && n in q.items ==> n !in pool.objects)
    && (forall p, q, n :: p in queues && q in queues && p != q && n in p.items ==> n !in q.items)
  }

  // ----- runs over queues that share a pool -----

  datatype Op = Push(msg: Bytes) | ForcePush(msg: Bytes) | RemoveAt(k: nat) | RemoveFirst(amount: nat)

  /** What an operation means on a sequence of messages. */
  function Applied(ms: seq<Bytes>, capacity: int, op: Op): seq<Bytes> {
    match op
    case Push(msg) => if |ms| < capacity then ms + [msg] else ms
    case ForcePush(msg) => ms + [msg]
    case RemoveAt(k) => if k < |ms| then ms[..k] + ms[k + 1..] else ms
    case RemoveFirst(amount) => if amount <= |ms| then ms[amount..] else ms
  }

  /** Each queue as a sequence of messages of its own. */
  type View = map<Queue, seq<Bytes>>

  ghost function ApplyAll(v: View, ops: seq<(Queue, Op)>): View
    requires forall i :: 0 <= i < |ops| ==> ops[i].0 in v
  {
    if ops == [] then v
    else
      var (q, op) := ops[0];
      ApplyAll(v[q := Applied(v[q], q.capacity, op)], ops[1..])
  }

  /** The operations of a run that are on one queue, on a sequence; the others are skipped. */
  ghost function Played(ms: seq<Bytes>, q: Queue, ops: seq<(Queue, Op)>): seq<Bytes>
    decreases |ops|
  {
    if ops == [] then ms
    else Played(if ops[0].0 == q then Applied(ms, q.capacity, ops[0].1) else ms, q, ops[1..])
  }

  /** What a queue holds after a run depends on the operations on that queue alone. */
  lemma {:induction false} QueuesAreIndependent(v: View, ops: seq<(Queue, Op)>, q: Queue)
    requires q in v && forall i :: 0 <= i < |ops| ==> ops[i].0 in v
    ensures q in ApplyAll(v, ops) && ApplyAll(v, ops)[q] == Played(v[q], q, ops)
    decreases |ops|
  {
    hide Applied;
    if ops == [] {
    } else {
      var (p, op) := ops[0];
      QueuesAreIndependent(v[p := Applied(v[p], p.capacity, op)], ops[1..], q);
    }
  }

  ghost function NodesOf(queues: set<Queue>): set<Node>
    reads queues
  {
    set q, n | q in queues && n in q.items :: n
  }

  ghost function ViewOf(queues: set<Queue>): View
    reads queues, NodesOf(queues)
  {
    assert forall q, n :: q in queues && n in q.items ==> n in NodesOf(queues);
    map q | q in queues :: q.Contents()
  }

  /** All nodes that the pool or a queue holds. */
  ghost function NodesIn(pool: Pool, queues: set<Queue>): (ns: set<Node>)
    reads pool, queues
    ensures forall n :: n in pool.objects ==> n in ns
  {
    Elements(pool.objects) + NodesOf(queues)
  }

  /** Over whole runs, queues that share a pool are independent sequences. */
  method ExecuteAll(ops: seq<(Queue, Op)>, pool: Pool, ghost queues: set<Queue>)
    requires Owned(pool, queues)
    requires forall i :: 0 <= i < |ops| ==> ops[i].0 in queues
    modifies queues, pool, NodesIn(pool, queues)
    ensures Owned(pool, queues)
    ensures ViewOf(queues) == ApplyAll(old(ViewOf(queues)), ops)
  {
    hide Owned, Applied, NodesIn, NodesOf;
    for i := 0 to |ops|
      invariant Owned(pool, queues)
      invariant fresh(NodesIn(pool, queues) - old(NodesIn(pool, queues)))
      invariant ApplyAll(ViewOf(queues), ops[i..]) == ApplyAll(old(ViewOf(queues)), ops)
    {
      var (q, op) := ops[i];
      assert ops[i..][1..] == ops[i + 1..];
      OwnedQueue(pool, queues, q);
      ghost var nodes, view := NodesIn(pool, queues), ViewOf(queues);
      q.Execute(op, queues);
      assert forall n :: n in NodesIn(pool, queues) && n !in nodes ==> fresh(n);
      assert ViewOf(queues) == view[q := Applied(view[q], q.capacity, op)];
    }
  }

  lemma OwnedQueue(pool: Pool, queues: set<Queue>, q: Queue)
    requires Owned(pool, queues) && q in queues
    ensures q.pool == pool && q.size == |q.items| && Distinct(q.items)
  {
  }
}
