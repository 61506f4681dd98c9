/** The slot allocator (src/sieve.c): next-fit over a circular array, with a serial number that
    goes with every allocation. */
module Sieve {
  import opened Lists

  const WRAP: nat := 0x1_0000_0000_0000_0000

  /** What reading a slot comes to; the slot number equal to the capacity passes the range test
      and reads past the array. */
  datatype Slot<+T> = Vacant | Taken(item: T) | PastEnd

  // ----- circular order -----

  /** How many steps the cursor makes from `from` before it looks at slot `k`. */
  function Distance(n: nat, from: nat, k: nat): nat
    requires k < n && from <= n
  {
    if k >= from then k - from else n - from + k
  }

  /** Slot `h` is free, and the first free one in circular order from the cursor. */
  ghost predicate Nearest(busy: seq<bool>, from: nat, h: nat) {
    && h < |busy| && from <= |busy| && !busy[h]
    && forall k :: 0 <= k < |busy| && !busy[k] ==> Distance(|busy|, from, h) <= Distance(|busy|, from, k)
  }

  /** In two scans: from the cursor to the end, and then from the beginning to the cursor. */
  lemma NearestInScans(busy: seq<bool>, from: nat, h: nat)
    requires from <= |busy|
    ensures Nearest(busy, from, h) <==>
      && h < |busy| && !busy[h]
      && if h >= from then forall k :: from <= k < h ==> busy[k]
         else (forall k :: from <= k < |busy| ==> busy[k]) && forall k :: 0 <= k < h ==> busy[k]
  {
  }

  lemma NearestIsUnique(busy: seq<bool>, from: nat, h: nat, g: nat)
    requires Nearest(busy, from, h) && Nearest(busy, from, g)
    ensures h == g
  {
  }

  function Busy(bs: seq<bool>): nat {
    if bs == [] then 0 else (if bs[0] then 1 else 0) + Busy(bs[1..])
  }

  lemma {:induction false} BusyUpdate(bs: seq<bool>, k: nat, b: bool)
    requires k < |bs|
    ensures Busy(bs[k := b]) == Busy(bs) - (if bs[k] then 1 else 0) + (if b then 1 else 0)
  {
    if k == 0 {
      assert bs[0 := b][1..] == bs[1..];
    } else {
      BusyUpdate(bs[1..], k - 1, b);
      assert bs[k := b][1..] == bs[1..][k - 1 := b];
    }
  }

  lemma {:induction false} BusyAll(bs: seq<bool>)
    ensures Busy(bs) <= |bs|
    ensures Busy(bs) == |bs| <==> forall k :: 0 <= k < |bs| ==> bs[k]
  {
    if bs != [] {
      BusyAll(bs[1..]);
      if forall k :: 0 <= k < |bs[1..]| ==> bs[1..][k] {
        assert forall k :: 1 <= k < |bs| ==> bs[k] by {
          forall k | 1 <= k < |bs| ensures bs[k] { assert bs[k] == bs[1..][k - 1]; }
        }
      }
      if forall k :: 0 <= k < |bs| ==> bs[k] {
        forall k | 0 <= k < |bs[1..]| ensures bs[1..][k] { assert bs[1..][k] == bs[k + 1]; }
      }
    }
  }

  class Sieve<T> {
    const max: nat
    var items: array<Option<T>>
    var index: nat     // serial number of the next allocation
    var offset: nat    // the cursor: one past the slot allocated last
    var filled: nat

    ghost predicate Valid()
      reads this, items
    {
      items.Length == max && offset <= max && index < WRAP && filled == Busy(Occupied())
    }

    ghost function Occupied(): seq<bool>
      reads this, items
    {
      Flags(items[..])
    }

    constructor (size: nat)
      ensures Valid() && fresh(items)
      ensures max == size && index == 0 && offset == 0 && filled == 0
      ensures items[..] == seq(size, _ => None)
    {
      max := size;
      items := new Option<T>[size](_ => None);
      index, offset, filled := 0, 0, 0;
      new;
      assert items[..] == seq(size, _ => None);
      NothingOccupied(Occupied());
    }

    /** Takes a slot that the cursor found free. */
    method Claim(i: nat, item: T) returns (serial: nat, hole: nat)
      requires Valid() && i < max && items[i] == None
      modifies this, items
      ensures Valid() && items == old(items)
      ensures hole == i && serial == old(index)
      ensures items[..] == old(items[..])[i := Some(item)]
      ensures index == (old(index) + 1) % WRAP && offset == i + 1 && filled == old(filled) + 1
    {
      offset := i + 1;
      hole := i;
      serial := index;
      index := (index + 1) % WRAP;
      items[hole] := Some(item);
      filled := filled + 1;
      assert Occupied() == old(Occupied())[i := true];
      BusyUpdate(old(Occupied()), i, true);
    }

    /** Takes the first free slot in circular order from the cursor; fails when there is none. */
    method FindHole(item: T) returns (ok: bool, serial: nat, hole: nat)
      requires Valid()
      modifies this, items
      ensures Valid() && items == old(items)
      ensures ok <==> exists k :: 0 <= k < max && old(items[k]).None?
      ensures !ok ==>
        items[..] == old(items[..]) && index == old(index) && offset == old(offset) && filled == old(filled)
      ensures ok ==> Nearest(old(Occupied()), old(offset), hole)
      ensures ok ==> serial == old(index) && index == (old(index) + 1) % WRAP
      ensures ok ==> items[..] == old(items[..])[hole := Some(item)] && offset == hole + 1 && filled == old(filled) + 1
    {
      var cur := offset;
      for i := cur to max
        invariant forall k :: cur <= k < i ==> items[k].Some?
      {
        if items[i].None? {
          serial, hole := Claim(i, item);
          ok := true;
          return;
        }
      }
      for i := 0 to cur
        invariant forall k :: 0 <= k < i || cur <= k < max ==> items[k].Some?
      {
        if items[i].None? {
          serial, hole := Claim(i, item);
          ok := true;
          return;
        }
      }
      return false, 0, 0;
    }

    method Full() returns (full: bool)
      requires Valid()
      ensures full <==> forall k :: 0 <= k < max ==> items[k].Some?
    {
      BusyAll(Occupied());
      full := filled >= max;
      assert forall k :: 0 <= k < max ==> Occupied()[k] == items[k].Some?;
    }

    /** Reads a slot; the range test lets the capacity itself pass. */
    method Get(hole: nat) returns (slot: Slot<T>)
      requires Valid()
      ensures slot == PastEnd <==> hole == max
      ensures slot.Taken? <==> hole < max && items[hole].Some?
      ensures slot.Taken? ==> items[hole] == Some(slot.item)
    {
      if hole > max { return Vacant; }
      if hole == max { return PastEnd; }
      match items[hole]
      case None => return Vacant;
      case Some(item) => return Taken(item);
    }

    method Empty(hole: nat)
      requires Valid() && hole < max && items[hole].Some?
      modifies this`filled, items
      ensures Valid() && items[..] == old(items[..])[hole := None]
      ensures filled == old(filled) - 1
    {
      BusyUpdate(Occupied(), hole, false);
      items[hole] := None;
      filled := filled - 1;
      assert Occupied() == old(Occupied())[hole := false];
    }

    ghost function State(): Cursor
      reads this, items
    {
      Cursor(Occupied(), offset)
    }

    /** Any run of allocations and releases is a history of the cursor; an allocation from a full
        sieve and a release of a vacant slot are no events of it. */
    method Perform(ops: seq<Op<T>>) returns (ghost events: seq<Event>)
      requires Valid()
      modifies this, items
      ensures Valid() && items == old(items)
      ensures History(old(State()), events) && State() == Reached(old(State()), events)
    {
      hide Nearest, History, Busy;
      events := [];
      HistoryNone(State());
      for i := 0 to |ops|
        invariant Valid() && items == old(items)
        invariant History(old(State()), events) && State() == Reached(old(State()), events)
      {
        match ops[i]
        case Take(item) =>
          var ok, serial, hole := FindHole(item);
          if ok {
            HistoryStep(old(State()), events, Claimed(hole));
            events := events + [Claimed(hole)];
          }
        case Give(hole) =>
          if hole < max && items[hole].Some? {
            HistoryStep(old(State()), events, Released(hole));
            Empty(hole);
            events := events + [Released(hole)];
          }
      }
    }
  }

  datatype Op<T> = Take(item: T) | Give(hole: nat)

  ghost function Flags<T>(items: seq<Option<T>>): seq<bool> {
    seq(|items|, i requires 0 <= i < |items| => items[i].Some?)
  }

  lemma {:induction false} NothingOccupied(bs: seq<bool>)
    requires forall k :: 0 <= k < |bs| ==> !bs[k]
    ensures Busy(bs) == 0
  {
    if bs != [] { NothingOccupied(bs[1..]); }
  }

  // ----- runs of the cursor -----

  datatype Cursor = Cursor(busy: seq<bool>, offset: nat)

  datatype Event = Claimed(hole: nat) | Released(hole: nat)

  ghost predicate Possible(c: Cursor, e: Event) {
    match e
    case Claimed(h) => Nearest(c.busy, c.offset, h)
    case Released(h) => h < |c.busy| && c.busy[h]
  }

  ghost function Moved(c: Cursor, e: Event): Cursor
    requires Possible(c, e)
  {
    match e
    case Claimed(h) => Cursor(c.busy[h := true], h + 1)
    case Released(h) => c.(busy := c.busy[h := false])
  }

  ghost predicate History(c: Cursor, events: seq<Event>)
    decreases |events|
  {
    events == [] || (c.offset <= |c.busy| && Possible(c, events[0]) && History(Moved(c, events[0]), events[1..]))
  }

  ghost function Reached(c: Cursor, events: seq<Event>): Cursor
    requires History(c, events)
    decreases |events|
  {
    if events == [] then c else Reached(Moved(c, events[0]), events[1..])
  }

  lemma HistoryNone(c: Cursor)
    ensures History(c, []) && Reached(c, []) == c
  {
  }

  lemma {:induction false} HistoryStep(c: Cursor, events: seq<Event>, e: Event)
    requires History(c, events) && c.offset <= |c.busy| && Possible(Reached(c, events), e)
    ensures History(c, events + [e]) && Reached(c, events + [e]) == Moved(Reached(c, events), e)
    decreases |events|
  {
    hide Nearest;
    if events == [] {
      assert events + [e] == [e] && [e][1..] == [];
    } else {
      assert (events + [e])[1..] == events[1..] + [e];
      MovedInside(c, events[0]);
      HistoryStep(Moved(c, events[0]), events[1..], e);
    }
  }

  lemma MovedInside(c: Cursor, e: Event)
    requires Possible(c, e) && c.offset <= |c.busy|
    ensures Moved(c, e).offset <= |Moved(c, e).busy|
  {
  }

  /** During one claim the cursor passed over slot `k` and found it taken, or took it. */
  ghost predicate Considered(c: Cursor, e: Event, k: nat) {
    && e.Claimed? && k < |c.busy| && Possible(c, e)
    && (k == e.hole || (c.busy[k] && Distance(|c.busy|, c.offset, k) < Distance(|c.busy|, c.offset, e.hole)))
  }

  /** Some claim of a history considers slot `k`. */
  ghost predicate EverConsidered(c: Cursor, events: seq<Event>, k: nat)
    requires History(c, events)
    decreases |events|
  {
    events != [] && (Considered(c, events[0], k) || EverConsidered(Moved(c, events[0]), events[1..], k))
  }

  /** Before a history ends with a claim, every slot on the cursor's way to it was considered. */
  lemma {:induction false} Sweep(c: Cursor, events: seq<Event>, k: nat)
    requires History(c, events) && events != [] && events[|events| - 1].Claimed?
    requires k < |c.busy| && c.offset <= |c.busy| && events[|events| - 1].hole < |c.busy|
    requires Distance(|c.busy|, c.offset, k) < Distance(|c.busy|, c.offset, events[|events| - 1].hole)
    ensures EverConsidered(c, events, k)
    decreases |events|
  {
    var d := Moved(c, events[0]);
    if events[0].Claimed? {
      var n, g := |c.busy|, events[0].hole;
      if Distance(n, c.offset, k) <= Distance(n, c.offset, g) {
        assert Considered(c, events[0], k);
      } else {
        Sweep(d, events[1..], k);
      }
    } else {
      Sweep(d, events[1..], k);
    }
  }

  /** Between two claims of one slot every other slot was found taken by the cursor or handed
      out: a slot that was just given up is reused as late as possible. */
  lemma ReusedLast(c: Cursor, h: nat, events: seq<Event>, k: nat)
    requires c.offset <= |c.busy| && Possible(c, Claimed(h)) && History(Moved(c, Claimed(h)), events)
    requires events != [] && events[|events| - 1] == Claimed(h)
    requires k < |c.busy| && k != h
    ensures EverConsidered(Moved(c, Claimed(h)), events, k)
  {
    Sweep(Moved(c, Claimed(h)), events, k);
  }
}
