/** Unique ids (src/uidgen.c) and the lookup of objects by them: the id holds the server's
    instance, the slot number, the serial number of the allocation and some random bytes. */
module Identity {
  import opened Lists
  import opened Entities
  import opened Sieve

  const IID_LEN: nat := 16
  const NRANDOM: nat := 8
  const UID_LEN: nat := 40

  // ----- integers in memory -----

  function Power(k: nat): nat {
    if k == 0 then 1 else 256 * Power(k - 1)
  }

  /** The low `k` bytes of an integer, the least significant one first. */
  function Stored(n: nat, k: nat): (bs: Bytes)
    ensures |bs| == k
  {
    if k == 0 then [] else [n % 256] + Stored(n / 256, k - 1)
  }

  function Loaded(bs: Bytes): nat {
    if bs == [] then 0 else bs[0] + 256 * Loaded(bs[1..])
  }

  /** The bytes of an integer stand with the least significant one first. */
  lemma StoredPlainly(low: Byte, high: Byte)
    ensures Stored(low + 256 * high, 8) == [low, high, 0, 0, 0, 0, 0, 0]
  {
    var n := low + 256 * high;
    assert n % 256 == low && n / 256 == high && high / 256 == 0;
    Zeros(6);
    assert Stored(high, 7) == [high] + Stored(0, 6);
    assert Stored(n, 8) == [low] + Stored(high, 7);
  }

  lemma {:induction false} Zeros(k: nat)
    ensures Stored(0, k) == seq(k, _ => 0)
  {
    if k > 0 { Zeros(k - 1); }
  }

  lemma {:induction false} LoadedStored(n: nat, k: nat)
    requires n < Power(k)
    ensures Loaded(Stored(n, k)) == n
  {
    if k > 0 {
      LoadedStored(n / 256, k - 1);
      assert Stored(n, k)[1..] == Stored(n / 256, k - 1);
    }
  }

  lemma Word64()
    ensures Power(8) == WRAP
  {
    assert Power(0) == 1 && Power(1) == 0x100 && Power(2) == 0x1_0000;
    assert Power(3) == 0x100_0000 && Power(4) == 0x1_0000_0000;
    assert Power(5) == 0x100_0000_0000 && Power(6) == 0x1_0000_0000_0000;
    assert Power(7) == 0x100_0000_0000_0000;
  }

  // ----- the layout of an id -----

  /** What went into an id. */
  datatype Issue = Issue(hole: nat, serial: nat, random: Bytes)

  function Uid(instance: Bytes, u: Issue): Bytes {
    instance + Stored(u.hole, 8) + Stored(u.serial, 8) + u.random
  }

  function HoleOf(uid: Bytes): nat
    requires |uid| == UID_LEN
  {
    Loaded(uid[IID_LEN..IID_LEN + 8])
  }

  ghost predicate Fits(instance: Bytes, u: Issue) {
    |instance| == IID_LEN && u.hole < WRAP && u.serial < WRAP && |u.random| == NRANDOM
  }

  lemma UidPieces(instance: Bytes, u: Issue)
    requires Fits(instance, u)
    ensures var uid := Uid(instance, u);
      && |uid| == UID_LEN && uid[..IID_LEN] == instance && HoleOf(uid) == u.hole
      && Loaded(uid[24..32]) == u.serial && uid[32..] == u.random
  {
    var uid := Uid(instance, u);
    Word64();
    LoadedStored(u.hole, 8);
    LoadedStored(u.serial, 8);
    assert uid[IID_LEN..IID_LEN + 8] == Stored(u.hole, 8);
    assert uid[24..32] == Stored(u.serial, 8);
  }

  lemma UidInjective(instance: Bytes, u: Issue, v: Issue)
    requires Fits(instance, u) && Fits(instance, v) && Uid(instance, u) == Uid(instance, v)
    ensures u == v
  {
    UidPieces(instance, u);
    UidPieces(instance, v);
  }

  // ----- the registry -----

  datatype Book<T> = Book(items: seq<Option<T>>, uids: map<T, Bytes>, number: map<T, nat>, issued: seq<Issue>)

  ghost predicate Issued(instance: Bytes, issued: seq<Issue>) {
    forall i :: 0 <= i < |issued| ==> Fits(instance, issued[i]) && issued[i].serial == i % WRAP
  }

  /** Registered objects and taken slots are one to one, and the ids say so. */
  ghost predicate Consistent<T>(instance: Bytes, b: Book<T>) {
    && Issued(instance, b.issued)
    && b.number.Keys == b.uids.Keys
    && (forall o <- b.uids :: b.number[o] < |b.issued| && b.uids[o] == Uid(instance, b.issued[b.number[o]]))
    && (forall o <- b.uids ::
          b.issued[b.number[o]].hole < |b.items| && b.items[b.issued[b.number[o]].hole] == Some(o))
    && (forall k :: 0 <= k < |b.items| && b.items[k].Some? ==>
          b.items[k].value in b.uids && b.issued[b.number[b.items[k].value]].hole == k)
  }

  ghost function Added<T>(instance: Bytes, b: Book<T>, o: T, u: Issue): Book<T>
    requires u.hole < |b.items|
  {
    Book(b.items[u.hole := Some(o)], b.uids[o := Uid(instance, u)], b.number[o := |b.issued|], b.issued + [u])
  }

  ghost function Removed<T>(b: Book<T>, o: T, hole: nat): Book<T>
    requires hole < |b.items|
  {
    Book(b.items[hole := None], b.uids - {o}, b.number - {o}, b.issued)
  }

  lemma IssuedOnce(instance: Bytes, issued: seq<Issue>, u: Issue)
    requires Issued(instance, issued) && Fits(instance, u) && u.serial == |issued| % WRAP
    ensures Issued(instance, issued + [u])
  {
    hide Fits;
  }

  lemma AddedConsistent<T>(instance: Bytes, b: Book<T>, o: T, u: Issue)
    requires Consistent(instance, b) && o !in b.uids
    requires Fits(instance, u) && u.hole < |b.items| && b.items[u.hole] == None && u.serial == |b.issued| % WRAP
    ensures Consistent(instance, Added(instance, b, o, u))
  {
    hide Uid, Fits, Issued;
    IssuedOnce(instance, b.issued, u);
  }

  /** A slot that was found free is taken. */
  lemma TakenConsistent<T>(instance: Bytes, b: Book<T>, o: T, u: Issue, from: nat)
    requires Consistent(instance, b) && o !in b.uids && |b.items| < WRAP
    requires Nearest(Flags(b.items), from, u.hole) && u.serial == |b.issued| % WRAP
    requires |instance| == IID_LEN && |u.random| == NRANDOM
    ensures u.hole < |b.items| && (|b.issued| + 1) % WRAP == (u.serial + 1) % WRAP
    ensures var uids := b.uids[o := Uid(instance, u)];
      && Consistent(instance,
           Book(b.items[u.hole := Some(o)], uids, b.number[o := |b.issued|], b.issued + [u]))
      && |uids| == |b.uids| + 1
  {
    hide Consistent, Uid;
    AddedConsistent(instance, b, o, u);
  }

  lemma RemovedConsistent<T>(instance: Bytes, b: Book<T>, o: T)
    requires Consistent(instance, b) && o in b.uids
    ensures Consistent(instance, Removed(b, o, b.issued[b.number[o]].hole))
  {
    hide Uid, Fits;
  }

  class Registry<T(==)> {
    const instance: Bytes
    const sieve: Sieve<T>
    var uids: map<T, Bytes>        // the id field of every registered object
    ghost var issued: seq<Issue>   // every id that was ever given out
    ghost var number: map<T, nat>  // which of them a registered object has

    ghost function View(): Book<T>
      reads this, sieve, sieve.items
    {
      Book(sieve.items[..], uids, number, issued)
    }

    ghost predicate Valid()
      reads this, sieve, sieve.items
    {
      && sieve.Valid() && sieve.max < WRAP && |instance| == IID_LEN
      && sieve.index == |issued| % WRAP && sieve.filled == |uids|
      && Consistent(instance, View())
    }

    constructor (instance: Bytes, size: nat)
      requires |instance| == IID_LEN && size < WRAP
      ensures Valid() && fresh(sieve) && fresh(sieve.items)
      ensures uids == map[] && issued == [] && sieve.max == size && this.instance == instance
    {
      this.instance := instance;
      sieve := new Sieve<T>(size);
      uids, issued, number := map[], [], map[];
    }

    /** There is a vacant slot as long as fewer objects are registered than there are slots. */
    lemma VacancyExactly()
      requires Valid()
      ensures |uids| <= sieve.max
      ensures (exists k :: 0 <= k < sieve.max && sieve.items[k].None?) <==> |uids| < sieve.max
    {
      hide Consistent;
      BusyAll(sieve.Occupied());
      assert forall k :: 0 <= k < sieve.max ==> sieve.Occupied()[k] == sieve.items[k].Some?;
    }

    lemma Conditions()
      ensures Valid() <==>
        && sieve.Valid() && sieve.max < WRAP && |instance| == IID_LEN
        && sieve.index == |issued| % WRAP && sieve.filled == |uids| && Consistent(instance, View())
      ensures View() == Book(sieve.items[..], uids, number, issued)
      ensures sieve.Occupied() == Flags(sieve.items[..]) && (sieve.Valid() ==> |sieve.items[..]| == sieve.max)
    {
    }

    /** Gives an object a slot and an id; fails only when every slot is taken. */
    method Register(o: T, random: Bytes) returns (ok: bool)
      requires Valid() && o !in uids && |random| == NRANDOM
      modifies this, sieve, sieve.items
      ensures Valid() && sieve.items == old(sieve.items)
      ensures ok <==> exists k :: 0 <= k < sieve.max && old(sieve.items[k]).None?
      ensures !ok ==> uids == old(uids) && issued == old(issued) && number == old(number)
      ensures ok ==> |issued| == |old(issued)| + 1 && issued[..|old(issued)|] == old(issued)
      ensures ok ==> issued[|old(issued)|].random == random
      ensures ok ==> uids == old(uids)[o := Uid(instance, issued[|old(issued)|])]
      ensures ok ==> number == old(number)[o := |old(issued)|]
    {
      hide *;
      Conditions();
      ghost var b, from := View(), sieve.offset;
      var serial, hole;
      ok, serial, hole := sieve.FindHole(o);
      if ok {
        TakenConsistent(instance, b, o, Issue(hole, serial, random), from);
        issued := issued + [Issue(hole, serial, random)];
        uids := uids[o := Uid(instance, Issue(hole, serial, random))];
        number := number[o := |issued| - 1];
      }
      Conditions();
    }

    /** Looks an object up by an id that some message carries. */
    method Find(data: Bytes) returns (found: Slot<T>)
      requires Valid() && |data| == UID_LEN
      ensures found == PastEnd <==> HoleOf(data) == sieve.max
      ensures HoleOf(data) != sieve.max ==> forall o :: found == Taken(o) <==> o in uids && uids[o] == data
    {
      hide Uid, HoleOf, Fits;
      found := sieve.Get(HoleOf(data));
      if found.Taken? && uids[found.item] != data {
        found := Vacant;
      }
      HolesOfUids();
    }

    /** An id with the capacity for a slot number has the length of an id, so that its lookup takes
        the slot past the end, whatever is registered. */
    lemma PastEndId(serial: nat, random: Bytes)
      requires Valid() && serial < WRAP && |random| == NRANDOM
      ensures var data := Uid(instance, Issue(sieve.max, serial, random));
        |data| == UID_LEN && HoleOf(data) == sieve.max
    {
      hide Uid, HoleOf;
      UidPieces(instance, Issue(sieve.max, serial, random));
    }

    lemma HolesOfUids()
      requires Valid()
      ensures forall o <- uids ::
        |uids[o]| == UID_LEN && HoleOf(uids[o]) < sieve.max && sieve.items[HoleOf(uids[o])] == Some(o)
    {
      forall o <- uids
        ensures |uids[o]| == UID_LEN && HoleOf(uids[o]) < sieve.max && sieve.items[HoleOf(uids[o])] == Some(o)
      {
        UidPieces(instance, issued[number[o]]);
      }
    }

    /** Walks over the slots and gathers the objects. */
    method All() returns (xs: seq<T>)
      requires Valid()
      ensures Distinct(xs) && Elements(xs) == uids.Keys
    {
      hide Consistent, Valid, Uid, Fits, Issued;
      Conditions();
      xs := [];
      for k := 0 to sieve.max
        invariant Distinct(xs) && forall x <- xs ::
          x in uids && x in number && number[x] < |issued| && issued[number[x]].hole < k
        invariant forall j :: 0 <= j < k && sieve.items[j].Some? ==> sieve.items[j].value in xs
      {
        InSlot(k);
        if sieve.items[k].Some? { xs := xs + [sieve.items[k].value]; }
      }
      Slots();
    }

    lemma InSlot(k: nat)
      requires Valid() && k < sieve.max
      ensures sieve.items[k].Some? ==>
        && sieve.items[k].value in uids && sieve.items[k].value in number
        && number[sieve.items[k].value] < |issued| && issued[number[sieve.items[k].value]].hole == k
    {
      hide Uid, Fits, Issued;
      assert sieve.items[..][k] == sieve.items[k];
    }

    lemma Slots()
      requires Valid()
      ensures forall o <- uids :: exists k :: 0 <= k < sieve.max && sieve.items[k] == Some(o)
    {
      hide Uid, Fits, Issued;
      forall o <- uids ensures exists k :: 0 <= k < sieve.max && sieve.items[k] == Some(o) {
        var k := issued[number[o]].hole;
        assert sieve.items[..][k] == Some(o);
      }
    }

    /** The object's slot is free again; its id will not be found any more. */
    method Unregister(o: T)
      requires Valid() && o in uids
      modifies this, sieve`filled, sieve.items
      ensures Valid() && sieve.items == old(sieve.items)
      ensures uids == old(uids) - {o} && number == old(number) - {o} && issued == old(issued)
      ensures exists k :: 0 <= k < sieve.max && sieve.items[k].None?
    {
      hide Consistent, Uid, HoleOf, Fits;
      ghost var b := View();
      HolesOfUids();
      RemovedConsistent(instance, b, o);
      HoleIs(o);
      ghost var hole := HoleOf(uids[o]);
      sieve.Empty(HoleOf(uids[o]));
      assert sieve.items[..][hole] == None;
      uids := uids - {o};
      number := number - {o};
    }

    lemma HoleIs(o: T)
      requires Valid() && o in uids
      ensures o in number && number[o] < |issued| && uids[o] == Uid(instance, issued[number[o]])
      ensures |uids[o]| == UID_LEN && HoleOf(uids[o]) == issued[number[o]].hole
    {
      UidPieces(instance, issued[number[o]]);
    }

    /** An id that was issued to an object that is gone leads to nobody, as long as the serial
        number did not wrap around, however often its slot was used again. */
    lemma StaleIdFindsNobody(i: nat)
      requires Valid() && i < |issued| <= WRAP && i !in number.Values
      ensures forall o <- uids :: uids[o] != Uid(instance, issued[i])
    {
      hide Uid, Fits, Consistent, Issued;
      forall o <- uids ensures uids[o] != Uid(instance, issued[i]) {
        if uids[o] == Uid(instance, issued[i]) {
          SameIdSameNumber(o, i);
          assert false;
        }
      }
    }

    lemma HoleOfUid(o: T)
      requires Valid() && o in uids
      ensures |uids[o]| == UID_LEN
    {
      HolesOfUids();
    }

    /** While serial numbers did not wrap around, an id tells which issue it comes from. */
    lemma SameIdSameNumber(o: T, i: nat)
      requires Valid() && o in uids && i < |issued| <= WRAP && uids[o] == Uid(instance, issued[i])
      ensures o in number && number[o] == i
    {
      hide Uid, Fits, Consistent, Issued;
      HistoryIsIssued();
      HoleIs(o);
      var j := number[o];
      if i < j {
        AlikeOnlyAfterWrap(instance, issued, i, j);
      } else if j < i {
        AlikeOnlyAfterWrap(instance, issued, j, i);
      }
    }

    lemma Keys()
      requires Valid()
      ensures number.Keys == uids.Keys
    {
    }

    lemma HistoryIsIssued()
      requires Valid()
      ensures Issued(instance, issued)
    {
    }
  }

  /** Two ids are alike only if a whole number of serial cycles lies between them. */
  lemma AlikeOnlyAfterWrap(instance: Bytes, issued: seq<Issue>, i: nat, j: nat)
    requires Issued(instance, issued) && i < j < |issued|
    requires Uid(instance, issued[i]) == Uid(instance, issued[j])
    ensures (j - i) % WRAP == 0 && j >= i + WRAP
  {
    hide Uid, HoleOf;
    UidInjective(instance, issued[i], issued[j]);
    assert i % WRAP == j % WRAP;
  }
}
