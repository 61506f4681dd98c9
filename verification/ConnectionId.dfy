/** The text a long-polling client gets as its connection id, and the reading of that text
    (src/polling.c): 40 bytes of uid, the first 32 of them hidden behind a mask that is computed
    from the last 8, all printed as upper-case hexadecimal digits. */
module ConnectionId {
  import opened Lists

  type Octets = seq<bv8>

  const UID_LEN: nat := 40
  const MASKED_LEN: nat := 32
  const DIGEST_LEN: nat := 16

  /** Byte k of the digest of the random tail of a uid; nothing is known about it. */
  type Mask = (Octets, nat) -> bv8

  function Masked(uid: Octets, mask: Mask): (r: Octets)
    requires |uid| == UID_LEN
    ensures |r| == UID_LEN
  {
    seq(UID_LEN, i requires 0 <= i < UID_LEN =>
      if i < MASKED_LEN then uid[i] ^ mask(uid[MASKED_LEN..], i % DIGEST_LEN) else uid[i])
  }

  // ----- hexadecimal digits -----

  function Digit(n: bv8): bv8
    requires n < 16
  {
    if n < 10 then 48 + n else 55 + n
  }

  function DigitValue(c: bv8): (n: Option<bv8>)
    ensures n.Some? ==> n.value < 16
  {
    if 48 <= c <= 57 then Some(c - 48)
    else if 65 <= c <= 70 then Some(c - 55)
    else None
  }

  predicate IsHex(s: Octets) {
    forall k :: 0 <= k < |s| ==> DigitValue(s[k]).Some?
  }

  /** One of the two digits of a byte. */
  function DigitOf(b: bv8, high: bool): bv8 {
    Halves(b);
    Digit(if high then b >> 4 else b & 15)
  }

  function Hex(bytes: Octets): (s: Octets)
    ensures |s| == 2 * |bytes|
  {
    seq(2 * |bytes|, k requires 0 <= k < 2 * |bytes| =>
      DigitOf(bytes[k / 2], k % 2 == 0))
  }

  /** The byte that two digits stand for. */
  function Pair(c: bv8, d: bv8): bv8
    requires DigitValue(c).Some? && DigitValue(d).Some?
  {
    (DigitValue(c).value << 4) | DigitValue(d).value
  }

  function Unhex(s: Octets): (bytes: Octets)
    requires |s| % 2 == 0 && IsHex(s)
    ensures |bytes| == |s| / 2
  {
    seq(|s| / 2, i requires 0 <= i < |s| / 2 => Pair(s[2 * i], s[2 * i + 1]))
  }

  lemma DigitIsRead(n: bv8)
    requires n < 16
    ensures DigitValue(Digit(n)) == Some(n)
  {
  }

  lemma DigitIsPrinted(c: bv8)
    requires DigitValue(c).Some?
    ensures Digit(DigitValue(c).value) == c
  {
  }

  lemma Halves(b: bv8)
    ensures b >> 4 < 16 && b & 15 < 16 && ((b >> 4) << 4) | (b & 15) == b
  {
  }

  lemma Whole(hi: bv8, lo: bv8)
    requires hi < 16 && lo < 16
    ensures ((hi << 4) | lo) >> 4 == hi && ((hi << 4) | lo) & 15 == lo
  {
  }

  lemma HexIsRead(bytes: Octets)
    ensures IsHex(Hex(bytes)) && Unhex(Hex(bytes)) == bytes
  {
    hide Digit, DigitValue;
    var s := Hex(bytes);
    forall k | 0 <= k < |s| ensures DigitValue(s[k]).Some? {
      Halves(bytes[k / 2]);
      DigitIsRead(if k % 2 == 0 then bytes[k / 2] >> 4 else bytes[k / 2] & 15);
    }
    forall i | 0 <= i < |bytes| ensures Unhex(s)[i] == bytes[i] {
      Halves(bytes[i]);
      DigitIsRead(bytes[i] >> 4);
      DigitIsRead(bytes[i] & 15);
    }
  }

  lemma HexIsPrinted(s: Octets)
    requires |s| % 2 == 0 && IsHex(s)
    ensures Hex(Unhex(s)) == s
  {
    hide Digit, DigitValue;
    var bytes := Unhex(s);
    forall k | 0 <= k < |s| ensures Hex(bytes)[k] == s[k] {
      var i := k / 2;
      Whole(DigitValue(s[2 * i]).value, DigitValue(s[2 * i + 1]).value);
      DigitIsPrinted(s[k]);
    }
  }

  // ----- ids -----

  function Printed(uid: Octets, mask: Mask): (id: Octets)
    requires |uid| == UID_LEN
    ensures |id| == 2 * UID_LEN
  {
    Hex(Masked(uid, mask))
  }

  predicate Accepted(id: Octets) {
    |id| == 2 * UID_LEN && IsHex(id)
  }

  function Decoded(id: Octets, mask: Mask): (uid: Octets)
    requires Accepted(id)
    ensures |uid| == UID_LEN
  {
    Masked(Unhex(id), mask)
  }

  lemma XorTwice(a: bv8, m: bv8)
    ensures (a ^ m) ^ m == a
  {
  }

  /** The mask depends on bytes that it leaves alone, so putting it on twice takes it off. */
  lemma MaskedTwice(uid: Octets, mask: Mask)
    requires |uid| == UID_LEN
    ensures Masked(Masked(uid, mask), mask) == uid
  {
    var once := Masked(uid, mask);
    assert once[MASKED_LEN..] == uid[MASKED_LEN..];
    forall i | 0 <= i < UID_LEN ensures Masked(once, mask)[i] == uid[i] {
      XorTwice(uid[i], mask(uid[MASKED_LEN..], i % DIGEST_LEN));
    }
  }

  /** Whatever the mask, the id that was printed for a uid is accepted and names that uid. */
  lemma PrintedIsDecoded(uid: Octets, mask: Mask)
    requires |uid| == UID_LEN
    ensures Accepted(Printed(uid, mask)) && Decoded(Printed(uid, mask), mask) == uid
  {
    hide Masked, Hex, Unhex, IsHex;
    HexIsRead(Masked(uid, mask));
    MaskedTwice(uid, mask);
  }

  /** Every accepted id is the one that is printed for the uid it names, so that no two ids name
      the same connection. */
  lemma DecodedIsPrinted(id: Octets, mask: Mask)
    requires Accepted(id)
    ensures Printed(Decoded(id, mask), mask) == id
  {
    hide Masked, Hex, Unhex, IsHex;
    HexIsPrinted(id);
    MaskedTwice(Unhex(id), mask);
  }

  /** The two digits printed for one byte. */
  lemma PrintedAt(uid: Octets, mask: Mask, i: nat, c: bv8)
    requires |uid| == UID_LEN && i < UID_LEN && c == Masked(uid, mask)[i]
    ensures (c >> 4) & 15 < 16 && c & 15 < 16
    ensures Printed(uid, mask)[2 * i] == Digit((c >> 4) & 15)
    ensures Printed(uid, mask)[2 * i + 1] == Digit(c & 15)
  {
    hide Masked, Digit;
    Halves(c);
    assert (c >> 4) & 15 == c >> 4;
    assert (2 * i) % 2 == 0 && (2 * i) / 2 == i && (2 * i + 1) % 2 == 1 && (2 * i + 1) / 2 == i;
  }

  /** Fills a reply buffer with the id of a connection. */
  method PrintId(uid: array<bv8>, mask: Mask) returns (id: array<bv8>)
    requires uid.Length == UID_LEN
    ensures fresh(id) && id[..] == Printed(uid[..], mask)
  {
    hide Printed, Digit;
    id := new bv8[2 * UID_LEN];
    var tail := uid[MASKED_LEN..];
    ghost var plain := uid[..];
    assert tail == plain[MASKED_LEN..];
    for i := 0 to MASKED_LEN
      invariant forall k :: 0 <= k < 2 * i ==> id[k] == Printed(plain, mask)[k]
    {
      var c := uid[i];
      c := c ^ mask(tail, i % DIGEST_LEN);
      PrintedAt(plain, mask, i, c);
      id[2 * i] := Digit((c >> 4) & 15);
      id[2 * i + 1] := Digit(c & 15);
    }
    for i := MASKED_LEN to UID_LEN
      invariant forall k :: 0 <= k < 2 * i ==> id[k] == Printed(plain, mask)[k]
    {
      var c := uid[i];
      PrintedAt(plain, mask, i, c);
      id[2 * i] := Digit((c >> 4) & 15);
      id[2 * i + 1] := Digit(c & 15);
    }
  }

  /** Reads an id into the uid of a request. When an id is refused, its uid is not looked at. */
  method ReadId(value: Octets, mask: Mask, uid: array<bv8>) returns (ok: bool)
    requires uid.Length == UID_LEN
    modifies uid
    ensures ok <==> Accepted(value)
    ensures ok ==> uid[..] == Decoded(value, mask)
  {
    hide DigitValue;
    if |value| != 2 * UID_LEN { return false; }
    for i := 0 to UID_LEN
      invariant forall k :: 0 <= k < 2 * i ==> DigitValue(value[k]).Some?
      invariant forall k :: 0 <= k < i ==> uid[k] == Pair(value[2 * k], value[2 * k + 1])
    {
      var c := DigitValue(value[2 * i]);
      if c.None? { return false; }
      var d := DigitValue(value[2 * i + 1]);
      if d.None? { return false; }
      uid[i] := (c.value << 4) | d.value;
    }
    assert uid[..] == Unhex(value);
    ghost var plain := uid[..];
    var tail := uid[MASKED_LEN..];
    assert tail == plain[MASKED_LEN..];
    for i := 0 to MASKED_LEN
      invariant forall k :: 0 <= k < i ==> uid[k] == Masked(plain, mask)[k]
      invariant forall k :: i <= k < UID_LEN ==> uid[k] == plain[k]
    {
      uid[i] := uid[i] ^ mask(tail, i % DIGEST_LEN);
    }
    assert uid[..] == Masked(plain, mask);
    ok := true;
  }

  /** The digits of a printed id, in numbers: the tail of the uid as it is, and the rest masked. */
  lemma PrintedPlainly(uid: Octets, mask: Mask, i: nat)
    requires |uid| == UID_LEN && i < UID_LEN
    ensures var id := Printed(uid, mask);
      var b := if i < 32 then uid[i] ^ mask(uid[32..], i % 16) else uid[i];
      && (48 <= id[2 * i] <= 57 || 65 <= id[2 * i] <= 70)
      && (48 <= id[2 * i + 1] <= 57 || 65 <= id[2 * i + 1] <= 70)
      && id[2 * i] == (if b >> 4 < 10 then 48 + (b >> 4) else 65 + (b >> 4) - 10)
      && id[2 * i + 1] == (if b & 15 < 10 then 48 + (b & 15) else 65 + (b & 15) - 10)
  {
    var b := Masked(uid, mask)[i];
    Halves(b);
    Low(b);
    PrintedAt(uid, mask, i, b);
  }

  lemma Low(b: bv8)
    ensures (b >> 4) & 15 == b >> 4
  {
  }
}
