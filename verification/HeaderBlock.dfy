/** The header block of a backend reply: names and values, each ended by a NUL byte. The reader is
    the nested scan of src/http.c and src/disk.c; the writer is that of the disk thread. */
module HeaderBlock {
  import opened Entities

  datatype Header = Header(name: Bytes, value: Bytes)

  const NUL: Byte := 0

  // ----- the format -----

  ghost predicate Text(s: Bytes) {
    NUL !in s
  }

  ghost predicate Texts(hs: seq<Header>) {
    forall i :: 0 <= i < |hs| ==> Text(hs[i].name) && Text(hs[i].value)
  }

  function Printed(h: Header): Bytes {
    h.name + [NUL] + h.value + [NUL]
  }

  function Block(hs: seq<Header>): Bytes {
    if hs == [] then [] else Block(hs[..|hs| - 1]) + Printed(hs[|hs| - 1])
  }

  function Nuls(s: Bytes): nat {
    if s == [] then 0 else (if s[0] == NUL then 1 else 0) + Nuls(s[1..])
  }

  lemma {:induction false} NulsConcat(a: Bytes, b: Bytes)
    ensures Nuls(a + b) == Nuls(a) + Nuls(b)
  {
    if a == [] {
      assert a + b == b;
    } else {
      NulsConcat(a[1..], b);
      assert (a + b)[1..] == a[1..] + b;
    }
  }

  lemma {:induction false} NulsOfText(s: Bytes)
    ensures Text(s) <==> Nuls(s) == 0
  {
    if s != [] {
      NulsOfText(s[1..]);
      assert s == [s[0]] + s[1..];
    }
  }

  // ----- the reader -----

  ghost predicate Parsed(data: Bytes, hs: seq<Header>, rest: Bytes) {
    Texts(hs) && data == Block(hs) + rest && Nuls(rest) < 2
  }

  lemma BlockStep(hs: seq<Header>, h: Header)
    ensures Block(hs + [h]) == Block(hs) + Printed(h)
  {
    assert (hs + [h])[..|hs|] == hs;
  }

  /** The first scan ran into the end: the tail holds no NUL byte. */
  lemma NoName(data: Bytes, name: nat)
    requires name <= |data| && Text(data[name..])
    ensures Nuls(data[name..]) < 2
  {
    NulsOfText(data[name..]);
  }

  /** The second scan ran into the end: the tail holds one NUL byte. */
  lemma NoValue(data: Bytes, name: nat, value: nat)
    requires name < value <= |data| && Text(data[name..value - 1]) && data[value - 1] == NUL && Text(data[value..])
    ensures Nuls(data[name..]) < 2
  {
    NulsOfText(data[name..value - 1]);
    NulsOfText(data[value..]);
    assert data[name..] == data[name..value - 1] + ([NUL] + data[value..]);
    NulsConcat(data[name..value - 1], [NUL] + data[value..]);
    assert ([NUL] + data[value..])[1..] == data[value..];
  }

  lemma HeaderTaken(data: Bytes, hs: seq<Header>, name: nat, value: nat, cur: nat)
    requires name < value <= cur < |data| && data[value - 1] == NUL && data[cur] == NUL
    requires Texts(hs) && Block(hs) == data[..name] && Text(data[name..value - 1]) && Text(data[value..cur])
    ensures var h := Header(data[name..value - 1], data[value..cur]);
      Texts(hs + [h]) && Block(hs + [h]) == data[..cur + 1]
  {
    hide Text, Block;
    var h := Header(data[name..value - 1], data[value..cur]);
    BlockStep(hs, h);
    assert data[..cur + 1] == data[..name] + Printed(h);
  }

  lemma NothingRead(data: Bytes)
    ensures Texts([]) && Block([]) == data[..0]
  {
  }

  lemma NoText(data: Bytes, at: nat)
    requires at <= |data|
    ensures Text(data[at..at])
  {
  }

  lemma MoreText(data: Bytes, from: nat, cur: nat)
    requires from <= cur < |data| && Text(data[from..cur]) && data[cur] != NUL
    ensures Text(data[from..cur + 1])
  {
  }

  lemma AllRead(data: Bytes, name: nat)
    requires name <= |data|
    ensures data == data[..name] + data[name..]
    ensures name == |data| ==> Nuls(data[name..]) < 2
  {
  }

  /** Scans a header block. The two inner scans share one cursor, which the outer loop moves past
      the NUL byte that ended the value. */
  method Read(data: Bytes) returns (headers: seq<Header>, garbage: bool)
    ensures exists rest :: Parsed(data, headers, rest) && (garbage <==> rest != [])
  {
    hide Block, Nuls, Printed, Texts, Text;
    headers := [];
    NothingRead(data);
    var name, value, cur, end := 0, 0, 0, |data|;
    while cur < end
      invariant 0 <= name <= end && Texts(headers) && Block(headers) == data[..name]
      invariant cur == name || (cur > end && Nuls(data[name..]) < 2)
      decreases end - cur
    {
      ghost var named, valued := false, false;
      NoText(data, cur);
      while cur < end
        invariant name <= cur <= end && !named && Text(data[name..cur])
      {
        if data[cur] == NUL {
          value := cur + 1;
          cur := cur + 1;
          named := true;
          NoText(data, cur);
          assert data[name..value - 1] == data[name..cur - 1];
          break;
        }
        MoreText(data, name, cur);
        cur := cur + 1;
      }
      assert data[name..end] == data[name..];
      ghost var from := name;
      while cur < end
        invariant name == from <= cur <= end && !valued
        invariant if named
          then from < value <= cur && data[value - 1] == NUL && Text(data[from..value - 1]) && Text(data[value..cur])
                  else cur == end && Text(data[from..])
      {
        if data[cur] == NUL {
          HeaderTaken(data, headers, name, value, cur);
          headers := headers + [Header(data[name..value - 1], data[value..cur])];
          name := cur + 1;
          valued := true;
          break;
        }
        if named { MoreText(data, value, cur); }
        cur := cur + 1;
      }
      if !named {
        NoName(data, name);
      } else if !valued {
        assert data[value..end] == data[value..];
        NoValue(data, name, value);
      }
      cur := cur + 1;
    }
    garbage := name < end;
    AllRead(data, name);
    assert Parsed(data, headers, data[name..]);
  }

  /** There is only one way to read a block. */
  lemma {:induction false} ReadingIsUnique(data: Bytes, hs: seq<Header>, rest: Bytes, hs': seq<Header>, rest': Bytes)
    requires Parsed(data, hs, rest) && Parsed(data, hs', rest')
    ensures hs == hs' && rest == rest'
    decreases |hs|
  {
    BlockNuls(hs);
    BlockNuls(hs');
    NulsConcat(Block(hs), rest);
    NulsConcat(Block(hs'), rest');
    assert |hs| == |hs'|;
    BlocksAgree(hs, rest, hs', rest');
  }

  lemma {:induction false} BlockNuls(hs: seq<Header>)
    requires Texts(hs)
    ensures Nuls(Block(hs)) == 2 * |hs|
  {
    if hs != [] {
      var n := |hs| - 1;
      BlockNuls(hs[..n]);
      NulsConcat(Block(hs[..n]), Printed(hs[n]));
      PrintedNuls(hs[n]);
    }
  }

  lemma PrintedNuls(h: Header)
    requires Text(h.name) && Text(h.value)
    ensures Nuls(Printed(h)) == 2
  {
    NulsOfText(h.name);
    NulsOfText(h.value);
    assert Printed(h) == h.name + ([NUL] + (h.value + [NUL]));
    NulsConcat(h.name, [NUL] + (h.value + [NUL]));
    NulsConcat([NUL], h.value + [NUL]);
    NulsConcat(h.value, [NUL]);
    assert Nuls([NUL]) == 1;
  }

  function Front(hs: seq<Header>): Bytes
  {
    if hs == [] then [] else Printed(hs[0]) + Front(hs[1..])
  }

  lemma {:induction false} FrontStep(hs: seq<Header>, h: Header)
    ensures Front(hs + [h]) == Front(hs) + Printed(h)
  {
    hide Printed;
    if hs == [] {
      assert [] + [h] == [h] && [h][1..] == [];
    } else {
      FrontStep(hs[1..], h);
      assert (hs + [h])[1..] == hs[1..] + [h] && (hs + [h])[0] == hs[0];
    }
  }

  lemma {:induction false} BlockFromFront(hs: seq<Header>)
    ensures Block(hs) == Front(hs)
  {
    hide Printed, Front;
    if hs == [] {
      NoFront();
    } else {
      var n := |hs| - 1;
      BlockFromFront(hs[..n]);
      FrontStep(hs[..n], hs[n]);
      assert hs == hs[..n] + [hs[n]];
    }
  }

  lemma NoFront()
    ensures Front([]) == []
  {
  }

  function FirstNul(s: Bytes): nat {
    if s == [] || s[0] == NUL then 0 else 1 + FirstNul(s[1..])
  }

  lemma {:induction false} FirstNulAfterText(a: Bytes, x: Bytes)
    requires Text(a)
    ensures FirstNul(a + [NUL] + x) == |a|
  {
    var s := a + [NUL] + x;
    if a != [] {
      assert a[0] in a && s[0] == a[0];
      FirstNulAfterText(a[1..], x);
      assert s[1..] == a[1..] + [NUL] + x;
    }
  }

  /** The text before the first NUL byte is determined by the bytes. */
  lemma TextsAgree(a: Bytes, x: Bytes, b: Bytes, y: Bytes)
    requires Text(a) && Text(b) && a + [NUL] + x == b + [NUL] + y
    ensures a == b && x == y
  {
    var s, t := a + [NUL] + x, b + [NUL] + y;
    FirstNulAfterText(a, x);
    FirstNulAfterText(b, y);
    assert a == s[..|a|] && b == t[..|b|];
    assert x == s[|a| + 1..] && y == t[|b| + 1..];
  }

  lemma {:induction false} BlocksAgree(hs: seq<Header>, rest: Bytes, hs': seq<Header>, rest': Bytes)
    requires Texts(hs) && Texts(hs') && |hs| == |hs'| && Block(hs) + rest == Block(hs') + rest'
    ensures hs == hs' && rest == rest'
  {
    BlockFromFront(hs);
    BlockFromFront(hs');
    FrontsAgree(hs, rest, hs', rest');
  }

  lemma {:induction false} FrontsAgree(hs: seq<Header>, rest: Bytes, hs': seq<Header>, rest': Bytes)
    requires Texts(hs) && Texts(hs') && |hs| == |hs'| && Front(hs) + rest == Front(hs') + rest'
    ensures hs == hs' && rest == rest'
  {
    if hs == [] {
      assert Front(hs) + rest == rest && Front(hs') + rest' == rest';
    } else {
      var h, h' := hs[0], hs'[0];
      var x, x' := Front(hs[1..]) + rest, Front(hs'[1..]) + rest';
      assert Front(hs) + rest == h.name + [NUL] + (h.value + [NUL] + x);
      assert Front(hs') + rest' == h'.name + [NUL] + (h'.value + [NUL] + x');
      TextsAgree(h.name, h.value + [NUL] + x, h'.name, h'.value + [NUL] + x');
      TextsAgree(h.value, x, h'.value, x');
      FrontsAgree(hs[1..], rest, hs'[1..], rest');
      assert hs == [h] + hs[1..] && hs' == [h'] + hs'[1..];
    }
  }

  /** Reading what was printed gives it back, without a warning. */
  lemma ReadBack(hs: seq<Header>, got: seq<Header>, rest: Bytes)
    requires Texts(hs) && Parsed(Block(hs), got, rest)
    ensures got == hs && rest == []
  {
    assert Block(hs) == Block(hs) + [];
    ReadingIsUnique(Block(hs), got, rest, hs, []);
  }

  // ----- the writer -----

  const CONTENT_TYPE: Bytes := [0x43, 0x6f, 0x6e, 0x74, 0x65, 0x6e, 0x74, 0x2d, 0x54, 0x79, 0x70, 0x65]
  const LAST_MODIFIED: Bytes := [0x4c, 0x61, 0x73, 0x74, 0x2d, 0x4d, 0x6f, 0x64, 0x69, 0x66, 0x69, 0x65, 0x64]
  const CONTENT_ENCODING: Bytes :=
    [0x43, 0x6f, 0x6e, 0x74, 0x65, 0x6e, 0x74, 0x2d, 0x45, 0x6e, 0x63, 0x6f, 0x64, 0x69, 0x6e, 0x67]
  const GZIP: Bytes := [0x67, 0x7a, 0x69, 0x70]

  /** The headers of a file that the disk thread serves. */
  function FileHeaders(mime: Bytes, lastmod: Bytes, gz: bool): seq<Header> {
    [Header(CONTENT_TYPE, mime), Header(LAST_MODIFIED, lastmod)] + if gz then [Header(CONTENT_ENCODING, GZIP)] else []
  }

  /** Copies bytes into a buffer at a position and moves the position past them. */
  method Copy(buffer: array<Byte>, at: nat, bytes: Bytes) returns (next: nat)
    requires at + |bytes| <= buffer.Length
    modifies buffer
    ensures next == at + |bytes|
    ensures buffer[..next] == old(buffer[..at]) + bytes
  {
    for i := 0 to |bytes|
      invariant buffer[..at] == old(buffer[..at])
      invariant forall j :: 0 <= j < i ==> buffer[at + j] == bytes[j]
    {
      buffer[at + i] := bytes[i];
    }
    next := at + |bytes|;
    assert buffer[..next] == buffer[..at] + buffer[at..next];
    assert buffer[at..next] == bytes;
  }

  /** The bytes of the message, name after name and value after value. */
  function FileBytes(mime: Bytes, lastmod: Bytes, gz: bool): Bytes {
    CONTENT_TYPE + [NUL] + (mime + [NUL]) + (LAST_MODIFIED + [NUL]) + (lastmod + [NUL])
    + if gz then CONTENT_ENCODING + [NUL] + GZIP + [NUL] else []
  }

  lemma FileBytesAre(mime: Bytes, lastmod: Bytes, gz: bool)
    ensures FileBytes(mime, lastmod, gz) ==
      CONTENT_TYPE + [NUL] + (mime + [NUL]) + (LAST_MODIFIED + [NUL]) + (lastmod + [NUL])
      + if gz then CONTENT_ENCODING + [NUL] + GZIP + [NUL] else []
  {
  }

  lemma FileBlock(mime: Bytes, lastmod: Bytes, gz: bool)
    ensures Block(FileHeaders(mime, lastmod, gz)) == FileBytes(mime, lastmod, gz)
  {
    hide Block, CONTENT_TYPE, LAST_MODIFIED, CONTENT_ENCODING, GZIP;
    var first, second := Header(CONTENT_TYPE, mime), Header(LAST_MODIFIED, lastmod);
    NothingRead([]);
    BlockStep([], first);
    BlockStep([first], second);
    assert [] + [first] == [first] && [first] + [second] == [first, second] && [first, second] + [] == [first, second];
    assert Block([first, second]) ==
      CONTENT_TYPE + [NUL] + (mime + [NUL]) + (LAST_MODIFIED + [NUL]) + (lastmod + [NUL]);
    if gz {
      BlockStep([first, second], Header(CONTENT_ENCODING, GZIP));
    }
  }

  /** Fills a message of the size computed beforehand. */
  method Fill(mime: Bytes, lastmod: Bytes, gz: bool) returns (buffer: array<Byte>)
    ensures fresh(buffer) && buffer[..] == FileBytes(mime, lastmod, gz)
  {
    hide *;
    var mimelen := |mime| + 1;
    var modlen := |lastmod| + 1;
    var totsize := |CONTENT_TYPE| + 1 + mimelen + |LAST_MODIFIED| + 1 + modlen;
    if gz { totsize := totsize + |CONTENT_ENCODING| + 1 + |GZIP| + 1; }
    buffer := new Byte[totsize];
    var data := Copy(buffer, 0, CONTENT_TYPE + [NUL]);
    data := Copy(buffer, data, mime + [NUL]);
    data := Copy(buffer, data, LAST_MODIFIED + [NUL]);
    data := Copy(buffer, data, lastmod + [NUL]);
    if gz {
      data := Copy(buffer, data, CONTENT_ENCODING + [NUL] + GZIP + [NUL]);
    }
    assert data == totsize && buffer[..data] == buffer[..];
    FileBytesAre(mime, lastmod, gz);
  }

  /** Writes the headers of a file. */
  method Write(mime: Bytes, lastmod: Bytes, gz: bool) returns (buffer: array<Byte>)
    ensures fresh(buffer) && buffer[..] == Block(FileHeaders(mime, lastmod, gz))
    ensures buffer[..] ==
      CONTENT_TYPE + [NUL] + (mime + [NUL]) + (LAST_MODIFIED + [NUL]) + (lastmod + [NUL])
      + if gz then CONTENT_ENCODING + [NUL] + GZIP + [NUL] else []
  {
    hide *;
    FileBytesAre(mime, lastmod, gz);
    FileBlock(mime, lastmod, gz);
    buffer := Fill(mime, lastmod, gz);
  }

  lemma FileTexts(mime: Bytes, lastmod: Bytes, gz: bool)
    requires Text(mime) && Text(lastmod)
    ensures Texts(FileHeaders(mime, lastmod, gz))
  {
    hide Text, CONTENT_TYPE, LAST_MODIFIED, CONTENT_ENCODING, GZIP;
    NamesAreTexts();
  }

  lemma NamesAreTexts()
    ensures Text(CONTENT_TYPE) && Text(LAST_MODIFIED) && Text(CONTENT_ENCODING) && Text(GZIP)
  {
  }

  /** The reader gets from the writer's block exactly the headers of the file. */
  method Serve(mime: Bytes, lastmod: Bytes, gz: bool) returns (headers: seq<Header>, garbage: bool)
    requires Text(mime) && Text(lastmod)
    ensures headers == FileHeaders(mime, lastmod, gz) && !garbage
  {
    hide Block, Parsed, Text;
    var buffer := Write(mime, lastmod, gz);
    headers, garbage := Read(buffer[..]);
    ghost var hs := FileHeaders(mime, lastmod, gz);
    ghost var rest :| Parsed(buffer[..], headers, rest) && (garbage <==> rest != []);
    FileTexts(mime, lastmod, gz);
    ReadBack(hs, headers, rest);
  }
}
