/** The Redis client of the chat example (examples/tabbedchat/tabbedchat/redis.py): commands are
    printed, and replies are read from a socket that hands its bytes over in arbitrary pieces.
    The formats are "Arrays" and "Bulk strings" of the Redis serialization protocol. */
module Resp {
  import opened Lists
  import opened Entities

  datatype Reply =
    | Array(items: seq<Reply>)
    | Status(text: Bytes)
    | Error(text: Bytes)
    | Integer(n: int)
    | Bulk(data: Bytes)
    | Nothing

  /** The exceptions of the reader. */
  datatype Failure = EndOfFile | BadNumber | EmptyLine | NotAscii | NotTerminated | NotImplemented

  datatype Read = Got(reply: Reply, rest: Bytes) | Failed(why: Failure)

  datatype ReadList = GotAll(replies: seq<Reply>, rest: Bytes) | FailedAll(why: Failure)

  const CR: Byte := 13
  const LF: Byte := 10
  const CRLF: Bytes := [CR, LF]

  // ----- numbers -----

  function Digits(n: nat): (ds: Bytes)
    ensures ds != [] && forall i :: 0 <= i < |ds| ==> IsDigit(ds[i])
  {
    if n < 10 then [48 + n] else Digits(n / 10) + [48 + n % 10]
  }

  predicate IsDigit(c: Byte) {
    48 <= c <= 57
  }

  /** Digits, with single underscores between some of them. */
  predicate IsNumeral(s: Bytes) {
    && s != [] && IsDigit(s[0]) && IsDigit(s[|s| - 1])
    && (forall i :: 0 <= i < |s| ==> IsDigit(s[i]) || s[i] == 95)
    && (forall i :: 0 <= i < |s| - 1 ==> IsDigit(s[i]) || IsDigit(s[i + 1]))
  }

  function Value(s: Bytes): nat
    requires forall i :: 0 <= i < |s| ==> IsDigit(s[i]) || s[i] == 95
  {
    if s == [] then 0
    else if s[|s| - 1] == 95 then Value(s[..|s| - 1])
    else
      assert IsDigit(s[|s| - 1]);
      10 * Value(s[..|s| - 1]) + s[|s| - 1] - 48
  }

  predicate IsSpace(c: Byte) {
    c == 32 || 9 <= c <= 13
  }

  function Stripped(s: Bytes): Bytes {
    if s == [] then []
    else if IsSpace(s[0]) then Stripped(s[1..])
    else if IsSpace(s[|s| - 1]) then Stripped(s[..|s| - 1])
    else s
  }

  /** int() of a byte string: blanks around it, a sign before the digits, underscores between them. */
  function ParseInt(s: Bytes): Option<int> {
    var t := Stripped(s);
    if IsNumeral(t) then Some(Value(t))
    else if t != [] && t[0] == 45 && IsNumeral(t[1..]) then (var n: int := Value(t[1..]); Some(-n))
    else if t != [] && t[0] == 43 && IsNumeral(t[1..]) then Some(Value(t[1..]))
    else None
  }

  function PrintInt(n: int): Bytes {
    if n < 0 then [45] + Digits(-n) else Digits(n)
  }

  lemma {:induction false} ValueOfDigits(n: nat)
    ensures Value(Digits(n)) == n
  {
    var ds := Digits(n);
    if n < 10 {
      assert ds[..|ds| - 1] == [];
    } else {
      ValueOfDigits(n / 10);
      assert ds[..|ds| - 1] == Digits(n / 10);
    }
  }

  lemma NotStripped(s: Bytes)
    requires s != [] && !IsSpace(s[0]) && !IsSpace(s[|s| - 1])
    ensures Stripped(s) == s
  {
  }

  lemma ParsePrinted(n: int)
    ensures ParseInt(PrintInt(n)) == Some(n)
  {
    hide Digits, Stripped, Value;
    var m := if n < 0 then -n else n;
    var s, ds := PrintInt(n), Digits(m);
    ValueOfDigits(m);
    assert s[|s| - 1] == ds[|ds| - 1];
    NotStripped(s);
    if n < 0 {
      assert s[0] == 45 && s[1..] == ds;
    }
  }

  // ----- lines -----

  function FindCrlf(s: Bytes): (i: Option<nat>)
    ensures i.Some? ==> i.value + 2 <= |s| && s[i.value] == CR && s[i.value + 1] == LF
  {
    if |s| < 2 then None
    else if s[0] == CR && s[1] == LF then Some(0)
    else
      var i := FindCrlf(s[1..]);
      if i.Some? then Some(i.value + 1) else None
  }

  lemma {:induction false} FoundStays(s: Bytes, more: Bytes)
    requires FindCrlf(s).Some?
    ensures FindCrlf(s + more) == FindCrlf(s)
  {
    if !(s[0] == CR && s[1] == LF) {
      FoundStays(s[1..], more);
      assert (s + more)[1..] == s[1..] + more;
    }
  }

  /** A text without a line end is read up to the line end that follows it. */
  lemma {:induction false} FindAfterText(s: Bytes, rest: Bytes)
    requires FindCrlf(s).None?
    ensures FindCrlf(s + CRLF + rest) == Some(|s|)
  {
    var t := s + CRLF + rest;
    if s == [] {
      assert t[0] == CR && t[1] == LF;
    } else {
      assert t[1..] == s[1..] + CRLF + rest;
      if |s| > 1 {
        assert t[0] == s[0] && t[1] == s[1];
      }
      FindAfterText(s[1..], rest);
    }
  }

  lemma {:induction false} NoCr(s: Bytes)
    requires CR !in s
    ensures FindCrlf(s).None?
  {
    if |s| >= 2 {
      assert s[0] in s;
      NoCr(s[1..]);
    }
  }

  // ----- reading -----

  predicate Ascii(s: Bytes) {
    forall i :: 0 <= i < |s| ==> s[i] < 128
  }

  /** One reply at the beginning of a stream of bytes. */
  function Parse(s: Bytes): (r: Read)
    ensures r.Got? ==> |r.rest| < |s|
    decreases |s|, 0, 0
  {
    var end := FindCrlf(s);
    if end.None? then Failed(EndOfFile)
    else if end.value == 0 then Failed(EmptyLine)
    else
      var line, rest := s[1..end.value], s[end.value + 2..];
      if s[0] == 42 then
        var count := ParseInt(line);
        if count.None? then Failed(BadNumber)
        else
          match ParseMany(rest, if count.value < 0 then 0 else count.value)
          case GotAll(replies, after) => Got(Array(replies), after)
          case FailedAll(why) => Failed(why)
      else if s[0] == 43 then if Ascii(line) then Got(Status(line), rest) else Failed(NotAscii)
      else if s[0] == 45 then if Ascii(line) then Got(Error(line), rest) else Failed(NotAscii)
      else if s[0] == 58 then
        var n := ParseInt(line);
        if n.None? then Failed(BadNumber) else Got(Integer(n.value), rest)
      else if s[0] == 36 then
        var size := ParseInt(line);
        if size.None? then Failed(BadNumber)
        else if size.value < 0 then Got(Nothing, rest)
        else if |rest| < size.value then Failed(EndOfFile)
        else
          var tail := FindCrlf(rest[size.value..]);
          if tail.None? then Failed(EndOfFile)
          else if tail.value > 0 then Failed(NotTerminated)
          else Got(Bulk(rest[..size.value]), rest[size.value + 2..])
      else Failed(NotImplemented)
  }

  /** A number of replies, one after the other. */
  function ParseMany(s: Bytes, count: nat): (r: ReadList)
    ensures r.GotAll? ==> |r.rest| <= |s| && |r.replies| == count
    decreases |s|, 1, count
  {
    if count == 0 then GotAll([], s)
    else
      match Parse(s)
      case Failed(why) => FailedAll(why)
      case Got(reply, rest) =>
        match ParseMany(rest, count - 1)
        case FailedAll(why) => FailedAll(why)
        case GotAll(replies, after) => GotAll([reply] + replies, after)
  }

  // ----- printing -----

  function Print(r: Reply): Bytes {
    match r
    case Array(items) => [42] + PrintInt(|items|) + CRLF + PrintAll(items)
    case Status(text) => [43] + text + CRLF
    case Error(text) => [45] + text + CRLF
    case Integer(n) => [58] + PrintInt(n) + CRLF
    case Bulk(data) => [36] + PrintInt(|data|) + CRLF + data + CRLF
    case Nothing => [36] + PrintInt(-1) + CRLF
  }

  function PrintAll(rs: seq<Reply>): Bytes {
    if rs == [] then [] else Print(rs[0]) + PrintAll(rs[1..])
  }

  /** Texts are lines of ASCII; bulk data may hold anything, line ends included. */
  ghost predicate Printable(r: Reply) {
    match r
    case Array(items) => forall i :: 0 <= i < |items| ==> Printable(items[i])
    case Status(text) => Ascii(text) && FindCrlf(text).None?
    case Error(text) => Ascii(text) && FindCrlf(text).None?
    case _ => true
  }

  lemma PrintedIntLine(n: int)
    ensures FindCrlf(PrintInt(n)).None?
  {
    var s := PrintInt(n);
    assert forall i :: 0 <= i < |s| ==> s[i] != CR;
    NoCr(s);
  }

  lemma FindPastKind(s: Bytes)
    requires s != [] && s[0] != CR && FindCrlf(s[1..]).Some?
    ensures FindCrlf(s) == Some(FindCrlf(s[1..]).value + 1)
  {
  }

  lemma PastFirst(kind: Byte, a: Bytes, b: Bytes, c: Bytes)
    ensures var s := [kind] + a + b + c;
      s[0] == kind && s[1..] == a + b + c && s[1..|a| + 1] == a && s[|a| + |b| + 1..] == c
  {
    var s := [kind] + a + b + c;
    assert s == [kind] + (a + b + c);
  }

  /** The line that a type byte and a text without a line end begin. */
  lemma LineOf(kind: Byte, text: Bytes, rest: Bytes)
    requires kind != CR && FindCrlf(text).None?
    ensures var s := [kind] + text + CRLF + rest;
      && FindCrlf(s) == Some(|text| + 1) && s[0] == kind
      && s[1..|text| + 1] == text && s[|text| + 3..] == rest
  {
    hide FindCrlf;
    var s, t := [kind] + text + CRLF + rest, text + CRLF + rest;
    FindAfterText(text, rest);
    PastFirst(kind, text, CRLF, rest);
    FindPastKind(s);
  }

  lemma BulkTail(data: Bytes, rest: Bytes)
    ensures var s := data + CRLF + rest;
      s[..|data|] == data && FindCrlf(s[|data|..]) == Some(0) && s[|data| + 2..] == rest
  {
    var s := data + CRLF + rest;
    assert s[|data|..] == CRLF + rest;
  }

  lemma ReadPrintedBulk(data: Bytes, rest: Bytes)
    ensures Parse(Print(Bulk(data)) + rest) == Got(Bulk(data), rest)
  {
    hide FindCrlf, ParseInt, PrintInt;
    ParsePrinted(|data|);
    PrintedIntLine(|data|);
    LineOf(36, PrintInt(|data|), data + CRLF + rest);
    BulkTail(data, rest);
    assert Print(Bulk(data)) + rest == [36] + PrintInt(|data|) + CRLF + (data + CRLF + rest);
  }

  lemma ReadPrintedText(r: Reply, rest: Bytes)
    requires Printable(r) && (r.Status? || r.Error?)
    ensures Parse(Print(r) + rest) == Got(r, rest)
  {
    hide FindCrlf, ParseInt, PrintInt, ParseMany, Ascii;
    match r
    case Status(text) => LineOf(43, text, rest);
    case Error(text) => LineOf(45, text, rest);
  }

  lemma ReadPrintedNumber(r: Reply, rest: Bytes)
    requires r.Integer? || r.Nothing?
    ensures Parse(Print(r) + rest) == Got(r, rest)
  {
    hide FindCrlf, ParseInt, PrintInt, ParseMany, Ascii;
    var n := if r.Integer? then r.n else -1;
    ParsePrinted(n);
    PrintedIntLine(n);
    LineOf(if r.Integer? then 58 else 36, PrintInt(n), rest);
  }

  lemma ReadPrintedArray(items: seq<Reply>, rest: Bytes)
    requires ParseMany(PrintAll(items) + rest, |items|) == GotAll(items, rest)
    ensures Parse(Print(Array(items)) + rest) == Got(Array(items), rest)
  {
    hide FindCrlf, ParseInt, PrintInt, ParseMany, PrintAll;
    ParsePrinted(|items|);
    PrintedIntLine(|items|);
    LineOf(42, PrintInt(|items|), PrintAll(items) + rest);
    assert Print(Array(items)) + rest == [42] + PrintInt(|items|) + CRLF + (PrintAll(items) + rest);
  }

  /** Whatever is printed is read back, and nothing of what follows it is taken. */
  lemma {:induction false} ReadPrinted(r: Reply, rest: Bytes)
    requires Printable(r)
    ensures Parse(Print(r) + rest) == Got(r, rest)
    decreases r, 0
  {
    hide Parse, Print;
    match r
    case Array(items) =>
      ReadAllPrinted(items, rest);
      ReadPrintedArray(items, rest);
    case Bulk(data) => ReadPrintedBulk(data, rest);
    case Status(_) => ReadPrintedText(r, rest);
    case Error(_) => ReadPrintedText(r, rest);
    case Integer(_) => ReadPrintedNumber(r, rest);
    case Nothing => ReadPrintedNumber(r, rest);
  }

  lemma ManyFollow(s: Bytes, r: Reply, next: Bytes, rs: seq<Reply>, rest: Bytes)
    requires Parse(s) == Got(r, next) && ParseMany(next, |rs|) == GotAll(rs, rest)
    ensures ParseMany(s, |rs| + 1) == GotAll([r] + rs, rest)
  {
    hide Parse;
  }

  lemma {:induction false} ReadAllPrinted(rs: seq<Reply>, rest: Bytes)
    requires forall i :: 0 <= i < |rs| ==> Printable(rs[i])
    ensures ParseMany(PrintAll(rs) + rest, |rs|) == GotAll(rs, rest)
    decreases rs, 1
  {
    hide Parse, Print, ParseMany;
    if rs == [] {
      NoneFollow(PrintAll(rs) + rest, rest);
    } else {
      ReadPrinted(rs[0], PrintAll(rs[1..]) + rest);
      ReadAllPrinted(rs[1..], rest);
      assert PrintAll(rs) + rest == Print(rs[0]) + (PrintAll(rs[1..]) + rest);
      ManyFollow(PrintAll(rs) + rest, rs[0], PrintAll(rs[1..]) + rest, rs[1..], rest);
      assert rs == [rs[0]] + rs[1..];
    }
  }

  lemma NoneFollow(s: Bytes, rest: Bytes)
    requires s == PrintAll([]) + rest
    ensures ParseMany(s, 0) == GotAll([], rest)
  {
    hide Parse;
    assert s == rest;
  }

  // ----- commands -----

  function Command(parts: seq<Bytes>): Reply {
    Array(seq(|parts|, i requires 0 <= i < |parts| => Bulk(parts[i])))
  }

  /** Appends a command to a buffer. */
  method EncodeCommand(buf: Bytes, parts: seq<Bytes>) returns (out: Bytes)
    ensures out == buf + Print(Command(parts))
  {
    hide PrintInt, PrintAll;
    out := buf + ([42] + PrintInt(|parts|) + CRLF);
    ghost var head, items := out, Command(parts).items;
    PrintAllNone(items);
    for i := 0 to |parts|
      invariant out == head + PrintAll(items[..i])
    {
      PrintAllStep(items, i);
      var part := parts[i];
      out := out + ([36] + PrintInt(|part|) + CRLF);
      out := out + part;
      out := out + CRLF;
    }
    assert items[..|parts|] == items;
  }

  lemma PrintAllNone(rs: seq<Reply>)
    ensures PrintAll(rs[..0]) == []
  {
  }

  lemma {:induction false} PrintAllConcat(rs: seq<Reply>, qs: seq<Reply>)
    ensures PrintAll(rs + qs) == PrintAll(rs) + PrintAll(qs)
  {
    hide Print;
    if rs == [] {
      assert rs + qs == qs;
    } else {
      PrintAllConcat(rs[1..], qs);
      assert (rs + qs)[1..] == rs[1..] + qs && (rs + qs)[0] == rs[0];
    }
  }

  lemma PrintAllStep(rs: seq<Reply>, i: nat)
    requires i < |rs|
    ensures PrintAll(rs[..i + 1]) == PrintAll(rs[..i]) + Print(rs[i])
  {
    PrintAllConcat(rs[..i], [rs[i]]);
    assert rs[..i + 1] == rs[..i] + [rs[i]];
    assert [rs[i]][1..] == [];
  }

  /** A command is read back as the list of its parts, whatever bytes they hold. */
  lemma CommandReadBack(parts: seq<Bytes>, rest: Bytes)
    ensures Parse(Print(Command(parts)) + rest) == Got(Command(parts), rest)
  {
    ReadPrinted(Command(parts), rest);
  }

  function Commands(commands: seq<seq<Bytes>>): (rs: seq<Reply>)
    ensures |rs| == |commands| && forall i :: 0 <= i < |rs| ==> rs[i] == Command(commands[i])
  {
    seq(|commands|, i requires 0 <= i < |commands| => Command(commands[i]))
  }

  /** A server that reads commands gets them all, each with its parts, and in order. */
  lemma CommandsReadBack(commands: seq<seq<Bytes>>, rest: Bytes)
    ensures ParseMany(PrintAll(Commands(commands)) + rest, |commands|) == GotAll(Commands(commands), rest)
  {
    ReadAllPrinted(Commands(commands), rest);
  }

  // ----- the connection -----

  /** How a call of the reader ends. */
  datatype Outcome = Returned(reply: Reply) | Raised(why: Failure)

  function Flat(chunks: seq<Bytes>): Bytes {
    if chunks == [] then [] else chunks[0] + Flat(chunks[1..])
  }

  /** What a caller gets: the results, or the error replies among them, or a broken connection. */
  datatype Answer = Results(replies: seq<Reply>) | ReplyErrors(errors: seq<Reply>) | Broken(why: Failure)

  function ErrorsIn(rs: seq<Reply>): seq<Reply> {
    if rs == [] then [] else (if rs[0].Error? then [rs[0]] else []) + ErrorsIn(rs[1..])
  }

  function Judged(rs: seq<Reply>): Answer {
    if ErrorsIn(rs) == [] then Results(rs) else ReplyErrors(ErrorsIn(rs))
  }

  /** Some elements of a list, in their order: those at increasing positions. */
  ghost predicate Picked(es: seq<Reply>, rs: seq<Reply>, at: seq<nat>) {
    && |at| == |es|
    && (forall k :: 0 <= k < |at| ==> at[k] < |rs| && es[k] == rs[at[k]])
    && (forall j, k :: 0 <= j < k < |at| ==> at[j] < at[k])
  }

  /** The error replies among some replies, all of them and in their order. */
  ghost predicate Failures(es: seq<Reply>, rs: seq<Reply>) {
    && (forall x :: multiset(es)[x] == if x.Error? then multiset(rs)[x] else 0)
    && exists at: seq<nat> :: Picked(es, rs, at)
  }

  lemma ErrorsStep(rs: seq<Reply>)
    ensures ErrorsIn([]) == []
    ensures rs != [] ==> rs == [rs[0]] + rs[1..]
    ensures rs != [] ==> ErrorsIn(rs) == if rs[0].Error? then [rs[0]] + ErrorsIn(rs[1..]) else ErrorsIn(rs[1..])
  {
  }

  lemma {:induction false} ErrorsCounted(rs: seq<Reply>, x: Reply)
    ensures multiset(ErrorsIn(rs))[x] == if x.Error? then multiset(rs)[x] else 0
  {
    hide ErrorsIn;
    ErrorsStep(rs);
    if rs != [] {
      ErrorsCounted(rs[1..], x);
      assert multiset(rs) == multiset{rs[0]} + multiset(rs[1..]);
    }
  }

  lemma {:induction false} ErrorsPicked(rs: seq<Reply>)
    ensures exists at: seq<nat> :: Picked(ErrorsIn(rs), rs, at)
  {
    hide Picked, ErrorsIn;
    ErrorsStep(rs);
    if rs == [] {
      PickedNone(rs);
    } else {
      ErrorsPicked(rs[1..]);
      var rest := ErrorsIn(rs[1..]);
      var at: seq<nat> :| Picked(rest, rs[1..], at);
      PickedSize(rest, rs[1..], at);
      var later: seq<nat> := seq(|at|, k requires 0 <= k < |at| => at[k] + 1);
      PickedLater(rest, rs, at, later);
      if rs[0].Error? { PickedFirst(rest, rs, later); }
    }
  }

  lemma PickedSize(es: seq<Reply>, rs: seq<Reply>, at: seq<nat>)
    requires Picked(es, rs, at)
    ensures |at| == |es|
  {
  }

  lemma ErrorsAreFailures(rs: seq<Reply>)
    ensures Failures(ErrorsIn(rs), rs)
    ensures ErrorsIn(rs) == [] <==> forall i :: 0 <= i < |rs| ==> !rs[i].Error?
  {
    hide Picked, ErrorsIn;
    forall x ensures multiset(ErrorsIn(rs))[x] == if x.Error? then multiset(rs)[x] else 0 { ErrorsCounted(rs, x); }
    ErrorsPicked(rs);
    forall i | 0 <= i < |rs| && rs[i].Error? ensures rs[i] in ErrorsIn(rs) {
      assert rs[i] in multiset(rs);
      assert rs[i] in multiset(ErrorsIn(rs));
    }
    if ErrorsIn(rs) != [] {
      var x := ErrorsIn(rs)[0];
      assert x in multiset(ErrorsIn(rs));
      assert x in multiset(rs) && x.Error?;
    }
  }

  lemma PickedNone(rs: seq<Reply>)
    ensures Picked([], rs, [])
  {
  }

  lemma PickedLater(es: seq<Reply>, rs: seq<Reply>, at: seq<nat>, later: seq<nat>)
    requires rs != [] && Picked(es, rs[1..], at) && |later| == |at|
    requires forall k :: 0 <= k < |at| ==> later[k] == at[k] + 1
    ensures Picked(es, rs, later)
  {
  }

  lemma PickedFirst(es: seq<Reply>, rs: seq<Reply>, later: seq<nat>)
    requires rs != [] && Picked(es, rs, later) && forall k :: 0 <= k < |later| ==> later[k] > 0
    ensures Picked([rs[0]] + es, rs, [0] + later)
  {
  }

  /** The results are returned if no reply is an error, and else exactly the errors are raised. */
  lemma JudgedExactly(rs: seq<Reply>)
    ensures (forall i :: 0 <= i < |rs| ==> !rs[i].Error?) ==> Judged(rs) == Results(rs)
    ensures (exists i :: 0 <= i < |rs| && rs[i].Error?) ==>
      Judged(rs).ReplyErrors? && Failures(Judged(rs).errors, rs)
  {
    hide Failures;
    ErrorsAreFailures(rs);
  }

  lemma JudgedOne(r: Reply)
    ensures Judged([r]) == if r.Error? then ReplyErrors([r]) else Results([r])
  {
    hide ErrorsIn;
    ErrorsStep([r]);
    assert [r][1..] == [] && [r] + [] == [r];
  }

  class Redis {
    var buf: Bytes
    var incoming: seq<Bytes>   // what the coming calls of recv return; nothing after that
    var outgoing: Bytes

    ghost predicate Valid()
      reads this
    {
      forall i :: 0 <= i < |incoming| ==> incoming[i] != []
    }

    /** Everything that was received and not read, and everything that is still to come. */
    ghost function Stream(): Bytes
      reads this
    {
      buf + Flat(incoming)
    }

    constructor (incoming: seq<Bytes>)
      requires forall i :: 0 <= i < |incoming| ==> incoming[i] != []
      ensures Valid() && Stream() == Flat(incoming) && outgoing == []
    {
      buf, this.incoming, outgoing := [], incoming, [];
    }

    method Recv() returns (chunk: Bytes)
      requires Valid()
      modifies `incoming
      ensures Valid() && Flat(old(incoming)) == chunk + Flat(incoming)
      ensures chunk == [] <==> old(incoming) == []
      ensures chunk != [] ==> |incoming| < |old(incoming)|
      ensures chunk == [] ==> incoming == []
    {
      if incoming == [] { return []; }
      chunk := incoming[0];
      incoming := incoming[1..];
    }

    /** Reads up to the next line end; None at the end of the stream. */
    method ReadLine() returns (line: Option<Bytes>)
      requires Valid()
      modifies `buf, `incoming
      ensures Valid()
      ensures var end := FindCrlf(old(Stream()));
        match end
        case None => line.None?
        case Some(i) => line == Some(old(Stream())[..i]) && Stream() == old(Stream())[i + 2..]
    {
      hide FindCrlf, Flat;
      while true
        invariant Valid() && Stream() == old(Stream())
        decreases |incoming|
      {
        var idx := FindCrlf(buf);
        if idx.Some? {
          FoundStays(buf, Flat(incoming));
          assert Stream()[..idx.value] == buf[..idx.value];
          line := Some(buf[..idx.value]);
          assert Stream()[idx.value + 2..] == buf[idx.value + 2..] + Flat(incoming);
          buf := buf[idx.value + 2..];
          return;
        }
        var chunk := Recv();
        if chunk == [] {
          FlatNone();
          assert Stream() == buf;
          return None;
        }
        assert buf + (chunk + Flat(incoming)) == buf + chunk + Flat(incoming);
        buf := buf + chunk;
      }
    }

    /** Reads a number of bytes; None at the end of the stream. */
    method ReadSlice(size: nat) returns (slice: Option<Bytes>)
      requires Valid()
      modifies `buf, `incoming
      ensures Valid()
      ensures if |old(Stream())| < size then slice.None?
              else slice == Some(old(Stream())[..size]) && Stream() == old(Stream())[size..]
    {
      hide Flat;
      while |buf| < size
        invariant Valid() && Stream() == old(Stream())
        decreases |incoming|
      {
        var chunk := Recv();
        if chunk == [] {
          FlatNone();
          assert Stream() == buf;
          return None;
        }
        assert buf + (chunk + Flat(incoming)) == buf + chunk + Flat(incoming);
        buf := buf + chunk;
      }
      assert Stream()[..size] == buf[..size];
      slice := Some(buf[..size]);
      assert Stream()[size..] == buf[size..] + Flat(incoming);
      buf := buf[size..];
    }

    /** Reads one reply; fails as soon as the stream ends or is malformed. */
    method ReadOne() returns (r: Outcome)
      requires Valid()
      modifies `buf, `incoming
      ensures Valid()
      ensures match Parse(old(Stream()))
              case Got(reply, rest) => r == Returned(reply) && Stream() == rest
              case Failed(why) => r == Raised(why)
      decreases |Stream()|, 1
    {
      hide FindCrlf, Flat, ParseInt, ParseMany;
      ghost var s := Stream();
      var first := ReadLine();
      if first.None? { return Raised(EndOfFile); }
      var line := first.value;
      if line == [] { return Raised(EmptyLine); }
      assert line[1..] == s[1..FindCrlf(s).value];
      var ch := line[0];
      if ch == 42 {
        var count := ParseInt(line[1..]);
        if count.None? { return Raised(BadNumber); }
        r := ReadItems(if count.value < 0 then 0 else count.value);
      } else if ch == 43 {
        r := if Ascii(line[1..]) then Returned(Status(line[1..])) else Raised(NotAscii);
      } else if ch == 45 {
        r := if Ascii(line[1..]) then Returned(Error(line[1..])) else Raised(NotAscii);
      } else if ch == 58 {
        var n := ParseInt(line[1..]);
        r := if n.Some? then Returned(Integer(n.value)) else Raised(BadNumber);
      } else if ch == 36 {
        var size := ParseInt(line[1..]);
        if size.None? { return Raised(BadNumber); }
        if size.value < 0 { return Returned(Nothing); }
        var slice := ReadSlice(size.value);
        if slice.None? { return Raised(EndOfFile); }
        ghost var rest := Stream();
        var tail := ReadLine();
        if tail.None? { return Raised(EndOfFile); }
        if tail.value != [] { return Raised(NotTerminated); }
        r := Returned(Bulk(slice.value));
      } else {
        r := Raised(NotImplemented);
      }
    }

    /** The items of an array, each read like a reply of its own. */
    method ReadItems(count: nat) returns (r: Outcome)
      requires Valid()
      modifies `buf, `incoming
      ensures Valid()
      ensures match ParseMany(old(Stream()), count)
              case GotAll(replies, rest) => r == Returned(Array(replies)) && Stream() == rest
              case FailedAll(why) => r == Raised(why)
      decreases |Stream()|, 2
    {
      hide FindCrlf, Flat, ParseInt, Parse;
      ghost var s := Stream();
      var items := [];
      for i := 0 to count
        invariant Valid() && |Stream()| <= |s|
        invariant ParseMany(s, count) == Prepended(items, ParseMany(Stream(), count - i))
      {
        var one := ReadOne();
        if one.Raised? { return Raised(one.why); }
        items := items + [one.reply];
      }
      assert items + [] == items;
      r := Returned(Array(items));
    }

    /** Sends one command and reads its reply; an error reply is raised. */
    method Execute(parts: seq<Bytes>) returns (r: Answer)
      requires Valid()
      modifies this
      ensures Valid() && outgoing == old(outgoing) + Print(Command(parts))
      ensures match Parse(old(Stream()))
              case Got(reply, rest) =>
                r == (if reply.Error? then ReplyErrors([reply]) else Results([reply])) && Stream() == rest
              case Failed(why) => r == Broken(why)
    {
      hide Parse, Print, Flat, FindCrlf;
      var command := EncodeCommand([], parts);
      assert [] + Print(Command(parts)) == Print(Command(parts));
      outgoing := outgoing + command;
      var one := ReadOne();
      if one.Raised? { return Broken(one.why); }
      JudgedOne(one.reply);
      r := Judged([one.reply]);
    }

    /** Sends all commands at once, then reads one reply for each of them. */
    method BulkExecute(commands: seq<seq<Bytes>>) returns (r: Answer)
      requires Valid()
      modifies this
      ensures Valid() && outgoing == old(outgoing) + PrintAll(Commands(commands))
      ensures match ParseMany(old(Stream()), |commands|)
              case GotAll(replies, rest) =>
                && Stream() == rest
                && ((forall i :: 0 <= i < |replies| ==> !replies[i].Error?) ==> r == Results(replies))
                && ((exists i :: 0 <= i < |replies| && replies[i].Error?) ==>
                      r.ReplyErrors? && Failures(r.errors, replies))
              case FailedAll(why) => r == Broken(why)
    {
      hide Parse, ParseMany, Print, PrintAll, Flat, FindCrlf, Failures, Judged;
      var sent: Bytes := [];
      PrintAllNone(Commands(commands));
      for i := 0 to |commands|
        invariant sent == PrintAll(Commands(commands)[..i])
        invariant Valid() && Stream() == old(Stream()) && outgoing == old(outgoing)
      {
        PrintAllStep(Commands(commands), i);
        sent := EncodeCommand(sent, commands[i]);
      }
      assert Commands(commands)[..|commands|] == Commands(commands);
      outgoing := outgoing + sent;
      var all := ReadItems(|commands|);
      if all.Raised? { return Broken(all.why); }
      JudgedExactly(all.reply.items);
      r := Judged(all.reply.items);
    }
  }

  /** What was read so far, before the outcome of reading on. */
  ghost function Prepended(items: seq<Reply>, r: ReadList): ReadList {
    match r
    case GotAll(replies, rest) => GotAll(items + replies, rest)
    case FailedAll(why) => FailedAll(why)
  }

  lemma FlatNone()
    ensures Flat([]) == []
  {
  }

  /** The bytes of a command: the number of its parts, and each part with its length. */
  lemma CommandBytes(parts: seq<Bytes>)
    ensures Print(Command(parts)) ==
      [42] + Digits(|parts|) + [13, 10]
      + Flat(seq(|parts|, i requires 0 <= i < |parts| =>
               [36] + Digits(|parts[i]|) + [13, 10] + parts[i] + [13, 10]))
  {
    hide Digits, Flat;
    var bulks := seq(|parts|, i requires 0 <= i < |parts| =>
                       [36] + Digits(|parts[i]|) + [13, 10] + parts[i] + [13, 10]);
    BulksFlat(Command(parts).items, bulks);
  }

  lemma {:induction false} BulksFlat(rs: seq<Reply>, bulks: seq<Bytes>)
    requires |rs| == |bulks| && forall i :: 0 <= i < |rs| ==> Print(rs[i]) == bulks[i]
    ensures PrintAll(rs) == Flat(bulks)
  {
    hide Print;
    if rs != [] { BulksFlat(rs[1..], bulks[1..]); }
  }
}
