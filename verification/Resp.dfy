/**
 The hand-written Redis client (api-gateway/internal/repository/redis/client.go; the
 auth-service has the same file). One char stands for one byte.
 */
module Resp {
  import opened Wrappers

  const CRLF := "\r\n"
  const EOF := "EOF"
  const INT64_MIN := -0x8000_0000_0000_0000
  const INT64_MAX := 0x7FFF_FFFF_FFFF_FFFF

  // ---- strconv ----

  predicate IsDigit(c: char) { '0' <= c <= '9' }

  predicate AllDigits(s: string) { s != "" && forall i :: 0 <= i < |s| ==> IsDigit(s[i]) }

  function Digit(d: int): (c: char)
    requires 0 <= d < 10
    ensures IsDigit(c) && c as int - '0' as int == d
  {
    '0' + d as char
  }

  function Digits(n: nat): (s: string)
    ensures AllDigits(s)
  {
    if n < 10 then [Digit(n)] else Digits(n / 10) + [Digit(n % 10)]
  }

  function Itoa(n: int): string {
    if n < 0 then "-" + Digits(-n) else Digits(n)
  }

  function Value(s: string): nat
    requires AllDigits(s)
  {
    (if |s| == 1 then 0 else 10 * Value(s[..|s| - 1])) + (s[|s| - 1] as int - '0' as int)
  }

  /** strconv.ParseInt(s, 10, 64), which is also strconv.Atoi on 64-bit platforms. */
  function ParseInt(s: string): Option<int> {
    var signed := s != "" && (s[0] == '-' || s[0] == '+');
    var digits := if signed then s[1..] else s;
    if !AllDigits(digits) then None
    else
      var v: int := if signed && s[0] == '-' then 0 - Value(digits) else Value(digits);
      if INT64_MIN <= v <= INT64_MAX then Some(v) else None
  }

  lemma {:induction false} ValueOfDigits(n: nat)
    ensures Value(Digits(n)) == n
  {
    if n >= 10 {
      ValueOfDigits(n / 10);
      var s := Digits(n);
      assert s[..|s| - 1] == Digits(n / 10);
    }
  }

  lemma ParseItoa(n: int)
    requires INT64_MIN <= n <= INT64_MAX
    ensures ParseInt(Itoa(n)) == Some(n)
    ensures forall i :: 0 <= i < |Itoa(n)| ==> Itoa(n)[i] != '\r' && Itoa(n)[i] != '\n'
  {
    ValueOfDigits(if n < 0 then -n else n);
    if n < 0 { assert Itoa(n)[1..] == Digits(-n); }
  }

  // ---- Commands: what the client prints and what a RESP2 server reads ----

  function Bulk(arg: string): string {
    "$" + Itoa(|arg|) + CRLF + arg + CRLF
  }

  function Bulks(args: seq<string>): string {
    if args == [] then "" else Bulk(args[0]) + Bulks(args[1..])
  }

  function Command(args: seq<string>): string {
    "*" + Itoa(|args|) + CRLF + Bulks(args)
  }

  lemma {:induction false} BulksAppend(args: seq<string>, arg: string)
    ensures Bulks(args + [arg]) == Bulks(args) + Bulk(arg)
  {
    if args != [] {
      BulksAppend(args[1..], arg);
      assert (args + [arg])[1..] == args[1..] + [arg];
    }
  }

  lemma BulkPieces(before: string, arg: string)
    ensures before + "$" + (Itoa(|arg|) + CRLF) + (arg + CRLF) == before + Bulk(arg)
  {
    hide Itoa;
  }

  method WriteCommand(args: seq<string>) returns (written: string)
    ensures written == Command(args)
  {
    hide Itoa, Bulk;
    var builder := "*";
    builder := builder + Itoa(|args|) + CRLF;
    ghost var header := builder;
    for i := 0 to |args|
      invariant builder == header + Bulks(args[..i])
    {
      BulkPieces(builder, args[i]);
      builder := builder + "$";
      builder := builder + (Itoa(|args[i]|) + CRLF);
      builder := builder + (args[i] + CRLF);
      BulksAppend(args[..i], args[i]);
      assert args[..i + 1] == args[..i] + [args[i]];
      assert header + (Bulks(args[..i]) + Bulk(args[i])) == header + Bulks(args[..i]) + Bulk(args[i]);
    }
    assert args[..|args|] == args;
    written := builder;
  }

  /** The text before the first CR LF, and what follows it. */
  function TakeLine(s: string): Option<(string, string)> {
    if |s| < 2 then None
    else if s[..2] == CRLF then Some(("", s[2..]))
    else
      match TakeLine(s[1..])
      case None => None
      case Some((line, rest)) => Some(([s[0]] + line, rest))
  }

  function TakeNumber(s: string): Option<(nat, string)> {
    match TakeLine(s)
    case None => None
    case Some((line, rest)) => if AllDigits(line) then Some((Value(line), rest)) else None
  }

  function TakeBulk(s: string): Option<(string, string)> {
    if s == "" || s[0] != '$' then None
    else
      match TakeNumber(s[1..])
      case None => None
      case Some((n, rest)) =>
        if |rest| >= n + 2 && rest[n..n + 2] == CRLF then Some((rest[..n], rest[n + 2..])) else None
  }

  function TakeBulks(s: string, n: nat): Option<(seq<string>, string)>
    decreases n
  {
    if n == 0 then Some(([], s))
    else
      match TakeBulk(s)
      case None => None
      case Some((arg, rest)) =>
        match TakeBulks(rest, n - 1)
        case None => None
        case Some((args, rest')) => Some(([arg] + args, rest'))
  }

  /** A server's reading of one command: an array of bulk strings. */
  function TakeCommand(s: string): Option<(seq<string>, string)> {
    if s == "" || s[0] != '*' then None
    else
      match TakeNumber(s[1..])
      case None => None
      case Some((n, rest)) => TakeBulks(rest, n)
  }

  lemma {:induction false} TakeLineSplits(line: string, rest: string)
    requires forall i :: 0 <= i < |line| ==> line[i] != '\r'
    ensures TakeLine(line + CRLF + rest) == Some((line, rest))
  {
    var s := line + CRLF + rest;
    if line == "" {
      assert s[..2] == CRLF && s[2..] == rest;
    } else {
      TakeLineSplits(line[1..], rest);
      assert s[1..] == line[1..] + CRLF + rest;
      assert s[..2][0] == line[0] && [line[0]] + line[1..] == line;
    }
  }

  lemma TakeNumberSplits(n: nat, rest: string)
    ensures TakeNumber(Itoa(n) + CRLF + rest) == Some((n, rest))
  {
    ValueOfDigits(n);
    TakeLineSplits(Itoa(n), rest);
  }

  lemma TakeBulkSplits(arg: string, rest: string)
    ensures TakeBulk(Bulk(arg) + rest) == Some((arg, rest))
  {
    var s := Bulk(arg) + rest;
    var tail := arg + CRLF + rest;
    assert s[1..] == Itoa(|arg|) + CRLF + tail;
    TakeNumberSplits(|arg|, tail);
    assert tail[|arg|..|arg| + 2] == CRLF && tail[..|arg|] == arg && tail[|arg| + 2..] == rest;
  }

  lemma TakeBulksStep(s: string, arg: string, tail: string, args: seq<string>, rest: string)
    requires TakeBulk(s) == Some((arg, tail)) && TakeBulks(tail, |args|) == Some((args, rest))
    ensures TakeBulks(s, |args| + 1) == Some(([arg] + args, rest))
  {
  }

  lemma {:induction false} TakeBulksSplits(args: seq<string>, rest: string)
    ensures TakeBulks(Bulks(args) + rest, |args|) == Some((args, rest))
  {
    if args == [] {
      assert Bulks(args) + rest == rest && TakeBulks(rest, 0) == Some(([], rest));
    } else {
      hide TakeBulk, TakeBulks, Bulk;
      var tail := Bulks(args[1..]) + rest;
      assert Bulks(args) + rest == Bulk(args[0]) + tail;
      TakeBulkSplits(args[0], tail);
      TakeBulksSplits(args[1..], rest);
      TakeBulksStep(Bulk(args[0]) + tail, args[0], tail, args[1..], rest);
      assert [args[0]] + args[1..] == args;
    }
  }

  /** Any arguments, CR LF inside them included, are read back by the server. */
  lemma CommandRoundTrip(args: seq<string>, rest: string)
    ensures TakeCommand(Command(args) + rest) == Some((args, rest))
  {
    hide TakeNumber, TakeBulks, Bulks, Itoa;
    var s := Command(args) + rest;
    assert s[1..] == Itoa(|args|) + CRLF + (Bulks(args) + rest);
    TakeNumberSplits(|args|, Bulks(args) + rest);
    TakeBulksSplits(args, rest);
  }

  function Commands(script: seq<seq<string>>): string {
    if script == [] then "" else Command(script[0]) + Commands(script[1..])
  }

  function TakeCommands(s: string, n: nat): Option<(seq<seq<string>>, string)>
    decreases n
  {
    if n == 0 then Some(([], s))
    else
      match TakeCommand(s)
      case None => None
      case Some((c, rest)) =>
        match TakeCommands(rest, n - 1)
        case None => None
        case Some((cs, rest')) => Some(([c] + cs, rest'))
  }

  /** A pipeline of commands decodes to exactly those commands. */
  lemma {:induction false} CommandsRoundTrip(script: seq<seq<string>>)
    ensures TakeCommands(Commands(script), |script|) == Some((script, ""))
  {
    hide Command, TakeCommand;
    if script != [] {
      CommandRoundTrip(script[0], Commands(script[1..]));
      CommandsRoundTrip(script[1..]);
      assert [script[0]] + script[1..] == script;
    }
  }

  // ---- Replies: what a server prints and what the client reads ----

  datatype Reply = Simple(text: string) | Failure(text: string) | Integer(n: int) | BulkString(text: string) | NilBulk

  function Print(r: Reply): string {
    match r
    case Simple(text) => "+" + text + CRLF
    case Failure(text) => "-" + text + CRLF
    case Integer(n) => ":" + Itoa(n) + CRLF
    case BulkString(text) => Bulk(text)
    case NilBulk => "$-1" + CRLF
  }

  /** (interface{}, error) as readReply returns it; Panics is a run-time panic. */
  datatype Answer = Text(s: string) | Number(n: int) | Error(e: string) | Nil | Panics

  function Meaning(r: Reply): Answer {
    match r
    case Simple(text) => Text(text)
    case Failure(text) => Error(text)
    case Integer(n) => Number(n)
    case BulkString(text) => Text(text)
    case NilBulk => Nil
  }

  function TrimSuffix(s: string, c: char): string {
    if s != "" && s[|s| - 1] == c then s[..|s| - 1] else s
  }

  function IndexOf(s: string, c: char): (i: int)
    ensures -1 <= i < |s|
    ensures i >= 0 ==> s[i] == c
    ensures forall j :: 0 <= j < (if i < 0 then |s| else i) ==> s[j] != c
  {
    if s == "" then -1
    else if s[0] == c then 0
    else var i := IndexOf(s[1..], c); if i < 0 then -1 else i + 1
  }

  function Zeros(n: nat): string { seq(n, _ => '\0') }

  function Clamp(x: int, lo: int, hi: int): int { if x < lo then lo else if x > hi then hi else x }

  /** A bufio.Reader over the bytes the server will have sent. */
  class Reader {
    const stream: string
    var pos: nat

    constructor (stream: string)
      ensures this.stream == stream && pos == 0
    {
      this.stream, pos := stream, 0;
    }

    predicate Valid()
      reads this
    {
      pos <= |stream|
    }

    function Rest(): string
      requires Valid()
      reads this
    {
      stream[pos..]
    }

    method ReadByte() returns (b: Option<char>)
      requires Valid()
      modifies this
      ensures Valid()
      ensures b == if old(Rest()) == "" then None else Some(old(Rest())[0])
      ensures Rest() == if b.None? then "" else old(Rest())[1..]
    {
      if pos == |stream| { return None; }
      b := Some(stream[pos]);
      pos := pos + 1;
    }

    /** Reads through the first `delim`, or to the end with an error if there is none. */
    method ReadString(delim: char) returns (line: Option<string>)
      requires Valid()
      modifies this
      ensures Valid()
      ensures var i := IndexOf(old(Rest()), delim);
        line == (if i < 0 then None else Some(old(Rest())[..i + 1])) && Rest() == (if i < 0 then "" else old(Rest())[i + 1..])
    {
      var i := IndexOf(Rest(), delim);
      if i < 0 {
        pos := |stream|;
        return None;
      }
      line := Some(Rest()[..i + 1]);
      pos := pos + i + 1;
    }

    /** Fills at most `length` bytes; `buffered` of them are at hand, but never none. */
    method Read(length: nat, buffered: int) returns (payload: Option<string>)
      requires Valid() && length > 0
      modifies this
      ensures Valid()
      ensures old(Rest()) == "" ==> payload == None && Rest() == ""
      ensures old(Rest()) != "" ==>
        var k := Clamp(buffered, 1, Clamp(length, 0, |old(Rest())|));
        payload == Some(old(Rest())[..k] + Zeros(length - k)) && Rest() == old(Rest())[k..]
    {
      if pos == |stream| { return None; }
      var k := Clamp(buffered, 1, Clamp(length, 0, |Rest()|));
      payload := Some(Rest()[..k] + Zeros(length - k));
      pos := pos + k;
    }
  }

  /** What readReply makes of the bytes `s`, and the bytes it leaves behind. */
  function Read(s: string, buffered: int): (Answer, string) {
    if s == "" then (Error(EOF), "")
    else
      var i := IndexOf(s[1..], '\n');
      if i < 0 then (Error(EOF), "")
      else ReadBody(s[0], TrimSuffix(s[1..][..i], '\r'), s[1..][i + 1..], buffered)
  }

  function ReadBody(prefix: char, line: string, rest: string, buffered: int): (Answer, string) {
    if prefix == '+' then (Text(line), rest)
    else if prefix == '-' then (Error(line), rest)
    else if prefix == ':' then (if ParseInt(line).None? then Error("syntax") else Number(ParseInt(line).value), rest)
    else if prefix == '$' then
      match ParseInt(line)
      case None => (Error("syntax"), rest)
      case Some(size) => ReadBulk(size, rest, buffered)
    else (Error("unsupported redis reply prefix"), rest)
  }

  function ReadBulk(size: int, rest: string, buffered: int): (Answer, string) {
    if size == -1 then (Nil, rest)
    else if size < -1 then (Panics, rest)
    else if rest == "" then (Error(EOF), "")
    else
      var k := Clamp(buffered, 1, Clamp(size + 2, 0, |rest|));
      (Text((rest[..k] + Zeros(size + 2 - k))[..size]), rest[k..])
  }

  /** The '$' case of readReply. */
  method ReadBulkReply(reader: Reader, size: int, buffered: int) returns (answer: Answer)
    requires reader.Valid()
    modifies reader
    ensures reader.Valid()
    ensures (answer, reader.Rest()) == ReadBulk(size, old(reader.Rest()), buffered)
  {
    if size == -1 { return Nil; }
    if size < -1 { return Panics; }
    var payload := reader.Read(size + 2, buffered);
    if payload.None? { return Error(EOF); }
    return Text(payload.value[..size]);
  }

  method ReadReply(reader: Reader, buffered: int) returns (answer: Answer)
    requires reader.Valid()
    modifies reader
    ensures reader.Valid()
    ensures (answer, reader.Rest()) == Read(old(reader.Rest()), buffered)
  {
    hide IndexOf, ParseInt, ReadBulk;
    ghost var s := reader.Rest();
    var prefix := reader.ReadByte();
    if prefix.None? { return Error(EOF); }
    ghost var i := IndexOf(s[1..], '\n');
    var raw := reader.ReadString('\n');
    if raw.None? { return Error(EOF); }
    var line := TrimSuffix(TrimSuffix(raw.value, '\n'), '\r');
    ghost var rest := reader.Rest();
    assert TrimSuffix(raw.value, '\n') == s[1..][..i] by { assert raw.value == s[1..][..i + 1]; }
    assert Read(s, buffered) == ReadBody(s[0], line, rest, buffered);
    hide Read;
    match prefix.value
    case '+' => return Text(line);
    case '-' => return Error(line);
    case ':' =>
      var value := ParseInt(line);
      return if value.None? then Error("syntax") else Number(value.value);
    case '$' =>
      var size := ParseInt(line);
      if size.None? { return Error("syntax"); }
      answer := ReadBulkReply(reader, size.value, buffered);
    case _ => return Error("unsupported redis reply prefix");
  }

  /** Replies that fit on the wire: one-line texts hold no LF and integers fit in int64. */
  predicate Printable(r: Reply) {
    match r
    case Simple(text) => '\n' !in text
    case Failure(text) => '\n' !in text
    case Integer(n) => INT64_MIN <= n <= INT64_MAX
    case BulkString(text) => |text| <= INT64_MAX
    case NilBulk => true
  }

  lemma ReadLine(prefix: char, line: string, rest: string, buffered: int)
    requires '\n' !in line
    ensures Read([prefix] + line + CRLF + rest, buffered) == ReadBody(prefix, line, rest, buffered)
  {
    hide ReadBody;
    var s := [prefix] + line + CRLF + rest;
    var t := line + CRLF + rest;
    assert s[1..] == t;
    var i := IndexOf(t, '\n');
    assert t[|line| + 1] == '\n';
    assert forall j :: 0 <= j < |line| ==> t[j] == line[j];
    assert i == |line| + 1;
    assert t[..i] == line + "\r" && t[i + 1..] == rest;
    assert TrimSuffix(line + "\r", '\r') == line;
  }

  lemma NilRead(rest: string, buffered: int)
    ensures Read(Print(NilBulk) + rest, buffered) == (Nil, rest)
  {
    hide Read;
    assert Itoa(-1) == "-1" by { assert Digits(1) == "1"; }
    ParseItoa(-1);
    ReadLine('$', "-1", rest, buffered);
    assert Print(NilBulk) + rest == ['$'] + "-1" + CRLF + rest;
  }

  /** One Read hands over all that the reply's bulk payload needs; other replies have none. */
  predicate Arrived(r: Reply, buffered: int) {
    r.BulkString? ==> buffered >= |r.text| + 2
  }

  /** readReply undoes the server's printer and consumes exactly one reply exactly when its payload is at hand. */
  lemma ReplyRoundTrip(r: Reply, rest: string, buffered: int)
    requires Printable(r)
    ensures Read(Print(r) + rest, buffered) == (Meaning(r), rest) <==> Arrived(r, buffered)
  {
    hide Read;
    match r
    case Simple(text) =>
      ReadLine('+', text, rest, buffered);
      assert Print(r) + rest == ['+'] + text + CRLF + rest;
    case Failure(text) =>
      ReadLine('-', text, rest, buffered);
      assert Print(r) + rest == ['-'] + text + CRLF + rest;
    case Integer(n) =>
      ParseItoa(n);
      ReadLine(':', Itoa(n), rest, buffered);
      assert Print(r) + rest == [':'] + Itoa(n) + CRLF + rest;
    case NilBulk =>
      NilRead(rest, buffered);
    case BulkString(text) =>
      BulkReadExact(text, rest, buffered);
  }

  /** A bulk reply is read back in step exactly when Read hands over all of it at once. */
  lemma BulkReadExact(text: string, rest: string, buffered: int)
    requires |text| <= INT64_MAX
    ensures Read(Bulk(text) + rest, buffered) == (Text(text), rest) <==> buffered >= |text| + 2
  {
    hide Read;
    var tail := text + CRLF + rest;
    ParseItoa(|text|);
    assert Bulk(text) + rest == ['$'] + Itoa(|text|) + CRLF + tail;
    ReadLine('$', Itoa(|text|), tail, buffered);
    var k := Clamp(buffered, 1, |text| + 2);
    assert Clamp(|text| + 2, 0, |tail|) == |text| + 2;
    assert Read(Bulk(text) + rest, buffered).1 == tail[k..];
    if buffered >= |text| + 2 {
      assert tail[k..] == rest;
      assert (tail[..k] + Zeros(0))[..|text|] == text;
    } else {
      assert |tail[k..]| > |rest|;
    }
  }

  /** A one-line reply is read back in step exactly when its text holds no LF. */
  lemma SimpleReadExact(text: string, rest: string, buffered: int)
    ensures Read(Print(Simple(text)) + rest, buffered) == (Text(text), rest) <==> '\n' !in text
  {
    if '\n' !in text {
      ReadLine('+', text, rest, buffered);
      assert Print(Simple(text)) + rest == ['+'] + text + CRLF + rest;
    } else {
      var s := Print(Simple(text)) + rest;
      var i := IndexOf(s[1..], '\n');
      var j :| 0 <= j < |text| && text[j] == '\n';
      assert s[1..][j] == '\n';
      assert i <= j && i >= 0;
      assert |Read(s, buffered).1| == |s| - i - 2;
    }
  }

  // ---- The wire, byte by byte ----

  /** GET k as RESP2 writes it. */
  lemma CommandOnTheWire()
    ensures Command(["GET", "k"]) == "*2\r\n$3\r\nGET\r\n$1\r\nk\r\n"
  {
    assert Digits(2) == "2" && Digits(3) == "3" && Digits(1) == "1";
    assert Bulks(["GET", "k"]) == Bulk("GET") + Bulk("k") by {
      assert ["GET", "k"][1..] == ["k"] && ["k"][1..] == [];
    }
  }

  /** Numbers are written in decimal. */
  lemma NumbersOnTheWire()
    ensures Itoa(0) == "0" && Itoa(90) == "90" && Itoa(-1) == "-1"
    ensures ParseInt("+5") == Some(5) && ParseInt("") == None && ParseInt("-") == None && ParseInt("5a") == None
  {
    assert Digits(9) == "9" && Digits(0) == "0" && Digits(1) == "1";
    assert "+5"[1..] == "5" && "-"[1..] == "";
  }

  /** What the client makes of each kind of reply, and of bytes that are none. */
  lemma RepliesOnTheWire(text: string, n: int, rest: string, buffered: int)
    requires '\n' !in text && -0x8000_0000_0000_0000 <= n <= 0x7FFF_FFFF_FFFF_FFFF
    ensures Read("+" + text + "\r\n" + rest, buffered) == (Text(text), rest)
    ensures Read("-" + text + "\r\n" + rest, buffered) == (Error(text), rest)
    ensures Read(":" + Itoa(n) + "\r\n" + rest, buffered) == (Number(n), rest)
    ensures Read("$-1\r\n" + rest, buffered) == (Nil, rest)
    ensures Read("*" + text + "\r\n" + rest, buffered) == (Error("unsupported redis reply prefix"), rest)
  {
    hide Read, Itoa, ParseInt;
    ParseItoa(n);
    ReadLine('+', text, rest, buffered);
    ReadLine('-', text, rest, buffered);
    ReadLine(':', Itoa(n), rest, buffered);
    ReadLine('*', text, rest, buffered);
    NilRead(rest, buffered);
    assert ['+'] == "+" && ['-'] == "-" && [':'] == ":" && ['*'] == "*";
    assert Print(NilBulk) + rest == "$-1\r\n" + rest;
  }

  /** A stream that ends before the line does gives an error. */
  lemma BrokenOffReply(s: string, buffered: int)
    requires '\n' !in s
    ensures Read(s, buffered) == (Error("EOF"), "")
  {
    if s != "" { assert forall i :: 0 <= i < |s[1..]| ==> s[1..][i] == s[i + 1]; }
  }

  function PrintAll(rs: seq<Reply>): string {
    if rs == [] then "" else Print(rs[0]) + PrintAll(rs[1..])
  }

  // ---- A conversation ----

  /** What the network does: dial and the i-th write may fail, and Read hands over what is buffered. */
  datatype Network = Network(dial: Option<string>, write: int -> Option<string>, buffered: int -> int)

  datatype Talk = Talk(answer: Answer, sent: nat)

  predicate IsError(a: Answer) { a.Error? || a.Nil? || a.Panics? }

  /** Send script[i], read its reply, and go on unless it is the last or an error. */
  function Converse(n: nat, i: nat, s: string, net: Network): Talk
    requires i < n
    decreases n - i
  {
    if net.write(i).Some? then Talk(Error(net.write(i).value), i)
    else
      var (answer, rest) := Read(s, net.buffered(i));
      if IsError(answer) || i == n - 1 then Talk(answer, i + 1) else Converse(n, i + 1, rest, net)
  }

  /** Errors and a missing value end a conversation, texts and numbers let it go on. */
  lemma ErrorsStop(n: nat, i: nat, s: string, answer: Answer, rest: string, net: Network)
    requires i < n - 1 && net.write(i).None? && Read(s, net.buffered(i)) == (answer, rest)
    ensures answer.Error? || answer.Nil? || answer.Panics? ==> Converse(n, i, s, net) == Talk(answer, i + 1)
    ensures answer.Text? || answer.Number? ==> Converse(n, i, s, net) == Converse(n, i + 1, rest, net)
  {
    ConverseStep(n, i, s, net);
    hide Read, Converse;
  }

  class Client {
    const password: string
    const database: int

    constructor (password: string, database: int)
      ensures this.password == password && this.database == database
    {
      this.password, this.database := password, database;
    }

    function Script(args: seq<string>): (s: seq<seq<string>>)
      ensures s != [] && s[|s| - 1] == args
    {
      (if password != "" then [["AUTH", password]] else [])
      + (if database > 0 then [["SELECT", Itoa(database)]] else [])
      + [args]
    }

    /** What stands where in the script. */
    lemma ScriptParts(args: seq<string>)
      ensures var auth, select := if password != "" then 1 else 0, if database > 0 then 1 else 0; var script := Script(args);
        && |script| == auth + select + 1 && script[auth + select] == args
        && (auth == 1 ==> script[0] == ["AUTH", password])
        && (select == 1 ==> script[auth] == ["SELECT", Itoa(database)])
    {
      hide Itoa;
    }

    /** The i-th exchange: one write and, if it goes out, the reading of its reply. */
    method Exchange(ghost script: seq<seq<string>>, i: nat, command: seq<string>, conn: string, reader: Reader, net: Network)
      returns (answer: Answer, sent: string)
      requires reader.Valid() && i < |script| && script[i] == command && conn == Commands(script[..i])
      modifies reader
      ensures reader.Valid()
      ensures sent == Commands(script[..if net.write(i).Some? then i else i + 1])
      ensures IsError(answer) || i == |script| - 1 ==>
        Converse(|script|, i, old(reader.Rest()), net) == Talk(answer, if net.write(i).Some? then i else i + 1)
      ensures !IsError(answer) && i < |script| - 1 ==>
        net.write(i).None? && Converse(|script|, i, old(reader.Rest()), net) == Converse(|script|, i + 1, reader.Rest(), net)
    {
      ConverseStep(|script|, i, reader.Rest(), net);
      CommandsOf(script, i);
      hide Command, Commands, Read, Converse;
      if net.write(i).Some? { return Error(net.write(i).value), conn; }
      var written := WriteCommand(command);
      sent := conn + written;
      answer := ReadReply(reader, net.buffered(i));
    }

    /** `conn` is what completed writes sent: a prefix of the script, cut at the first error. */
    method Do(args: seq<string>, reader: Reader, net: Network) returns (answer: Answer, conn: string)
      requires reader.Valid()
      modifies reader
      ensures net.dial.Some? ==> answer == Error("connect redis: " + net.dial.value) && conn == ""
      ensures net.dial.None? ==>
        var talk := Converse(|Script(args)|, 0, old(reader.Rest()), net);
        talk.sent <= |Script(args)| && answer == talk.answer && conn == Commands(Script(args)[..talk.sent])
    {
      if net.dial.Some? { return Error("connect redis: " + net.dial.value), ""; }
      ghost var script := Script(args);
      NothingSent(script);
      ScriptParts(args);
      hide Script, Commands, Converse, IsError, Itoa;
      conn := "";
      var i := 0;
      if password != "" {
        answer, conn := Exchange(script, i, ["AUTH", password], conn, reader, net);
        if IsError(answer) { return; }
        i := i + 1;
      }
      if database > 0 {
        answer, conn := Exchange(script, i, ["SELECT", Itoa(database)], conn, reader, net);
        if IsError(answer) { return; }
        i := i + 1;
      }
      answer, conn := Exchange(script, i, args, conn, reader, net);
    }
  }

  lemma NothingSent(script: seq<seq<string>>)
    ensures Commands(script[..0]) == ""
  {
  }

  lemma ConverseStep(n: nat, i: nat, s: string, net: Network)
    requires i < n
    ensures net.write(i).Some? ==> Converse(n, i, s, net) == Talk(Error(net.write(i).value), i)
    ensures net.write(i).None? ==>
      var (answer, rest) := Read(s, net.buffered(i));
      Converse(n, i, s, net) == if IsError(answer) || i == n - 1 then Talk(answer, i + 1) else Converse(n, i + 1, rest, net)
  {
    hide Read;
  }

  lemma {:induction false} CommandsOf(script: seq<seq<string>>, i: nat)
    requires i < |script|
    ensures Commands(script[..i + 1]) == Commands(script[..i]) + Command(script[i])
  {
    hide Command;
    if i == 0 {
      assert script[..1] == [script[0]] && script[..1][1..] == [] && script[..0] == [];
    } else {
      CommandsOf(script[1..], i - 1);
      assert script[..i + 1][1..] == script[1..][..i] && script[..i][1..] == script[1..][..i - 1];
    }
  }

  /**
   In step: when every write goes out, the server answers one printable reply a command and
   each bulk payload is at hand when it is read, the client sends the script up to the first
   command that is answered by an error, or all of it, and returns the meaning of that reply.
   */
  lemma {:induction false} ConversationInStep(n: nat, i: nat, replies: seq<Reply>, tail: string, net: Network)
    requires 0 < |replies| <= n - i && (forall k :: net.write(k).None?)
    requires forall j :: 0 <= j < |replies| ==> Printable(replies[j]) && Arrived(replies[j], net.buffered(i + j))
    requires forall j :: 0 <= j < |replies| - 1 ==> !IsError(Meaning(replies[j]))
    requires |replies| == n - i || IsError(Meaning(replies[|replies| - 1]))
    ensures Converse(n, i, PrintAll(replies) + tail, net) == Talk(Meaning(replies[|replies| - 1]), i + |replies|)
    decreases n - i
  {
    hide Print, Meaning, Printable, Arrived, Read, IsError;
    var rest := PrintAll(replies[1..]) + tail;
    assert PrintAll(replies) + tail == Print(replies[0]) + rest;
    assert Arrived(replies[0], net.buffered(i + 0));
    ReplyRoundTrip(replies[0], rest, net.buffered(i));
    if |replies| > 1 {
      forall j | 0 <= j < |replies[1..]|
        ensures Printable(replies[1..][j]) && Arrived(replies[1..][j], net.buffered(i + 1 + j))
      {
        assert replies[1..][j] == replies[j + 1];
        assert Arrived(replies[j + 1], net.buffered(i + (j + 1)));
      }
      ConversationInStep(n, i + 1, replies[1..], tail, net);
    }
  }
}
