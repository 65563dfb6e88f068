// Requests of the Redis serialization protocol, version 2: what a node sends
// on, and what the parser at the other end makes of it.
module Requests {
  import opened Ordering
  import opened Decimal
  import opened Wire

  const STAR: Byte := 42
  const DOLLAR: Byte := 36

  const MAX_BULK: nat := 33_554_432
  const MAX_ARGUMENTS: nat := 1_048_576
  const MAX_COMMAND: nat := 67_108_864
  // The connection's read buffer bounds a line.
  const BUFFER: nat := 32_768

  // ---------------------------------------------------------------- writing

  function WriteArgument(a: Bytes): Bytes {
    [DOLLAR] + Format(|a|) + CRLF + (a + CRLF)
  }

  function WriteArguments(args: seq<Bytes>): Bytes {
    if args == [] then [] else WriteArgument(args[0]) + WriteArguments(args[1..])
  }

  function WriteRequest(args: seq<Bytes>): Bytes {
    [STAR] + Format(|args|) + CRLF + WriteArguments(args)
  }

  // ---------------------------------------------------------------- parsing

  datatype Fault = Protocol | EmptyCommand | Incomplete

  datatype Parsed<+T> = Ok(value: T, rest: Bytes) | Bad(fault: Fault)

  datatype Command = Command(name: Bytes, args: seq<Bytes>)

  function UpperByte(b: Byte): Byte {
    if 97 <= b <= 122 then b - 32 else b
  }

  function Upper(b: Bytes): (r: Bytes)
    ensures |r| == |b| && forall i :: 0 <= i < |b| ==> r[i] == UpperByte(b[i])
  {
    seq(|b|, i requires 0 <= i < |b| => UpperByte(b[i]))
  }

  // A line must end in CR LF and fit into the read buffer.
  function ParseLine(b: Bytes): Parsed<Bytes> {
    var at := LfAt(b);
    if at.None? then Bad(if |b| >= BUFFER then Protocol else Incomplete)
    else if at.value >= BUFFER || at.value < 1 || b[at.value - 1] != CR then Bad(Protocol)
    else Ok(b[..at.value - 1], b[at.value + 1..])
  }

  // A header: the expected first byte and a number.
  function ParseHeader(b: Bytes, prefix: Byte): Parsed<int> {
    match ParseLine(b)
    case Ok(line, rest) =>
      if line == [] || line[0] != prefix then Bad(Protocol)
      else
        var n := Atoi(line[1..]);
        if n.None? then Bad(Protocol) else Ok(n.value, rest)
    case Bad(fault) => Bad(fault)
  }

  function ParseBulk(b: Bytes): Parsed<Bytes> {
    match ParseHeader(b, DOLLAR)
    case Ok(n, rest) =>
      if n < 0 || n > MAX_BULK then Bad(Protocol)
      else if |rest| < n + 2 then Bad(Incomplete)
      else if rest[n] != CR || rest[n + 1] != LF then Bad(Protocol)
      else Ok(rest[..n], rest[n + 2..])
    case Bad(fault) => Bad(fault)
  }

  // How one part is read.
  type PartReader = Bytes -> Parsed<Bytes>

  // The remaining n of a command's parts, `total` bytes of it having been read.
  function ParseParts(read: PartReader, b: Bytes, n: nat, total: nat, first: bool): Parsed<seq<Bytes>>
    decreases n
  {
    if n == 0 then Ok([], b)
    else
      match read(b)
      case Ok(part, rest) =>
        if |part| > MAX_COMMAND - total then Bad(Protocol)
        else if first && part == [] then Bad(EmptyCommand)
        else
          (match ParseParts(read, rest, n - 1, total + |part|, false)
           case Ok(more, after) => Ok([part] + more, after)
           case Bad(fault) => Bad(fault))
      case Bad(fault) => Bad(fault)
  }

  function ParseArray(b: Bytes): Parsed<Command> {
    match ParseHeader(b, STAR)
    case Ok(n, rest) =>
      if n < 0 || n > MAX_ARGUMENTS then Bad(Protocol)
      else if n == 0 then Bad(EmptyCommand)
      else
        (match ParseParts(ParseBulk, rest, n, 0, true)
         case Ok(parts, after) => if parts == [] then Bad(Protocol) else Ok(Command(Upper(parts[0]), parts[1..]), after)
         case Bad(fault) => Bad(fault))
    case Bad(fault) => Bad(fault)
  }

  // ------------------------------------------------------------ round trips

  ghost function Sum(args: seq<Bytes>): nat {
    if args == [] then 0 else |args[0]| + Sum(args[1..])
  }

  // Every argument and all of them together within the limits.
  ghost predicate PartsFit(args: seq<Bytes>, total: nat) {
    total + Sum(args) <= MAX_COMMAND && forall i :: 0 <= i < |args| ==> |args[i]| <= MAX_BULK
  }

  ghost predicate Acceptable(args: seq<Bytes>) {
    0 < |args| <= MAX_ARGUMENTS && args[0] != [] && PartsFit(args, 0)
  }

  lemma {:induction false} HeaderReads(prefix: Byte, n: nat, rest: Bytes)
    requires prefix != LF && n < 1_0000_0000
    ensures ParseHeader([prefix] + Format(n) + CRLF + rest, prefix) == Ok(n, rest)
  {
    var b := [prefix] + Format(n) + CRLF + rest;
    var line := [prefix] + Format(n);
    AtoiReads(n);
    DigitsShort(n);
    assert b == (line + [CR]) + [LF] + rest;
    LfAfter(line + [CR], rest);
    assert b[|line|] == CR && b[..|line|] == line && b[|line| + 2..] == rest && line[1..] == Format(n);
  }

  // A longer number is read as it is, or the line does not fit the buffer.
  lemma {:induction false} LongHeader(prefix: Byte, n: nat, rest: Bytes)
    requires prefix != LF
    ensures var r := ParseHeader([prefix] + Format(n) + CRLF + rest, prefix);
      !r.Ok? || (r.value == n && r.rest == rest)
  {
    var b := [prefix] + Format(n) + CRLF + rest;
    var line := [prefix] + Format(n);
    if n <= MAX_INT64 {
      AtoiReads(n);
    }
    assert LF !in Digits(n);
    assert b == (line + [CR]) + [LF] + rest;
    LfAfter(line + [CR], rest);
    assert b[|line|] == CR && b[..|line|] == line && b[|line| + 2..] == rest && line[1..] == Format(n);
  }

  lemma {:induction false} ArgumentBytes(a: Bytes, rest: Bytes)
    ensures WriteArgument(a) + rest == [DOLLAR] + Format(|a|) + CRLF + (a + CRLF + rest)
  {
    Associate([DOLLAR] + Format(|a|) + CRLF, a + CRLF, rest);
  }

  lemma {:induction false} BodyBytes(a: Bytes, rest: Bytes)
    ensures var tail := a + CRLF + rest;
      |tail| == |a| + 2 + |rest| && tail[|a|] == CR && tail[|a| + 1] == LF && tail[..|a|] == a && tail[|a| + 2..] == rest
  {
  }

  lemma {:induction false} BulkReads(a: Bytes, rest: Bytes)
    ensures |a| <= MAX_BULK ==> ParseBulk(WriteArgument(a) + rest) == Ok(a, rest)
    ensures |a| > MAX_BULK ==> ParseBulk(WriteArgument(a) + rest).Bad?
  {
    var tail := a + CRLF + rest;
    ArgumentBytes(a, rest);
    BodyBytes(a, rest);
    LongHeader(DOLLAR, |a|, tail);
    if |a| <= MAX_BULK {
      HeaderReads(DOLLAR, |a|, tail);
    }
  }

  // The limits as the loop checks them, part by part.
  ghost predicate FitsInTurn(args: seq<Bytes>, total: nat)
    decreases |args|
  {
    args == [] || (|args[0]| <= MAX_BULK && total + |args[0]| <= MAX_COMMAND && FitsInTurn(args[1..], total + |args[0]|))
  }

  lemma {:induction false} FitsExactly(args: seq<Bytes>, total: nat)
    requires total <= MAX_COMMAND
    ensures FitsInTurn(args, total) <==> PartsFit(args, total)
    decreases |args|
  {
    if args != [] && total + |args[0]| <= MAX_COMMAND {
      FitsExactly(args[1..], total + |args[0]|);
      assert args == [args[0]] + args[1..];
      assert forall i :: 1 <= i < |args| ==> args[i] == args[1..][i - 1];
    }
  }

  lemma {:induction false} ArgumentsFirst(args: seq<Bytes>, rest: Bytes)
    requires args != []
    ensures WriteArguments(args) + rest == WriteArgument(args[0]) + (WriteArguments(args[1..]) + rest)
  {
    Associate(WriteArgument(args[0]), WriteArguments(args[1..]), rest);
  }

  // One step of the loop.
  lemma {:induction false} PartsFirst(read: PartReader, b: Bytes, n: nat, total: nat, first: bool)
    requires n > 0
    ensures ParseParts(read, b, n, total, first) ==
      var bulk := read(b);
      if bulk.Bad? then Bad(bulk.fault)
      else if |bulk.value| > MAX_COMMAND - total then Bad(Protocol)
      else if first && bulk.value == [] then Bad(EmptyCommand)
      else Joined([bulk.value], ParseParts(read, bulk.rest, n - 1, total + |bulk.value|, false))
  {
  }

  // The reader finds each of the written arguments within the limit.
  ghost predicate Finds(read: PartReader, args: seq<Bytes>, rest: Bytes)
    decreases |args|
  {
    args == [] ||
    var b, tail := WriteArguments(args) + rest, WriteArguments(args[1..]) + rest;
    && (if |args[0]| <= MAX_BULK then read(b) == Ok(args[0], tail) else read(b).Bad?)
    && Finds(read, args[1..], rest)
  }

  lemma {:induction false} BulkFinds(args: seq<Bytes>, rest: Bytes)
    ensures Finds(ParseBulk, args, rest)
    decreases |args|
  {
    if args != [] {
      ArgumentsFirst(args, rest);
      BulkReads(args[0], WriteArguments(args[1..]) + rest);
      BulkFinds(args[1..], rest);
    }
  }

  lemma {:induction false} PartsStep(read: PartReader, b: Bytes, a: Bytes, tail: Bytes, n: nat, total: nat, first: bool)
    requires n > 0 && if |a| <= MAX_BULK then read(b) == Ok(a, tail) else read(b).Bad?
    ensures if |a| <= MAX_BULK && total + |a| <= MAX_COMMAND && !(first && a == [])
            then ParseParts(read, b, n, total, first) == Joined([a], ParseParts(read, tail, n - 1, total + |a|, false))
            else ParseParts(read, b, n, total, first).Bad?
  {
    PartsFirst(read, b, n, total, first);
  }

  lemma {:induction false} PartsRead(read: PartReader, args: seq<Bytes>, rest: Bytes, total: nat, first: bool)
    requires total <= MAX_COMMAND && Finds(read, args, rest)
    ensures var r := ParseParts(read, WriteArguments(args) + rest, |args|, total, first);
      if FitsInTurn(args, total) && (first && args != [] ==> args[0] != []) then r == Ok(args, rest) else r.Bad?
    decreases |args|
  {
    if args == [] {
      assert WriteArguments(args) + rest == rest;
    } else {
      var b, tail := WriteArguments(args) + rest, WriteArguments(args[1..]) + rest;
      PartsStep(read, b, args[0], tail, |args|, total, first);
      if |args[0]| <= MAX_BULK && total + |args[0]| <= MAX_COMMAND {
        PartsRead(read, args[1..], rest, total + |args[0]|, false);
        assert args == [args[0]] + args[1..];
      }
    }
  }

  lemma {:induction false} RequestBytes(args: seq<Bytes>, rest: Bytes)
    ensures WriteRequest(args) + rest == [STAR] + Format(|args|) + CRLF + (WriteArguments(args) + rest)
  {
  }

  lemma {:induction false} ArrayParses(b: Bytes, n: int, rest: Bytes)
    requires ParseHeader(b, STAR) == Ok(n, rest)
    ensures if 0 < n <= MAX_ARGUMENTS && ParseParts(ParseBulk, rest, n, 0, true).Ok? && ParseParts(ParseBulk, rest, n, 0, true).value != []
            then
              var parts := ParseParts(ParseBulk, rest, n, 0, true);
              ParseArray(b) == Ok(Command(Upper(parts.value[0]), parts.value[1..]), parts.rest)
            else ParseArray(b).Bad?
  {
  }

  // A written request, whatever follows it, is parsed into its upper-cased
  // name, its exact arguments and what follows, if and only if it is within
  // the parser's limits and its name is not empty.
  lemma {:induction false} RequestRoundTrip(args: seq<Bytes>, rest: Bytes)
    ensures var r := ParseArray(WriteRequest(args) + rest);
      if Acceptable(args) then r == Ok(Command(Upper(args[0]), args[1..]), rest) else r.Bad?
  {
    var b, tail := WriteRequest(args) + rest, WriteArguments(args) + rest;
    RequestBytes(args, rest);
    LongHeader(STAR, |args|, tail);
    if ParseHeader(b, STAR).Ok? {
      ArrayParses(b, |args|, tail);
      BulkFinds(args, rest);
      PartsRead(ParseBulk, args, rest, 0, true);
      FitsExactly(args, 0);
    }
    if 0 < |args| <= MAX_ARGUMENTS {
      HeaderReads(STAR, |args|, tail);
    }
  }

  // ----------------------------------------------------------- the operations

  method WriteRequestTo(args: seq<Bytes>) returns (out: Bytes)
    ensures out == WriteRequest(args)
  {
    out := [STAR] + Format(|args|) + CRLF;
    for i := 0 to |args|
      invariant Writing(out, args, i)
    {
      WritingStep(out, args, i);
      out := out + WriteArgument(args[i]);
    }
    assert out + [] == out;
  }

  ghost predicate Writing(out: Bytes, args: seq<Bytes>, i: nat)
    requires i <= |args|
  {
    out + WriteArguments(args[i..]) == WriteRequest(args)
  }

  lemma {:induction false} WritingStep(out: Bytes, args: seq<Bytes>, i: nat)
    requires i < |args| && Writing(out, args, i)
    ensures Writing(out + WriteArgument(args[i]), args, i + 1)
  {
    assert args[i..][0] == args[i] && args[i..][1..] == args[i + 1..];
    Associate(out, WriteArgument(args[i]), WriteArguments(args[i + 1..]));
  }

  // Parts read so far, before what is still to come.
  ghost function Joined(parts: seq<Bytes>, more: Parsed<seq<Bytes>>): Parsed<seq<Bytes>> {
    if more.Ok? then Ok(parts + more.value, more.rest) else more
  }

  lemma {:induction false} JoinedOnce(parts: seq<Bytes>, part: Bytes, more: Parsed<seq<Bytes>>)
    ensures Joined(parts, Joined([part], more)) == Joined(parts + [part], more)
  {
    if more.Ok? {
      assert parts + ([part] + more.value) == (parts + [part]) + more.value;
    }
  }

  // Parsing n parts from b has come to `parts`, with m to be parsed from t.
  ghost predicate Parsing(read: PartReader, b: Bytes, n: nat, parts: seq<Bytes>, t: Bytes, m: nat, total: nat) {
    ParseParts(read, b, n, 0, true) == Joined(parts, ParseParts(read, t, m, total, parts == []))
  }

  lemma {:induction false} ParsingStarts(read: PartReader, b: Bytes, n: nat)
    ensures Parsing(read, b, n, [], b, n, 0)
  {
    var all := ParseParts(read, b, n, 0, true);
    if all.Ok? {
      assert [] + all.value == all.value;
    }
  }

  lemma {:induction false} ParsingStep(read: PartReader, b: Bytes, n: nat, parts: seq<Bytes>, t: Bytes, m: nat, total: nat, part: Bytes, rest: Bytes)
    requires Parsing(read, b, n, parts, t, m, total) && m > 0 && read(t) == Ok(part, rest)
    requires |part| <= MAX_COMMAND - total && (parts == [] ==> part != [])
    ensures Parsing(read, b, n, parts + [part], rest, m - 1, total + |part|)
  {
    PartsFirst(read, t, m, total, parts == []);
    JoinedOnce(parts, part, ParseParts(read, rest, m - 1, total + |part|, false));
  }

  lemma {:induction false} ParsingStops(read: PartReader, b: Bytes, n: nat, parts: seq<Bytes>, t: Bytes, m: nat, total: nat)
    requires Parsing(read, b, n, parts, t, m, total) && m > 0
    ensures var bulk := read(t);
      && (bulk.Bad? ==> ParseParts(read, b, n, 0, true) == Bad(bulk.fault))
      && (bulk.Ok? && |bulk.value| > MAX_COMMAND - total ==> ParseParts(read, b, n, 0, true) == Bad(Protocol))
      && (bulk.Ok? && |bulk.value| <= MAX_COMMAND - total && parts == [] && bulk.value == [] ==> ParseParts(read, b, n, 0, true) == Bad(EmptyCommand))
  {
    PartsFirst(read, t, m, total, parts == []);
  }

  lemma {:induction false} ParsingEnds(read: PartReader, b: Bytes, n: nat, parts: seq<Bytes>, t: Bytes, total: nat)
    requires Parsing(read, b, n, parts, t, 0, total)
    ensures ParseParts(read, b, n, 0, true) == Ok(parts, t)
  {
    assert parts + [] == parts;
  }

  // Reads the parts of a command one after the other.
  method ParseCommand(b: Bytes) returns (r: Parsed<Command>)
    ensures r == ParseArray(b)
  {
    var header := ParseHeader(b, STAR);
    if header.Bad? {
      return Bad(header.fault);
    }
    if header.value < 0 || header.value > MAX_ARGUMENTS {
      return Bad(Protocol);
    }
    if header.value == 0 {
      return Bad(EmptyCommand);
    }
    var parts := ParseAll(ParseBulk, header.rest, header.value);
    if parts.Bad? {
      return Bad(parts.fault);
    }
    return Ok(Command(Upper(parts.value[0]), parts.value[1..]), parts.rest);
  }

  method ParseAll(read: PartReader, b: Bytes, n: nat) returns (r: Parsed<seq<Bytes>>)
    requires n > 0
    ensures r == ParseParts(read, b, n, 0, true) && (r.Ok? ==> r.value != [])
  {
    var parts: seq<Bytes>, total, rest := [], 0, b;
    ParsingStarts(read, b, n);
    var i := 0;
    while i < n
      invariant 0 <= i <= n && |parts| == i && 0 <= total <= MAX_COMMAND
      invariant Parsing(read, b, n, parts, rest, n - i, total)
    {
      ParsingStops(read, b, n, parts, rest, n - i, total);
      var bulk := read(rest);
      if bulk.Bad? {
        return Bad(bulk.fault);
      }
      if |bulk.value| > MAX_COMMAND - total {
        return Bad(Protocol);
      }
      if i == 0 && bulk.value == [] {
        return Bad(EmptyCommand);
      }
      ParsingStep(read, b, n, parts, rest, n - i, total, bulk.value, bulk.rest);
      parts, total, rest := parts + [bulk.value], total + |bulk.value|, bulk.rest;
      i := i + 1;
    }
    ParsingEnds(read, b, n, parts, rest, total);
    return Ok(parts, rest);
  }
}
