// Replies of the Redis serialization protocol, version 2: what the writer puts
// on the wire, and what a proxying node reads back.
module Replies {
  import opened Options
  import opened Ordering
  import opened Decimal
  import opened Wire

  datatype Frame =
    | Simple(text: Bytes)
    | Error(prefix: Bytes, message: Bytes)
    | Integer(n: int)
    | Bulk(value: Bytes, absent: bool)
    | Array(items: seq<Frame>, absent: bool)

  const COLON: Byte := 58
  const DOLLAR: Byte := 36
  const STAR: Byte := 42
  const ERR: Bytes := [69, 82, 82]

  // ---------------------------------------------------------------- writing

  // Line breaks inside a text become spaces.
  function Flat(text: Bytes): (r: Bytes)
    ensures |r| == |text|
    ensures forall i :: 0 <= i < |r| ==> r[i] == if text[i] == CR || text[i] == LF then SPACE else text[i]
  {
    seq(|text|, i requires 0 <= i < |text| => if text[i] == CR || text[i] == LF then SPACE else text[i])
  }

  function ErrorText(prefix: Bytes, message: Bytes): Bytes {
    Flat(if prefix == [] then ERR else prefix) + [SPACE] + Flat(message)
  }

  function Write(f: Frame): Bytes
    decreases f, 0
  {
    match f
    case Simple(text) => [PLUS] + Flat(text) + CRLF
    case Error(prefix, message) => [MINUS] + ErrorText(prefix, message) + CRLF
    case Integer(n) => [COLON] + Format(n) + CRLF
    case Bulk(value, absent) =>
      if absent then [DOLLAR] + Format(-1) + CRLF else [DOLLAR] + Format(|value|) + CRLF + (value + CRLF)
    case Array(items, absent) =>
      if absent then [STAR] + Format(-1) + CRLF else [STAR] + Format(|items|) + CRLF + WriteAll(items)
  }

  function WriteAll(items: seq<Frame>): Bytes
    decreases items, 1
  {
    if items == [] then [] else Write(items[0]) + WriteAll(items[1..])
  }

  // ---------------------------------------------------------------- reading

  // The text before the first space, and the text after it.
  function SplitSpace(body: Bytes): (Bytes, Bytes)
    decreases |body|
  {
    if body == [] then ([], [])
    else if body[0] == SPACE then ([], body[1..])
    else
      var (head, tail) := SplitSpace(body[1..]);
      ([body[0]] + head, tail)
  }

  function Read(b: Bytes): (r: Option<(Frame, Bytes)>)
    ensures r.Some? ==> |r.value.1| < |b|
    decreases |b|, 0
  {
    var line := ReadLine(b);
    if line.None? then None
    else
      var (prefix, body, rest) := line.value;
      if prefix == PLUS then Some((Simple(body), rest))
      else if prefix == MINUS then
        var (head, tail) := SplitSpace(body);
        Some((Error(head, tail), rest))
      else if prefix == COLON then
        var n := Atoi(body);
        if n.None? then None else Some((Integer(n.value), rest))
      else if prefix == DOLLAR then
        var n := Atoi(body);
        if n.None? then None
        else if n.value < 0 then Some((Bulk([], true), rest))
        else if |rest| < n.value + 2 then None
        else Some((Bulk(rest[..n.value], false), rest[n.value + 2..]))
      else if prefix == STAR then
        var n := Atoi(body);
        if n.None? then None
        else if n.value < 0 then Some((Array([], true), rest))
        else
          var items := ReadAll(rest, n.value);
          if items.None? then None else Some((Array(items.value.0, false), items.value.1))
      else None
  }

  function ReadAll(b: Bytes, n: nat): (r: Option<(seq<Frame>, Bytes)>)
    ensures r.Some? ==> |r.value.1| <= |b| && |r.value.0| == n
    decreases |b|, 1
  {
    if n == 0 then Some(([], b))
    else
      var first := Read(b);
      if first.None? then None
      else
        var more := ReadAll(first.value.1, n - 1);
        if more.None? then None else Some(([first.value.0] + more.value.0, more.value.1))
  }

  // ------------------------------------------------------------ round trips

  // The form a frame has after one trip over the wire.
  function Settled(f: Frame): Frame
    decreases f, 0
  {
    match f
    case Simple(text) => Simple(Flat(text))
    case Error(prefix, message) =>
      var (head, tail) := SplitSpace(ErrorText(prefix, message));
      Error(head, tail)
    case Integer(n) => f
    case Bulk(value, absent) => if absent then Bulk([], true) else f
    case Array(items, absent) => if absent then Array([], true) else Array(SettledAll(items), false)
  }

  function SettledAll(items: seq<Frame>): (r: seq<Frame>)
    ensures |r| == |items|
    decreases items, 1
  {
    if items == [] then [] else [Settled(items[0])] + SettledAll(items[1..])
  }

  // Numbers fit into 64 bits, as do lengths.
  predicate Sized(f: Frame)
    decreases f, 0
  {
    match f
    case Integer(n) => MIN_INT64 <= n <= MAX_INT64
    case Bulk(value, absent) => absent || |value| <= MAX_INT64
    case Array(items, absent) => absent || (|items| <= MAX_INT64 && AllSized(items))
    case _ => true
  }

  predicate AllSized(items: seq<Frame>)
    decreases items, 1
  {
    items == [] || (Sized(items[0]) && AllSized(items[1..]))
  }

  lemma {:induction false} TextLines(text: Bytes, prefix: Bytes, message: Bytes)
    ensures OneLine(Flat(text)) && OneLine(ErrorText(prefix, message))
  {
  }

  lemma {:induction false} BulkReads(value: Bytes, rest: Bytes)
    requires |value| <= MAX_INT64
    ensures Read(Write(Bulk(value, false)) + rest) == Some((Bulk(value, false), rest))
  {
    var tail := value + CRLF + rest;
    AtoiReads(|value|);
    LineReads(DOLLAR, Format(|value|), tail);
    assert Write(Bulk(value, false)) + rest == [DOLLAR] + Format(|value|) + CRLF + tail;
    assert tail[..|value|] == value && tail[|value| + 2..] == rest;
  }

  lemma {:induction false} ReadsArray(b: Bytes, body: Bytes, rest: Bytes, n: nat)
    requires ReadLine(b) == Some((STAR, body, rest)) && Atoi(body) == Some(n)
    ensures Read(b) == if ReadAll(rest, n).None? then None else Some((Array(ReadAll(rest, n).value.0, false), ReadAll(rest, n).value.1))
  {
  }

  lemma {:induction false} ArrayBytes(items: seq<Frame>, rest: Bytes)
    ensures Write(Array(items, false)) + rest == [STAR] + Format(|items|) + CRLF + (WriteAll(items) + rest)
  {
  }

  lemma {:induction false} ArrayReads(items: seq<Frame>, rest: Bytes)
    requires |items| <= MAX_INT64 && ReadAll(WriteAll(items) + rest, |items|) == Some((SettledAll(items), rest))
    ensures Read(Write(Array(items, false)) + rest) == Some((Array(SettledAll(items), false), rest))
  {
    AtoiReads(|items|);
    LineReads(STAR, Format(|items|), WriteAll(items) + rest);
    ArrayBytes(items, rest);
    ReadsArray(Write(Array(items, false)) + rest, Format(|items|), WriteAll(items) + rest, |items|);
  }

  lemma {:induction false} LinesRead(f: Frame, rest: Bytes)
    requires f.Simple? || f.Error? || f.Integer? || (f.Bulk? && f.absent) || (f.Array? && f.absent)
    requires Sized(f)
    ensures Read(Write(f) + rest) == Some((Settled(f), rest))
  {
    match f
    case Simple(text) =>
      TextLines(text, [], []);
      LineReads(PLUS, Flat(text), rest);
    case Error(prefix, message) =>
      TextLines([], prefix, message);
      LineReads(MINUS, ErrorText(prefix, message), rest);
    case Integer(n) =>
      AtoiReads(n);
      LineReads(COLON, Format(n), rest);
    case Bulk(_, _) =>
      AtoiReads(-1);
      LineReads(DOLLAR, Format(-1), rest);
    case Array(_, _) =>
      AtoiReads(-1);
      LineReads(STAR, Format(-1), rest);
  }

  // Reading a written frame gives its settled form and leaves what follows.
  lemma {:induction false} ReadsWritten(f: Frame, rest: Bytes)
    requires Sized(f)
    ensures Read(Write(f) + rest) == Some((Settled(f), rest))
    decreases f, 0
  {
    match f
    case Bulk(value, absent) =>
      if absent {
        LinesRead(f, rest);
      } else {
        BulkReads(value, rest);
      }
    case Array(items, absent) =>
      if absent {
        LinesRead(f, rest);
      } else {
        ReadsAllWritten(items, rest);
        ArrayReads(items, rest);
      }
    case _ => LinesRead(f, rest);
  }

  lemma {:induction false} ReadsAllWritten(items: seq<Frame>, rest: Bytes)
    requires AllSized(items)
    ensures ReadAll(WriteAll(items) + rest, |items|) == Some((SettledAll(items), rest))
    decreases items, 1
  {
    if items == [] {
      assert WriteAll(items) + rest == rest;
    } else {
      var tail := WriteAll(items[1..]) + rest;
      assert WriteAll(items) + rest == Write(items[0]) + tail;
      ReadsWritten(items[0], tail);
      ReadsAllWritten(items[1..], rest);
    }
  }

  // Frames the wire leaves as they are: texts without line breaks, an error
  // prefix that is not empty and has no space, and nothing in a null frame.
  predicate Plain(f: Frame)
    decreases f, 0
  {
    match f
    case Simple(text) => CR !in text && LF !in text
    case Error(prefix, message) =>
      && prefix != [] && SPACE !in prefix && CR !in prefix && LF !in prefix
      && CR !in message && LF !in message
    case Integer(_) => true
    case Bulk(value, absent) => absent ==> value == []
    case Array(items, absent) => if absent then items == [] else AllPlain(items)
  }

  predicate AllPlain(items: seq<Frame>)
    decreases items, 1
  {
    items == [] || (Plain(items[0]) && AllPlain(items[1..]))
  }

  lemma {:induction false} FlatExactly(text: Bytes)
    ensures Flat(text) == text <==> CR !in text && LF !in text
  {
    if CR in text || LF in text {
      var i :| 0 <= i < |text| && (text[i] == CR || text[i] == LF);
      assert Flat(text)[i] != text[i];
    }
  }

  lemma {:induction false} SplitsAt(head: Bytes, tail: Bytes)
    requires SPACE !in head
    ensures SplitSpace(head + [SPACE] + tail) == (head, tail)
    decreases |head|
  {
    var b := head + [SPACE] + tail;
    if head == [] {
      assert b[1..] == tail;
    } else {
      assert b[1..] == head[1..] + [SPACE] + tail;
      SplitsAt(head[1..], tail);
      assert head == [head[0]] + head[1..];
    }
  }

  // The head of a split never has a space, and the parts make up the text.
  lemma {:induction false} SplitParts(body: Bytes)
    requires SPACE in body
    ensures var (head, tail) := SplitSpace(body); SPACE !in head && body == head + [SPACE] + tail
    decreases |body|
  {
    if body[0] != SPACE {
      SplitParts(body[1..]);
      var (head, tail) := SplitSpace(body[1..]);
      assert body == [body[0]] + body[1..];
      assert body == ([body[0]] + head) + [SPACE] + tail;
    } else {
      assert body == [] + [SPACE] + body[1..];
    }
  }

  lemma {:induction false} ErrorSettles(prefix: Bytes, message: Bytes)
    requires Plain(Error(prefix, message))
    ensures Settled(Error(prefix, message)) == Error(prefix, message)
  {
    FlatExactly(prefix);
    FlatExactly(message);
    SplitsAt(prefix, message);
  }

  // A split that gives back both texts was made where they were joined.
  lemma {:induction false} JoinedAlike(shown: Bytes, flat: Bytes, head: Bytes, tail: Bytes)
    requires shown + [SPACE] + flat == head + [SPACE] + tail && |tail| == |flat|
    ensures shown == head && flat == tail
  {
    var body := shown + [SPACE] + flat;
    assert |shown| == |head|;
    assert body[..|shown|] == shown && body[..|head|] == head;
    assert body[|shown| + 1..] == flat && body[|head| + 1..] == tail;
  }

  lemma {:induction false} SettledErrorIsPlain(prefix: Bytes, message: Bytes)
    requires Settled(Error(prefix, message)) == Error(prefix, message)
    ensures Plain(Error(prefix, message))
  {
    var shown := Flat(if prefix == [] then ERR else prefix);
    var body := shown + [SPACE] + Flat(message);
    assert body[|shown|] == SPACE;
    SplitParts(body);
    JoinedAlike(shown, Flat(message), prefix, message);
    FlatExactly(prefix);
    FlatExactly(message);
  }

  lemma {:induction false} ErrorExactly(prefix: Bytes, message: Bytes)
    ensures Settled(Error(prefix, message)) == Error(prefix, message) <==> Plain(Error(prefix, message))
  {
    if Plain(Error(prefix, message)) {
      ErrorSettles(prefix, message);
    }
    if Settled(Error(prefix, message)) == Error(prefix, message) {
      SettledErrorIsPlain(prefix, message);
    }
  }

  // The settled form is the frame itself exactly for plain frames, so these
  // and only these survive the wire unchanged.
  lemma {:induction false} SettledExactly(f: Frame)
    ensures Settled(f) == f <==> Plain(f)
    decreases f, 0
  {
    match f
    case Simple(text) => FlatExactly(text);
    case Error(prefix, message) => ErrorExactly(prefix, message);
    case Integer(_) =>
    case Bulk(_, _) =>
    case Array(items, absent) => if !absent { SettledAllExactly(items); }
  }

  lemma {:induction false} SettledAllExactly(items: seq<Frame>)
    ensures SettledAll(items) == items <==> AllPlain(items)
    decreases items, 1
  {
    if items != [] {
      SettledExactly(items[0]);
      SettledAllExactly(items[1..]);
      assert items == [items[0]] + items[1..];
      assert SettledAll(items)[0] == Settled(items[0]) && SettledAll(items)[1..] == SettledAll(items[1..]);
    }
  }

  lemma {:induction false} FrameRoundTrip(f: Frame, rest: Bytes)
    requires Sized(f)
    ensures Read(Write(f) + rest) == Some((f, rest)) <==> Plain(f)
  {
    ReadsWritten(f, rest);
    SettledExactly(f);
  }

  // ------------------------------------------------------------- the writer

  lemma {:induction false} FlatStep(value: Bytes, i: nat)
    requires i < |value|
    ensures Flat(value[..i + 1]) == Flat(value[..i]) + [if value[i] == CR || value[i] == LF then SPACE else value[i]]
  {
  }

  class Writer {
    var out: Bytes

    constructor ()
      ensures out == []
    {
      out := [];
    }

    // Copies stretches without line breaks and puts a space for each break.
    method WriteLineText(value: Bytes)
      modifies this
      ensures out == old(out) + Flat(value)
    {
      var start := 0;
      for i := 0 to |value|
        invariant 0 <= start <= i
        invariant out + value[start..i] == old(out) + Flat(value[..i])
      {
        FlatStep(value, i);
        if value[i] == CR || value[i] == LF {
          out := out + value[start..i];
          out := out + [SPACE];
          start := i + 1;
          assert out + value[start..i + 1] == out;
        } else {
          assert out + value[start..i + 1] == (out + value[start..i]) + [value[i]];
        }
      }
      assert value[..|value|] == value && value[start..|value|] == value[start..];
      out := out + value[start..];
    }

    method WriteHeader(prefix: Byte, n: int)
      modifies this
      ensures out == old(out) + ([prefix] + Format(n) + CRLF)
    {
      out := out + [prefix];
      out := out + Format(n);
      out := out + CRLF;
    }

    method WriteText(prefix: Byte, text: Bytes)
      modifies this
      ensures out == old(out) + ([prefix] + Flat(text) + CRLF)
    {
      out := out + [prefix];
      WriteLineText(text);
      out := out + CRLF;
    }

    method WriteError(prefix: Bytes, message: Bytes)
      modifies this
      ensures out == old(out) + ([MINUS] + ErrorText(prefix, message) + CRLF)
    {
      var shown := if prefix == [] then ERR else prefix;
      out := out + [MINUS];
      WriteLineText(shown);
      out := out + [SPACE];
      WriteLineText(message);
      out := out + CRLF;
    }

    method WriteBulk(value: Bytes, absent: bool)
      modifies this
      ensures out == old(out) + Write(Bulk(value, absent))
    {
      if absent {
        WriteHeader(DOLLAR, -1);
      } else {
        WriteHeader(DOLLAR, |value|);
        ghost var before := out;
        out := out + value;
        out := out + CRLF;
        assert out == before + (value + CRLF);
      }
    }

    method WriteArray(items: seq<Frame>, absent: bool)
      modifies this
      ensures out == old(out) + Write(Array(items, absent))
      decreases items, 2
    {
      if absent {
        WriteHeader(STAR, -1);
      } else {
        ghost var before, header := out, [STAR] + Format(|items|) + CRLF;
        WriteHeader(STAR, |items|);
        WriteItems(items);
        Associate(before, header, WriteAll(items));
      }
    }

    method WriteFrame(f: Frame)
      modifies this
      ensures out == old(out) + Write(f)
      decreases f, 0
    {
      match f
      case Simple(text) => WriteText(PLUS, text);
      case Error(prefix, message) => WriteError(prefix, message);
      case Integer(n) => WriteHeader(COLON, n);
      case Bulk(value, absent) => WriteBulk(value, absent);
      case Array(items, absent) => WriteArray(items, absent);
    }

    method WriteItems(items: seq<Frame>)
      modifies this
      ensures out == old(out) + WriteAll(items)
      decreases items, 1
    {
      for i := 0 to |items|
        invariant Writing(old(out), items, i, out)
      {
        WritingStep(old(out), items, i, out);
        WriteFrame(items[i]);
      }
      assert out + [] == out;
    }
  }

  // The items before i have been written after start.
  ghost predicate Writing(start: Bytes, items: seq<Frame>, i: nat, out: Bytes)
    requires i <= |items|
  {
    out + WriteAll(items[i..]) == start + WriteAll(items)
  }

  lemma {:induction false} WritingStep(start: Bytes, items: seq<Frame>, i: nat, out: Bytes)
    requires i < |items| && Writing(start, items, i, out)
    ensures Writing(start, items, i + 1, out + Write(items[i]))
  {
    assert items[i..][0] == items[i] && items[i..][1..] == items[i + 1..];
    Associate(out, Write(items[i]), WriteAll(items[i + 1..]));
  }

  // ------------------------------------------------------------- the reader

  // Reading n frames from b has come to fs, with m frames to be read from t.
  ghost predicate Reading(b: Bytes, n: nat, fs: seq<Frame>, t: Bytes, m: nat) {
    ReadAll(b, n) ==
      if ReadAll(t, m).None? then None else Some((fs + ReadAll(t, m).value.0, ReadAll(t, m).value.1))
  }

  lemma {:induction false} ReadingStarts(b: Bytes, n: nat)
    ensures Reading(b, n, [], b, n)
  {
    if ReadAll(b, n).Some? {
      assert [] + ReadAll(b, n).value.0 == ReadAll(b, n).value.0;
    }
  }

  lemma {:induction false} ReadingStep(b: Bytes, n: nat, fs: seq<Frame>, t: Bytes, m: nat, f: Frame, rest: Bytes)
    requires Reading(b, n, fs, t, m) && m > 0 && Read(t) == Some((f, rest))
    ensures Reading(b, n, fs + [f], rest, m - 1)
  {
    var more := ReadAll(rest, m - 1);
    if more.Some? {
      assert fs + ([f] + more.value.0) == (fs + [f]) + more.value.0;
    }
  }

  lemma {:induction false} ReadingStops(b: Bytes, n: nat, fs: seq<Frame>, t: Bytes, m: nat)
    requires Reading(b, n, fs, t, m) && m > 0 && Read(t).None?
    ensures ReadAll(b, n).None?
  {
  }

  lemma {:induction false} ReadingEnds(b: Bytes, n: nat, fs: seq<Frame>, t: Bytes)
    requires Reading(b, n, fs, t, 0)
    ensures ReadAll(b, n) == Some((fs, t))
  {
    assert fs + [] == fs;
  }

  method ReadFrame(b: Bytes) returns (r: Option<(Frame, Bytes)>)
    ensures r == Read(b)
    decreases |b|, 0
  {
    var line := ReadLine(b);
    if line.None? {
      return None;
    }
    var (prefix, body, rest) := line.value;
    if prefix == PLUS {
      return Some((Simple(body), rest));
    }
    if prefix == MINUS {
      var (head, tail) := SplitSpace(body);
      return Some((Error(head, tail), rest));
    }
    if prefix != COLON && prefix != DOLLAR && prefix != STAR {
      return None;
    }
    var n := Atoi(body);
    if n.None? {
      return None;
    }
    if prefix == COLON {
      return Some((Integer(n.value), rest));
    }
    if prefix == DOLLAR {
      if n.value < 0 {
        return Some((Bulk([], true), rest));
      }
      if |rest| < n.value + 2 {
        return None;
      }
      return Some((Bulk(rest[..n.value], false), rest[n.value + 2..]));
    }
    if n.value < 0 {
      return Some((Array([], true), rest));
    }
    var items := ReadItems(rest, n.value);
    if items.None? {
      return None;
    }
    return Some((Array(items.value.0, false), items.value.1));
  }

  method ReadItems(b: Bytes, n: nat) returns (r: Option<(seq<Frame>, Bytes)>)
    ensures r == ReadAll(b, n)
    decreases |b|, 1
  {
    var items: seq<Frame>, rest := [], b;
    ReadingStarts(b, n);
    var i := 0;
    while i < n
      invariant 0 <= i <= n && |rest| <= |b| && Reading(b, n, items, rest, n - i)
    {
      var f := ReadFrame(rest);
      if f.None? {
        ReadingStops(b, n, items, rest, n - i);
        return None;
      }
      ReadingStep(b, n, items, rest, n - i, f.value.0, f.value.1);
      items, rest := items + [f.value.0], f.value.1;
      i := i + 1;
    }
    ReadingEnds(b, n, items, rest);
    return Some((items, rest));
  }
}
