// The formats in plain characters: what the writers put down, compared with the
// characters of the protocol and with known byte strings.
module Samples {
  import opened Options
  import opened Ordering
  import opened Decimal
  import Replies
  import Requests
  import Payloads
  import Values

  const EOL: Bytes := ['\r' as int, '\n' as int]

  // ------------------------------------------------------------- numbers

  lemma {:induction false} NumbersAsText()
    ensures Format(0) == ['0' as int] && Format(7) == ['7' as int]
    ensures Format(1024) == ['1' as int, '0' as int, '2' as int, '4' as int]
    ensures Format(-45) == ['-' as int, '4' as int, '5' as int]
  {
    assert Digits(1) == [49];
    assert Digits(10) == [49, 48];
    assert Digits(102) == [49, 48, 50];
    assert Digits(1024) == [49, 48, 50, 52];
    assert Digits(4) == [52];
    assert Digits(45) == [52, 53];
  }

  // ------------------------------------------------------------- replies

  lemma {:induction false} FlatStays(text: Bytes)
    requires forall i :: 0 <= i < |text| ==> text[i] != '\r' as int && text[i] != '\n' as int
    ensures Replies.Flat(text) == text
  {
  }

  // Simple strings, errors and integers.
  lemma {:induction false} RepliesAsText(text: Bytes, prefix: Bytes, n: int)
    requires forall i :: 0 <= i < |text| ==> text[i] != '\r' as int && text[i] != '\n' as int
    requires prefix != [] && forall i :: 0 <= i < |prefix| ==> prefix[i] != '\r' as int && prefix[i] != '\n' as int
    ensures Replies.Write(Replies.Simple(text)) == ['+' as int] + text + EOL
    ensures Replies.Write(Replies.Error(prefix, text)) == ['-' as int] + (prefix + [' ' as int] + text) + EOL
    ensures Replies.Write(Replies.Integer(n)) == [':' as int] + Format(n) + EOL
  {
    FlatStays(text);
    FlatStays(prefix);
  }

  lemma {:induction false} UnnamedErrors(text: Bytes)
    ensures Replies.Write(Replies.Error([], text)) == Replies.Write(Replies.Error(['E' as int, 'R' as int, 'R' as int], text))
  {
  }

  // Bulk strings and arrays, and the two forms of nothing.
  lemma {:induction false} BulksAsText(value: Bytes, items: seq<Replies.Frame>)
    ensures Replies.Write(Replies.Bulk(value, false)) == ['$' as int] + Format(|value|) + EOL + (value + EOL)
    ensures Replies.Write(Replies.Array(items, false)) == ['*' as int] + Format(|items|) + EOL + Replies.WriteAll(items)
    ensures Replies.Write(Replies.Bulk(value, true)) == ['$' as int, '-' as int, '1' as int] + EOL
    ensures Replies.Write(Replies.Array(items, true)) == ['*' as int, '-' as int, '1' as int] + EOL
  {
    assert Digits(1) == [49];
    assert [36] + Format(-1) == [36, 45, 49] && [42] + Format(-1) == [42, 45, 49];
  }

  // ------------------------------------------------------------ requests

  // An array of bulk strings, one per argument, in order.
  lemma {:induction false} RequestAsText(args: seq<Bytes>)
    ensures Requests.WriteRequest(args) == ['*' as int] + Format(|args|) + EOL + Requests.WriteArguments(args)
    ensures args != [] ==>
      Requests.WriteArguments(args) == ['$' as int] + Format(|args[0]|) + EOL + (args[0] + EOL) + Requests.WriteArguments(args[1..])
  {
  }

  // Letters become capitals and nothing else changes.
  lemma {:induction false} CapitalsAsText(b: Byte)
    ensures Requests.UpperByte('a' as int) == 'A' as int && Requests.UpperByte('z' as int) == 'Z' as int
    ensures 'a' as int <= b <= 'z' as int ==> Requests.UpperByte(b) - 'A' as int == b - 'a' as int
    ensures !('a' as int <= b <= 'z' as int) ==> Requests.UpperByte(b) == b
  {
  }

  // ------------------------------------------------------------ payloads

  // Most significant byte first.
  lemma {:induction false} WordSamples()
    ensures Payloads.BigEndian(1, 4) == [0, 0, 0, 1] && Payloads.BigEndian(2, 4) == [0, 0, 0, 2]
    ensures Payloads.BigEndian(0x0102_0304, 4) == [1, 2, 3, 4]
  {
    BigEndianFour(1);
    BigEndianFour(2);
    BigEndianFour(0x0102_0304);
  }

  lemma {:induction false} BigEndianFour(n: nat)
    ensures Payloads.BigEndian(n, 4) == [n / 0x100_0000 % 256, n / 0x1_0000 % 256, n / 256 % 256, n % 256]
  {
    var a, b, c := n / 256, n / 256 / 256, n / 256 / 256 / 256;
    assert Payloads.BigEndian(c, 1) == Payloads.BigEndian(c / 256, 0) + [c % 256];
    assert Payloads.BigEndian(b, 2) == Payloads.BigEndian(c, 1) + [b % 256];
    assert Payloads.BigEndian(a, 3) == Payloads.BigEndian(b, 2) + [a % 256];
    assert Payloads.BigEndian(n, 4) == Payloads.BigEndian(a, 3) + [n % 256];
    assert b == n / 0x1_0000 && c == n / 0x100_0000;
  }

  lemma {:induction false} FieldSample()
    ensures Payloads.EncodedAll([Payloads.Field([], [1, 2]), Payloads.Field([9], [3])]) == [0, 0, 0, 2, 1, 2, 9, 0, 0, 0, 1, 3]
  {
    WordSamples();
    var fs := [Payloads.Field([], [1, 2]), Payloads.Field([9], [3])];
    assert Payloads.Encoded(fs[0]) == [0, 0, 0, 2, 1, 2] && Payloads.Encoded(fs[1]) == [9, 0, 0, 0, 1, 3];
    assert fs[1..] == [fs[1]] && fs[1..][1..] == [];
    assert Payloads.EncodedAll(fs[1..]) == [9, 0, 0, 0, 1, 3];
  }

  // A count, and then every element after its length.
  lemma {:induction false} PayloadSample()
    ensures Payloads.EncodeList([[1, 2], [3]]) == Some([0, 0, 0, 2] + Payloads.EncodedAll([Payloads.Field([], [1, 2]), Payloads.Field([], [3])]))
  {
    WordSamples();
    var items: seq<Bytes> := [[1, 2], [3]];
    assert Payloads.ListFields(items) == [Payloads.Field([], [1, 2]), Payloads.Field([], [3])];
    assert forall i :: 0 <= i < |items| ==> |items[i]| < Payloads.LIMIT32;
  }

  // ------------------------------------------------------ sizes and limits

  // What an entry is charged for: 64 bytes and its key and data for a string, 48
  // more per list item, 80 and 64 per member for a sorted set.
  lemma {:induction false} ChargesAsNumbers(key: Bytes, data: Bytes, score: Score)
    ensures Values.Charge(key, Values.Str(data)) == 64 + |key| + |data|
    ensures Values.Charge(key, Values.List([data])) == 64 + |key| + (48 + |data|)
    ensures Values.Charge(key, Values.SortedSet(map[data := score])) == 80 + |key| + (64 + |data|)
  {
    assert Values.ItemsSize([data]) == 48 + |data|;
    var index: map<Bytes, Score> := map[data := score];
    assert index.Keys == {data};
    Values.MembersSizeTake({data}, data);
    assert {data} - {data} == {};
    assert Values.MembersSize({}) == 0;
  }

  // Requests of at most 2^20 arguments of 32 MiB each and 64 MiB together.
  lemma {:induction false} LimitsAsNumbers()
    ensures Requests.MAX_ARGUMENTS == 1024 * 1024 && Requests.MAX_BULK == 32 * 1024 * 1024 && Requests.MAX_COMMAND == 64 * 1024 * 1024
  {
  }
}
