// Expired entries stay in the dictionary until something touches them. The
// execution of a command does not let them show, save that a deletion counts
// them.
module Expiry {
  import opened Options
  import opened Ordering
  import opened Values
  import opened Stores
  import opened Admission
  import SkipLists

  lemma {:induction false} PurgeUnseen(d: Dict, key: Bytes, now: int)
    ensures Visible(Purge(d, key, now), now) == Visible(d, now)
    ensures Purge(Visible(d, now), key, now) == Visible(d, now)
    ensures Found(d, key, now) == Found(Visible(d, now), key, now)
    ensures key in Purge(d, key, now) <==> key in Visible(d, now)
    ensures key in Visible(d, now) ==> Purge(d, key, now)[key] == Visible(d, now)[key]
  {
    assert Visible(Purge(d, key, now), now) == Visible(d, now);
    assert Purge(Visible(d, now), key, now) == Visible(d, now);
  }

  lemma {:induction false} PutAlike(d: Dict, key: Bytes, e: Entry, now: int)
    ensures Visible(Purge(d, key, now)[key := e], now) == Visible(Visible(d, now)[key := e], now)
  {
    assert Visible(Purge(d, key, now)[key := e], now) == Visible(Visible(d, now)[key := e], now);
  }

  lemma {:induction false} DropAlike(d: Dict, key: Bytes, now: int)
    ensures Visible(d - {key}, now) == Visible(d, now) - {key}
    ensures Visible(Purge(d, key, now) - {key}, now) == Visible(Visible(d, now) - {key}, now)
  {
    assert Visible(d - {key}, now) == Visible(d, now) - {key};
    assert Visible(Purge(d, key, now) - {key}, now) == Visible(Visible(d, now) - {key}, now);
  }

  lemma {:induction false} VisibleTwice(d: Dict, now: int)
    ensures Visible(Visible(d, now), now) == Visible(d, now)
  {
    assert Visible(Visible(d, now), now) == Visible(d, now);
  }

  // Two dictionaries that look the same at a time.
  ghost predicate Alike(d: Dict, e: Dict, now: int) {
    Visible(d, now) == Visible(e, now)
  }

  lemma {:induction false} StringsAlike(d: Dict, key: Bytes, data: Bytes, expiresAt: int, condition: Condition, delta: int, now: int)
    ensures var v := Visible(d, now);
      && AfterSet(d, key, data, expiresAt, condition, now).1 == AfterSet(v, key, data, expiresAt, condition, now).1
      && Alike(AfterSet(d, key, data, expiresAt, condition, now).0, AfterSet(v, key, data, expiresAt, condition, now).0, now)
      && AfterIncrement(d, key, delta, now).1 == AfterIncrement(v, key, delta, now).1
      && Alike(AfterIncrement(d, key, delta, now).0, AfterIncrement(v, key, delta, now).0, now)
  {
    PurgeUnseen(d, key, now);
    VisibleTwice(d, now);
    PutAlike(d, key, Charged(key, Str(data), expiresAt), now);
    var r := AfterIncrement(d, key, delta, now);
    if r.1.Ok? {
      PutAlike(d, key, r.0[key], now);
    }
  }

  lemma {:induction false} ExpireAlike(d: Dict, key: Bytes, expiresAt: int, now: int)
    ensures var v := Visible(d, now);
      && AfterExpireAt(d, key, expiresAt, now).1 == AfterExpireAt(v, key, expiresAt, now).1
      && Alike(AfterExpireAt(d, key, expiresAt, now).0, AfterExpireAt(v, key, expiresAt, now).0, now)
  {
    PurgeUnseen(d, key, now);
    VisibleTwice(d, now);
    var r := AfterExpireAt(d, key, expiresAt, now);
    if r.1 {
      PutAlike(d, key, r.0[key], now);
    }
  }

  lemma {:induction false} PushAlike(d: Dict, key: Bytes, values: seq<Bytes>, left: bool, now: int)
    ensures var v := Visible(d, now);
      && AfterPush(d, key, values, left, now).1 == AfterPush(v, key, values, left, now).1
      && Alike(AfterPush(d, key, values, left, now).0, AfterPush(v, key, values, left, now).0, now)
  {
    PurgeUnseen(d, key, now);
    VisibleTwice(d, now);
    var r := AfterPush(d, key, values, left, now);
    if r.1.Ok? {
      PutAlike(d, key, r.0[key], now);
    }
  }

  lemma {:induction false} PopAlike(d: Dict, key: Bytes, left: bool, now: int)
    ensures var v := Visible(d, now);
      && AfterPop(d, key, left, now).1 == AfterPop(v, key, left, now).1
      && Alike(AfterPop(d, key, left, now).0, AfterPop(v, key, left, now).0, now)
  {
    PurgeUnseen(d, key, now);
    VisibleTwice(d, now);
    DropAlike(d, key, now);
    var r := AfterPop(d, key, left, now);
    if key in r.0 {
      PutAlike(d, key, r.0[key], now);
      assert Purge(d, key, now)[key := Purge(d, key, now)[key]] == Purge(d, key, now);
    }
  }

  lemma {:induction false} ZAddAlike(d: Dict, key: Bytes, pairs: seq<SkipLists.Entry>, now: int)
    ensures var v := Visible(d, now);
      && AfterZAdd(d, key, pairs, now).1 == AfterZAdd(v, key, pairs, now).1
      && Alike(AfterZAdd(d, key, pairs, now).0, AfterZAdd(v, key, pairs, now).0, now)
  {
    PurgeUnseen(d, key, now);
    VisibleTwice(d, now);
    var r := AfterZAdd(d, key, pairs, now);
    if r.1.Ok? {
      PutAlike(d, key, r.0[key], now);
    }
  }

  lemma {:induction false} DelAlike(d: Dict, keys: seq<Bytes>, now: int)
    ensures Visible(WithoutKeys(d, keys), now) == WithoutKeys(Visible(d, now), keys)
    decreases |keys|
  {
    if keys != [] {
      DropAlike(d, keys[0], now);
      DelAlike(d - {keys[0]}, keys[1..], now);
    }
  }

  ghost predicate NamesExpired(d: Dict, keys: seq<Bytes>, now: int) {
    exists k :: k in keys && k in d && Expired(d[k], now)
  }

  lemma {:induction false} NamesRest(d: Dict, keys: seq<Bytes>, now: int)
    requires keys != []
    ensures NamesExpired(d, keys, now) <==>
      (keys[0] in d && Expired(d[keys[0]], now)) || NamesExpired(d - {keys[0]}, keys[1..], now)
  {
    var e, rest := d - {keys[0]}, keys[1..];
    assert forall k :: k in keys <==> k == keys[0] || k in rest;
    if NamesExpired(d, keys, now) {
      var k :| k in keys && k in d && Expired(d[k], now);
      assert k == keys[0] || (k in rest && k in e && Expired(e[k], now));
    }
    if NamesExpired(e, rest, now) {
      var k :| k in rest && k in e && Expired(e[k], now);
      assert k in keys && k in d && Expired(d[k], now);
    }
  }

  // A deletion reports the number of visible keys if and only if it names no
  // key that has expired but has not been touched since; else it reports more.
  lemma {:induction false} DeleteCountsExactly(d: Dict, keys: seq<Bytes>, now: int)
    ensures DeletedCount(d, keys) >= DeletedCount(Visible(d, now), keys)
    ensures DeletedCount(d, keys) == DeletedCount(Visible(d, now), keys) <==> !NamesExpired(d, keys, now)
    decreases |keys|
  {
    if keys != [] {
      DropAlike(d, keys[0], now);
      DeleteCountsExactly(d - {keys[0]}, keys[1..], now);
      NamesRest(d, keys, now);
    }
  }

  // What a command answers. A read answers from the entry it finds.
  datatype Response =
    | Flag(done: bool)
    | Number(number: Reply<int>)
    | Count(count: Reply<nat>)
    | Item(item: Reply<Option<Bytes>>)
    | Content(entry: Option<Entry>)
    | Invalid

  ghost function ReplyOf(d: Dict, cmd: Command, now: int): Response {
    match cmd
    case Set(key, data, expiresAt, condition) => Flag(AfterSet(d, key, data, expiresAt, condition, now).1)
    case Incr(key) => Number(AfterIncrement(d, key, 1, now).1)
    case Push(key, values, left) => if values == [] then Invalid else Count(AfterPush(d, key, values, left, now).1)
    case ZAdd(key, pairs) => if pairs == [] then Invalid else Count(AfterZAdd(d, key, pairs, now).1)
    case Del(keys) => Count(Ok(DeletedCount(d, keys)))
    case ExpireAt(key, expiresAt) => Flag(AfterExpireAt(d, key, expiresAt, now).1)
    case Pop(key, left) => Item(AfterPop(d, key, left, now).1)
    case FlushAll => Flag(true)
    case Read(key) => Content(Found(d, key, now))
  }

  // The execution of every command leaves behind what it would leave behind if
  // expired entries were removed the moment they expire, and answers the same
  // unless it is a deletion that names one of them.
  lemma {:induction false} ExpiryIsUnseen(d: Dict, cmd: Command, now: int)
    ensures Alike(Executed(d, cmd, now), Executed(Visible(d, now), cmd, now), now)
    ensures ReplyOf(d, cmd, now) == ReplyOf(Visible(d, now), cmd, now) <==> !(cmd.Del? && NamesExpired(d, cmd.keys, now))
  {
    VisibleTwice(d, now);
    match cmd
    case Set(key, data, expiresAt, condition) => StringsAlike(d, key, data, expiresAt, condition, 1, now);
    case Incr(key) => StringsAlike(d, key, [], 0, Always, 1, now);
    case Push(key, values, left) => PushAlike(d, key, values, left, now);
    case ZAdd(key, pairs) => ZAddAlike(d, key, pairs, now);
    case Del(keys) =>
      DelAlike(d, keys, now);
      DelAlike(Visible(d, now), keys, now);
      DeleteCountsExactly(d, keys, now);
    case ExpireAt(key, expiresAt) => ExpireAlike(d, key, expiresAt, now);
    case Pop(key, left) => PopAlike(d, key, left, now);
    case FlushAll =>
    case Read(key) => PurgeUnseen(d, key, now);
  }
}
