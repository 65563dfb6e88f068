// What commands do and answer, key by key, without reference to how they are
// carried out: first on one dictionary, then through admission.
module Effects {
  import opened Options
  import opened Ordering
  import opened Decimal
  import opened Striping
  import opened Values
  import opened Stores
  import opened Admission
  import opened Expiry
  import opened Crowding
  import ZSets
  import SkipLists

  // ----------------------------------------------------- one key

  // The entry a key has, unless it has expired.
  ghost function HeldAt(d: Dict, key: Bytes, now: int): Option<Entry> {
    if key in d && !Expired(d[key], now) then Some(d[key]) else None
  }

  ghost predicate Has(r: Dict, key: Bytes, v: Value, expiresAt: int) {
    key in r && r[key] == Entry(v, Charge(key, v), expiresAt)
  }

  ghost predicate Keeps(held: Option<Entry>, r: Dict, key: Bytes) {
    if held.Some? then key in r && r[key] == held.value else key !in r
  }

  ghost function ExpiryOf(held: Option<Entry>): int {
    if held.Some? then held.value.expiresAt else 0
  }

  ghost predicate SetDoes(held: Option<Entry>, key: Bytes, data: Bytes, expiresAt: int, condition: Condition, r: Dict, reply: Response) {
    var wanted := condition == Always || (condition == IfMissing && held.None?) || (condition == IfPresent && held.Some?);
    reply == Flag(wanted) && if wanted then Has(r, key, Str(data), expiresAt) else Keeps(held, r, key)
  }

  // The number the key stands for, or what is wrong with it.
  ghost predicate Stands(held: Option<Entry>, n: int) {
    if held.None? then n == 0 else held.value.value.Str? && Parse(held.value.value.data) == Some(n)
  }

  ghost predicate IncrDoes(held: Option<Entry>, key: Bytes, r: Dict, reply: Response) {
    if held.Some? && !held.value.value.Str? then reply == Number(WrongType) && Keeps(held, r, key)
    else if held.Some? && Parse(held.value.value.data).None? then reply == Number(NotInteger) && Keeps(held, r, key)
    else if Stands(held, MAX_INT64) then reply == Number(Overflow) && Keeps(held, r, key)
    else
      && key in r && r[key].value.Str? && Has(r, key, r[key].value, ExpiryOf(held))
      && exists n :: Stands(held, n) && Parse(r[key].value.data) == Some(n + 1) && reply == Number(Ok(n + 1))
  }

  // Values pushed on the right follow in order; on the left each comes before
  // the one pushed before it.
  ghost predicate Pushes(items: seq<Bytes>, values: seq<Bytes>, left: bool, r: seq<Bytes>) {
    && |r| == |items| + |values|
    && (if left then r[|values|..] == items else r[..|items|] == items)
    && forall i :: 0 <= i < |values| ==> r[if left then |values| - 1 - i else |items| + i] == values[i]
  }

  ghost predicate PushDoes(held: Option<Entry>, key: Bytes, values: seq<Bytes>, left: bool, r: Dict, reply: Response) {
    if held.Some? && !held.value.value.List? then reply == Count(WrongType) && Keeps(held, r, key)
    else
      && key in r && r[key].value.List? && Has(r, key, r[key].value, ExpiryOf(held))
      && Pushes(if held.Some? then held.value.value.items else [], values, left, r[key].value.items)
      && reply == Count(Ok(|r[key].value.items|))
  }

  ghost predicate Names(pairs: seq<SkipLists.Entry>, m: Bytes) {
    exists i :: 0 <= i < |pairs| && pairs[i].member == m
  }

  // The last mention of a member.
  ghost predicate LastOf(pairs: seq<SkipLists.Entry>, i: nat) {
    i < |pairs| && forall j :: i < j < |pairs| ==> pairs[j].member != pairs[i].member
  }

  // Every named member has the score it was last named with, all others theirs.
  ghost predicate Scores(index: ZSets.Index, pairs: seq<SkipLists.Entry>, r: ZSets.Index) {
    && (forall m :: m in r <==> m in index || Names(pairs, m))
    && (forall m :: m in index && !Names(pairs, m) ==> m in r && r[m] == index[m])
    && (forall i: nat :: LastOf(pairs, i) ==> pairs[i].member in r && Rank(r[pairs[i].member]) == Rank(pairs[i].score))
  }

  ghost predicate ZAddDoes(held: Option<Entry>, key: Bytes, pairs: seq<SkipLists.Entry>, r: Dict, reply: Response) {
    if held.Some? && !held.value.value.SortedSet? then reply == Count(WrongType) && Keeps(held, r, key)
    else
      var index: ZSets.Index := if held.Some? then held.value.value.index else map[];
      && key in r && r[key].value.SortedSet? && Has(r, key, r[key].value, ExpiryOf(held))
      && Scores(index, pairs, r[key].value.index)
      && reply == Count(Ok(|r[key].value.index.Keys - index.Keys|))
  }

  ghost predicate ExpireDoes(held: Option<Entry>, key: Bytes, expiresAt: int, r: Dict, reply: Response) {
    if held.None? then reply == Flag(false) && key !in r
    else reply == Flag(true) && key in r && r[key] == Entry(held.value.value, held.value.size, expiresAt)
  }

  // The popped item and the others make up the list; an emptied list is gone.
  ghost predicate PopDoes(held: Option<Entry>, key: Bytes, left: bool, r: Dict, reply: Response) {
    if held.Some? && !held.value.value.List? then reply == Item(WrongType) && Keeps(held, r, key)
    else if held.None? || held.value.value.items == [] then reply == Item(Ok(None)) && Keeps(held, r, key)
    else
      && reply.Item? && reply.item.Ok? && reply.item.value.Some?
      && exists rest ::
        && held.value.value.items == (if left then [reply.item.value.value] + rest else rest + [reply.item.value.value])
        && if rest == [] then key !in r else Has(r, key, List(rest), ExpiryOf(held))
  }

  ghost predicate Does(held: Option<Entry>, cmd: Command, r: Dict, reply: Response) {
    match cmd
    case Set(key, data, expiresAt, condition) => SetDoes(held, key, data, expiresAt, condition, r, reply)
    case Incr(key) => IncrDoes(held, key, r, reply)
    case Push(key, values, left) => PushDoes(held, key, values, left, r, reply)
    case ZAdd(key, pairs) => ZAddDoes(held, key, pairs, r, reply)
    case ExpireAt(key, expiresAt) => ExpireDoes(held, key, expiresAt, r, reply)
    case Pop(key, left) => PopDoes(held, key, left, r, reply)
    case Read(key) => reply == Content(held) && Keeps(held, r, key)
    case _ => false
  }

  predicate OnOneKey(cmd: Command) {
    !cmd.Del? && !cmd.FlushAll?
  }

  // No named key is left and no other is touched; the reply counts the keys that
  // were there, each once.
  ghost predicate DelDoes(d: Dict, keys: seq<Bytes>, r: Dict, reply: Response) {
    && (forall k :: if k in keys then k !in r else SameAt(d, r, k))
    && reply == Count(Ok(|set k | k in d && k in keys|))
  }

  // -------------------------------------------- the operations do it

  lemma {:induction false} SetIsDone(d: Dict, cmd: Command, now: int)
    requires cmd.Set?
    ensures Does(HeldAt(d, cmd.key, now), cmd, Executed(d, cmd, now), ReplyOf(d, cmd, now))
  {
  }

  lemma {:induction false} IncrIsDone(d: Dict, cmd: Command, now: int)
    requires cmd.Incr?
    ensures Does(HeldAt(d, cmd.key, now), cmd, Executed(d, cmd, now), ReplyOf(d, cmd, now))
  {
    var held := HeldAt(d, cmd.key, now);
    assert Found(d, cmd.key, now) == held;
    var found := Incremented(held, 1);
    if found.Ok? {
      ParsesExactly(Format(found.value), found.value);
      assert Stands(held, found.value - 1);
    }
  }

  lemma {:induction false} ReversedAt(s: seq<Bytes>, i: nat)
    requires i < |s|
    ensures |Reversed(s)| == |s| && Reversed(s)[|s| - 1 - i] == s[i]
    decreases |s|
  {
    if |s| > 1 {
      ReversedAt(s[1..], if i > 0 then i - 1 else 0);
    }
  }

  lemma {:induction false} PushedPushes(items: seq<Bytes>, values: seq<Bytes>, left: bool)
    ensures Pushes(items, values, left, Pushed(items, values, left))
  {
    if values == [] {
      assert Reversed(values) + items == items && items + values == items;
    } else {
      forall i | 0 <= i < |values|
        ensures |Reversed(values)| == |values| && Reversed(values)[|values| - 1 - i] == values[i]
      {
        ReversedAt(values, i);
      }
      ReversedAt(values, 0);
    }
  }

  lemma {:induction false} PushLeaves(held: Option<Entry>, key: Bytes, items: seq<Bytes>, values: seq<Bytes>, left: bool, all: seq<Bytes>, r: Dict)
    requires held.Some? ==> held.value.value == List(items)
    requires held.None? ==> items == []
    requires Has(r, key, List(all), ExpiryOf(held)) && Pushes(items, values, left, all)
    ensures PushDoes(held, key, values, left, r, Count(Ok(|all|)))
  {
  }

  lemma {:induction false} PushIsDone(d: Dict, key: Bytes, values: seq<Bytes>, left: bool, now: int)
    ensures var r := AfterPush(d, key, values, left, now);
      PushDoes(HeldAt(d, key, now), key, values, left, r.0, Count(r.1))
  {
    var held, r := HeldAt(d, key, now), AfterPush(d, key, values, left, now);
    if held.None? || held.value.value.List? {
      var items := if held.Some? then held.value.value.items else [];
      var all := Pushed(items, values, left);
      PushedPushes(items, values, left);
      assert Has(r.0, key, List(all), ExpiryOf(held));
      PushLeaves(held, key, items, values, left, all, r.0);
    }
  }

  lemma {:induction false} NamesOneMore(front: seq<SkipLists.Entry>, last: SkipLists.Entry, m: Bytes)
    ensures Names(front + [last], m) <==> m == last.member || Names(front, m)
  {
    var pairs := front + [last];
    if m == last.member {
      assert pairs[|front|].member == m;
    }
    if i :| 0 <= i < |front| && front[i].member == m {
      assert pairs[i].member == m;
    }
  }

  lemma {:induction false} LastOfOneMore(front: seq<SkipLists.Entry>, last: SkipLists.Entry, i: nat)
    requires LastOf(front + [last], i)
    ensures i == |front| || (LastOf(front, i) && front[i].member != last.member)
  {
    var pairs := front + [last];
    if i < |front| {
      assert pairs[|front|].member != pairs[i].member;
      assert forall j :: i < j < |front| ==> front[j].member == pairs[j].member;
    }
  }

  lemma {:induction false} ScoresOneMore(index: ZSets.Index, front: seq<SkipLists.Entry>, p: ZSets.Index, last: SkipLists.Entry, r: ZSets.Index)
    requires Scores(index, front, p) && r == ZSets.Put(p, last.score, last.member)
    ensures Scores(index, front + [last], r)
  {
    var pairs := front + [last];
    forall m
      ensures m in r <==> m in index || Names(pairs, m)
      ensures m in index && !Names(pairs, m) ==> m in r && r[m] == index[m]
    {
      NamesOneMore(front, last, m);
    }
    forall i: nat | LastOf(pairs, i)
      ensures pairs[i].member in r && Rank(r[pairs[i].member]) == Rank(pairs[i].score)
    {
      LastOfOneMore(front, last, i);
    }
  }

  lemma {:induction false} PutAllScores(index: ZSets.Index, pairs: seq<SkipLists.Entry>)
    ensures Scores(index, pairs, ZSets.PutAll(index, pairs))
    decreases |pairs|
  {
    if pairs == [] {
      assert ZSets.PutAll(index, pairs) == index;
      assert forall m :: !Names(pairs, m);
    } else {
      var k := |pairs| - 1;
      var front, last := pairs[..k], pairs[k];
      PutAllScores(index, front);
      var p, r := ZSets.PutAll(index, front), ZSets.PutAll(index, pairs);
      assert r == ZSets.Put(p, last.score, last.member);
      ScoresOneMore(index, front, p, last, r);
      assert front + [last] == pairs;
    }
  }

  // What an addition finds under its key, and leaves there.
  lemma {:induction false} ZAddLeaves(held: Option<Entry>, key: Bytes, index: ZSets.Index, pairs: seq<SkipLists.Entry>, put: ZSets.Index, r: Dict)
    requires held.Some? ==> held.value.value == SortedSet(index)
    requires held.None? ==> index == map[]
    requires Has(r, key, SortedSet(put), ExpiryOf(held)) && Scores(index, pairs, put)
    ensures ZAddDoes(held, key, pairs, r, Count(Ok(|put.Keys - index.Keys|)))
  {
  }

  ghost function IndexOf(held: Option<Entry>): ZSets.Index {
    if held.Some? && held.value.value.SortedSet? then held.value.value.index else map[]
  }

  lemma {:induction false} ZAddFinds(d: Dict, key: Bytes, pairs: seq<SkipLists.Entry>, now: int)
    ensures var held, r := HeldAt(d, key, now), AfterZAdd(d, key, pairs, now);
      if held.Some? && !held.value.value.SortedSet? then r.1 == WrongType && Keeps(held, r.0, key)
      else Has(r.0, key, SortedSet(ZSets.PutAll(IndexOf(held), pairs)), ExpiryOf(held)) && r.1 == Ok(NewCount(IndexOf(held), pairs))
  {
  }

  lemma {:induction false} NewOnes(index: ZSets.Index, pairs: seq<SkipLists.Entry>)
    ensures NewCount(index, pairs) == |ZSets.PutAll(index, pairs).Keys - index.Keys|
  {
    ZSets.PutAllKeys(index, pairs);
    assert ZSets.PutAll(index, pairs).Keys - index.Keys == ZSets.Members(pairs) - index.Keys;
  }

  lemma {:induction false} ZAddIsDone(d: Dict, key: Bytes, pairs: seq<SkipLists.Entry>, now: int)
    ensures var r := AfterZAdd(d, key, pairs, now);
      ZAddDoes(HeldAt(d, key, now), key, pairs, r.0, Count(r.1))
  {
    var held := HeldAt(d, key, now);
    ZAddFinds(d, key, pairs, now);
    if held.None? || held.value.value.SortedSet? {
      PutAllScores(IndexOf(held), pairs);
      NewOnes(IndexOf(held), pairs);
      ZAddLeaves(held, key, IndexOf(held), pairs, ZSets.PutAll(IndexOf(held), pairs), AfterZAdd(d, key, pairs, now).0);
    }
  }

  lemma {:induction false} PopIsDone(d: Dict, cmd: Command, now: int)
    requires cmd.Pop?
    ensures Does(HeldAt(d, cmd.key, now), cmd, Executed(d, cmd, now), ReplyOf(d, cmd, now))
  {
    var held := HeldAt(d, cmd.key, now);
    if held.Some? && held.value.value.List? && held.value.value.items != [] {
      var items := held.value.value.items;
      var k := |items| - 1;
      var rest := if cmd.left then items[1..] else items[..k];
      assert items == if cmd.left then [items[0]] + rest else rest + [items[k]];
    }
  }

  lemma {:induction false} OneKeyIsDone(d: Dict, cmd: Command, now: int)
    requires OnOneKey(cmd) && !Malformed(cmd)
    ensures Does(HeldAt(d, cmd.key, now), cmd, Executed(d, cmd, now), ReplyOf(d, cmd, now))
  {
    match cmd
    case Set(_, _, _, _) => SetIsDone(d, cmd, now);
    case Incr(_) => IncrIsDone(d, cmd, now);
    case Push(key, values, left) => PushIsDone(d, key, values, left, now);
    case ZAdd(key, pairs) => ZAddIsDone(d, key, pairs, now);
    case ExpireAt(_, _) =>
    case Pop(_, _) => PopIsDone(d, cmd, now);
    case Read(_) =>
  }

  // Nothing but the key is touched.
  ghost predicate KeyOnly(d: Dict, key: Bytes, now: int, r: Dict) {
    var p := Purge(d, key, now);
    r == p || r == p - {key} || (key in r && r == p[key := r[key]])
  }

  lemma {:induction false} StringsKeyOnly(d: Dict, key: Bytes, data: Bytes, expiresAt: int, condition: Condition, now: int)
    ensures KeyOnly(d, key, now, AfterSet(d, key, data, expiresAt, condition, now).0)
    ensures KeyOnly(d, key, now, AfterIncrement(d, key, 1, now).0)
    ensures KeyOnly(d, key, now, AfterExpireAt(d, key, expiresAt, now).0)
  {
  }

  lemma {:induction false} ListsKeyOnly(d: Dict, key: Bytes, values: seq<Bytes>, left: bool, now: int)
    ensures KeyOnly(d, key, now, AfterPush(d, key, values, left, now).0)
    ensures KeyOnly(d, key, now, AfterPop(d, key, left, now).0)
  {
  }

  lemma {:induction false} ZAddKeyOnly(d: Dict, key: Bytes, pairs: seq<SkipLists.Entry>, now: int)
    ensures KeyOnly(d, key, now, AfterZAdd(d, key, pairs, now).0)
  {
    ZAddWrites(d, key, pairs, now);
  }

  lemma {:induction false} KeyOnlySpares(d: Dict, key: Bytes, now: int, r: Dict, k: Bytes)
    requires KeyOnly(d, key, now, r) && k != key
    ensures SameAt(d, r, k)
  {
  }

  lemma {:induction false} ExecutedKeyOnly(d: Dict, cmd: Command, now: int)
    requires OnOneKey(cmd) && !Malformed(cmd)
    ensures KeyOnly(d, cmd.key, now, Executed(d, cmd, now))
  {
    match cmd
    case Set(key, data, expiresAt, condition) => StringsKeyOnly(d, key, data, expiresAt, condition, now);
    case Incr(key) => StringsKeyOnly(d, key, [], 0, Always, now);
    case Push(key, values, left) => ListsKeyOnly(d, key, values, left, now);
    case ZAdd(key, pairs) => ZAddKeyOnly(d, key, pairs, now);
    case ExpireAt(key, expiresAt) => StringsKeyOnly(d, key, [], expiresAt, Always, now);
    case Pop(key, left) => ListsKeyOnly(d, key, [], left, now);
    case Read(_) =>
  }

  lemma {:induction false} OthersStay(d: Dict, cmd: Command, now: int, k: Bytes)
    requires OnOneKey(cmd) && !Malformed(cmd) && k != cmd.key
    ensures SameAt(d, Executed(d, cmd, now), k)
  {
    ExecutedKeyOnly(d, cmd, now);
    KeyOnlySpares(d, cmd.key, now, Executed(d, cmd, now), k);
  }

  lemma {:induction false} WithoutIs(d: Dict, keys: seq<Bytes>)
    ensures forall k :: if k in keys then k !in WithoutKeys(d, keys) else SameAt(d, WithoutKeys(d, keys), k)
    decreases |keys|
  {
    if keys != [] {
      WithoutIs(d - {keys[0]}, keys[1..]);
      assert forall k :: k in keys <==> k == keys[0] || k in keys[1..];
    }
  }

  lemma {:induction false} DeletedIs(d: Dict, keys: seq<Bytes>)
    ensures DeletedCount(d, keys) == |set k | k in d && k in keys|
    decreases |keys|
  {
    if keys != [] {
      var e, rest := d - {keys[0]}, keys[1..];
      DeletedIs(e, rest);
      assert forall k :: k in keys <==> k == keys[0] || k in rest;
      var all, others := set k | k in d && k in keys, set k | k in e && k in rest;
      if keys[0] in d {
        assert all == others + {keys[0]};
      } else {
        assert all == others;
      }
    }
  }

  lemma {:induction false} DelIsDone(d: Dict, keys: seq<Bytes>, now: int)
    ensures DelDoes(d, keys, Executed(d, Del(keys), now), ReplyOf(d, Del(keys), now))
  {
    WithoutIs(d, keys);
    DeletedIs(d, keys);
  }

  // ---------------------------------------------------- through admission

  // The entry a command works on: planning removes an expired one first.
  ghost function Held(d: Dict, cmd: Command, env: Env): Option<Entry>
    requires OnOneKey(cmd)
  {
    if Charging(cmd) && HeldAt(d, cmd.key, env.planned).None? then None else HeldAt(d, cmd.key, env.executed)
  }

  // The policy picked the key, and its deletion was replicated.
  ghost predicate Picked(passes: seq<seq<Victim>>, k: Bytes) {
    exists i, j :: 0 <= i < |passes| && 0 <= j < |passes[i]| && passes[i][j] == Victim(k, true)
  }

  // A key is as it was, or has been evicted.
  ghost predicate Spared(d: Dict, r: Dict, k: Bytes, passes: seq<seq<Victim>>) {
    SameAt(d, r, k) || (k in d && k !in r && Picked(passes, k))
  }

  lemma {:induction false} TakenIsPicked(key: Bytes, victims: seq<Victim>, k: Bytes) returns (j: nat)
    requires k in Taken(key, victims)
    ensures j < |victims| && victims[j] == Victim(k, true) && k != key
    decreases |victims|
  {
    if victims[0].key == k && k != key {
      j := 0;
    } else {
      j := TakenIsPicked(key, victims[1..], k);
      j := j + 1;
    }
  }

  lemma {:induction false} PickedLater(passes: seq<seq<Victim>>, k: Bytes)
    requires passes != [] && Picked(passes[1..], k)
    ensures Picked(passes, k)
  {
    var i, j :| 0 <= i < |passes[1..]| && 0 <= j < |passes[1..][i]| && passes[1..][i][j] == Victim(k, true);
    assert passes[i + 1][j] == Victim(k, true);
  }

  lemma {:induction false} FreedSpares(limit: Word, d: Dict, key: Bytes, growth: nat, passes: seq<seq<Victim>>, left: nat, k: Bytes)
    ensures Spared(d, Freed(limit, d, key, growth, passes, left).0, k, passes)
    ensures SameAt(d, Freed(limit, d, key, growth, passes, left).0, key)
    decreases left
  {
    if left > 0 && Available(limit, d) < growth && passes != [] && passes[0] != [] {
      EvictedTakes(d, key, passes[0]);
      var e := d - Taken(key, passes[0]);
      if key in Taken(key, passes[0]) {
        var _ := TakenIsPicked(key, passes[0], key);
      }
      if k in Taken(key, passes[0]) {
        var j := TakenIsPicked(key, passes[0], k);
        assert passes[0][j] == Victim(k, true);
        assert Picked(passes, k);
      }
      FreedSpares(limit, e, key, growth, passes[1..], left - 1, k);
      if Picked(passes[1..], k) {
        PickedLater(passes, k);
      }
    }
  }

  lemma {:induction false} AdmitSpares(limit: Word, d: Dict, plan: Plan, passes: seq<seq<Victim>>, k: Bytes)
    ensures Spared(d, Admit(limit, d, plan, passes).0, k, passes)
    ensures plan.Grow? ==> SameAt(d, Admit(limit, d, plan, passes).0, plan.key)
    ensures !plan.Grow? ==> Admit(limit, d, plan, passes).0 == d
  {
    if plan.Grow? {
      FreedSpares(limit, d, plan.key, plan.growth, passes, MAX_PASSES, k);
    }
  }

  // What admission leaves of the dictionary; reads do not go through it.
  ghost function Let(limit: Word, d: Dict, cmd: Command, env: Env): Dict {
    var seen := Seen(d, cmd, env.planned);
    if cmd.Read? then d else Admit(limit, seen, PlanFor(seen, cmd), env.passes).0
  }

  lemma {:induction false} PerformedIs(limit: Word, d: Dict, cmd: Command, env: Env)
    requires After(limit, d, cmd, env).1 == Performed
    ensures After(limit, d, cmd, env).0 == Executed(Let(limit, d, cmd, env), cmd, env.executed) && (OnOneKey(cmd) ==> !Malformed(cmd))
    ensures Told(limit, d, cmd, env) == Some(ReplyOf(Let(limit, d, cmd, env), cmd, env.executed))
  {
  }

  lemma {:induction false} PlanHasKey(d: Dict, cmd: Command)
    ensures PlanFor(d, cmd).Grow? ==> Charging(cmd) && PlanFor(d, cmd).key == cmd.key
  {
  }

  lemma {:induction false} LetSpares(limit: Word, d: Dict, cmd: Command, env: Env, k: Bytes)
    requires OnOneKey(cmd)
    ensures SameAt(Seen(d, cmd, env.planned), Let(limit, d, cmd, env), cmd.key)
    ensures k != cmd.key ==> Spared(d, Let(limit, d, cmd, env), k, env.passes)
  {
    var seen := Seen(d, cmd, env.planned);
    PlanHasKey(seen, cmd);
    AdmitSpares(limit, seen, PlanFor(seen, cmd), env.passes, k);
  }

  lemma {:induction false} HeldIs(d: Dict, e: Dict, cmd: Command, env: Env)
    requires OnOneKey(cmd) && !Malformed(cmd) && SameAt(Seen(d, cmd, env.planned), e, cmd.key)
    ensures HeldAt(e, cmd.key, env.executed) == Held(d, cmd, env)
  {
  }

  lemma {:induction false} SparedOn(d: Dict, e: Dict, r: Dict, k: Bytes, passes: seq<seq<Victim>>)
    requires Spared(d, e, k, passes) && SameAt(e, r, k)
    ensures Spared(d, r, k, passes)
  {
  }

  // A performed command has done to its key what it does to what it finds there,
  // and has told so. Every other key is as it was, or evicted.
  lemma {:induction false} PerformedDoes(limit: Word, d: Dict, cmd: Command, env: Env, k: Bytes)
    requires OnOneKey(cmd) && After(limit, d, cmd, env).1 == Performed
    ensures var r, told := After(limit, d, cmd, env).0, Told(limit, d, cmd, env);
      && told.Some? && Does(Held(d, cmd, env), cmd, r, told.value)
      && (k != cmd.key ==> Spared(d, r, k, env.passes))
  {
    var e, r := Let(limit, d, cmd, env), After(limit, d, cmd, env).0;
    PerformedIs(limit, d, cmd, env);
    LetSpares(limit, d, cmd, env, k);
    HeldIs(d, e, cmd, env);
    OneKeyIsDone(e, cmd, env.executed);
    if k != cmd.key {
      OthersStay(e, cmd, env.executed, k);
      SparedOn(d, e, r, k, env.passes);
    }
  }

  lemma {:induction false} PerformedDeletes(limit: Word, d: Dict, cmd: Command, env: Env)
    requires !OnOneKey(cmd) && After(limit, d, cmd, env).1 == Performed
    ensures var r, told := After(limit, d, cmd, env).0, Told(limit, d, cmd, env);
      told.Some? && if cmd.Del? then DelDoes(d, cmd.keys, r, told.value) else r == map[] && told.value == Flag(true)
  {
    if cmd.Del? {
      DelIsDone(d, cmd.keys, env.executed);
    }
  }

  // A command that is not performed changes nothing, but that its key is removed
  // if it had expired and others may have been evicted. A reply without a write
  // is the one the command has for what it finds.
  lemma {:induction false} OtherwiseNothing(limit: Word, d: Dict, cmd: Command, env: Env, k: Bytes)
    requires After(limit, d, cmd, env).1 != Performed
    ensures var r := After(limit, d, cmd, env).0;
      Spared(d, r, k, env.passes) || (OnOneKey(cmd) && k == cmd.key && k in d && Expired(d[k], env.planned) && k !in r)
    ensures OnOneKey(cmd) && !Malformed(cmd) && After(limit, d, cmd, env).1 == Replied ==>
      var r, held := After(limit, d, cmd, env).0, HeldAt(d, cmd.key, env.planned);
      && Keeps(held, r, cmd.key) && Told(limit, d, cmd, env).Some? && Does(held, cmd, r, Told(limit, d, cmd, env).value)
  {
    var seen := Seen(d, cmd, env.planned);
    var plan := PlanFor(seen, cmd);
    PlanHasKey(seen, cmd);
    AdmitSpares(limit, seen, plan, env.passes, k);
    if OnOneKey(cmd) && !Malformed(cmd) && plan.Respond? {
      FutileDoesNothing(seen, cmd, env.planned);
      OneKeyIsDone(seen, cmd, env.planned);
    }
  }

  // ----------------------------------------------- when it is performed

  // The command would not write on what it finds.
  ghost predicate Futile(held: Option<Entry>, cmd: Command) {
    match cmd
    case Set(_, _, _, condition) => (condition == IfMissing && held.Some?) || (condition == IfPresent && held.None?)
    case Incr(_) =>
      held.Some? && (!held.value.value.Str? || Parse(held.value.value.data).None? || Parse(held.value.value.data) == Some(MAX_INT64))
    case Push(_, _, _) => held.Some? && !held.value.value.List?
    case ZAdd(_, _) => held.Some? && !held.value.value.SortedSet?
    case _ => false
  }

  lemma {:induction false} RespondIsFutile(seen: Dict, cmd: Command, now: int)
    requires Charging(cmd) && !Malformed(cmd) && Purge(seen, cmd.key, now) == seen
    ensures PlanFor(seen, cmd).Respond? <==> Futile(HeldAt(seen, cmd.key, now), cmd)
  {
  }

  lemma {:induction false} FutileDoesNothing(seen: Dict, cmd: Command, now: int)
    requires Charging(cmd) && !Malformed(cmd) && Purge(seen, cmd.key, now) == seen && PlanFor(seen, cmd).Respond?
    ensures Executed(seen, cmd, now) == seen
  {
  }

  // The planned size is that of the entry the command would leave now, up to the
  // largest number there is.
  lemma {:induction false} PlanIsExact(seen: Dict, cmd: Command, now: int)
    requires Charging(cmd) && !Malformed(cmd) && Exact(seen) && Purge(seen, cmd.key, now) == seen && PlanFor(seen, cmd).Grow?
    ensures var plan, r := PlanFor(seen, cmd), Executed(seen, cmd, now);
      && plan.key == cmd.key && cmd.key in r && plan.result == Sat(r[cmd.key].size)
      && plan.growth == PositiveDelta(SizeAt(seen, cmd.key), plan.result)
  {
    var held := HeldAt(seen, cmd.key, now);
    match cmd
    case Set(_, _, _, _) =>
    case Incr(_) => assert Format(1) == Digits(1) && |Digits(1)| == 1;
    case Push(key, values, left) => PushedSize(if held.Some? then held.value.value.items else [], values, left);
    case ZAdd(key, pairs) =>
      ZAddFinds(seen, key, pairs, now);
      ZAddCharge(key, IndexOf(held), pairs);
  }

  // What is available is what the limit leaves, while the counter has not wrapped.
  lemma {:induction false} AvailableExactly(limit: Word, d: Dict, growth: nat)
    requires Total(d) < WORD && 0 < growth
    ensures growth <= Available(limit, d) <==> Total(d) + growth <= limit
  {
    Unwrapped(Total(d));
  }

  // Room is there after k passes and was not before, and each pass was complete
  // and deleted something.
  ghost predicate RoomAfter(limit: Word, d: Dict, key: Bytes, growth: nat, passes: seq<seq<Victim>>, k: nat)
    decreases k
  {
    if k == 0 then growth <= Available(limit, d)
    else
      && Available(limit, d) < growth && passes != [] && passes[0] != [] && Finished(key, passes[0])
      && d - Taken(key, passes[0]) != d
      && RoomAfter(limit, d - Taken(key, passes[0]), key, growth, passes[1..], k - 1)
  }

  ghost predicate RoomWithin(limit: Word, d: Dict, key: Bytes, growth: nat, passes: seq<seq<Victim>>, left: nat) {
    exists k: nat :: k < left && RoomAfter(limit, d, key, growth, passes, k)
  }

  lemma {:induction false} RoomFound(limit: Word, d: Dict, key: Bytes, growth: nat, passes: seq<seq<Victim>>, left: nat, k: nat)
    requires k < left && RoomAfter(limit, d, key, growth, passes, k)
    ensures RoomWithin(limit, d, key, growth, passes, left)
  {
  }

  lemma {:induction false} FreedExactly(limit: Word, d: Dict, key: Bytes, growth: nat, passes: seq<seq<Victim>>, left: nat)
    ensures Freed(limit, d, key, growth, passes, left).1 == Admitted <==> RoomWithin(limit, d, key, growth, passes, left)
    decreases left
  {
    if left > 0 {
      if growth <= Available(limit, d) {
        RoomFound(limit, d, key, growth, passes, left, 0);
      } else if passes != [] && passes[0] != [] {
        var e := d - Taken(key, passes[0]);
        EvictedTakes(d, key, passes[0]);
        if Finished(key, passes[0]) && e != d {
          FreedExactly(limit, e, key, growth, passes[1..], left - 1);
          RoomOneMore(limit, d, key, growth, passes, left);
        }
      }
    }
  }

  lemma {:induction false} RoomOneMore(limit: Word, d: Dict, key: Bytes, growth: nat, passes: seq<seq<Victim>>, left: nat)
    requires left > 0 && Available(limit, d) < growth && passes != [] && passes[0] != [] && Finished(key, passes[0])
    requires d - Taken(key, passes[0]) != d
    ensures RoomWithin(limit, d, key, growth, passes, left) <==>
      RoomWithin(limit, d - Taken(key, passes[0]), key, growth, passes[1..], left - 1)
  {
    var e := d - Taken(key, passes[0]);
    if k: nat :| k < left && RoomAfter(limit, d, key, growth, passes, k) {
      RoomFound(limit, e, key, growth, passes[1..], left - 1, k - 1);
    }
    if k: nat :| k < left - 1 && RoomAfter(limit, e, key, growth, passes[1..], k) {
      RoomFound(limit, d, key, growth, passes, left, k + 1);
    }
  }

  // The write would be admitted: there is no limit, the entry does not grow, or
  // it fits at all and room is found for it within 64 passes.
  ghost predicate Fits(limit: Word, d: Dict, key: Bytes, size: nat, passes: seq<seq<Victim>>) {
    var result := if size <= MAX_WORD then size else MAX_WORD;
    || limit == 0 || result <= SizeAt(d, key)
    || (result <= limit && RoomWithin(limit, d, key, result - SizeAt(d, key), passes, 64))
  }

  lemma {:induction false} FreedWithin(limit: Word, d: Dict, key: Bytes, growth: nat, passes: seq<seq<Victim>>)
    ensures Freed(limit, d, key, growth, passes, MAX_PASSES).1 == Admitted <==> RoomWithin(limit, d, key, growth, passes, 64)
  {
    var left := MAX_PASSES;
    FreedExactly(limit, d, key, growth, passes, left);
  }

  lemma {:induction false} AdmitFits(limit: Word, d: Dict, plan: Plan, size: nat, passes: seq<seq<Victim>>)
    requires plan.Grow? && plan.result == Sat(size) && plan.growth == PositiveDelta(SizeAt(d, plan.key), plan.result)
    ensures Admit(limit, d, plan, passes).1 == Admitted <==> Fits(limit, d, plan.key, size, passes)
  {
    if limit == 0 || plan.growth == 0 {
      assert Fits(limit, d, plan.key, size, passes);
    } else if plan.result <= limit {
      FreedWithin(limit, d, plan.key, plan.growth, passes);
    }
  }

  lemma {:induction false} AdmitExactly(limit: Word, seen: Dict, cmd: Command, now: int, passes: seq<seq<Victim>>)
    requires Charging(cmd) && !Malformed(cmd) && Exact(seen) && Purge(seen, cmd.key, now) == seen && PlanFor(seen, cmd).Grow?
    ensures cmd.key in Executed(seen, cmd, now)
    ensures Admit(limit, seen, PlanFor(seen, cmd), passes).1 == Admitted <==>
      Fits(limit, seen, cmd.key, Executed(seen, cmd, now)[cmd.key].size, passes)
  {
    PlanIsExact(seen, cmd, now);
    AdmitFits(limit, seen, PlanFor(seen, cmd), Executed(seen, cmd, now)[cmd.key].size, passes);
  }

  // The entry the command would leave at planning time.
  ghost function WouldLeave(d: Dict, cmd: Command, now: int): Dict {
    Executed(Seen(d, cmd, now), cmd, now)
  }

  lemma {:induction false} AnswerIs(limit: Word, d: Dict, cmd: Command, env: Env)
    requires Charging(cmd) && !Malformed(cmd)
    ensures var seen := Seen(d, cmd, env.planned);
      var answer := After(limit, d, cmd, env).1;
      if PlanFor(seen, cmd).Respond? then answer == Replied
      else
        && answer != Replied && PlanFor(seen, cmd).Grow?
        && (answer == Performed <==> env.replicated && Admit(limit, seen, PlanFor(seen, cmd), env.passes).1 == Admitted)
  {
  }

  // Every command is performed that is a read, or that is well formed, has
  // something to write, fits, and is replicated.
  lemma {:induction false} PerformedExactly(limit: Word, d: Dict, cmd: Command, env: Env)
    requires Exact(d)
    ensures !Charging(cmd) ==> (After(limit, d, cmd, env).1 == Performed <==> cmd.Read? || env.replicated)
    ensures Charging(cmd) && !Malformed(cmd) && !Futile(HeldAt(d, cmd.key, env.planned), cmd) ==>
      && cmd.key in WouldLeave(d, cmd, env.planned)
      && (After(limit, d, cmd, env).1 == Performed <==>
            env.replicated && Fits(limit, Seen(d, cmd, env.planned), cmd.key, WouldLeave(d, cmd, env.planned)[cmd.key].size, env.passes))
    ensures After(limit, d, cmd, env).1 == Replied <==> Malformed(cmd) || (Charging(cmd) && Futile(HeldAt(d, cmd.key, env.planned), cmd))
  {
    if Charging(cmd) && !Malformed(cmd) {
      var seen := Seen(d, cmd, env.planned);
      PurgeShrinks(d, cmd.key, env.planned);
      assert Purge(seen, cmd.key, env.planned) == seen && HeldAt(seen, cmd.key, env.planned) == HeldAt(d, cmd.key, env.planned);
      RespondIsFutile(seen, cmd, env.planned);
      AnswerIs(limit, d, cmd, env);
      if PlanFor(seen, cmd).Grow? {
        AdmitExactly(limit, seen, cmd, env.planned, env.passes);
      }
    }
  }
}
