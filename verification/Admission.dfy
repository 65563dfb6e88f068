// Writes under a memory limit: plan the growth, evict other keys until it
// fits, replicate, execute. Time passes between planning and execution, the
// eviction policy picks what it likes, and replication may fail at any point.
module Admission {
  import opened Options
  import opened Ordering
  import opened Decimal
  import opened Striping
  import opened Values
  import opened Stores
  import ZSets
  import SkipLists

  const MAX_PASSES: nat := 64
  const MAX_WORD: nat := 0xFFFF_FFFF_FFFF_FFFF

  datatype Command =
    | Set(key: Bytes, data: Bytes, expiresAt: int, condition: Condition)
    | Incr(key: Bytes)
    | Push(key: Bytes, values: seq<Bytes>, left: bool)
    | ZAdd(key: Bytes, pairs: seq<SkipLists.Entry>)
    | Del(keys: seq<Bytes>)
    | ExpireAt(key: Bytes, expiresAt: int)
    | Pop(key: Bytes, left: bool)
    | FlushAll
    | Read(key: Bytes)

  // ------------------------------------------------------------- execution

  ghost function WithoutKeys(d: Dict, keys: seq<Bytes>): Dict {
    if keys == [] then d else WithoutKeys(d - {keys[0]}, keys[1..])
  }

  // How many keys a deletion reports.
  ghost function DeletedCount(d: Dict, keys: seq<Bytes>): nat {
    if keys == [] then 0 else (if keys[0] in d then 1 else 0) + DeletedCount(d - {keys[0]}, keys[1..])
  }

  ghost function Executed(d: Dict, cmd: Command, now: int): Dict {
    match cmd
    case Set(key, data, expiresAt, condition) => AfterSet(d, key, data, expiresAt, condition, now).0
    case Incr(key) => AfterIncrement(d, key, 1, now).0
    case Push(key, values, left) => if values == [] then d else AfterPush(d, key, values, left, now).0
    case ZAdd(key, pairs) => if pairs == [] then d else AfterZAdd(d, key, pairs, now).0
    case Del(keys) => WithoutKeys(d, keys)
    case ExpireAt(key, expiresAt) => AfterExpireAt(d, key, expiresAt, now).0
    case Pop(key, left) => AfterPop(d, key, left, now).0
    case FlushAll => map[]
    case Read(key) => Purge(d, key, now)
  }

  // --------------------------------------------------------------- planning

  // Respond: the reply is known already. Grow: this key is to have this size.
  datatype Plan = Respond | Free | Grow(key: Bytes, growth: nat, result: nat)

  function Sat(n: nat): nat {
    if n > MAX_WORD then MAX_WORD else n
  }

  function SaturatingAdd(a: nat, b: nat): nat {
    if MAX_WORD - a < b then MAX_WORD else a + b
  }

  function PositiveDelta(before: nat, after: nat): nat {
    if after <= before then 0 else after - before
  }

  ghost function Planned(d: Dict, key: Bytes, size: Option<nat>): Plan {
    if size.None? then Respond else Grow(key, PositiveDelta(SizeAt(d, key), Sat(size.value)), Sat(size.value))
  }

  // The size the entry will have, given the dictionary the planner sees; none
  // if the reply is known without writing.
  ghost function SetSize(d: Dict, key: Bytes, data: Bytes, condition: Condition): Option<nat> {
    if Permits(condition, key in d) then Some(STRING_OVERHEAD + |key| + |data|) else None
  }

  ghost function IncrSize(d: Dict, key: Bytes): Option<nat> {
    if key !in d then Some(STRING_OVERHEAD + |key| + 1)
    else if !d[key].value.Str? then None
    else
      var parsed := Parse(d[key].value.data);
      if parsed.None? || parsed.value == MAX_INT64 then None
      else Some(STRING_OVERHEAD + |key| + |Format(parsed.value + 1)|)
  }

  ghost function PushSize(d: Dict, key: Bytes, values: seq<Bytes>): Option<nat> {
    if key !in d then Some(STRING_OVERHEAD + |key| + ItemsSize(values))
    else if !d[key].value.List? then None
    else Some(d[key].size + ItemsSize(values))
  }

  ghost function ZAddSize(d: Dict, key: Bytes, pairs: seq<SkipLists.Entry>): Option<nat> {
    if key !in d then Some(ZSET_OVERHEAD + |key| + MembersSize(ZSets.Members(pairs)))
    else if !d[key].value.SortedSet? then None
    else Some(d[key].size + MembersSize(ZSets.Members(pairs) - d[key].value.index.Keys))
  }

  ghost function SizeAfter(d: Dict, cmd: Command): Option<nat> {
    match cmd
    case Set(key, data, _, condition) => SetSize(d, key, data, condition)
    case Incr(key) => IncrSize(d, key)
    case Push(key, values, _) => PushSize(d, key, values)
    case ZAdd(key, pairs) => ZAddSize(d, key, pairs)
    case _ => None
  }

  predicate Charging(cmd: Command) {
    cmd.Set? || cmd.Incr? || cmd.Push? || cmd.ZAdd?
  }

  predicate Malformed(cmd: Command) {
    (cmd.Push? && cmd.values == []) || (cmd.ZAdd? && cmd.pairs == [])
  }

  ghost function PlanFor(d: Dict, cmd: Command): Plan {
    if Malformed(cmd) then Respond
    else if !Charging(cmd) then Free
    else Planned(d, cmd.key, SizeAfter(d, cmd))
  }

  // Planning looks at the key, and so removes it if it has expired.
  ghost function Seen(d: Dict, cmd: Command, now: int): Dict {
    if Malformed(cmd) || !Charging(cmd) then d else Purge(d, cmd.key, now)
  }

  // --------------------------------------------------------------- eviction

  // A key the policy picked, and whether its deletion could be replicated.
  datatype Victim = Victim(key: Bytes, replicated: bool)

  datatype Outcome = Admitted | OutOfMemory | NotReplicated

  ghost function Available(limit: Word, d: Dict): nat {
    var used := Total(d) % WORD;
    if used >= limit then 0 else limit - used
  }

  // One pass over the victims; stops at a deletion that is not replicated.
  ghost function Evicted(d: Dict, key: Bytes, victims: seq<Victim>): (Dict, bool) {
    if victims == [] then (d, true)
    else
      var v := victims[0];
      if v.key == key then Evicted(d, key, victims[1..])
      else if !v.replicated then (d, false)
      else Evicted(d - {v.key}, key, victims[1..])
  }

  ghost function Freed(limit: Word, d: Dict, key: Bytes, growth: nat, passes: seq<seq<Victim>>, left: nat): (Dict, Outcome)
    decreases left
  {
    if left == 0 then (d, OutOfMemory)
    else if Available(limit, d) >= growth then (d, Admitted)
    else if passes == [] || passes[0] == [] then (d, OutOfMemory)
    else
      var (e, replicated) := Evicted(d, key, passes[0]);
      if !replicated then (e, NotReplicated)
      else if e == d then (e, OutOfMemory)
      else Freed(limit, e, key, growth, passes[1..], left - 1)
  }

  // -------------------------------------------------------------- the whole

  // What the surroundings do during one command.
  datatype Env = Env(planned: int, executed: int, passes: seq<seq<Victim>>, replicated: bool)

  datatype Answer = Replied | Refused(why: Outcome) | Performed

  ghost function Admit(limit: Word, d: Dict, plan: Plan, passes: seq<seq<Victim>>): (Dict, Outcome) {
    if limit == 0 || !plan.Grow? || plan.growth == 0 then (d, Admitted)
    else if plan.result > limit then (d, OutOfMemory)
    else Freed(limit, d, plan.key, plan.growth, passes, MAX_PASSES)
  }

  ghost function After(limit: Word, d: Dict, cmd: Command, env: Env): (Dict, Answer) {
    if cmd.Read? then (Executed(d, cmd, env.executed), Performed)
    else
      var seen := Seen(d, cmd, env.planned);
      var plan := PlanFor(seen, cmd);
      if plan.Respond? then (seen, Replied)
      else
        var (freed, outcome) := Admit(limit, seen, plan, env.passes);
        if outcome != Admitted then (freed, Refused(outcome))
        else if !env.replicated then (freed, Refused(NotReplicated))
        else (Executed(freed, cmd, env.executed), Performed)
  }

  // ------------------------------------------- what the plan is good for

  lemma {:induction false} ReversedSize(s: seq<Bytes>)
    ensures ItemsSize(Reversed(s)) == ItemsSize(s)
  {
    if s != [] {
      ReversedSize(s[1..]);
      ItemsSizeAppend(Reversed(s[1..]), [s[0]]);
      assert ItemsSize([s[0]]) == LIST_NODE_OVERHEAD + |s[0]|;
    }
  }

  lemma {:induction false} PushedSize(items: seq<Bytes>, values: seq<Bytes>, left: bool)
    ensures ItemsSize(Pushed(items, values, left)) == ItemsSize(items) + ItemsSize(values)
  {
    ReversedSize(values);
    ItemsSizeAppend(Reversed(values), items);
    ItemsSizeAppend(items, values);
  }

  lemma {:induction false} PutAllSize(index: ZSets.Index, pairs: seq<SkipLists.Entry>)
    ensures MembersSize(ZSets.PutAll(index, pairs).Keys) == MembersSize(index.Keys) + MembersSize(ZSets.Members(pairs) - index.Keys)
    ensures MembersSize(ZSets.Members(pairs)) <= MembersSize(index.Keys) + MembersSize(ZSets.Members(pairs) - index.Keys)
  {
    var members := ZSets.Members(pairs);
    ZSets.PutAllKeys(index, pairs);
    assert index.Keys + members == index.Keys + (members - index.Keys);
    MembersSizeUnion(index.Keys, members - index.Keys);
    MembersSizeSubset(members, index.Keys + members);
  }

  // The planner saw the same entry under the key, or the same absence of one.
  ghost predicate SameAt(d: Dict, e: Dict, key: Bytes) {
    (key in d <==> key in e) && (key in d ==> d[key] == e[key])
  }

  lemma {:induction false} PurgeShrinks(d: Dict, key: Bytes, now: int)
    ensures Total(Purge(d, key, now)) <= Total(d)
    ensures Total(Purge(d, key, now)) + SizeAt(d, key) == Total(d) + SizeAt(Purge(d, key, now), key)
    ensures Exact(d) ==> Exact(Purge(d, key, now))
  {
    TotalWithout(d, key);
  }

  // Writing one entry, expired predecessor or not.
  lemma {:induction false} RewriteTotal(d: Dict, key: Bytes, e: Entry, now: int)
    ensures Total(Purge(d, key, now)[key := e]) + SizeAt(d, key) == Total(d) + e.size
  {
    PurgeShrinks(d, key, now);
    TotalPut(Purge(d, key, now), key, e);
  }

  // Executed either leaves the purged dictionary or writes the key at no more
  // than its planned size.
  ghost predicate Bounded(d: Dict, r: Dict, key: Bytes, now: int, size: nat) {
    r == Purge(d, key, now) || (key in r && r == Purge(d, key, now)[key := r[key]] && r[key].size <= size)
  }

  lemma {:induction false} IncrBounded(seen: Dict, d: Dict, cmd: Command, now: int)
    requires cmd.Incr? && Exact(d) && SameAt(seen, d, cmd.key) && SizeAfter(seen, cmd).Some?
    ensures Bounded(d, Executed(d, cmd, now), cmd.key, now, SizeAfter(seen, cmd).value)
  {
    assert Format(1) == Digits(1) && |Digits(1)| == 1;
  }

  lemma {:induction false} PushBounded(seen: Dict, d: Dict, cmd: Command, now: int)
    requires cmd.Push? && cmd.values != [] && Exact(d) && SameAt(seen, d, cmd.key) && SizeAfter(seen, cmd).Some?
    ensures Bounded(d, Executed(d, cmd, now), cmd.key, now, SizeAfter(seen, cmd).value)
  {
    var items := if cmd.key in d then d[cmd.key].value.items else [];
    PushedSize(items, cmd.values, cmd.left);
    PushedSize([], cmd.values, cmd.left);
  }

  lemma {:induction false} ZAddCharge(key: Bytes, index: ZSets.Index, pairs: seq<SkipLists.Entry>)
    ensures Charge(key, SortedSet(ZSets.PutAll(index, pairs))) ==
      ZSET_OVERHEAD + |key| + MembersSize(index.Keys) + MembersSize(ZSets.Members(pairs) - index.Keys)
    ensures Charge(key, SortedSet(ZSets.PutAll(map[], pairs))) == ZSET_OVERHEAD + |key| + MembersSize(ZSets.Members(pairs))
    ensures MembersSize(ZSets.Members(pairs)) <= MembersSize(index.Keys) + MembersSize(ZSets.Members(pairs) - index.Keys)
  {
    var none: ZSets.Index := map[];
    PutAllSize(index, pairs);
    PutAllSize(none, pairs);
    assert none.Keys == {} && ZSets.Members(pairs) - {} == ZSets.Members(pairs);
  }

  // What an addition leaves under its key.
  lemma {:induction false} ZAddWrites(d: Dict, key: Bytes, pairs: seq<SkipLists.Entry>, now: int)
    ensures var p, r := Purge(d, key, now), AfterZAdd(d, key, pairs, now).0;
      if key in p && !p[key].value.SortedSet? then r == p
      else
        && key in r && r == p[key := r[key]]
        && r[key].size == Charge(key, SortedSet(ZSets.PutAll(if key in p then p[key].value.index else map[], pairs)))
  {
  }

  lemma {:induction false} ZAddBounded(seen: Dict, d: Dict, cmd: Command, now: int)
    requires cmd.ZAdd? && cmd.pairs != [] && Exact(d) && SameAt(seen, d, cmd.key) && SizeAfter(seen, cmd).Some?
    ensures Bounded(d, Executed(d, cmd, now), cmd.key, now, SizeAfter(seen, cmd).value)
  {
    ZAddWrites(d, cmd.key, cmd.pairs, now);
    ZAddCharge(cmd.key, if cmd.key in d then d[cmd.key].value.index else map[], cmd.pairs);
  }

  lemma {:induction false} ChargingBounded(seen: Dict, d: Dict, cmd: Command, now: int)
    requires Charging(cmd) && !Malformed(cmd) && Exact(d) && SameAt(seen, d, cmd.key) && SizeAfter(seen, cmd).Some?
    ensures Bounded(d, Executed(d, cmd, now), cmd.key, now, SizeAfter(seen, cmd).value)
  {
    match cmd
    case Set(_, _, _, _) =>
    case Incr(_) => IncrBounded(seen, d, cmd, now);
    case Push(_, _, _) => PushBounded(seen, d, cmd, now);
    case ZAdd(_, _) => ZAddBounded(seen, d, cmd, now);
  }

  // The planned growth bounds the real one, whether or not the key expires
  // before the command executes.
  lemma {:induction false} PlanBoundsGrowth(seen: Dict, d: Dict, cmd: Command, now: int)
    requires Charging(cmd) && !Malformed(cmd) && Exact(d) && SameAt(seen, d, cmd.key) && SizeAfter(seen, cmd).Some?
    ensures Total(Executed(d, cmd, now)) <= Total(d) + PositiveDelta(SizeAt(seen, cmd.key), SizeAfter(seen, cmd).value)
  {
    var r := Executed(d, cmd, now);
    ChargingBounded(seen, d, cmd, now);
    PurgeShrinks(d, cmd.key, now);
    if r != Purge(d, cmd.key, now) {
      RewriteTotal(d, cmd.key, r[cmd.key], now);
    }
  }

  // A change of one key.
  lemma {:induction false} ChangeExact(d: Dict, r: Dict, key: Bytes, now: int)
    requires Exact(d)
    requires r == Purge(d, key, now) || r == Purge(d, key, now) - {key}
      || (key in r && r == Purge(d, key, now)[key := r[key]] && r[key].size == Charge(key, r[key].value))
    ensures Exact(r)
  {
    PurgeShrinks(d, key, now);
  }

  lemma {:induction false} StringsExact(d: Dict, key: Bytes, data: Bytes, expiresAt: int, condition: Condition, now: int)
    requires Exact(d)
    ensures Exact(AfterSet(d, key, data, expiresAt, condition, now).0)
    ensures Exact(AfterIncrement(d, key, 1, now).0)
  {
    ChangeExact(d, AfterSet(d, key, data, expiresAt, condition, now).0, key, now);
    ChangeExact(d, AfterIncrement(d, key, 1, now).0, key, now);
  }

  lemma {:induction false} ListsExact(d: Dict, key: Bytes, values: seq<Bytes>, left: bool, now: int)
    requires Exact(d)
    ensures Exact(AfterPush(d, key, values, left, now).0)
    ensures Exact(AfterPop(d, key, left, now).0)
  {
    ChangeExact(d, AfterPush(d, key, values, left, now).0, key, now);
    ChangeExact(d, AfterPop(d, key, left, now).0, key, now);
  }

  lemma {:induction false} ZAddExact(d: Dict, key: Bytes, pairs: seq<SkipLists.Entry>, now: int)
    requires Exact(d)
    ensures Exact(AfterZAdd(d, key, pairs, now).0)
  {
    ChangeExact(d, AfterZAdd(d, key, pairs, now).0, key, now);
  }

  lemma {:induction false} ExpireExact(d: Dict, key: Bytes, expiresAt: int, now: int)
    requires Exact(d)
    ensures Exact(AfterExpireAt(d, key, expiresAt, now).0)
  {
    PurgeShrinks(d, key, now);
    ChangeExact(d, AfterExpireAt(d, key, expiresAt, now).0, key, now);
  }

  lemma {:induction false} ExecutedExact(d: Dict, cmd: Command, now: int)
    requires Exact(d)
    ensures Exact(Executed(d, cmd, now))
  {
    match cmd
    case Set(key, data, expiresAt, condition) => StringsExact(d, key, data, expiresAt, condition, now);
    case Incr(key) => StringsExact(d, key, [], 0, Always, now);
    case Push(key, values, left) => ListsExact(d, key, values, left, now);
    case ZAdd(key, pairs) => ZAddExact(d, key, pairs, now);
    case ExpireAt(key, expiresAt) => ExpireExact(d, key, expiresAt, now);
    case Pop(key, left) => ListsExact(d, key, [], left, now);
    case Del(keys) => WithoutShrinks(d, keys);
    case FlushAll =>
    case Read(key) => PurgeShrinks(d, key, now);
  }

  lemma {:induction false} WithoutShrinks(d: Dict, keys: seq<Bytes>)
    ensures Total(WithoutKeys(d, keys)) <= Total(d)
    ensures Exact(d) ==> Exact(WithoutKeys(d, keys))
    decreases |keys|
  {
    if keys != [] {
      TotalWithout(d, keys[0]);
      WithoutShrinks(d - {keys[0]}, keys[1..]);
    }
  }

  lemma {:induction false} PopShrinks(d: Dict, key: Bytes, left: bool, now: int)
    requires Exact(d)
    ensures Total(AfterPop(d, key, left, now).0) <= Total(d)
  {
    var p := Purge(d, key, now);
    PurgeShrinks(d, key, now);
    TotalWithout(p, key);
    if key in p && p[key].value.List? && |p[key].value.items| > 1 {
      var items := p[key].value.items;
      var n := |items| - 1;
      ItemsSizeAppend(items[..n], [items[n]]);
      assert items == items[..n] + [items[n]];
      TotalPut(p, key, AfterPop(d, key, left, now).0[key]);
    }
  }

  // Commands that are not planned for never grow the dataset.
  lemma {:induction false} FreeShrinks(d: Dict, cmd: Command, now: int)
    requires Exact(d) && !Charging(cmd)
    ensures Total(Executed(d, cmd, now)) <= Total(d)
  {
    match cmd
    case Del(keys) => WithoutShrinks(d, keys);
    case ExpireAt(key, expiresAt) =>
      var p := Purge(d, key, now);
      PurgeShrinks(d, key, now);
      if key in p {
        TotalPut(p, key, p[key].(expiresAt := expiresAt));
      }
    case Pop(key, left) => PopShrinks(d, key, left, now);
    case FlushAll =>
    case Read(key) => PurgeShrinks(d, key, now);
  }

  // ------------------------------------------------------ eviction is safe

  lemma {:induction false} EvictedSpares(d: Dict, key: Bytes, victims: seq<Victim>)
    ensures var e := Evicted(d, key, victims).0;
      SameAt(d, e, key) && Total(e) <= Total(d) && (Exact(d) ==> Exact(e))
    decreases |victims|
  {
    if victims != [] {
      var v := victims[0];
      TotalWithout(d, v.key);
      EvictedSpares(d, key, victims[1..]);
      EvictedSpares(d - {v.key}, key, victims[1..]);
    }
  }

  // Eviction never touches the key it makes room for, and ends with the room.
  lemma {:induction false} FreedMakesRoom(limit: Word, d: Dict, key: Bytes, growth: nat, passes: seq<seq<Victim>>, left: nat)
    requires Total(d) <= limit
    ensures var (e, outcome) := Freed(limit, d, key, growth, passes, left);
      && SameAt(d, e, key) && Total(e) <= Total(d) && (Exact(d) ==> Exact(e))
      && (outcome == Admitted ==> Total(e) + growth <= limit)
    decreases left
  {
    if left > 0 && Available(limit, d) < growth && passes != [] && passes[0] != [] {
      var (e, replicated) := Evicted(d, key, passes[0]);
      EvictedSpares(d, key, passes[0]);
      if replicated && e != d {
        FreedMakesRoom(limit, e, key, growth, passes[1..], left - 1);
      }
    }
  }

  // A plan that saturates is refused under every limit it can exceed.
  lemma {:induction false} AdmittedFits(limit: Word, seen: Dict, cmd: Command, passes: seq<seq<Victim>>)
    requires 0 < limit < MAX_WORD && Total(seen) <= limit && Charging(cmd) && PlanFor(seen, cmd).Grow?
    ensures var (e, outcome) := Admit(limit, seen, PlanFor(seen, cmd), passes);
      && SameAt(seen, e, cmd.key) && Total(e) <= Total(seen) && (Exact(seen) ==> Exact(e))
      && (outcome == Admitted ==>
            Total(e) + PositiveDelta(SizeAt(seen, cmd.key), SizeAfter(seen, cmd).value) <= limit)
  {
    var plan := PlanFor(seen, cmd);
    FreedMakesRoom(limit, seen, cmd.key, plan.growth, passes, MAX_PASSES);
    TotalWithout(seen, cmd.key);
  }

  // One command keeps the dataset within the limit, whatever happens around it.
  lemma {:induction false} CommandKeepsLimit(limit: Word, d: Dict, cmd: Command, env: Env)
    requires 0 < limit < MAX_WORD && Exact(d) && Total(d) <= limit
    ensures Exact(After(limit, d, cmd, env).0) && Total(After(limit, d, cmd, env).0) <= limit
  {
    if !Charging(cmd) {
      FreeShrinks(d, cmd, env.executed);
      ExecutedExact(d, cmd, env.executed);
    } else if !Malformed(cmd) {
      var seen := Seen(d, cmd, env.planned);
      PurgeShrinks(d, cmd.key, env.planned);
      var plan := PlanFor(seen, cmd);
      if plan.Grow? {
        AdmittedFits(limit, seen, cmd, env.passes);
        var (freed, outcome) := Admit(limit, seen, plan, env.passes);
        if outcome == Admitted {
          PlanBoundsGrowth(seen, freed, cmd, env.executed);
          ExecutedExact(freed, cmd, env.executed);
        }
      }
    }
  }

  lemma {:induction false} WithinLimit(limit: Word, d: Dict, cmd: Command, env: Env, r: Dict)
    requires Exact(d) && r == After(limit, d, cmd, env).0
    ensures 0 < limit < MAX_WORD && Total(d) <= limit ==> Total(r) % WORD == Total(r) <= limit
  {
    if 0 < limit < MAX_WORD && Total(d) <= limit {
      CommandKeepsLimit(limit, d, cmd, env);
      Unwrapped(Total(r));
    }
  }

  ghost function AfterAll(limit: Word, d: Dict, run: seq<(Command, Env)>): Dict
    decreases |run|
  {
    if run == [] then d else AfterAll(limit, After(limit, d, run[0].0, run[0].1).0, run[1..])
  }

  // Every run of commands stays within the limit, and there the wrapping
  // counter is the exact sum.
  lemma {:induction false} RunKeepsLimit(limit: Word, d: Dict, run: seq<(Command, Env)>)
    requires 0 < limit < MAX_WORD && Exact(d) && Total(d) <= limit
    ensures var e := AfterAll(limit, d, run);
      Exact(e) && Total(e) <= limit && Total(e) % WORD == Total(e)
    decreases |run|
  {
    if run != [] {
      CommandKeepsLimit(limit, d, run[0].0, run[0].1);
      RunKeepsLimit(limit, After(limit, d, run[0].0, run[0].1).0, run[1..]);
    } else {
      Unwrapped(Total(d));
    }
  }

  // ------------------------------------------------------- the top limit

  ghost function Blanks(n: nat): seq<Bytes> {
    if n == 0 then [] else [[]] + Blanks(n - 1)
  }

  lemma {:induction false} BlanksSize(n: nat)
    ensures ItemsSize(Blanks(n)) == LIST_NODE_OVERHEAD * n
  {
    if n > 0 {
      assert Blanks(n)[0] == [] && Blanks(n)[1..] == Blanks(n - 1);
      BlanksSize(n - 1);
    }
  }

  // A list of empty elements that fills the counter but for 47 bytes.
  const NEARLY_ALL: nat := 384307168202282323

  ghost function Brimful(): Dict {
    map[[] := Charged([], List(Blanks(NEARLY_ALL)), 0)]
  }

  lemma {:induction false} BrimfulFits()
    ensures Exact(Brimful()) && Total(Brimful()) == SizeAt(Brimful(), []) == MAX_WORD - 47
  {
    var none: Dict := map[];
    BlanksSize(NEARLY_ALL);
    TotalPut(none, [], Charged([], List(Blanks(NEARLY_ALL)), 0));
    assert none[[] := Charged([], List(Blanks(NEARLY_ALL)), 0)] == Brimful();
    assert Total(none) == 0;
  }

  // The largest 64-bit limit is the one that saturation cannot guard: a push of
  // one empty element takes 48 bytes, is planned at the largest size there is,
  // 47 bytes more, and is admitted and executed.
  lemma {:induction false} TopLimitOvershoots() returns (d: Dict, cmd: Command, env: Env)
    ensures Exact(d) && cmd == Push([], [[]], false)
    ensures Total(d) <= MAX_WORD < Total(After(MAX_WORD, d, cmd, env).0)
  {
    d, cmd, env := Brimful(), Push([], [[]], false), Env(0, 0, [], true);
    BrimfulFits();
    Unwrapped(Total(d));
    assert ItemsSize([[]]) == LIST_NODE_OVERHEAD;
    assert Purge(d, [], 0) == d;
    assert PlanFor(d, cmd) == Grow([], 47, MAX_WORD);
    assert Admit(MAX_WORD, d, PlanFor(d, cmd), []) == (d, Admitted);
    var r := After(MAX_WORD, d, cmd, env).0;
    PushedSize(Blanks(NEARLY_ALL), [[]], false);
    RewriteTotal(d, [], r[[]], 0);
  }

  // Every command keeps the dataset within the limit, whatever happens around it.
  ghost predicate LimitKept(limit: Word) {
    forall d, cmd, env :: Exact(d) && Total(d) <= limit ==> Total(After(limit, d, cmd, env).0) <= limit
  }

  // Exactly the limits from 1 up to but not including the largest are kept: 0
  // means that there is none.
  lemma {:induction false} LimitKeptExactly(limit: Word)
    ensures LimitKept(limit) <==> 0 < limit < MAX_WORD
  {
    if limit == 0 {
      var none: Dict := map[];
      var cmd, env := Set([], [], 0, Always), Env(0, 0, [], true);
      RewriteTotal(none, [], Charged([], Str([]), 0), 0);
      assert Total(none) == 0 && Exact(none);
      assert Total(After(0, none, cmd, env).0) > 0;
    } else if limit == MAX_WORD {
      var d, cmd, env := TopLimitOvershoots();
    } else {
      forall d, cmd, env | Exact(d) && Total(d) <= limit
        ensures Total(After(limit, d, cmd, env).0) <= limit
      {
        CommandKeepsLimit(limit, d, cmd, env);
      }
    }
  }

  // ------------------------------------------------------------- the engine

  lemma {:induction false} SatChain(a: nat, b: nat)
    ensures SaturatingAdd(Sat(a), b) == Sat(a + b)
    ensures SaturatingAdd(Sat(a), Sat(b)) == Sat(a + b)
  {
  }

  method PushedListBytes(values: seq<Bytes>) returns (size: nat)
    ensures size == Sat(ItemsSize(values))
  {
    size := 0;
    for i := 0 to |values|
      invariant size == Sat(ItemsSize(values[..i]))
    {
      ItemsSizeAppend(values[..i], [values[i]]);
      assert values[..i + 1] == values[..i] + [values[i]];
      assert ItemsSize([values[i]]) == LIST_NODE_OVERHEAD + |values[i]|;
      SatChain(ItemsSize(values[..i]), LIST_NODE_OVERHEAD + |values[i]|);
      size := SaturatingAdd(size, LIST_NODE_OVERHEAD + |values[i]|);
    }
    assert values[..|values|] == values;
  }

  // Counts every new member once, however often the command names it.
  method AddedBytes(index: ZSets.Index, pairs: seq<SkipLists.Entry>) returns (size: nat)
    ensures size == Sat(MembersSize(ZSets.Members(pairs) - index.Keys))
  {
    size := 0;
    var news: set<Bytes> := {};
    for i := 0 to |pairs|
      invariant news == ZSets.Members(pairs[..i]) - index.Keys
      invariant size == Sat(MembersSize(news))
    {
      var m := pairs[i].member;
      assert pairs[..i + 1] == pairs[..i] + [pairs[i]];
      ZSets.MembersAppend(pairs[..i], pairs[i]);
      if m !in news && m !in index {
        MembersSizeTake(news + {m}, m);
        assert news + {m} - {m} == news;
        SatChain(MembersSize(news), ZSET_NODE_OVERHEAD + |m|);
        size := SaturatingAdd(size, ZSET_NODE_OVERHEAD + |m|);
        news := news + {m};
      }
    }
    assert pairs[..|pairs|] == pairs;
  }

  lemma {:induction false} ZAddPlan(d: Dict, key: Bytes, pairs: seq<SkipLists.Entry>, index: ZSets.Index, start: nat, added: nat)
    requires key in d ==> d[key].value == SortedSet(index) && start == d[key].size
    requires key !in d ==> index == map[] && start == ZSET_OVERHEAD + |key|
    requires added == Sat(MembersSize(ZSets.Members(pairs) - index.Keys))
    ensures var result := SaturatingAdd(Sat(start), added);
      Planned(d, key, ZAddSize(d, key, pairs)) == Grow(key, PositiveDelta(SizeAt(d, key), result), result)
  {
    if key !in d {
      assert ZSets.Members(pairs) - index.Keys == ZSets.Members(pairs);
    }
    SatChain(start, MembersSize(ZSets.Members(pairs) - index.Keys));
  }

  lemma {:induction false} Shrunk(d: Dict, key: Bytes)
    ensures if key in d then |d - {key}| < |d| else d - {key} == d
  {
    if key in d {
      Smaller(d, key);
    }
  }

  class Engine {
    const store: Store
    const limit: Word

    constructor (store: Store, limit: Word)
      ensures this.store == store && this.limit == limit
    {
      this.store := store;
      this.limit := limit;
    }

    method PlanPush(key: Bytes, values: seq<Bytes>, now: int) returns (plan: Plan)
      requires store.Valid()
      modifies store
      ensures store.Valid() && store.dict == Purge(old(store.dict), key, now)
      ensures plan == Planned(store.dict, key, PushSize(store.dict, key, values))
    {
      var e := store.Get(key, now);
      if e.Some? && !e.value.value.List? {
        return Respond;
      }
      var delta := PushedListBytes(values);
      var before := if e.Some? then e.value.size else 0;
      var start := if e.Some? then e.value.size else STRING_OVERHEAD + |key|;
      SatChain(start, ItemsSize(values));
      var result := SaturatingAdd(Sat(start), delta);
      return Grow(key, PositiveDelta(before, result), result);
    }

    method PlanZAdd(key: Bytes, pairs: seq<SkipLists.Entry>, now: int) returns (plan: Plan)
      requires store.Valid()
      modifies store
      ensures store.Valid() && store.dict == Purge(old(store.dict), key, now)
      ensures plan == Planned(store.dict, key, ZAddSize(store.dict, key, pairs))
    {
      var e := store.Get(key, now);
      if e.Some? && !e.value.value.SortedSet? {
        return Respond;
      }
      var index: ZSets.Index := if e.Some? then e.value.value.index else map[];
      var added := AddedBytes(index, pairs);
      var before := if e.Some? then e.value.size else 0;
      var start := if e.Some? then e.value.size else ZSET_OVERHEAD + |key|;
      var result := SaturatingAdd(Sat(start), added);
      ZAddPlan(store.dict, key, pairs, index, start, added);
      return Grow(key, PositiveDelta(before, result), result);
    }

    method PlanSet(key: Bytes, data: Bytes, condition: Condition, now: int) returns (plan: Plan)
      requires store.Valid()
      modifies store
      ensures store.Valid() && store.dict == Purge(old(store.dict), key, now)
      ensures plan == Planned(store.dict, key, SetSize(store.dict, key, data, condition))
    {
      var e := store.Get(key, now);
      if condition == IfMissing && e.Some? {
        return Respond;
      }
      if condition == IfPresent && e.None? {
        return Respond;
      }
      var result := Sat(STRING_OVERHEAD + |key| + |data|);
      return Grow(key, PositiveDelta(if e.Some? then e.value.size else 0, result), result);
    }

    method PlanIncr(key: Bytes, now: int) returns (plan: Plan)
      requires store.Valid()
      modifies store
      ensures store.Valid() && store.dict == Purge(old(store.dict), key, now)
      ensures plan == Planned(store.dict, key, IncrSize(store.dict, key))
    {
      var e := store.Get(key, now);
      var current := 0;
      if e.Some? {
        if !e.value.value.Str? {
          return Respond;
        }
        var parsed := Parse(e.value.value.data);
        if parsed.None? {
          return Respond;
        }
        current := parsed.value;
      }
      if current == MAX_INT64 {
        return Respond;
      }
      assert Format(1) == Digits(1) && |Digits(1)| == 1;
      var result := Sat(STRING_OVERHEAD + |key| + |Format(current + 1)|);
      return Grow(key, PositiveDelta(if e.Some? then e.value.size else 0, result), result);
    }

    method PlanAdmission(cmd: Command, now: int) returns (plan: Plan)
      requires store.Valid()
      modifies store
      ensures store.Valid() && store.dict == Seen(old(store.dict), cmd, now)
      ensures plan == PlanFor(store.dict, cmd)
    {
      if Malformed(cmd) {
        return Respond;
      }
      match cmd
      case Set(key, data, _, condition) => plan := PlanSet(key, data, condition, now);
      case Incr(key) => plan := PlanIncr(key, now);
      case Push(key, values, _) => plan := PlanPush(key, values, now);
      case ZAdd(key, pairs) => plan := PlanZAdd(key, pairs, now);
      case _ => plan := Free;
    }

    // One pass over the picked victims.
    method EvictAll(key: Bytes, victims: seq<Victim>) returns (replicated: bool, progress: bool)
      requires store.Valid()
      modifies store
      ensures store.Valid() && (store.dict, replicated) == Evicted(old(store.dict), key, victims)
      ensures replicated ==> (progress <==> store.dict != old(store.dict))
    {
      progress := false;
      var i := 0;
      while i < |victims|
        invariant 0 <= i <= |victims| && store.Valid()
        invariant Evicted(old(store.dict), key, victims) == Evicted(store.dict, key, victims[i..])
        invariant |store.dict| <= |old(store.dict)|
        invariant if progress then |store.dict| < |old(store.dict)| else store.dict == old(store.dict)
      {
        var v := victims[i];
        assert victims[i..][1..] == victims[i + 1..];
        if v.key != key {
          if !v.replicated {
            return false, progress;
          }
          Shrunk(store.dict, v.key);
          var freed, ok := store.DeleteWithSize(v.key);
          progress := progress || ok;
        }
        i := i + 1;
      }
      return true, progress;
    }

    method AvailableBytes() returns (n: nat)
      requires store.Valid()
      ensures n == Available(limit, store.dict)
    {
      if store.used >= limit {
        return 0;
      }
      return limit - store.used;
    }

    method FreeForAdmission(key: Bytes, growth: nat, passes: seq<seq<Victim>>) returns (outcome: Outcome)
      requires store.Valid()
      modifies store
      ensures store.Valid() && (store.dict, outcome) == Freed(limit, old(store.dict), key, growth, passes, MAX_PASSES)
    {
      var pass := 0;
      var rest := passes;
      while pass < MAX_PASSES
        invariant 0 <= pass <= MAX_PASSES && store.Valid()
        invariant Freed(limit, old(store.dict), key, growth, passes, MAX_PASSES) ==
          Freed(limit, store.dict, key, growth, rest, MAX_PASSES - pass)
      {
        var available := AvailableBytes();
        if available >= growth {
          return Admitted;
        }
        if rest == [] || rest[0] == [] {
          return OutOfMemory;
        }
        var replicated, progress := EvictAll(key, rest[0]);
        if !replicated {
          return NotReplicated;
        }
        if !progress {
          return OutOfMemory;
        }
        rest := rest[1..];
        pass := pass + 1;
      }
      return OutOfMemory;
    }

    method DeleteAll(keys: seq<Bytes>) returns (deleted: nat)
      requires store.Valid()
      modifies store
      ensures store.Valid() && store.dict == WithoutKeys(old(store.dict), keys)
      ensures deleted == DeletedCount(old(store.dict), keys)
    {
      deleted := 0;
      for i := 0 to |keys|
        invariant store.Valid() && WithoutKeys(old(store.dict), keys) == WithoutKeys(store.dict, keys[i..])
        invariant DeletedCount(old(store.dict), keys) == deleted + DeletedCount(store.dict, keys[i..])
      {
        assert keys[i..][1..] == keys[i + 1..];
        var freed, ok := store.DeleteWithSize(keys[i]);
        if ok {
          deleted := deleted + 1;
        }
      }
    }

    method Dispatch(cmd: Command, now: int)
      requires store.Valid()
      modifies store
      ensures store.Valid() && store.dict == Executed(old(store.dict), cmd, now)
    {
      match cmd
      case Set(key, data, expiresAt, condition) => var _ := store.SetString(key, data, expiresAt, condition, now);
      case Incr(key) => var _ := store.IncrementBy(key, 1, now);
      case Push(key, values, left) =>
        if values != [] {
          var _ := store.ListPush(key, values, left, now);
        }
      case ZAdd(key, pairs) =>
        if pairs != [] {
          var _ := store.ZSetAdd(key, pairs, now);
        }
      case Del(keys) => var _ := DeleteAll(keys);
      case ExpireAt(key, expiresAt) => var _ := store.SetExpireAt(key, expiresAt, now);
      case Pop(key, left) => var _ := store.ListPop(key, left, now);
      case FlushAll => var _ := store.Flush();
      case Read(key) => var _ := store.Get(key, now);
    }

    method ExecuteWithAdmission(cmd: Command, env: Env) returns (answer: Answer)
      requires store.Valid() && !cmd.Read?
      modifies store
      ensures store.Valid() && (store.dict, answer) == After(limit, old(store.dict), cmd, env)
    {
      var plan := PlanAdmission(cmd, env.planned);
      if plan.Respond? {
        return Replied;
      }
      if plan.Grow? && limit > 0 && plan.growth > 0 {
        if plan.result > limit {
          return Refused(OutOfMemory);
        }
        var outcome := FreeForAdmission(plan.key, plan.growth, env.passes);
        if outcome != Admitted {
          return Refused(outcome);
        }
      }
      if !env.replicated {
        return Refused(NotReplicated);
      }
      Dispatch(cmd, env.executed);
      return Performed;
    }

    // A command on a store within its limit leaves it within its limit.
    method Execute(cmd: Command, env: Env) returns (answer: Answer)
      requires store.Valid()
      modifies store
      ensures store.Valid() && (store.dict, answer) == After(limit, old(store.dict), cmd, env)
      ensures 0 < limit < MAX_WORD && old(Total(store.dict)) <= limit ==> store.used == Total(store.dict) <= limit
    {
      ghost var before := store.dict;
      if cmd.Read? {
        Dispatch(cmd, env.executed);
        answer := Performed;
      } else {
        answer := ExecuteWithAdmission(cmd, env);
      }
      WithinLimit(limit, before, cmd, env, store.dict);
    }
  }
}
