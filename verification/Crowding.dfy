// Expired entries take up room under a memory limit until something touches
// them: when that shows, and when it does not.
module Crowding {
  import opened Options
  import opened Ordering
  import opened Striping
  import opened Values
  import opened Stores
  import opened Admission
  import opened Expiry

  lemma {:induction false} AlikeLater(d: Dict, e: Dict, now: int, later: int)
    requires Alike(d, e, now) && now <= later
    ensures Alike(d, e, later)
  {
    assert Visible(d, later) == Visible(Visible(d, now), later);
    assert Visible(e, later) == Visible(Visible(e, now), later);
  }

  lemma {:induction false} ExecutedAlike(d: Dict, e: Dict, cmd: Command, now: int)
    requires Alike(d, e, now)
    ensures Alike(Executed(d, cmd, now), Executed(e, cmd, now), now)
    ensures !cmd.Del? ==> ReplyOf(d, cmd, now) == ReplyOf(e, cmd, now)
  {
    ExpiryIsUnseen(d, cmd, now);
    ExpiryIsUnseen(e, cmd, now);
  }

  // Planning sees the key as it is without the expired entries.
  lemma {:induction false} PlanUnseen(d: Dict, cmd: Command, now: int)
    ensures var v := Visible(d, now);
      && Seen(v, cmd, now) == v && Alike(Seen(d, cmd, now), v, now)
      && PlanFor(Seen(d, cmd, now), cmd) == PlanFor(v, cmd)
  {
    VisibleTwice(d, now);
    if !Malformed(cmd) && Charging(cmd) {
      PurgeUnseen(d, cmd.key, now);
    }
  }

  // What the client is told: the reply known from planning, or that of the
  // execution on what admission has left; a refusal says no more than that.
  ghost function Told(limit: Word, d: Dict, cmd: Command, env: Env): Option<Response> {
    var seen := Seen(d, cmd, env.planned);
    match After(limit, d, cmd, env).1
    case Refused(_) => None
    case Replied => Some(ReplyOf(seen, cmd, env.planned))
    case Performed =>
      Some(ReplyOf(if cmd.Read? then d else Admit(limit, seen, PlanFor(seen, cmd), env.passes).0, cmd, env.executed))
  }

  // The dictionary, and the dictionary without its expired entries, take the
  // same course and look the same after it.
  ghost predicate SameCourse(limit: Word, d: Dict, cmd: Command, env: Env) {
    var (e, answer) := After(limit, d, cmd, env);
    var (v, expected) := After(limit, Visible(d, env.planned), cmd, env);
    answer == expected && Alike(e, v, env.executed)
  }

  // And the client is told the same.
  ghost predicate Agree(limit: Word, d: Dict, cmd: Command, env: Env) {
    SameCourse(limit, d, cmd, env) && Told(limit, d, cmd, env) == Told(limit, Visible(d, env.planned), cmd, env)
  }

  // A deletion that is performed and counts a key that has expired.
  ghost predicate CountsExpired(d: Dict, cmd: Command, env: Env) {
    cmd.Del? && env.replicated && NamesExpired(d, cmd.keys, env.planned)
  }

  // Room has to be found for the write.
  ghost predicate NeedsRoom(limit: Word, plan: Plan) {
    limit != 0 && plan.Grow? && 0 < plan.growth && plan.result <= limit
  }

  // There is room without what has expired, but not with it.
  ghost predicate CrowdedOut(limit: Word, d: Dict, cmd: Command, gone: set<Bytes>, now: int) {
    var seen, v := Seen(d, cmd, now), Visible(d, now);
    var plan := PlanFor(v, cmd);
    && NeedsRoom(limit, plan) && gone <= v.Keys - {plan.key}
    && Available(limit, seen - gone) < plan.growth <= Available(limit, v - gone)
  }

  // Admission has come to the same end in both.
  ghost predicate SameRoomFound(limit: Word, d: Dict, cmd: Command, env: Env) {
    var plan := PlanFor(Visible(d, env.planned), cmd);
    var e, f := Admit(limit, Seen(d, cmd, env.planned), plan, env.passes), Admit(limit, Visible(d, env.planned), plan, env.passes);
    e.1 == f.1 && Alike(e.0, f.0, env.planned)
  }

  // What is left to do once room has been found, or not.
  lemma {:induction false} AfterRoomSame(limit: Word, d: Dict, cmd: Command, env: Env)
    requires env.planned <= env.executed && !cmd.Read? && SameRoomFound(limit, d, cmd, env)
    ensures SameCourse(limit, d, cmd, env)
  {
    var v := Visible(d, env.planned);
    var plan := PlanFor(v, cmd);
    var e, f := Admit(limit, Seen(d, cmd, env.planned), plan, env.passes).0, Admit(limit, v, plan, env.passes).0;
    PlanUnseen(d, cmd, env.planned);
    AlikeLater(e, f, env.planned, env.executed);
    AlikeLater(Seen(d, cmd, env.planned), v, env.planned, env.executed);
    ExecutedAlike(e, f, cmd, env.executed);
  }

  lemma {:induction false} AfterRoomTold(limit: Word, d: Dict, cmd: Command, env: Env)
    requires env.planned <= env.executed && !cmd.Read? && !cmd.Del? && SameRoomFound(limit, d, cmd, env)
    requires SameCourse(limit, d, cmd, env)
    ensures Told(limit, d, cmd, env) == Told(limit, Visible(d, env.planned), cmd, env)
  {
    var v := Visible(d, env.planned);
    var plan := PlanFor(v, cmd);
    var e, f := Admit(limit, Seen(d, cmd, env.planned), plan, env.passes).0, Admit(limit, v, plan, env.passes).0;
    PlanUnseen(d, cmd, env.planned);
    AlikeLater(e, f, env.planned, env.executed);
    ExecutedAlike(e, f, cmd, env.executed);
    ExecutedAlike(Seen(d, cmd, env.planned), v, cmd, env.planned);
  }

  // A deletion needs no room, and tells how many keys it found.
  lemma {:induction false} DeletionTold(limit: Word, d: Dict, cmd: Command, env: Env)
    requires cmd.Del?
    ensures Told(limit, d, cmd, env) == if env.replicated then Some(Count(Ok(DeletedCount(d, cmd.keys)))) else None
  {
  }

  lemma {:induction false} AfterRoom(limit: Word, d: Dict, cmd: Command, env: Env)
    requires env.planned <= env.executed && !cmd.Read? && SameRoomFound(limit, d, cmd, env)
    ensures Agree(limit, d, cmd, env) <==> !CountsExpired(d, cmd, env)
  {
    AfterRoomSame(limit, d, cmd, env);
    if cmd.Del? {
      DeletionTold(limit, d, cmd, env);
      DeletionTold(limit, Visible(d, env.planned), cmd, env);
      DeleteCountsExactly(d, cmd.keys, env.planned);
    } else {
      AfterRoomTold(limit, d, cmd, env);
    }
  }

  // Nothing has to be evicted: no limit, no growth, too large whatever is
  // evicted, or room enough even with what has expired. Then only a deletion
  // can tell.
  lemma {:induction false} RoomMeansUnseen(limit: Word, d: Dict, cmd: Command, env: Env)
    requires Total(d) < WORD && env.planned <= env.executed
    requires var seen := Seen(d, cmd, env.planned);
      var plan := PlanFor(seen, cmd);
      !NeedsRoom(limit, plan) || plan.growth <= Available(limit, seen)
    ensures Agree(limit, d, cmd, env) <==> !CountsExpired(d, cmd, env)
  {
    var seen, v := Seen(d, cmd, env.planned), Visible(d, env.planned);
    PlanUnseen(d, cmd, env.planned);
    if cmd.Read? {
      ReadAgrees(limit, d, cmd, env);
    } else {
      MoreRoom(limit, d, cmd, {}, env.planned);
      assert seen - {} == seen && v - {} == v;
      AfterRoom(limit, d, cmd, env);
    }
  }

  lemma {:induction false} ReadAgrees(limit: Word, d: Dict, cmd: Command, env: Env)
    requires cmd.Read? && env.planned <= env.executed
    ensures Agree(limit, d, cmd, env)
  {
    var v := Visible(d, env.planned);
    VisibleTwice(d, env.planned);
    AlikeLater(d, v, env.planned, env.executed);
    ExecutedAlike(d, v, cmd, env.executed);
  }

  ghost predicate PartOf(part: Dict, d: Dict) {
    part.Keys <= d.Keys && forall k :: k in part ==> part[k] == d[k]
  }

  lemma {:induction false} TotalOfPart(d: Dict, part: Dict)
    requires PartOf(part, d)
    ensures Total(part) <= Total(d)
    decreases |d|
  {
    if k :| k in d && k !in part {
      TotalWithout(d, k);
      Shrunk(d, k);
      TotalOfPart(d - {k}, part);
    } else {
      assert part == d;
    }
  }

  lemma {:induction false} RoomOfPart(limit: Word, d: Dict, part: Dict)
    requires Total(d) < WORD && PartOf(part, d)
    ensures Available(limit, d) <= Available(limit, part)
  {
    TotalOfPart(d, part);
    Unwrapped(Total(d));
    Unwrapped(Total(part));
  }

  lemma {:induction false} SeenParts(d: Dict, cmd: Command, gone: set<Bytes>, now: int)
    ensures var seen, v := Seen(d, cmd, now), Visible(d, now);
      PartOf(seen, d) && PartOf(seen - gone, seen) && PartOf(v - gone, seen - gone)
  {
  }

  // Without what has expired there is no less room.
  lemma {:induction false} MoreRoom(limit: Word, d: Dict, cmd: Command, gone: set<Bytes>, now: int)
    requires Total(d) < WORD
    ensures var seen, v := Seen(d, cmd, now), Visible(d, now);
      Available(limit, seen) <= Available(limit, seen - gone) <= Available(limit, v - gone)
  {
    var seen, v := Seen(d, cmd, now), Visible(d, now);
    SeenParts(d, cmd, gone, now);
    TotalOfPart(d, seen);
    RoomOfPart(limit, seen, seen - gone);
    TotalOfPart(seen, seen - gone);
    RoomOfPart(limit, seen - gone, v - gone);
  }

  // The keys one pass deletes, and whether it gets to its end.
  ghost function Taken(key: Bytes, victims: seq<Victim>): set<Bytes> {
    if victims == [] then {}
    else if victims[0].key == key then Taken(key, victims[1..])
    else if !victims[0].replicated then {}
    else {victims[0].key} + Taken(key, victims[1..])
  }

  ghost predicate Finished(key: Bytes, victims: seq<Victim>) {
    victims == [] || ((victims[0].key == key || victims[0].replicated) && Finished(key, victims[1..]))
  }

  lemma {:induction false} EvictedTakes(d: Dict, key: Bytes, victims: seq<Victim>)
    ensures Evicted(d, key, victims) == (d - Taken(key, victims), Finished(key, victims))
    decreases |victims|
  {
    if victims == [] {
      assert d - {} == d;
    } else if victims[0].key == key {
      EvictedTakes(d, key, victims[1..]);
    } else if !victims[0].replicated {
      assert d - {} == d;
    } else {
      EvictedTakes(d - {victims[0].key}, key, victims[1..]);
      assert (d - {victims[0].key}) - Taken(key, victims[1..]) == d - Taken(key, victims);
    }
  }

  // The policy samples no expired entry.
  ghost predicate PicksVisible(v: Dict, victims: seq<Victim>) {
    forall i :: 0 <= i < |victims| ==> victims[i].key in v
  }

  ghost predicate AllVisible(v: Dict, passes: seq<seq<Victim>>) {
    forall i :: 0 <= i < |passes| ==> PicksVisible(v, passes[i])
  }

  lemma {:induction false} TakenVisible(v: Dict, key: Bytes, victims: seq<Victim>)
    requires PicksVisible(v, victims)
    ensures Taken(key, victims) <= v.Keys - {key}
    decreases |victims|
  {
    if victims != [] {
      assert victims[0].key in v;
      TakenVisible(v, key, victims[1..]);
    }
  }

  // Some victims that a pass deletes exactly.
  lemma {:induction false} ListOf(v: Dict, key: Bytes, gone: set<Bytes>) returns (victims: seq<Victim>)
    requires gone <= v.Keys - {key}
    ensures PicksVisible(v, victims) && Taken(key, victims) == gone && Finished(key, victims)
    ensures victims == [] <==> gone == {}
    decreases |gone|
  {
    if gone == {} {
      victims := [];
    } else {
      var k :| k in gone;
      var rest := ListOf(v, key, gone - {k});
      victims := [Victim(k, true)] + rest;
      assert victims[1..] == rest && {k} + (gone - {k}) == gone;
    }
  }

  // No set of deletions leaves room in the one and none in the other.
  ghost predicate SameRoom(limit: Word, d: Dict, v: Dict, key: Bytes, growth: nat) {
    forall gone :: gone <= v.Keys - {key} ==> (Available(limit, d - gone) < growth <==> Available(limit, v - gone) < growth)
  }

  // Deletions go the same way in both.
  lemma {:induction false} TakeTogether(d: Dict, v: Dict, gone: set<Bytes>, more: set<Bytes>, now: int)
    requires v == Visible(d, now) && gone <= v.Keys && more <= v.Keys
    ensures (d - gone) - more == d - (gone + more) && (v - gone) - more == v - (gone + more)
    ensures d - (gone + more) == d - gone <==> v - (gone + more) == v - gone
    ensures Alike(d - (gone + more), v - (gone + more), now)
  {
    assert (d - gone) - more == d - (gone + more) && (v - gone) - more == v - (gone + more);
    if k :| k in more && k !in gone {
      assert k in d - gone && k !in d - (gone + more) && k in v - gone && k !in v - (gone + more);
    } else {
      assert gone + more == gone;
    }
    assert Visible(d - (gone + more), now) == Visible(v - (gone + more), now);
  }

  lemma {:induction false} Lockstep(
    limit: Word, d: Dict, v: Dict, gone: set<Bytes>, key: Bytes, growth: nat, passes: seq<seq<Victim>>, left: nat, now: int)
    requires v == Visible(d, now) && gone <= v.Keys - {key} && AllVisible(v, passes) && SameRoom(limit, d, v, key, growth)
    ensures var x, y := Freed(limit, d - gone, key, growth, passes, left), Freed(limit, v - gone, key, growth, passes, left);
      x.1 == y.1 && Alike(x.0, y.0, now)
    decreases left
  {
    TakeTogether(d, v, gone, {}, now);
    assert gone + {} == gone;
    if left > 0 && Available(limit, v - gone) < growth && passes != [] && passes[0] != [] {
      var more := Taken(key, passes[0]);
      EvictedTakes(d - gone, key, passes[0]);
      EvictedTakes(v - gone, key, passes[0]);
      TakenVisible(v, key, passes[0]);
      TakeTogether(d, v, gone, more, now);
      Lockstep(limit, d, v, gone + more, key, growth, passes[1..], left - 1, now);
    }
  }

  // Whatever the policy picks among the visible keys, the expired ones do not
  // show.
  ghost predicate NeverSeen(limit: Word, d: Dict, cmd: Command, now: int) {
    forall env: Env :: env.planned == now <= env.executed && AllVisible(Visible(d, now), env.passes) ==> Agree(limit, d, cmd, env)
  }

  lemma {:induction false} UncrowdedUnseen(limit: Word, d: Dict, cmd: Command, env: Env)
    requires Total(d) < WORD && env.planned <= env.executed && AllVisible(Visible(d, env.planned), env.passes)
    requires forall gone :: !CrowdedOut(limit, d, cmd, gone, env.planned)
    ensures Agree(limit, d, cmd, env) <==> !CountsExpired(d, cmd, env)
  {
    var seen, v := Seen(d, cmd, env.planned), Visible(d, env.planned);
    PlanUnseen(d, cmd, env.planned);
    var plan := PlanFor(v, cmd);
    if cmd.Read? || !NeedsRoom(limit, plan) {
      RoomMeansUnseen(limit, d, cmd, env);
    } else {
      forall gone | gone <= v.Keys - {plan.key}
        ensures Available(limit, seen - gone) < plan.growth <==> Available(limit, v - gone) < plan.growth
      {
        MoreRoom(limit, d, cmd, gone, env.planned);
        assert !CrowdedOut(limit, d, cmd, gone, env.planned);
      }
      Lockstep(limit, seen, v, {}, plan.key, plan.growth, env.passes, MAX_PASSES, env.planned);
      assert seen - {} == seen && v - {} == v;
      AfterRoom(limit, d, cmd, env);
    }
  }

  // One pass that deletes exactly these keys, and no further one.
  lemma {:induction false} OnePass(limit: Word, d: Dict, key: Bytes, growth: nat, victims: seq<Victim>, gone: set<Bytes>, left: nat)
    requires victims != [] && Taken(key, victims) == gone && Finished(key, victims) && left > 1
    requires Available(limit, d) < growth && d - gone != d
    ensures Freed(limit, d, key, growth, [victims], left).1 == if growth <= Available(limit, d - gone) then Admitted else OutOfMemory
  {
    EvictedTakes(d, key, victims);
    assert [victims][1..] == [];
    assert Freed(limit, d, key, growth, [victims], left) == Freed(limit, d - gone, key, growth, [], left - 1);
  }

  // Room is found for the one only.
  lemma {:induction false} RoomShows(limit: Word, d: Dict, cmd: Command, now: int, passes: seq<seq<Victim>>)
    requires var plan := PlanFor(Visible(d, now), cmd);
      && NeedsRoom(limit, plan)
      && Freed(limit, Seen(d, cmd, now), plan.key, plan.growth, passes, MAX_PASSES).1 == OutOfMemory
      && Freed(limit, Visible(d, now), plan.key, plan.growth, passes, MAX_PASSES).1 == Admitted
    ensures !Agree(limit, d, cmd, Env(now, now, passes, true))
  {
    PlanUnseen(d, cmd, now);
  }

  // A set of visible keys whose deletion makes room in the one only.
  lemma {:induction false} CrowdedShows(limit: Word, d: Dict, cmd: Command, gone: set<Bytes>, now: int) returns (env: Env)
    requires Total(d) < WORD && CrowdedOut(limit, d, cmd, gone, now)
    ensures env.planned == now == env.executed && AllVisible(Visible(d, now), env.passes) && !Agree(limit, d, cmd, env)
  {
    var seen, v := Seen(d, cmd, now), Visible(d, now);
    var plan := PlanFor(v, cmd);
    MoreRoom(limit, d, cmd, gone, now);
    if plan.growth <= Available(limit, v) {
      env := Env(now, now, [], true);
    } else {
      assert v - gone != v;
      assert v - {} == v;
      var k :| k in gone;
      SeenParts(d, cmd, {}, now);
      assert k in seen && k !in seen - gone;
      var victims := ListOf(v, plan.key, gone);
      env := Env(now, now, [victims], true);
      OnePass(limit, seen, plan.key, plan.growth, victims, gone, MAX_PASSES);
      OnePass(limit, v, plan.key, plan.growth, victims, gone, MAX_PASSES);
    }
    RoomShows(limit, d, cmd, now, env.passes);
  }

  // Under a limit, expired entries go unseen whatever the policy picks if and
  // only if no visible keys can be deleted that make room enough without the
  // expired entries and not enough with them, and the command is no deletion
  // that names one of them.
  lemma {:induction false} UnseenExactly(limit: Word, d: Dict, cmd: Command, now: int)
    requires Total(d) < WORD
    ensures NeverSeen(limit, d, cmd, now) <==>
      (forall gone :: !CrowdedOut(limit, d, cmd, gone, now)) && !(cmd.Del? && NamesExpired(d, cmd.keys, now))
  {
    if gone :| CrowdedOut(limit, d, cmd, gone, now) {
      var env := CrowdedShows(limit, d, cmd, gone, now);
    } else {
      forall env: Env | env.planned == now <= env.executed && AllVisible(Visible(d, now), env.passes)
        ensures Agree(limit, d, cmd, env) <==> !CountsExpired(d, cmd, env)
      {
        UncrowdedUnseen(limit, d, cmd, env);
      }
      var plain := Env(now, now, [], true);
      assert AllVisible(Visible(d, now), plain.passes);
    }
  }

  // Without an eviction policy: if and only if the expired entries do not take
  // up the room the write needs, and no deletion counts them.
  lemma {:induction false} UnseenWithoutEviction(limit: Word, d: Dict, cmd: Command, env: Env)
    requires Total(d) < WORD && env.planned <= env.executed && env.passes == []
    ensures Agree(limit, d, cmd, env) <==> !CrowdedOut(limit, d, cmd, {}, env.planned) && !CountsExpired(d, cmd, env)
  {
    var seen, v := Seen(d, cmd, env.planned), Visible(d, env.planned);
    PlanUnseen(d, cmd, env.planned);
    MoreRoom(limit, d, cmd, {}, env.planned);
    assert seen - {} == seen && v - {} == v;
    var plan := PlanFor(v, cmd);
    if cmd.Read? || !NeedsRoom(limit, plan) || plan.growth <= Available(limit, seen) {
      RoomMeansUnseen(limit, d, cmd, env);
    } else if Available(limit, v) < plan.growth {
      AfterRoom(limit, d, cmd, env);
    }
  }

  // A limit of 100, 65 bytes that have expired, and a new key of 65 bytes:
  // refused, although nothing is visible.
  lemma {:induction false} ExpiredCrowdsOut() returns (d: Dict, cmd: Command, env: Env)
    ensures Exact(d) && Total(d) <= 100 && Visible(d, env.planned) == map[]
    ensures After(100, d, cmd, env).1 == Refused(OutOfMemory) && After(100, Visible(d, env.planned), cmd, env).1 == Performed
  {
    var none: Dict := map[];
    var stale := Charged([1], Str([]), 1);
    d, cmd, env := none[[1] := stale], Set([2], [], 0, Always), Env(5, 5, [], true);
    TotalPut(none, [1], stale);
    assert Total(none) == 0;
    assert Visible(d, 5) == none;
    assert Purge(d, [2], 5) == d;
  }
}
