// Synchronous replication of one slot under a fixed assignment. Records, the
// engine's verdicts and acknowledgements may fail in any pattern.
module Replication {
  import opened Ordering
  import opened Slots
  import opened Trios
  import opened Metadata
  import opened SlotMaps
  import O = Ownership

  // A command with its arguments.
  type Command = seq<Bytes>

  // What happens to one record: whether it reaches the replica, whether the
  // replica's engine accepts the command, whether the answer gets back.
  datatype Fate = Fate(arrives: bool, accepted: bool, answered: bool)

  // ------------------------------------------------------- the replica's part

  datatype Receipt = Receipt(ok: bool, after: Meta, log: seq<Command>)

  // A record is refused, recognised by its sequence, or applied.
  function Receive(m: Meta, local: NodeId, log: seq<Command>, rec: Record, cmd: Command, accepted: bool): Receipt {
    match Validate(m, local, rec)
    case Fail(_) => Receipt(false, m, log)
    case Ok(true) => Receipt(true, m, log)
    case Ok(false) =>
      if !accepted then Receipt(false, m, log)
      else Receipt(true, m.(slots := m.slots[rec.slot := ReplicaCommitted(m.slots[rec.slot], rec.sequence)]), log + [cmd])
  }

  class Replica {
    const metadata: SlotMap
    var log: seq<Command>

    constructor (metadata: SlotMap)
      ensures this.metadata == metadata && log == []
    {
      this.metadata := metadata;
      log := [];
    }

    method ApplyReplication(rec: Record, cmd: Command, accepted: bool) returns (ok: bool)
      modifies this, metadata
      ensures old(Receive(metadata.Value(), metadata.local, log, rec, cmd, accepted)) == Receipt(ok, metadata.Value(), log)
    {
      var verdict := metadata.ValidateReplication(rec);
      if verdict.Fail? {
        return false;
      }
      if verdict.value {
        return true;
      }
      if !accepted {
        return false;
      }
      log := log + [cmd];
      var committed := metadata.CommitReplicaSequence(rec.slot, rec.term, rec.sequence);
      return committed.Ok?;
    }
  }

  // -------------------------------------------------------- the leader's part

  datatype Pair = Pair(leader: Meta, replica: Meta, executed: seq<Command>, applied: seq<Command>)

  // One write: prepare, send, commit, execute. The client sees success exactly
  // when the leader has executed the command.
  function Attempt(p: Pair, from: NodeId, to: NodeId, n: nat, cmd: Command, fate: Fate): Pair {
    match PrepareReplication(p.leader, from, n)
    case Fail(_) => p
    case Ok(sequence) =>
      if !fate.arrives then p
      else
        var term := p.leader.slots[n].term;
        var got := Receive(p.replica, to, p.applied, Record(from, n, term, sequence), cmd, fate.accepted);
        var sent := p.(replica := got.after, applied := got.log);
        if !got.ok || !fate.answered then sent
        else
          match CommitLeader(p.leader, from, n, term, sequence)
          case Fail(_) => sent
          case Ok(m) => sent.(leader := m, executed := p.executed + [cmd])
  }

  class Replicator {
    const metadata: SlotMap
    var executed: seq<Command>

    constructor (metadata: SlotMap)
      ensures this.metadata == metadata && executed == []
    {
      this.metadata := metadata;
      executed := [];
    }

    // Serves a write on slot n; `to` is the node the slot's replica runs on.
    method Replicate(to: Replica, n: nat, cmd: Command, fate: Fate) returns (acknowledged: bool)
      requires metadata != to.metadata
      modifies this, metadata, to, to.metadata
      ensures old(Attempt(Pair(metadata.Value(), to.metadata.Value(), executed, to.log), metadata.local, to.metadata.local, n, cmd, fate))
        == Pair(metadata.Value(), to.metadata.Value(), executed, to.log)
      ensures acknowledged <==> executed == old(executed) + [cmd]
    {
      var prepared := metadata.Prepare(n);
      if prepared.Fail? || !fate.arrives {
        return false;
      }
      var term := metadata.slots[n].term;
      var answer := to.ApplyReplication(Record(metadata.local, n, term, prepared.value), cmd, fate.accepted);
      if !answer || !fate.answered {
        return false;
      }
      var committed := metadata.CommitLeaderSequence(n, term, prepared.value);
      if committed.Fail? {
        return false;
      }
      executed := executed + [cmd];
      return true;
    }
  }

  // --------------------------------------------------------------- every run

  // Both nodes agree on who owns slot n, and the replica is ready.
  ghost predicate Assigned(p: Pair, from: NodeId, to: NodeId, n: nat) {
    && n < |p.leader.slots| && n < |p.replica.slots| && to != NOBODY
    && p.leader.slots[n].own == p.replica.slots[n].own == Own(from, to, true)
    && p.leader.slots[n].term == p.replica.slots[n].term
  }

  // The replica is level with the leader or one command ahead of it. Sequence
  // numbers are positions in the logs, counted from where the logs start.
  ghost predicate Level(p: Pair, n: nat, base: nat)
    requires n < |p.leader.slots| && n < |p.replica.slots|
  {
    var sent, got := p.leader.slots[n].lastSeq, p.replica.slots[n].applied;
    sent <= got <= sent + 1 && |p.executed| + base == sent && |p.applied| + base == got
  }

  type Run = seq<(Command, Fate)>

  function After(p: Pair, from: NodeId, to: NodeId, n: nat, run: Run): Pair
    decreases |run|
  {
    if run == [] then p else After(Attempt(p, from, to, n, run[0].0, run[0].1), from, to, n, run[1..])
  }

  lemma {:induction false} AttemptKeepsLevel(p: Pair, from: NodeId, to: NodeId, n: nat, base: nat, cmd: Command, fate: Fate)
    requires Assigned(p, from, to, n) && Level(p, n, base)
    ensures var q := Attempt(p, from, to, n, cmd, fate);
      && Assigned(q, from, to, n) && Level(q, n, base)
      && p.executed <= q.executed && p.applied <= q.applied
  {
  }

  // Whatever is lost, the replica is never behind the leader and at most one
  // sequence ahead; it applies one command per sequence, leaves no gap, and
  // never takes back what it has applied.
  lemma {:induction false} RunKeepsLevel(p: Pair, from: NodeId, to: NodeId, n: nat, base: nat, run: Run)
    requires Assigned(p, from, to, n) && Level(p, n, base)
    ensures var q := After(p, from, to, n, run);
      && Assigned(q, from, to, n) && Level(q, n, base)
      && p.executed <= q.executed && p.applied <= q.applied
    decreases |run|
  {
    if run != [] {
      AttemptKeepsLevel(p, from, to, n, base, run[0].0, run[0].1);
      RunKeepsLevel(Attempt(p, from, to, n, run[0].0, run[0].1), from, to, n, base, run[1..]);
    }
  }

  // ------------------------------------------------- when the logs agree

  datatype Stuck = Nothing | Unanswered(cmd: Command)

  // The command the replica has applied and the leader has not executed.
  ghost function StuckOf(p: Pair): Stuck {
    if |p.applied| > |p.executed| then Unanswered(p.applied[|p.executed|]) else Nothing
  }

  ghost function NextStuck(stuck: Stuck, cmd: Command, fate: Fate): Stuck {
    if !fate.arrives then stuck
    else if stuck.Unanswered? then (if fate.answered then Nothing else stuck)
    else if fate.accepted && !fate.answered then Unanswered(cmd)
    else Nothing
  }

  // After an unanswered command, the next command that is answered repeats it.
  ghost predicate Repeats(stuck: Stuck, run: Run)
    decreases |run|
  {
    run == [] ||
    var (cmd, fate) := run[0];
    && (stuck.Unanswered? && fate.arrives && fate.answered ==> cmd == stuck.cmd)
    && Repeats(NextStuck(stuck, cmd, fate), run[1..])
  }

  lemma {:induction false} AttemptExactly(p: Pair, from: NodeId, to: NodeId, n: nat, base: nat, cmd: Command, fate: Fate)
    requires Assigned(p, from, to, n) && Level(p, n, base) && p.executed <= p.applied
    ensures var q := Attempt(p, from, to, n, cmd, fate);
      && (q.executed <= q.applied <==> (StuckOf(p).Unanswered? && fate.arrives && fate.answered ==> cmd == StuckOf(p).cmd))
      && (q.executed <= q.applied ==> StuckOf(q) == NextStuck(StuckOf(p), cmd, fate))
  {
  }

  lemma {:induction false} DisagreementStays(p: Pair, q: Pair)
    requires p.executed <= q.executed && p.applied <= q.applied && |p.executed| <= |p.applied| && |q.executed| <= |q.applied|
    requires !(p.executed <= p.applied)
    ensures !(q.executed <= q.applied)
  {
    var i :| 0 <= i < |p.executed| && p.executed[i] != p.applied[i];
    assert q.executed[i] != q.applied[i];
  }

  // Every acknowledged command is the one the replica applied under the same
  // sequence if and only if unanswered commands are repeated before anything
  // else is acknowledged: the replica tells records apart by sequence alone.
  lemma {:induction false} LogsAgreeExactly(p: Pair, from: NodeId, to: NodeId, n: nat, base: nat, run: Run)
    requires Assigned(p, from, to, n) && Level(p, n, base) && p.executed <= p.applied
    ensures After(p, from, to, n, run).executed <= After(p, from, to, n, run).applied <==> Repeats(StuckOf(p), run)
    decreases |run|
  {
    if run != [] {
      var (cmd, fate) := run[0];
      var q := Attempt(p, from, to, n, cmd, fate);
      AttemptKeepsLevel(p, from, to, n, base, cmd, fate);
      AttemptExactly(p, from, to, n, base, cmd, fate);
      if q.executed <= q.applied {
        LogsAgreeExactly(q, from, to, n, base, run[1..]);
      } else {
        RunKeepsLevel(q, from, to, n, base, run[1..]);
        DisagreementStays(q, After(q, from, to, n, run[1..]));
      }
    }
  }

  // A lost acknowledgement followed by another command.
  lemma {:induction false} LostAnswerLosesNextWrite(p: Pair, from: NodeId, to: NodeId, n: nat, base: nat, x: Command, y: Command)
    requires Assigned(p, from, to, n) && Level(p, n, base) && p.executed == p.applied && x != y
    ensures var q := After(p, from, to, n, [(x, Fate(true, true, false)), (y, Fate(true, true, true))]);
      q.executed == p.executed + [y] && q.applied == p.applied + [x]
  {
    var run: Run := [(x, Fate(true, true, false)), (y, Fate(true, true, true))];
    var mid := Attempt(p, from, to, n, x, run[0].1);
    assert run[1..] == [(y, Fate(true, true, true))] && run[1..][1..] == [];
    var end := Attempt(mid, from, to, n, y, run[1].1);
    assert After(end, from, to, n, []) == end;
    assert After(mid, from, to, n, run[1..]) == end;
  }

  // ------------------------------------------------ broadcasts and sequences

  // Commands that nothing befalls.
  function Smooth(cmds: seq<Command>): Run {
    if cmds == [] then [] else [(cmds[0], Fate(true, true, true))] + Smooth(cmds[1..])
  }

  function Least(a: nat, b: nat): nat {
    if a <= b then a else b
  }

  // A leader that is behind its replica by some commands acknowledges that many
  // that the replica takes for duplicates; one that is ahead acknowledges none.
  lemma {:induction false} SmoothExactly(p: Pair, from: NodeId, to: NodeId, n: nat, cmds: seq<Command>)
    requires Assigned(p, from, to, n)
    ensures var q, sent, got := After(p, from, to, n, Smooth(cmds)), p.leader.slots[n].lastSeq, p.replica.slots[n].applied;
      if sent <= got then q.executed == p.executed + cmds && q.applied == p.applied + cmds[Least(got - sent, |cmds|)..]
      else q.executed == p.executed && q.applied == p.applied
    decreases |cmds|
  {
    if cmds != [] {
      var q := Attempt(p, from, to, n, cmds[0], Fate(true, true, true));
      assert Smooth(cmds)[1..] == Smooth(cmds[1..]);
      assert p.executed + [cmds[0]] + cmds[1..] == p.executed + cmds;
      SmoothExactly(q, from, to, n, cmds[1..]);
      var sent, got := p.leader.slots[n].lastSeq, p.replica.slots[n].applied;
      if sent == got {
        assert cmds[0..] == cmds && cmds[1..][0..] == cmds[1..];
        assert p.applied + [cmds[0]] + cmds[1..] == p.applied + cmds;
      } else if sent < got {
        assert cmds[1..][Least(got - sent - 1, |cmds| - 1)..] == cmds[Least(got - sent, |cmds|)..];
      }
    }
  }

  // A leader that takes over a newer map in the same term takes the sender's
  // counter with it. Its next record is applied if and only if the sender knew
  // the leader's own counter. With an older one exactly as many writes as it
  // lacks are acknowledged and never applied, however many follow; with a newer
  // one no write is acknowledged any more.
  lemma {:induction false} BroadcastExactly(p: Pair, from: NodeId, to: NodeId, n: nat, incoming: Meta, cmds: seq<Command>)
    requires Assigned(p, from, to, n) && p.leader.slots[n].lastSeq == p.replica.slots[n].applied
    requires ApplyRemote(p.leader, incoming).Ok?
    requires incoming.slots[n].own == p.leader.slots[n].own && incoming.slots[n].term == p.leader.slots[n].term
    ensures var m := ApplyRemote(p.leader, incoming).value;
      var known, own := incoming.slots[n].lastSeq, p.leader.slots[n].lastSeq;
      && PrepareReplication(m, from, n) == Ok(known + 1)
      && Validate(p.replica, to, Record(from, n, m.slots[n].term, known + 1)) ==
           if known == own then Ok(false) else if known < own then Ok(true) else Fail(SequenceGap)
    ensures var q := After(p.(leader := ApplyRemote(p.leader, incoming).value), from, to, n, Smooth(cmds));
      var known, own := incoming.slots[n].lastSeq, p.leader.slots[n].lastSeq;
      if known <= own then q.executed == p.executed + cmds && q.applied == p.applied + cmds[Least(own - known, |cmds|)..]
      else q.executed == p.executed && q.applied == p.applied
  {
    SmoothExactly(p.(leader := ApplyRemote(p.leader, incoming).value), from, to, n, cmds);
  }

  // Three nodes, two slots. B applies and A acknowledges a write to slot 0; C
  // is promoted in slot 1 and its map reaches A.
  const FIRST := Meta(1, [Slot(0, Own(A, B, true), 1, 0, 0), Slot(1, Own(B, C, true), 1, 0, 0)])
  const WRITTEN := Meta(1, [Slot(0, Own(A, B, true), 1, 1, 1), Slot(1, Own(B, C, true), 1, 0, 0)])
  const PROMOTED := Meta(2, [Slot(0, Own(A, B, true), 1, 0, 0), Slot(1, Own(C, NOBODY, false), 2, 0, 0)])
  const REWOUND := Meta(2, [Slot(0, Own(A, B, true), 1, 0, 1), Slot(1, Own(C, NOBODY, false), 2, 0, 0)])

  lemma {:induction false} TrioWrites(peers: set<NodeId>, hist: seq<seq<O.Tenure>>)
    ensures var s := O.Sys(Trio(FIRST, FIRST, FIRST), {}, hist);
      var s1 := O.Perform(peers, s, O.DoCommitReplica(B, 0, 1, 1));
      O.Perform(peers, s1, O.DoCommitLeader(A, 0, 1, 1)) == O.Sys(Trio(WRITTEN, WRITTEN, FIRST), {}, hist)
  {
    var s := O.Sys(Trio(FIRST, FIRST, FIRST), {}, hist);
    var s1 := O.Perform(peers, s, O.DoCommitReplica(B, 0, 1, 1));
    assert s1.nodes[B] == WRITTEN;
    assert s1.nodes == Trio(FIRST, WRITTEN, FIRST);
    var s2 := O.Perform(peers, s1, O.DoCommitLeader(A, 0, 1, 1));
    assert s2.nodes[A] == WRITTEN;
    assert s2.nodes == Trio(WRITTEN, WRITTEN, FIRST);
  }

  lemma {:induction false} TrioPromotes(peers: set<NodeId>, hist: seq<seq<O.Tenure>>)
    ensures var s := O.Sys(Trio(WRITTEN, WRITTEN, FIRST), {}, hist);
      O.Allowed(s, O.DoPromote(C, 1)) &&
      O.Perform(peers, s, O.DoPromote(C, 1)) == O.Sys(Trio(WRITTEN, WRITTEN, PROMOTED), {PROMOTED}, hist + [O.Owners(PROMOTED)])
  {
    var s := O.Sys(Trio(WRITTEN, WRITTEN, FIRST), {}, hist);
    var t := O.Perform(peers, s, O.DoPromote(C, 1));
    assert t.nodes[C] == PROMOTED;
    assert t.nodes == Trio(WRITTEN, WRITTEN, PROMOTED);
  }

  lemma {:induction false} TrioRewinds(peers: set<NodeId>, hist: seq<seq<O.Tenure>>)
    ensures var s := O.Sys(Trio(WRITTEN, WRITTEN, PROMOTED), {PROMOTED}, hist);
      O.Perform(peers, s, O.Deliver(A, PROMOTED)) == O.Sys(Trio(REWOUND, WRITTEN, PROMOTED), {PROMOTED}, hist)
  {
    var s := O.Sys(Trio(WRITTEN, WRITTEN, PROMOTED), {PROMOTED}, hist);
    var t := O.Perform(peers, s, O.Deliver(A, PROMOTED));
    assert t.nodes[A].slots == REWOUND.slots;
    assert t.nodes == Trio(REWOUND, WRITTEN, PROMOTED);
  }

  lemma {:induction false} TrioStarts()
    ensures O.Start(O.Sys(Trio(FIRST, FIRST, FIRST), {}, [O.Owners(FIRST)]))
  {
    var s := O.Sys(Trio(FIRST, FIRST, FIRST), {}, [O.Owners(FIRST)]);
    assert A in s.nodes && ValidSlots(FIRST.slots);
  }

  // The two writes of the run below, as the nodes serve them.
  lemma {:induction false} TrioServes(x: Command, y: Command)
    ensures Attempt(Pair(FIRST, FIRST, [], []), A, B, 0, x, Fate(true, true, true)) == Pair(WRITTEN, WRITTEN, [x], [x])
    ensures var q := Attempt(Pair(REWOUND, WRITTEN, [x], [x]), A, B, 0, y, Fate(true, true, true));
      q.executed == [x, y] && q.applied == [x]
  {
    var p := Attempt(Pair(FIRST, FIRST, [], []), A, B, 0, x, Fate(true, true, true));
    assert p.leader == WRITTEN && p.replica == WRITTEN && p.executed == [x] && p.applied == [x];
    var q := Attempt(Pair(REWOUND, WRITTEN, [x], [x]), A, B, 0, y, Fate(true, true, true));
    assert q.executed == [x] + [y];
  }

  // A run in which A still leads slot 0 in the same term with the same replica
  // and yet has lost the count of the write x it has acknowledged; it
  // acknowledges the next write y, which B takes for x.
  lemma {:induction false} BroadcastRewindsCounter(peers: set<NodeId>, x: Command, y: Command)
    returns (s: O.Sys, run: seq<O.Action>)
    ensures O.Start(s) && O.Runs(peers, s, run) && O.DoCommitLeader(A, 0, 1, 1) in run
    ensures A in s.nodes && B in s.nodes && A in O.After(peers, s, run).nodes && B in O.After(peers, s, run).nodes
    ensures var t := O.After(peers, s, run);
      var p := Attempt(Pair(s.nodes[A], s.nodes[B], [], []), A, B, 0, x, Fate(true, true, true));
      var q := Attempt(p.(leader := t.nodes[A]), A, B, 0, y, Fate(true, true, true));
      && |s.nodes[A].slots| == |p.leader.slots| == |t.nodes[A].slots| == 2 && p.replica == t.nodes[B]
      && t.nodes[A].slots[0].own == s.nodes[A].slots[0].own && t.nodes[A].slots[0].term == s.nodes[A].slots[0].term
      && t.nodes[A].slots[0].lastSeq < p.leader.slots[0].lastSeq
      && p.executed == p.applied == [x] && q.executed == [x, y] && q.applied == [x]
  {
    TrioServes(x, y);
    s := O.Sys(Trio(FIRST, FIRST, FIRST), {}, [O.Owners(FIRST)]);
    run := [O.DoCommitReplica(B, 0, 1, 1), O.DoCommitLeader(A, 0, 1, 1), O.DoPromote(C, 1), O.Deliver(A, PROMOTED)];
    TrioStarts();
    TrioWrites(peers, s.hist);
    TrioPromotes(peers, s.hist);
    TrioRewinds(peers, s.hist + [O.Owners(PROMOTED)]);
    assert O.Runs(peers, s, run) && O.After(peers, s, run).nodes == Trio(REWOUND, WRITTEN, PROMOTED) by {
      Unrolled(peers, s, run);
    }
  }

  lemma {:induction false} Unrolled(peers: set<NodeId>, s: O.Sys, run: seq<O.Action>)
    requires |run| == 4 && O.Allowed(s, run[0])
    requires var s1 := O.Perform(peers, s, run[0]);
      O.Allowed(s1, run[1]) && var s2 := O.Perform(peers, s1, run[1]);
      O.Allowed(s2, run[2]) && var s3 := O.Perform(peers, s2, run[2]);
      O.Allowed(s3, run[3])
    ensures O.Runs(peers, s, run)
    ensures O.After(peers, s, run) ==
      O.Perform(peers, O.Perform(peers, O.Perform(peers, O.Perform(peers, s, run[0]), run[1]), run[2]), run[3])
  {
    var s1 := O.Perform(peers, s, run[0]);
    var s2 := O.Perform(peers, s1, run[1]);
    var s3 := O.Perform(peers, s2, run[2]);
    var s4 := O.Perform(peers, s3, run[3]);
    assert run[1..][1..][1..][1..] == [];
    assert run[1..][0] == run[1] && run[1..][1..][0] == run[2] && run[1..][1..][1..][0] == run[3];
    assert O.Runs(peers, s4, []) && O.After(peers, s4, []) == s4;
    assert O.Runs(peers, s3, run[1..][1..][1..]) && O.After(peers, s3, run[1..][1..][1..]) == s4;
    assert O.Runs(peers, s2, run[1..][1..]) && O.After(peers, s2, run[1..][1..]) == s4;
    assert O.Runs(peers, s1, run[1..]) && O.After(peers, s1, run[1..]) == s4;
  }
}
