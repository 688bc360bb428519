/** What the replication protocol promises in every run: one order of execution,
    durable commits, an exact commit counter, agreeing log offsets. */
module ConsensusSafety {
  import opened Options
  import opened EntryLayout
  import opened Bitmaps
  import opened Quorums
  import opened Consensus
  import opened ConsensusInvariant
  import opened ConsensusReplicas

  // -------------------------------------------------------------- the induction

  lemma InitHolds(c: Config)
    requires ValidConfig(c)
    ensures Inv(c, Init(c))
  {
    var s := Init(c);
    forall j | 0 <= j < c.group && j != c.leader
      ensures ReplicaInv(c, s.reqs, s.threads, s.leader.committed, j, s.replicas[j])
    {
    }
  }

  lemma StepKeeps(c: Config, s: State, a: Action)
    requires ValidConfig(c) && Enabled(c, s, a)
    requires Inv(c, s)
    ensures Inv(c, Apply(c, s, a))
  {
    hide Inv;
    match a
    case ReserveA(kind, clt, data, prev) => ReserveKeeps(c, s, kind, clt, data, prev);
    case SnapshotA(i) => SnapshotKeeps(c, s, i);
    case StoreA(i, ok) => if ok { StoreKeeps(c, s, i); } else { StoreFailedKeeps(c, s, i); }
    case PostA(i, connected) => PostKeeps(c, s, i, connected);
    case ScanA(i) => ScanKeeps(c, s, i);
    case SpinA(i) => SpinKeeps(c, s, i);
    case ReadA(i) => ReadKeeps(c, s, i);
    case WriteA(i) => WriteKeeps(c, s, i);
    case LandA(j, i) => LandKeeps(c, s, j, i);
    case LandAckA(j, i) => LandAckKeeps(c, s, j, i);
    case MissA(j) => MissKeeps(c, s, j);
    case AcceptA(j, rest) => AcceptKeeps(c, s, j, rest);
    case ExecuteA(j) => ExecuteKeeps(c, s, j);
  }

  /** Every state of every run satisfies the invariant. */
  lemma {:induction false} InvariantHolds(c: Config, run: seq<State>, k: nat)
    requires ValidConfig(c) && Run(c, run) && k < |run|
    ensures Inv(c, run[k])
  {
    hide Inv;
    if k == 0 {
      InitHolds(c);
    } else {
      InvariantHolds(c, run, k - 1);
      assert Next(c, run[k - 1], run[k]);
      var a: Action :| Enabled(c, run[k - 1], a) && run[k] == Apply(c, run[k - 1], a);
      StepKeeps(c, run[k - 1], a);
    }
  }

  // ------------------------------------------------------ one order of execution

  /** The requests in the order in which the leader gave out view stamps. */
  function LeaderOrder(reqs: seq<Request>): (h: seq<Execution>)
  {
    seq(|reqs|, i requires 0 <= i < |reqs| => Execution(Key(i), Some(RecordOf(reqs[i]))))
  }

  /** A replica has executed exactly the first requests of the leader's order,
      each once and in order, and found every record in its database. */
  lemma ExecutesLeaderOrder(c: Config, run: seq<State>, k: nat, j: nat)
    requires ValidConfig(c) && Run(c, run) && k < |run| && j < c.group && j != c.leader
    ensures j < |run[k].replicas| && |run[k].replicas[j].executed| <= |run[k].reqs|
    ensures run[k].replicas[j].executed == LeaderOrder(run[k].reqs)[..|run[k].replicas[j].executed|]
  {
    hide LogInv, ThreadsInv, LeaderInv, CountedInv, MemInv, AcceptedInv, ExecInv, Run;
    InvariantHolds(c, run, k);
    var s := run[k];
    assert ReplicaInv(c, s.reqs, s.threads, s.leader.committed, j, s.replicas[j]);
    ExecutedOrder(s.reqs, s.threads, s.leader.committed, s.replicas[j]);
  }

  lemma ExecutedOrder(reqs: seq<Request>, threads: seq<Thread>, committed: nat, r: Replica)
    requires |reqs| == |threads| && ExecInv(reqs, threads, committed, r)
    ensures |r.executed| <= |reqs|
    ensures r.executed == LeaderOrder(reqs)[..|r.executed|]
  {
    hide RecordOf, Key;
  }

  lemma StepGrows(c: Config, s: State, a: Action)
    requires Enabled(c, s, a)
    ensures s.reqs <= Apply(c, s, a).reqs
  {
  }

  /** The leader's order only grows. */
  lemma {:induction false} OrderGrows(c: Config, run: seq<State>, k: nat, l: nat)
    requires Run(c, run) && k <= l < |run|
    ensures run[k].reqs <= run[l].reqs
  {
    if k < l {
      OrderGrows(c, run, k, l - 1);
      assert Next(c, run[l - 1], run[l]);
      var a: Action :| Enabled(c, run[l - 1], a) && run[l] == Apply(c, run[l - 1], a);
      StepGrows(c, run[l - 1], a);
    }
  }

  lemma OrderPrefix(reqs: seq<Request>, reqs': seq<Request>)
    requires reqs <= reqs'
    ensures LeaderOrder(reqs) <= LeaderOrder(reqs')
  {
    hide RecordOf, Key;
    assert forall i :: 0 <= i < |reqs| ==> reqs[i] == reqs'[i];
    assert LeaderOrder(reqs) == LeaderOrder(reqs')[..|reqs|];
  }

  /** State machine safety: of two replicas, seen at any two moments of a run, one
      has executed a prefix of what the other has. */
  lemma StateMachineSafety(c: Config, run: seq<State>, k: nat, i: nat, l: nat, j: nat)
    requires ValidConfig(c) && Run(c, run) && k < |run| && l < |run|
    requires i < c.group && i != c.leader && j < c.group && j != c.leader
    ensures i < |run[k].replicas| && j < |run[l].replicas|
    ensures var a, b := run[k].replicas[i].executed, run[l].replicas[j].executed;
            a <= b || b <= a
  {
    ExecutesLeaderOrder(c, run, k, i);
    ExecutesLeaderOrder(c, run, l, j);
    if k <= l { OrderGrows(c, run, k, l); } else { OrderGrows(c, run, l, k); }
    var first, last := if k <= l then run[k] else run[l], if k <= l then run[l] else run[k];
    OrderPrefix(first.reqs, last.reqs);
    hide Run, LeaderOrder;
    var h := LeaderOrder(last.reqs);
    var a, b := run[k].replicas[i].executed, run[l].replicas[j].executed;
    assert a <= h && b <= h;
    assert a == h[..|a|] && b == h[..|b|];
  }

  // ------------------------------------------------------------ durable commits

  /** The nodes whose database holds the record of request `i`. */
  ghost function Holders(c: Config, s: State, i: nat): (nodes: set<nat>)
    requires i < |s.reqs| && |s.replicas| == c.group
    ensures nodes <= Nodes(c.group)
  {
    set n: nat | n < c.group &&
      var db := if n == c.leader then s.leader.db else s.replicas[n].db;
      Key(i) in db && db[Key(i)] == RecordOf(s.reqs[i])
  }

  lemma AcceptedHolds(c: Config, s: State, i: nat, n: nat)
    requires Inv(c, s) && i < |s.reqs| && n < c.group && n != c.leader
    requires i < s.replicas[n].accepted
    ensures n in Holders(c, s, i)
  {
    hide LogInv, ThreadsInv, LeaderInv, CountedInv, MemInv, ExecInv, AcksInv, OffsetInv, RecordOf, Key;
    assert ReplicaInv(c, s.reqs, s.threads, s.leader.committed, n, s.replicas[n]);
  }

  lemma FilledHolds(c: Config, s: State, i: nat)
    requires Inv(c, s) && i < |s.reqs| && Filled(s.threads[i].pc) && c.leader < c.group
    ensures c.leader in Holders(c, s, i)
  {
    hide LogInv, ThreadsInv, ReplicaInv, CountedInv, RecordOf, Key, SlotInv, Reads;
    assert LeaderEntryInv(c, s, i);
  }

  lemma CountedFact(c: Config, s: State, i: nat)
    requires Inv(c, s) && i < |s.reqs| && Filled(s.threads[i].pc)
    ensures |s.replicas| == c.group && |s.threads| == |s.reqs|
    ensures forall k: nat :: HasBit(s.threads[i].bitmap, k) ==> MayCount(c, s.replicas, i, k)
  {
    hide LogInv, ThreadsInv, LeaderInv, ReplicaInv, MayCount;
    assert CountedInv(c, s.replicas, i, s.threads[i]);
  }

  /** The population count of the bitmap of a request is the number of nodes counted,
      however often the recheck loop has run.  Each of them holds the record, except
      that node 0 may be counted for another holder than the leader. */
  lemma BitmapCounts(c: Config, s: State, i: nat)
    requires ValidConfig(c) && Inv(c, s) && i < |s.reqs| && Filled(s.threads[i].pc)
    ensures Popcount(s.threads[i].bitmap) == |BitsBelow(s.threads[i].bitmap, c.group)|
    ensures BitsBelow(s.threads[i].bitmap, c.group) <= Holders(c, s, i) + {0}
    ensures c.leader in Holders(c, s, i)
    ensures 0 in BitsBelow(s.threads[i].bitmap, c.group) && 0 !in Holders(c, s, i) ==>
              exists j :: j in Holders(c, s, i) && j != c.leader && j != 0
  {
    hide Inv, Holders;
    CountedFact(c, s, i);
    var t := s.threads[i];
    FilledHolds(c, s, i);
    forall k: nat | HasBit(t.bitmap, k)
      ensures k < c.group && (k in Holders(c, s, i) || (k == 0 && exists j :: j in Holders(c, s, i) && j != c.leader))
    {
      if k != c.leader { CountedHolds(c, s, i, k); }
    }
    PopcountCounts(t.bitmap, c.group);
  }

  lemma CountedHolds(c: Config, s: State, i: nat, k: nat)
    requires ValidConfig(c) && Inv(c, s) && i < |s.reqs| && |s.replicas| == c.group
    requires MayCount(c, s.replicas, i, k) && k != c.leader
    ensures k < c.group
    ensures k in Holders(c, s, i) || (k == 0 && exists j :: j in Holders(c, s, i) && j != c.leader)
  {
    hide Inv, Holders;
    if k < |s.replicas| && i < s.replicas[k].accepted {
      AcceptedHolds(c, s, i, k);
    } else {
      var j :| 0 <= j < |s.replicas| && j != c.leader && i < s.replicas[j].accepted;
      AcceptedHolds(c, s, i, j);
    }
  }

  /** The groups in which counting node 0 for somebody else cannot make up a quorum. */
  predicate DurableConfig(c: Config)
  {
    c.leader == 0 || c.group <= 3
  }

  /** From who is counted to how many hold. */
  lemma QuorumHolds(group: nat, leader: nat, bits: set<nat>, holders: set<nat>)
    requires |bits| >= group / 2 + 1 && bits <= holders + {0} && leader in holders && holders <= Nodes(group)
    requires 0 in bits && 0 !in holders ==> exists j :: j in holders && j != leader && j != 0
    ensures |holders| >= group / 2
    ensures leader == 0 || group <= 3 ==> IsMajority(group, holders)
  {
    SubsetSize(bits - {0}, holders);
    if bits <= holders {
      SubsetSize(bits, holders);
    } else if group <= 3 {
      var j :| j in holders && j != leader && j != 0;
      SubsetSize({leader, j}, holders);
    }
  }

  lemma CommittedHeld(c: Config, s: State, i: nat)
    requires ValidConfig(c) && Inv(c, s) && i < s.leader.committed
    ensures i < |s.reqs| && |s.replicas| == c.group
    ensures |Holders(c, s, i)| >= c.group / 2
    ensures DurableConfig(c) ==> IsMajority(c.group, Holders(c, s, i))
  {
    hide LogInv, LeaderInv, ReplicaInv, CountedInv, Holders, BitsBelow;
    assert ThreadInv(c, s.threads[i], i, s.leader.committed);
    BitmapCounts(c, s, i);
    QuorumHolds(c.group, c.leader, BitsBelow(s.threads[i].bitmap, c.group), Holders(c, s, i));
  }

  /** Every request below the commit counter, and every request that some replica
      has executed, is in the databases of all but one of a majority; of a majority
      if the leader is node 0 or the group has at most three nodes. */
  lemma DurableCommit(c: Config, run: seq<State>, k: nat, i: nat, j: nat)
    requires ValidConfig(c) && Run(c, run) && k < |run|
    requires |run[k].replicas| == c.group && j < c.group && j != c.leader
    requires i < run[k].leader.committed || i < |run[k].replicas[j].executed|
    ensures i < |run[k].reqs| && |Holders(c, run[k], i)| >= c.group / 2
    ensures DurableConfig(c) ==> IsMajority(c.group, Holders(c, run[k], i))
  {
    InvariantHolds(c, run, k);
    var s := run[k];
    ExecutedCommitted(c, s, j);
    hide Inv, Run;
    CommittedHeld(c, s, i);
  }

  lemma ExecutedCommitted(c: Config, s: State, j: nat)
    requires Inv(c, s) && j < c.group && j != c.leader
    ensures |s.replicas[j].executed| <= s.leader.committed
  {
    hide LogInv, ThreadsInv, LeaderInv, CountedInv, MemInv, AcceptedInv, RecordOf, Key;
    assert ReplicaInv(c, s.reqs, s.threads, s.leader.committed, j, s.replicas[j]);
  }

  /** So no majority of nodes can lose a committed or executed request. */
  lemma MajorityHolds(c: Config, run: seq<State>, k: nat, i: nat, j: nat, nodes: set<nat>)
    requires ValidConfig(c) && Run(c, run) && k < |run|
    requires |run[k].replicas| == c.group && j < c.group && j != c.leader
    requires i < run[k].leader.committed || i < |run[k].replicas[j].executed|
    requires DurableConfig(c) && IsMajority(c.group, nodes)
    ensures i < |run[k].reqs|
    ensures exists n :: n in nodes && n in Holders(c, run[k], i)
  {
    DurableCommit(c, run, k, i, j);
    MajoritiesMeet(c.group, nodes, Holders(c, run[k], i));
  }

  // -------------------------------------------------------- the commit counter

  /** The unlocked update needs no lock: a step of a run leaves the counter alone,
      or the thread that owns the next request, having seen a quorum, moves it by
      exactly one. */
  lemma CounterStep(c: Config, run: seq<State>, k: nat, a: Action)
    requires ValidConfig(c) && Run(c, run) && k + 1 < |run|
    requires Enabled(c, run[k], a) && run[k + 1] == Apply(c, run[k], a)
    ensures !a.WriteA? ==> run[k + 1].leader.committed == run[k].leader.committed
    ensures a.WriteA? ==>
              && run[k].leader.committed == a.i
              && run[k + 1].leader.committed == a.i + 1
              && a.i < |run[k].threads| == |run[k + 1].threads|
              && ReachedQuorum(run[k].threads[a.i].bitmap, c.group)
              && run[k + 1].threads == run[k].threads[a.i := run[k].threads[a.i].(pc := Committed)]
  {
    InvariantHolds(c, run, k);
    hide Run, LogInv, LeaderInv, ReplicaInv, CountedInv;
    if a.WriteA? {
      assert ThreadInv(c, run[k].threads[a.i], a.i, run[k].leader.committed);
    }
  }

  /** A request is below the counter exactly when its thread has committed it, so
      the counter never passes a request whose store failed at the leader. */
  lemma CounterExact(c: Config, run: seq<State>, k: nat, i: nat)
    requires ValidConfig(c) && Run(c, run) && k < |run| && i < |run[k].threads|
    ensures i < run[k].leader.committed <==> run[k].threads[i].pc.Committed?
    ensures run[k].threads[i].pc.StoreFailed? ==> run[k].leader.committed <= i
  {
    InvariantHolds(c, run, k);
    hide Run, LogInv, LeaderInv, ReplicaInv, CountedInv;
    assert ThreadInv(c, run[k].threads[i], i, run[k].leader.committed);
  }

  lemma FailedStays(c: Config, s: State, a: Action, i: nat)
    requires Enabled(c, s, a) && i < |s.threads| && s.threads[i].pc.StoreFailed?
    ensures i < |Apply(c, s, a).threads| && Apply(c, s, a).threads[i].pc.StoreFailed?
  {
  }

  /** A failed store blocks its request for ever: no later state passes it. */
  lemma {:induction false} FailedForEver(c: Config, run: seq<State>, k: nat, l: nat, i: nat)
    requires ValidConfig(c) && Run(c, run) && k <= l < |run|
    requires i < |run[k].threads| && run[k].threads[i].pc.StoreFailed?
    ensures i < |run[l].threads| && run[l].threads[i].pc.StoreFailed? && run[l].leader.committed <= i
  {
    hide Enabled;
    if k < l {
      FailedForEver(c, run, k, l - 1, i);
      assert Next(c, run[l - 1], run[l]);
      var a: Action :| Enabled(c, run[l - 1], a) && run[l] == Apply(c, run[l - 1], a);
      FailedStays(c, run[l - 1], a, i);
    }
    CounterExact(c, run, l, i);
  }

  // -------------------------------------------------------- the piggybacked commit

  /** The commit point on a posted entry is committed and strictly below the entry. */
  lemma PiggybackBelow(c: Config, run: seq<State>, k: nat, j: nat, i: nat)
    requires ValidConfig(c) && Run(c, run) && k < |run|
    requires |run[k].replicas| == c.group && j < c.group && j != c.leader && i in run[k].replicas[j].inbox
    ensures i < |run[k].threads|
    ensures run[k].threads[i].canExec <= run[k].leader.committed
    ensures run[k].threads[i].canExec < i + 1
  {
    InvariantHolds(c, run, k);
    var s := run[k];
    hide Run, LogInv, LeaderInv, CountedInv, AcceptedInv, ExecInv, MemInv;
    assert ReplicaInv(c, s.reqs, s.threads, s.leader.committed, j, s.replicas[j]);
    WireFilled(c, s.reqs, s.threads, j, s.replicas[j], i);
    ThreadFact(c, s, i);
  }

  /** A replica executes only what it has stored: at most the entries before the
      last one it accepted, never one that is missing from its database. */
  lemma ExecutesStored(c: Config, run: seq<State>, k: nat, j: nat, e: nat)
    requires ValidConfig(c) && Run(c, run) && k < |run|
    requires |run[k].replicas| == c.group && j < c.group && j != c.leader
    requires e < |run[k].replicas[j].executed|
    ensures e < run[k].replicas[j].accepted
    ensures run[k].replicas[j].executed[e].record.Some?
    ensures run[k].replicas[j].executed[e].key in run[k].replicas[j].db
    ensures run[k].replicas[j].executed[e].record.value == run[k].replicas[j].db[run[k].replicas[j].executed[e].key]
  {
    InvariantHolds(c, run, k);
    var s := run[k];
    hide Run, LogInv, ThreadsInv, LeaderInv, CountedInv, MemInv, AcksInv, OffsetInv, RecordOf, Key;
    assert ReplicaInv(c, s.reqs, s.threads, s.leader.committed, j, s.replicas[j]);
  }

  /** A replica that has dealt with a request has executed the request its caller
      submitted before: the NOP behind a CLOSE carries the CLOSE through. */
  lemma PredecessorExecuted(c: Config, run: seq<State>, k: nat, j: nat, i: nat)
    requires ValidConfig(c) && Run(c, run) && k < |run|
    requires |run[k].replicas| == c.group && j < c.group && j != c.leader
    requires i < run[k].replicas[j].accepted && run[k].replicas[j].work.Polling?
    ensures i < |run[k].reqs|
    ensures run[k].reqs[i].prev <= |run[k].replicas[j].executed|
  {
    InvariantHolds(c, run, k);
    var s, r := run[k], run[k].replicas[j];
    hide Run, LogInv, LeaderInv, CountedInv, MemInv, AcksInv, OffsetInv, RecordOf, Key;
    assert ReplicaInv(c, s.reqs, s.threads, s.leader.committed, j, r);
    assert CallerInv(s.reqs, s.threads, i);
    WireFilled(c, s.reqs, s.threads, j, r, i);
    var prev := s.reqs[i].prev;
    if prev > 0 {
      assert prev - 1 in r.inbox;
      WireFilled(c, s.reqs, s.threads, j, r, prev - 1);
    }
  }

  /** Once a thread has read the commit counter, no step touches what it has read. */
  lemma SnapshotStep(c: Config, s: State, a: Action, i: nat)
    requires Enabled(c, s, a) && i < |s.threads|
    ensures var s' := Apply(c, s, a);
            && i < |s'.threads|
            && (!s.threads[i].pc.Reserved? ==>
                  !s'.threads[i].pc.Reserved? && s'.threads[i].canExec == s.threads[i].canExec)
            && (s.threads[i].pc.Reserved? && !s'.threads[i].pc.Reserved? ==>
                  s'.threads[i].canExec == s.leader.committed)
  {
    hide Write, PollAt;
  }

  lemma {:induction false} SnapshotStays(c: Config, run: seq<State>, k: nat, l: nat, i: nat)
    requires Run(c, run) && k < l < |run| && i < |run[k].threads| && run[k].threads[i].pc.Reserved?
    requires i < |run[k + 1].threads| && !run[k + 1].threads[i].pc.Reserved?
    ensures i < |run[l].threads| && !run[l].threads[i].pc.Reserved?
    ensures run[l].threads[i].canExec == run[k].leader.committed
    decreases l
  {
    hide Enabled, Apply;
    var m := l - 1;
    assert Next(c, run[m], run[m + 1]);
    var a: Action :| Enabled(c, run[m], a) && run[l] == Apply(c, run[m], a);
    if k < m { SnapshotStays(c, run, k, m, i); }
    SnapshotStep(c, run[m], a, i);
  }

  /** The entry of a request carries through whatever was committed when its thread took
      the snapshot: a replica that is done with it has executed all of that. */
  lemma SnapshotExecuted(c: Config, run: seq<State>, k: nat, l: nat, j: nat, i: nat)
    requires ValidConfig(c) && Run(c, run) && k < l < |run| && i < |run[k].threads| && run[k].threads[i].pc.Reserved?
    requires i < |run[k + 1].threads| && !run[k + 1].threads[i].pc.Reserved?
    requires |run[l].replicas| == c.group && j < c.group && j != c.leader
    requires i < run[l].replicas[j].accepted && run[l].replicas[j].work.Polling?
    ensures run[k].leader.committed <= |run[l].replicas[j].executed|
  {
    SnapshotStays(c, run, k, l, i);
    InvariantHolds(c, run, l);
    var s := run[l];
    hide Run, LogInv, LeaderInv, CountedInv, MemInv, AcceptedInv, RecordOf, Key;
    assert ReplicaInv(c, s.reqs, s.threads, s.leader.committed, j, s.replicas[j]);
  }

  /** The entry that a replica finds names the leader, to which it acknowledges. */
  lemma SenderRead(c: Config, run: seq<State>, k: nat, j: nat)
    requires ValidConfig(c) && Run(c, run) && k < |run| && |run[k].replicas| == c.group && j < c.group && j != c.leader
    requires |run[k].replicas[j].mem| == LOG_SIZE && run[k].replicas[j].end <= LOG_SIZE
    requires Complete(run[k].replicas[j].mem, PollAt(run[k].replicas[j]))
    ensures Load32(run[k].replicas[j].mem, PollAt(run[k].replicas[j]) + 184) == c.leader
  {
    hide Run, ThreadsInv, LeaderInv, CountedInv, ExecInv, MemInv, AcceptedInv, Packed, Complete, Load32, ReadsEntry;
    hide PollAt;
    InvariantHolds(c, run, k);
    var s, r := run[k], run[k].replicas[j];
    assert ReplicaInv(c, s.reqs, s.threads, s.leader.committed, j, r);
    AcceptReads(c, s.reqs, s.threads, j, r);
  }

  // ------------------------------------------------------------------ log offsets

  /** The sum of the lengths of the first `i` entries. */
  function Start(reqs: seq<Request>, i: nat): (n: nat)
    requires i <= |reqs|
  {
    if i == 0 then 0 else Start(reqs, i - 1) + Len(reqs[i - 1])
  }

  lemma {:induction false} PackedStart(reqs: seq<Request>, i: nat)
    requires Packed(reqs) && i < |reqs|
    ensures reqs[i].at == reqs[i].tail == Start(reqs, i)
  {
    if i > 0 { PackedStart(reqs, i - 1); }
  }

  /** Entry `i` starts at the sum of the lengths before it, where the leader builds
      it and where it is posted to; behind the last entry lies `end`. */
  lemma LeaderOffsets(c: Config, run: seq<State>, k: nat, i: nat)
    requires ValidConfig(c) && Run(c, run) && k < |run| && i < |run[k].reqs|
    ensures run[k].reqs[i].at == run[k].reqs[i].tail == Start(run[k].reqs, i)
    ensures run[k].leader.end == Start(run[k].reqs, |run[k].reqs|)
    ensures run[k].leader.tail + Len(run[k].reqs[|run[k].reqs| - 1]) == run[k].leader.end
  {
    InvariantHolds(c, run, k);
    hide Run, ThreadsInv, LeaderInv, ReplicaInv, CountedInv;
    PackedStart(run[k].reqs, i);
    PackedStart(run[k].reqs, |run[k].reqs| - 1);
  }

  /** A replica that has taken `m` entries stands at the same offsets as the leader
      did when it had handed out `m`; before the first, `end` means empty. */
  lemma ReplicaOffsets(c: Config, run: seq<State>, k: nat, j: nat)
    requires ValidConfig(c) && Run(c, run) && k < |run|
    requires |run[k].replicas| == c.group && j < c.group && j != c.leader
    ensures var r, reqs := run[k].replicas[j], run[k].reqs;
            && r.accepted <= |reqs|
            && PollAt(r) == Start(reqs, r.accepted)
            && (r.accepted > 0 ==> r.end == Start(reqs, r.accepted) && r.tail == Start(reqs, r.accepted - 1)
                                   && r.tail + Len(reqs[r.accepted - 1]) == r.end)
  {
    hide Run, ThreadsInv, LeaderInv, CountedInv, MemInv, ExecInv, StoredInv, AcksInv, Packed;
    InvariantHolds(c, run, k);
    var s, r := run[k], run[k].replicas[j];
    assert ReplicaInv(c, s.reqs, s.threads, s.leader.committed, j, r);
    AcceptedBelow(s.reqs, j, r);
    PollsNext(s.reqs, j, r);
    if r.accepted > 0 { PackedStart(s.reqs, r.accepted - 1); }
    if r.accepted < |s.reqs| { PackedStart(s.reqs, r.accepted); }
  }

  lemma PackedSlotsApart(reqs: seq<Request>, i: nat, j: nat, k: nat, m: nat)
    requires Packed(reqs) && i < |reqs| && k < |reqs| && j < MAX_SERVER_COUNT && m < MAX_SERVER_COUNT
    requires i != k || j != m
    ensures var a, b := reqs[i].tail + ACK_SIZE * j, reqs[k].tail + ACK_SIZE * m;
            a + ACK_SIZE <= b || b + ACK_SIZE <= a
    ensures var a := reqs[i].tail + ACK_SIZE * j;
            && reqs[i].tail <= a && a + ACK_SIZE <= reqs[i].tail + ACKS_SIZE
            && (a + ACK_SIZE <= reqs[k].tail + ACKS_SIZE || reqs[k].tail + Len(reqs[k]) <= a)
  {
    if i != k { EntriesApart(reqs, i, k); }
  }

  /** In every state of every run, acknowledgement slots of different replicas or
      entries do not overlap, and none reaches into a body. */
  lemma SlotsApart(c: Config, run: seq<State>, n: nat, i: nat, j: nat, k: nat, m: nat)
    requires ValidConfig(c) && Run(c, run) && n < |run|
    requires i < |run[n].reqs| && k < |run[n].reqs| && j < MAX_SERVER_COUNT && m < MAX_SERVER_COUNT
    requires i != k || j != m
    ensures var reqs := run[n].reqs;
            var a, b := reqs[i].tail + ACK_SIZE * j, reqs[k].tail + ACK_SIZE * m;
            && (a + ACK_SIZE <= b || b + ACK_SIZE <= a)
            && reqs[i].tail <= a && a + ACK_SIZE <= reqs[i].tail + ACKS_SIZE
            && (a + ACK_SIZE <= reqs[k].tail + ACKS_SIZE || reqs[k].tail + Len(reqs[k]) <= a)
  {
    hide Run, ThreadsInv, LeaderInv, ReplicaInv, CountedInv, Packed;
    InvariantHolds(c, run, n);
    PackedSlotsApart(run[n].reqs, i, j, k, m);
  }

  // ----------------------------------------------------------------- memory safety

  /** No access of a run leaves the log buffer: every reserved entry lies inside it,
      so do all bytes still to land, and what a successful poll points to. */
  lemma StaysInBuffer(c: Config, run: seq<State>, k: nat, j: nat)
    requires ValidConfig(c) && Run(c, run) && k < |run|
    requires |run[k].replicas| == c.group && j < c.group && j != c.leader
    ensures |run[k].replicas[j].mem| == LOG_SIZE && run[k].replicas[j].end <= LOG_SIZE
    ensures forall i :: 0 <= i < |run[k].threads| ==> CanBuild(run[k], i)
    ensures forall i :: i in run[k].replicas[j].inbox ==>
              run[k].replicas[j].inbox[i].at + |run[k].replicas[j].inbox[i].bytes| <= LOG_SIZE
    ensures forall i :: i in run[k].replicas[j].acks ==>
              run[k].replicas[j].acks[i].at + |run[k].replicas[j].acks[i].bytes| <= |run[k].leader.mem|
    ensures Complete(run[k].replicas[j].mem, PollAt(run[k].replicas[j])) && run[k].replicas[j].work.Polling? ==>
              CanAccept(run[k].replicas[j])
  {
    InvariantHolds(c, run, k);
    var s, r := run[k], run[k].replicas[j];
    hide Run, ThreadsInv, CountedInv, LeaderEntryInv, ExecInv, StoredInv, Complete, Landed, ZeroFrom;
    hide Packed, Body, AckBytes;
    assert ReplicaInv(c, s.reqs, s.threads, s.leader.committed, j, r);
    Roomy(s.reqs);
    forall i | 0 <= i < |s.reqs| ensures CanBuild(s, i) {
      EntryInside(s.reqs, i);
      PackedAt(s.reqs, i);
    }
    forall i | i in r.inbox ensures r.inbox[i].at + |r.inbox[i].bytes| <= LOG_SIZE {
      assert WireInv(c, s.reqs, s.threads, j, i, r.inbox[i]);
      EntryInside(s.reqs, i);
    }
    forall i | i in r.acks ensures r.acks[i].at + |r.acks[i].bytes| <= |s.leader.mem| {
      assert AckInv(s.reqs, j, i, r.acks[i]);
      EntryInside(s.reqs, i);
    }
    if Complete(r.mem, PollAt(r)) {
      AcceptReads(c, s.reqs, s.threads, j, r);
    }
  }
}
