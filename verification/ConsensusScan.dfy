/** What a round of the recheck loop counts, for every thread in every state of a run. */
module ConsensusScan {
  import opened Bytes
  import opened ViewStamps
  import opened EntryLayout
  import opened Bitmaps
  import opened Quorums
  import opened Consensus
  import opened ConsensusInvariant
  import opened ConsensusSafety

  ghost function Last(run: seq<State>): (s: State)
  {
    if run == [] then Init(Config(1, 0)) else run[|run| - 1]
  }

  lemma Extend(c: Config, run: seq<State>, a: Action) returns (run': seq<State>)
    requires Run(c, run) && Enabled(c, Last(run), a)
    ensures Run(c, run') && run <= run' && Last(run') == Apply(c, Last(run), a)
  {
    run' := run + [Apply(c, Last(run), a)];
    hide Enabled, Apply;
    forall k | 0 <= k < |run'| - 1 ensures Next(c, run'[k], run'[k + 1]) {
      if k < |run| - 1 { assert Next(c, run[k], run[k + 1]); }
    }
  }

  lemma RunNotEmpty(c: Config, run: seq<State>)
    requires Run(c, run)
    ensures |run| > 0
  {
    hide Next, Init;
  }

  /** What every run gives: the entry of a request can be built, and stays in its buffer. */
  lemma InBuffer(c: Config, run: seq<State>, i: nat)
    requires ValidConfig(c) && Run(c, run) && i < |Last(run).threads|
    ensures Inv(c, Last(run)) && CanBuild(Last(run), i)
  {
    InvariantHolds(c, run, |run| - 1);
    BuildRoom(c, Last(run), i);
  }

  lemma BuildRoom(c: Config, s: State, i: nat)
    requires Inv(c, s) && i < |s.threads|
    ensures CanBuild(s, i)
  {
    hide ThreadsInv, CountedInv, ReplicaInv, LeaderEntryInv, ZeroFrom;
    EntryInside(s.reqs, i);
    PackedAt(s.reqs, i);
  }

  // ------------------------------------------------------------------- one round

  /** The bits that the slots below `n` of the entry at `at` give rise to. */
  ghost predicate RoundTo(mem: seq<byte>, at: nat, stamp: ViewStamp, before: nat, after: nat, n: nat)
    requires n <= MAX_SERVER_COUNT && at + ACKS_SIZE <= |mem|
  {
    forall k: nat :: HasBit(after, k) <==>
      HasBit(before, k) || exists m :: 0 <= m < n && k in Counted(mem, at + ACK_SIZE * m, stamp)
  }

  lemma RoundNext(mem: seq<byte>, at: nat, stamp: ViewStamp, before: nat, word: nat, word': nat, n: nat)
    requires n < MAX_SERVER_COUNT && at + ACKS_SIZE <= |mem| && RoundTo(mem, at, stamp, before, word, n)
    requires var slot := at + ACK_SIZE * n;
             word' == if LoadStamp(mem, slot) == stamp then OrBit(word, Load32(mem, slot + 8)) else word
    ensures RoundTo(mem, at, stamp, before, word', n + 1)
  {
    var slot := at + ACK_SIZE * n;
    forall k: nat ensures HasBit(word', k) <==> HasBit(word, k) || k in Counted(mem, slot, stamp) {
      OrBitSets(word, Load32(mem, slot + 8), k);
    }
    hide HasBit, OrBit, LoadStamp, Load32, Counted;
  }

  /** Only thread `i` differs, and it has kept its snapshot. */
  ghost predicate OnlyThread(s: State, s': State, i: nat)
    requires i < |s.threads|
  {
    && |s'.threads| == |s.threads| && s' == s.(threads := s.threads[i := s'.threads[i]])
    && s'.threads[i].canExec == s.threads[i].canExec
  }

  lemma {:induction false} ScanTo(c: Config, run: seq<State>, i: nat, n: nat) returns (run': seq<State>)
    requires ValidConfig(c) && Run(c, run) && i < |Last(run).threads| && Last(run).threads[i].pc == Scanning(0)
    requires n <= MAX_SERVER_COUNT
    ensures Run(c, run') && run <= run' && CanBuild(Last(run), i) && OnlyThread(Last(run), Last(run'), i)
    ensures Last(run').threads[i].pc == Scanning(n) && Last(run).reqs[i].at + ACKS_SIZE <= |Last(run).leader.mem|
    ensures RoundTo(Last(run).leader.mem, Last(run).reqs[i].at, StampOf(i), Last(run).threads[i].bitmap,
                    Last(run').threads[i].bitmap, n)
  {
    hide Run, Inv, HasBit, LoadStamp, Load32, OrBit;
    InBuffer(c, run, i);
    if n == 0 {
      run' := run;
    } else {
      var m := n - 1;
      var mid := ScanTo(c, run, i, m);
      InBuffer(c, mid, i);
      run' := Extend(c, mid, ScanA(i));
      hide RoundTo, Counted;
      RoundNext(Last(run).leader.mem, Last(run).reqs[i].at, StampOf(i), Last(run).threads[i].bitmap,
                Last(mid).threads[i].bitmap, Last(run').threads[i].bitmap, m);
    }
  }

  /** From every state of every run, a round of scan steps of a thread adds exactly the
      senders that the slots with the stamp of its own request name, keeps every earlier
      bit, and ends in the spin if that makes a quorum and at the first slot if not. */
  lemma ScanRound(c: Config, run: seq<State>, i: nat) returns (run': seq<State>)
    requires ValidConfig(c) && Run(c, run) && i < |Last(run).threads| && Last(run).threads[i].pc == Scanning(0)
    ensures Run(c, run') && run <= run' && CanBuild(Last(run), i) && OnlyThread(Last(run), Last(run'), i)
    ensures Last(run).reqs[i].at + ACKS_SIZE <= |Last(run).leader.mem|
    ensures RoundTo(Last(run).leader.mem, Last(run).reqs[i].at, StampOf(i), Last(run).threads[i].bitmap,
                    Last(run').threads[i].bitmap, MAX_SERVER_COUNT)
    ensures Last(run').threads[i].pc ==
              if ReachedQuorum(Last(run').threads[i].bitmap, c.group) then Spinning else Scanning(0)
  {
    hide Run, Inv, RoundTo, ReachedQuorum;
    var mid := ScanTo(c, run, i, MAX_SERVER_COUNT);
    InBuffer(c, mid, i);
    run' := Extend(c, mid, ScanA(i));
  }

  // ---------------------------------------------------------------- what it counts

  /** What lies in the slot of node `j` for request `i`. */
  lemma SlotHolds(c: Config, s: State, i: nat, j: nat)
    requires ValidConfig(c) && j < c.group && j != c.leader && Inv(c, s) && i < |s.reqs|
    requires j < |s.replicas| && i in s.replicas[j].acks
    ensures var w := s.replicas[j].acks[i];
            && |w.bytes| == ACK_SIZE && w.bytes == AckBytes(StampOf(i), j, w.bytes[12..])
            && AckLanded(s.leader.mem, s.reqs[i].at + ACK_SIZE * j, w.bytes, w.landed)
  {
    hide Inv, AckBytes;
    SlotOf(c, s, i, j);
    AckOfReplica(c, s, i, j);
  }

  /** Who an acknowledgement is counted for once its stamp has landed. */
  function CountedAs(j: nat, landed: nat): (k: nat)
  {
    if landed >= 9 then j else 0
  }

  lemma AckCounted(c: Config, s: State, i: nat, j: nat)
    requires ValidConfig(c) && j < c.group && j != c.leader && Inv(c, s) && i < |s.reqs|
    requires j < |s.replicas| && i in s.replicas[j].acks && s.replicas[j].acks[i].landed >= 8
    requires s.reqs[i].at + ACKS_SIZE <= |s.leader.mem|
    ensures CountedAs(j, s.replicas[j].acks[i].landed) in Counted(s.leader.mem, s.reqs[i].at + ACK_SIZE * j, StampOf(i))
  {
    hide Inv, AckBytes, LoadStamp, Load32, AckLanded;
    SlotHolds(c, s, i, j);
    var w := s.replicas[j].acks[i];
    TornAck(s.leader.mem, s.reqs[i].at + ACK_SIZE * j, StampOf(i), j, w.bytes[12..], w.landed);
  }

  /** The acknowledgement of request `i` by node `j` has landed up to its stamp. */
  predicate Stamped(s: State, i: nat, j: nat)
  {
    j < |s.replicas| && i in s.replicas[j].acks && s.replicas[j].acks[i].landed >= 8
  }

  /** After a round every acknowledgement whose stamp has landed is counted, for its
      sender once that has landed too. */
  lemma RoundCounts(c: Config, s: State, i: nat, j: nat, before: nat, after: nat)
    requires ValidConfig(c) && j < c.group && j != c.leader && Inv(c, s) && i < |s.reqs| && Stamped(s, i, j)
    requires s.reqs[i].at + ACKS_SIZE <= |s.leader.mem|
    requires RoundTo(s.leader.mem, s.reqs[i].at, StampOf(i), before, after, MAX_SERVER_COUNT)
    ensures HasBit(after, CountedAs(j, s.replicas[j].acks[i].landed))
  {
    hide Inv, HasBit, Counted;
    AckCounted(c, s, i, j);
  }

  /** In every state of every run: if the acknowledgements of a set of nodes have landed
      beyond the sender, a round counts all of them; and if they are a quorum with the
      leader, the thread goes on to the spin. */
  lemma QuorumSeen(c: Config, run: seq<State>, i: nat, nodes: set<nat>) returns (run': seq<State>)
    requires ValidConfig(c) && Run(c, run) && i < |Last(run).threads| && Last(run).threads[i].pc == Scanning(0)
    requires nodes <= Nodes(c.group) && c.leader !in nodes
    requires forall j :: j in nodes ==> Stamped(Last(run), i, j) && Last(run).replicas[j].acks[i].landed >= 9
    ensures Run(c, run') && run <= run' && OnlyThread(Last(run), Last(run'), i)
    ensures forall k: nat :: k in nodes || k == c.leader || HasBit(Last(run).threads[i].bitmap, k) ==>
              HasBit(Last(run').threads[i].bitmap, k)
    ensures |nodes| >= c.group / 2 ==> Last(run').threads[i].pc == Spinning
  {
    hide Run, Inv, HasBit, ReachedQuorum, Counted, Nodes;
    run' := ScanRound(c, run, i);
    InBuffer(c, run, i);
    InBuffer(c, run', i);
    var s, s' := Last(run), Last(run');
    forall j | j in nodes ensures HasBit(s'.threads[i].bitmap, j) {
      InGroup(nodes, c.group, j);
      RoundCounts(c, s, i, j, s.threads[i].bitmap, s'.threads[i].bitmap);
    }
    RunNotEmpty(c, run');
    LeaderCounted(c, run', |run'| - 1, i);
    if |nodes| >= c.group / 2 { AllCounted(c, s', i, nodes); }
  }

  lemma InGroup(nodes: set<nat>, group: nat, j: nat)
    requires nodes <= Nodes(group) && j in nodes
    ensures j < group
  {
  }

  lemma LeaderBitStep(c: Config, s: State, a: Action, i: nat)
    requires Enabled(c, s, a) && i < |Apply(c, s, a).threads|
    requires i < |s.threads| && Filled(s.threads[i].pc) ==> HasBit(s.threads[i].bitmap, c.leader)
    ensures Filled(Apply(c, s, a).threads[i].pc) ==> HasBit(Apply(c, s, a).threads[i].bitmap, c.leader)
  {
    hide HasBit, OrBit, Write, PollAt, LoadStamp, Load32;
    if a.StoreA? { OrBitSets(0, c.leader, c.leader); }
    if a.ScanA? && s.threads[a.i].pc.slot < MAX_SERVER_COUNT {
      var t, slot := s.threads[a.i], s.reqs[a.i].at + ACK_SIZE * s.threads[a.i].pc.slot;
      OrBitSets(t.bitmap, Load32(s.leader.mem, slot + 8), c.leader);
    }
  }

  /** In every run, a thread that has stored its request has counted the leader. */
  lemma {:induction false} LeaderCounted(c: Config, run: seq<State>, k: nat, i: nat)
    requires Run(c, run) && k < |run| && i < |run[k].threads| && Filled(run[k].threads[i].pc)
    ensures HasBit(run[k].threads[i].bitmap, c.leader)
  {
    hide HasBit;
    if k > 0 {
      var j := k - 1;
      assert Next(c, run[j], run[j + 1]);
      var a: Action :| Enabled(c, run[j], a) && run[k] == Apply(c, run[j], a);
      hide Run, Enabled, Apply;
      if i < |run[j].threads| && Filled(run[j].threads[i].pc) { LeaderCounted(c, run, j, i); }
      LeaderBitStep(c, run[j], a, i);
    }
  }

  /** With the leader and a set of nodes counted that is large enough there is a quorum. */
  lemma AllCounted(c: Config, s: State, i: nat, nodes: set<nat>)
    requires ValidConfig(c) && Inv(c, s) && i < |s.threads| && i < |s.reqs| && Filled(s.threads[i].pc)
    requires nodes <= Nodes(c.group) && c.leader !in nodes && |nodes| >= c.group / 2
    requires HasBit(s.threads[i].bitmap, c.leader) && forall j :: j in nodes ==> HasBit(s.threads[i].bitmap, j)
    ensures ReachedQuorum(s.threads[i].bitmap, c.group)
  {
    hide Inv, HasBit, Popcount, Nodes, Holders;
    BitmapCounts(c, s, i);
    SubsetSize(nodes + {c.leader}, BitsBelow(s.threads[i].bitmap, c.group));
  }
}
