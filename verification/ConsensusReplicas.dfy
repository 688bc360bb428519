/** The steps of a replica, and of writes landing at the leader, keep the invariant. */
module ConsensusReplicas {
  import opened Bytes
  import opened ViewStamps
  import opened EntryLayout
  import opened Consensus
  import opened ConsensusInvariant

  // -------------------------------------------------- acknowledgements landing

  lemma AckFact(c: Config, s: State, j: nat, i: nat)
    requires Inv(c, s) && j < c.group && j != c.leader && i in s.replicas[j].acks
    ensures AckInv(s.reqs, j, i, s.replicas[j].acks[i])
  {
    hide LogInv, ThreadsInv, LeaderInv, CountedInv, MemInv, ExecInv, AckInv;
    assert ReplicaInv(c, s.reqs, s.threads, s.leader.committed, j, s.replicas[j]);
  }

  lemma LandAckReplica(reqs: seq<Request>, threads: seq<Thread>, committed: nat, j: nat, r: Replica, i: nat)
    requires |reqs| == |threads| && AcceptedInv(reqs, j, r) && ExecInv(reqs, threads, committed, r)
    requires i in r.acks && r.acks[i].landed < |r.acks[i].bytes|
    ensures var r' := r.(acks := r.acks[i := r.acks[i].(landed := r.acks[i].landed + 1)]);
            AcceptedInv(reqs, j, r') && ExecInv(reqs, threads, committed, r')
  {
    hide RecordOf, Key, AckBytes;
  }

  lemma LandAckLeader(c: Config, s: State, j: nat, i: nat)
    requires Inv(c, s) && Enabled(c, s, LandAckA(j, i))
    ensures LeaderInv(c, LandAck(s, j, i))
  {
    hide ThreadsInv, ReplicaInv, CountedInv, LeaderEntryInv, AckBytes;
    var s', w := LandAck(s, j, i), s.replicas[j].acks[i];
    AckFact(c, s, j, i);
    EntryInside(s.reqs, i);
    assert w.at + w.landed < Used(s.reqs);
    forall k | 0 <= k < |s.reqs| ensures LeaderEntryInv(c, s', k) {
      LandAckEntry(c, s, j, i, k);
    }
  }

  lemma LandAckKeeps(c: Config, s: State, j: nat, i: nat)
    requires Inv(c, s) && Enabled(c, s, LandAckA(j, i))
    ensures Inv(c, LandAck(s, j, i))
  {
    hide LogInv, ThreadsInv, LeaderInv, CountedInv, MemInv, AcceptedInv, ExecInv;
    var s', r := LandAck(s, j, i), s.replicas[j];
    assert ReplicaInv(c, s.reqs, s.threads, s.leader.committed, j, r);
    LandAckLeader(c, s, j, i);
    LandAckReplica(s.reqs, s.threads, s.leader.committed, j, r, i);
    MemSame(c, s.reqs, s.threads, j, r, s'.replicas[j]);
    LogSame(s.reqs, s.leader, s'.leader);
    CountedUnmoved(c, s.threads, s.replicas, j, s'.replicas[j]);
  }

  lemma MemSame(c: Config, reqs: seq<Request>, threads: seq<Thread>, j: nat, r: Replica, r': Replica)
    requires |reqs| == |threads| && MemInv(c, reqs, threads, j, r)
    requires r'.mem == r.mem && r'.inbox == r.inbox
    ensures MemInv(c, reqs, threads, j, r')
  {
    hide Landed, WireInv, ZeroFrom;
    assert forall i :: LandedAt(r', i) == LandedAt(r, i);
  }

  lemma LogSame(reqs: seq<Request>, l: Leader, l': Leader)
    requires LogInv(reqs, l) && l'.seen == l.seen && l'.end == l.end && l'.tail == l.tail
    ensures LogInv(reqs, l')
  {
    hide Packed;
  }

  // ---------------------------------------------------------- polling in vain

  lemma MissKeeps(c: Config, s: State, j: nat)
    requires Inv(c, s) && Enabled(c, s, MissA(j))
    ensures Inv(c, Apply(c, s, MissA(j)))
  {
    hide LogInv, ThreadsInv, LeaderInv, CountedInv, MemInv, AcceptedInv, ExecInv;
    var s', r := Apply(c, s, MissA(j)), s.replicas[j];
    assert ReplicaInv(c, s.reqs, s.threads, s.leader.committed, j, r);
    MissReplica(s.reqs, s.threads, s.leader, j, r);
    MemSame(c, s.reqs, s.threads, j, r, s'.replicas[j]);
    ReplicaMoved(c, s, s', j);
  }

  lemma MissReplica(reqs: seq<Request>, threads: seq<Thread>, l: Leader, j: nat, r: Replica)
    requires |reqs| == |threads| && LogInv(reqs, l)
    requires AcceptedInv(reqs, j, r) && ExecInv(reqs, threads, l.committed, r)
    ensures AcceptedInv(reqs, j, r.(end := PollAt(r)))
    ensures ExecInv(reqs, threads, l.committed, r.(end := PollAt(r)))
  {
    hide Packed, AckInv, RecordOf, Key;
    if r.accepted > 0 {
      AcceptedEnd(reqs, j, r);
    }
  }

  /** A replica that has taken an entry never wraps: a header fits behind it. */
  lemma AcceptedEnd(reqs: seq<Request>, j: nat, r: Replica)
    requires Packed(reqs) && AcceptedInv(reqs, j, r) && r.accepted > 0
    ensures FitsHeader(r.end) && r.end <= LOG_SIZE
  {
    hide AckInv, RecordOf, Key;
    EntryInside(reqs, r.accepted - 1);
  }

  // ------------------------------------------------------------ executing

  lemma ExecuteKeeps(c: Config, s: State, j: nat)
    requires Inv(c, s) && Enabled(c, s, ExecuteA(j))
    ensures Inv(c, Apply(c, s, ExecuteA(j)))
  {
    hide LogInv, ThreadsInv, LeaderInv, CountedInv, MemInv, AcceptedInv, ExecInv;
    var s', r := Apply(c, s, ExecuteA(j)), s.replicas[j];
    assert ReplicaInv(c, s.reqs, s.threads, s.leader.committed, j, r);
    FewRequests(s.reqs, s.leader);
    ExecuteReplica(s.reqs, s.threads, s.leader.committed, j, r);
    MemSame(c, s.reqs, s.threads, j, r, s'.replicas[j]);
    ReplicaMoved(c, s, s', j);
  }

  lemma ExecuteReplica(reqs: seq<Request>, threads: seq<Thread>, committed: nat, j: nat, r: Replica)
    requires |reqs| == |threads| < U32 - 1
    requires AcceptedInv(reqs, j, r) && ExecInv(reqs, threads, committed, r) && r.work.Executing?
    ensures AcceptedInv(reqs, j, Execute(r)) && ExecInv(reqs, threads, committed, Execute(r))
  {
    hide AcceptedInv, ExecInv;
    AcceptedSame(reqs, j, r, Execute(r));
    ExecuteNext(reqs, threads, committed, j, r);
  }

  lemma AcceptedSame(reqs: seq<Request>, j: nat, r: Replica, r': Replica)
    requires AcceptedInv(reqs, j, r)
    requires r' == r.(work := r'.work, executed := r'.executed, committed := r'.committed)
    ensures AcceptedInv(reqs, j, r')
  {
    hide AckInv, RecordOf, Key;
  }

  lemma ExecuteNext(reqs: seq<Request>, threads: seq<Thread>, committed: nat, j: nat, r: Replica)
    requires |reqs| == |threads| < U32 - 1
    requires AcceptedInv(reqs, j, r) && ExecInv(reqs, threads, committed, r) && r.work.Executing?
    ensures ExecInv(reqs, threads, committed, Execute(r))
  {
    hide AcksInv, OffsetInv, RecordOf, ToLong;
    var n, m := |r.executed|, Goal(r);
    LongSuccessor(VIEW, n);
    assert r.work.next == Key(n);
    LongOrder(ViewStamp(VIEW, n + 1), ViewStamp(VIEW, m));
    if n < m {
      assert Key(n) in r.db && r.db[Key(n)] == RecordOf(reqs[n]);
    }
  }

  // ------------------------------------------------------------ accepting

  /** Behind the last reserved entry there is nothing but zeros, so the poll fails. */
  lemma NothingThere(mem: seq<byte>, at: nat)
    requires at + HEADER_SIZE <= |mem| && ZeroFrom(mem, at)
    ensures !Complete(mem, at)
  {
    ZerosReadZero(mem[at + RECORD_AT..at + RECORD_AT + 8]);
  }

  /** The offset polled is the one reserved for the next entry in order. */
  lemma PollsNext(reqs: seq<Request>, j: nat, r: Replica)
    requires Packed(reqs) && AcceptedInv(reqs, j, r)
    ensures r.accepted < |reqs| ==> PollAt(r) == reqs[r.accepted].tail
    ensures r.accepted == |reqs| ==> PollAt(r) == Used(reqs)
  {
    hide AckInv, RecordOf, Key;
    if r.accepted > 0 {
      AcceptedEnd(reqs, j, r);
    }
  }

  /** What a replica takes is the next entry of the leader's order, in full. */
  lemma AcceptsNext(c: Config, reqs: seq<Request>, threads: seq<Thread>, j: nat, r: Replica)
    requires |reqs| == |threads| && |r.mem| == LOG_SIZE && r.end <= LOG_SIZE && Complete(r.mem, PollAt(r))
    requires Packed(reqs)
    requires MemInv(c, reqs, threads, j, r) && AcceptedInv(reqs, j, r)
    ensures r.accepted < |reqs|
    ensures PollAt(r) == reqs[r.accepted].tail
    ensures r.accepted in r.inbox && r.inbox[r.accepted].landed == Len(reqs[r.accepted])
    ensures Reads(r.mem, PollAt(r) + ACKS_SIZE, Body(EntryAt(c, reqs, threads, r.accepted)))
  {
    hide AcceptedInv, WireInv, Complete, Body, Landed, Packed, ZeroFrom;
    PollsNext(reqs, j, r);
    AcceptedBelow(reqs, j, r);
    Roomy(reqs);
    if r.accepted == |reqs| {
      NothingThere(r.mem, PollAt(r));
    } else {
      var i := r.accepted;
      var e := EntryAt(c, reqs, threads, i);
      assert Landed(r.mem, reqs[i].tail, e, LandedAt(r, i));
      EntryInside(reqs, i);
      LandedAtMost(c, reqs, threads, j, r, i);
      TornWrite(r.mem, reqs[i].tail, e, LandedAt(r, i));
      LandedInFull(r.mem, reqs[i].tail, e);
    }
  }

  lemma AcceptedBelow(reqs: seq<Request>, j: nat, r: Replica)
    requires AcceptedInv(reqs, j, r)
    ensures r.accepted <= |reqs|
  {
    hide AcksInv, OffsetInv;
  }

  lemma LandedAtMost(c: Config, reqs: seq<Request>, threads: seq<Thread>, j: nat, r: Replica, i: nat)
    requires |reqs| == |threads| && i < |reqs| && MemInv(c, reqs, threads, j, r)
    ensures LandedAt(r, i) <= Len(reqs[i])
  {
    hide Landed, ZeroFrom;
    assert i in r.inbox ==> WireInv(c, reqs, threads, j, i, r.inbox[i]);
  }

  /** The fields that a replica reads from the entry of request `i` at `at`. */
  ghost predicate ReadsEntry(mem: seq<byte>, at: nat, i: nat, q: Request, canExec: nat)
  {
    && at + Len(q) <= |mem|
    && LoadStamp(mem, at + 168) == StampOf(i)
    && LoadStamp(mem, at + 176) == ViewStamp(VIEW, canExec % U32)
    && EntryLen(Load64(mem, at + RECORD_AT)) == Len(q)
    && mem[at + RECORD_AT..at + Len(q) - 1] == RecordOf(q)
  }

  lemma AcceptReads(c: Config, reqs: seq<Request>, threads: seq<Thread>, j: nat, r: Replica)
    requires |reqs| == |threads| && |r.mem| == LOG_SIZE && r.end <= LOG_SIZE && Complete(r.mem, PollAt(r))
    requires Packed(reqs)
    requires MemInv(c, reqs, threads, j, r) && AcceptedInv(reqs, j, r)
    ensures r.accepted < |reqs|
    ensures ReadsEntry(r.mem, PollAt(r), r.accepted, reqs[r.accepted], threads[r.accepted].canExec)
    ensures Load32(r.mem, PollAt(r) + 184) == c.leader % U32
  {
    hide MemInv, AcceptedInv, Complete, Body, RecordBytes, Load32, Load64, Packed;
    AcceptsNext(c, reqs, threads, j, r);
    EntryInside(reqs, r.accepted);
    Roomy(reqs);
    DecodeEncoded(r.mem, PollAt(r), EntryAt(c, reqs, threads, r.accepted));
  }

  lemma LandedUnderAck(mem: seq<byte>, at: nat, e: Entry, landed: nat, from: nat, bytes: seq<byte>)
    requires Landed(mem, at, e, landed) && from + |bytes| <= |mem|
    requires from + |bytes| <= at + ACKS_SIZE || at + LengthFor(e.data) <= from
    ensures Landed(Write(mem, from, bytes), at, e, landed)
  {
  }

  /** Writing the reply into the entry's slot leaves every body as it is. */
  lemma AcceptMem(c: Config, reqs: seq<Request>, threads: seq<Thread>, j: nat, r: Replica, r': Replica, from: nat,
                  ack: seq<byte>)
    requires |reqs| == |threads| && Packed(reqs) && MemInv(c, reqs, threads, j, r)
    requires r.accepted < |reqs| && |ack| == ACK_SIZE && j < MAX_SERVER_COUNT
    requires from == reqs[r.accepted].tail + ACK_SIZE * j && from + ACK_SIZE <= |r.mem|
    requires r'.mem == Write(r.mem, from, ack) && r'.inbox == r.inbox
    ensures MemInv(c, reqs, threads, j, r')
  {
    EntryInside(reqs, r.accepted);
    hide Packed, Landed, WireInv, Body;
    forall k | 0 <= k < |reqs|
      ensures Landed(r'.mem, reqs[k].tail, EntryAt(c, reqs, threads, k), LandedAt(r', k))
    {
      assert Landed(r.mem, reqs[k].tail, EntryAt(c, reqs, threads, k), LandedAt(r, k));
      if k != r.accepted { EntriesApart(reqs, r.accepted, k); }
      LandedUnderAck(r.mem, reqs[k].tail, EntryAt(c, reqs, threads, k), LandedAt(r, k), from, ack);
    }
  }

  lemma AcceptStores(reqs: seq<Request>, r: Replica, r': Replica)
    requires StoredInv(reqs, r) && |reqs| < U32 - 1 && r.accepted < |reqs|
    requires r.accepted in r.inbox && r.inbox[r.accepted].landed == Len(reqs[r.accepted])
    requires r'.accepted == r.accepted + 1 && r'.inbox == r.inbox
    requires r'.db == r.db[Key(r.accepted) := RecordOf(reqs[r.accepted])]
    ensures StoredInv(reqs, r')
  {
    hide RecordOf, ToLong;
    forall k | 0 <= k < r.accepted ensures Key(k) != Key(r.accepted) { KeysDistinct(k, r.accepted); }
  }

  lemma AcceptAcks(reqs: seq<Request>, j: nat, r: Replica, r': Replica, rest: seq<byte>)
    requires AcksInv(reqs, j, r) && r.accepted < |reqs| && j < MAX_SERVER_COUNT && |rest| == 12
    requires r'.accepted == r.accepted + 1
    requires r'.acks == r.acks[r.accepted := Wire(reqs[r.accepted].tail + ACK_SIZE * j,
                                                  AckBytes(StampOf(r.accepted), j, rest), 0)]
    ensures AcksInv(reqs, j, r')
  {
    var i := r.accepted;
    var w := r'.acks[i];
    assert w.bytes[12..] == rest;
    assert AckInv(reqs, j, i, w);
    hide AckBytes;
    forall k | k in r.acks && k != i ensures AckInv(reqs, j, k, r'.acks[k]) {
      assert AckInv(reqs, j, k, r.acks[k]);
    }
  }

  lemma AcceptOffsets(reqs: seq<Request>, r: Replica, r': Replica)
    requires r.accepted < |reqs| < U32 - 1 && OffsetInv(reqs, r)
    requires reqs[r.accepted].tail + Len(reqs[r.accepted]) <= LOG_SIZE
    requires r'.accepted == r.accepted + 1
    requires r'.tail == reqs[r.accepted].tail && r'.end == reqs[r.accepted].tail + Len(reqs[r.accepted])
    requires r'.seen == (if Compare(StampOf(r.accepted), r.seen) > 0 then StampOf(r.accepted) else r.seen)
    ensures OffsetInv(reqs, r')
  {
  }

  /** The commit point of the new entry decides whether there is more to execute. */
  lemma AcceptSchedules(c: Config, reqs: seq<Request>, threads: seq<Thread>, committed: nat, r: Replica, r': Replica)
    requires |reqs| == |threads| < U32 - 1 && ExecInv(reqs, threads, committed, r) && r.work.Polling?
    requires r.accepted < |reqs| && ThreadInv(c, threads[r.accepted], r.accepted, committed)
    requires !threads[r.accepted].pc.Reserved?
    requires r'.executed == r.executed && r'.committed == r.committed && r'.accepted == r.accepted + 1
    requires var canExec := ViewStamp(VIEW, threads[r.accepted].canExec % U32);
             r'.work == if Compare(canExec, r.committed) > 0
                        then Executing(ToLong(r.committed) + 1, ToLong(canExec), canExec)
                        else Polling
    ensures ExecInv(reqs, threads, committed, r')
  {
    hide ToLong, RecordOf, Key;
  }

  lemma AcceptReplica(c: Config, s: State, j: nat, rest: seq<byte>, r': Replica)
    requires Enabled(c, s, AcceptA(j, rest))
    requires r' == Accept(s.replicas[j], j, rest)
    requires Inv(c, s)
    ensures s.replicas[j].accepted < |s.reqs|
    ensures r'.accepted == s.replicas[j].accepted + 1
    ensures r'.acks == s.replicas[j].acks[s.replicas[j].accepted := r'.acks[s.replicas[j].accepted]]
    ensures r'.acks[s.replicas[j].accepted].landed == 0
    ensures ReplicaInv(c, s.reqs, s.threads, s.leader.committed, j, r')
  {
    hide LeaderInv, CountedInv, MemInv, StoredInv, AcksInv, OffsetInv, ExecInv, Packed, Complete;
    hide RecordOf, Body, ToLong, AckBytes, WireInv, ThreadsInv, ThreadInv, Load32, Load64, EntryLen, Compare;
    var r := s.replicas[j];
    var i := r.accepted;
    assert ReplicaInv(c, s.reqs, s.threads, s.leader.committed, j, r);
    AcceptsNext(c, s.reqs, s.threads, j, r);
    AcceptReads(c, s.reqs, s.threads, j, r);
    FewRequests(s.reqs, s.leader);
    AcceptMem(c, s.reqs, s.threads, j, r, r', PollAt(r) + ACK_SIZE * j, AckBytes(StampOf(i), j, rest));
    AcceptStores(s.reqs, r, r');
    AcceptAcks(s.reqs, j, r, r', rest);
    EntryInside(s.reqs, i);
    Roomy(s.reqs);
    AcceptOffsets(s.reqs, r, r');
    WireFilled(c, s.reqs, s.threads, j, r, i);
    ThreadFact(c, s, i);
    AcceptSchedules(c, s.reqs, s.threads, s.leader.committed, r, r');
  }

  lemma WireFilled(c: Config, reqs: seq<Request>, threads: seq<Thread>, j: nat, r: Replica, i: nat)
    requires |reqs| == |threads| && MemInv(c, reqs, threads, j, r) && i in r.inbox
    ensures i < |reqs| && Filled(threads[i].pc)
  {
    hide Landed, ZeroFrom, Body;
    assert WireInv(c, reqs, threads, j, i, r.inbox[i]);
  }

  /** An acknowledgement just posted has not touched the leader's slot yet. */
  lemma AcceptLeader(c: Config, s: State, s': State, j: nat)
    requires |s.reqs| == |s.threads| && LeaderInv(c, s) && j < |s.replicas| && j != c.leader
    requires |s'.replicas| == |s.replicas| && s' == s.(replicas := s.replicas[j := s'.replicas[j]])
    requires var r, r' := s.replicas[j], s'.replicas[j];
             && r.accepted !in r.acks && r.accepted in r'.acks
             && r'.acks == r.acks[r.accepted := r'.acks[r.accepted]]
             && r'.acks[r.accepted].landed == 0 && |r'.acks[r.accepted].bytes| == ACK_SIZE
    ensures LeaderInv(c, s')
  {
    hide Reads, Body, Key, ZeroFrom;
    forall k | 0 <= k < |s.reqs| ensures LeaderEntryInv(c, s', k) {
      assert LeaderEntryInv(c, s, k);
      forall m | 0 <= m < MAX_SERVER_COUNT
        ensures SlotInv(s'.leader.mem, s.reqs[k].at + ACK_SIZE * m, AckOf(c, s'.replicas, m, k))
      {
        assert SlotInv(s.leader.mem, s.reqs[k].at + ACK_SIZE * m, AckOf(c, s.replicas, m, k));
        assert m != j || k != s.replicas[j].accepted ==> AckOf(c, s'.replicas, m, k) == AckOf(c, s.replicas, m, k);
      }
    }
  }

  lemma NotYetAcked(reqs: seq<Request>, j: nat, r: Replica)
    requires AcceptedInv(reqs, j, r)
    ensures r.accepted !in r.acks
    ensures forall i :: i in r.acks ==> |r.acks[i].bytes| == ACK_SIZE
  {
    hide StoredInv, OffsetInv, AckBytes;
    forall i | i in r.acks ensures |r.acks[i].bytes| == ACK_SIZE { assert AckInv(reqs, j, i, r.acks[i]); }
  }

  lemma AcceptKeeps(c: Config, s: State, j: nat, rest: seq<byte>)
    requires Enabled(c, s, AcceptA(j, rest))
    requires Inv(c, s)
    ensures Inv(c, Apply(c, s, AcceptA(j, rest)))
  {
    hide LogInv, ThreadsInv, LeaderInv, CountedInv, MemInv, AcceptedInv, ExecInv, CanAccept;
    var s' := Apply(c, s, AcceptA(j, rest));
    var r, r' := s.replicas[j], s'.replicas[j];
    AcceptReplica(c, s, j, rest, r');
    assert ReplicaInv(c, s.reqs, s.threads, s.leader.committed, j, r);
    NotYetAcked(s.reqs, j, r);
    NotYetAcked(s.reqs, j, r');
    AcceptLeader(c, s, s', j);
    CountedUnmoved(c, s.threads, s.replicas, j, r');
  }

  // ------------------------------------------------------------ reserving

  lemma PackedAppend(reqs: seq<Request>, q: Request)
    requires Packed(reqs) && q.at == q.tail == Used(reqs) && q.tail + Len(q) + HEADER_SIZE <= LOG_SIZE
    ensures Packed(reqs + [q])
  {
    var reqs', n := reqs + [q], |reqs|;
    forall i, k | 0 <= i < k < |reqs'| ensures reqs'[i].tail + Len(reqs'[i]) <= reqs'[k].tail {
      if k == n { EntryInside(reqs, i); }
    }
  }

  lemma ReservePacked(s: State, kind: byte, clt: ViewStamp, data: seq<byte>, prev: nat)
    requires LogInv(s.reqs, s.leader) && FirstPass(s.leader.end, data)
    ensures LogInv(Reserve(s, kind, clt, data, prev).reqs, Reserve(s, kind, clt, data, prev).leader)
    ensures ReservedTail(s.leader.end) == Used(s.reqs)
  {
    hide Packed;
    var s' := Reserve(s, kind, clt, data, prev);
    Roomy(s.reqs);
    PackedAppend(s.reqs, s'.reqs[|s.reqs|]);
  }

  lemma ReserveThreads(c: Config, s: State, q: Request)
    requires ThreadsInv(c, s.reqs, s.threads, s.leader.committed) && CallerReady(s, q.prev)
    ensures ThreadsInv(c, s.reqs + [q], s.threads + [Thread(Reserved, 0, 0)], s.leader.committed)
  {
    var reqs', threads' := s.reqs + [q], s.threads + [Thread(Reserved, 0, 0)];
    forall i | 0 <= i < |threads'| ensures ThreadInv(c, threads'[i], i, s.leader.committed) {
      if i < |s.threads| { assert ThreadInv(c, s.threads[i], i, s.leader.committed); }
    }
    forall i | 0 <= i < |reqs'| ensures CallerInv(reqs', threads', i) {
      if i < |s.reqs| { assert CallerInv(s.reqs, s.threads, i); }
    }
  }

  lemma ZeroEntry(mem: seq<byte>, at: nat, e: Entry)
    requires ZeroFrom(mem, at) && at + LengthFor(e.data) <= |mem|
    ensures Landed(mem, at, e, 0)
    ensures ZeroFrom(mem, at + LengthFor(e.data))
  {
  }

  lemma ReserveMem(c: Config, reqs: seq<Request>, threads: seq<Thread>, j: nat, r: Replica, q: Request)
    requires |reqs| == |threads| && MemInv(c, reqs, threads, j, r)
    requires q.tail == Used(reqs) && q.tail + Len(q) <= LOG_SIZE
    ensures MemInv(c, reqs + [q], threads + [Thread(Reserved, 0, 0)], j, r)
  {
    var reqs', threads' := reqs + [q], threads + [Thread(Reserved, 0, 0)];
    var n := |reqs|;
    ZeroEntry(r.mem, q.tail, EntryAt(c, reqs', threads', n));
    hide Landed, ZeroFrom, Body;
    forall i | i in r.inbox ensures WireInv(c, reqs', threads', j, i, r.inbox[i]) {
      assert WireInv(c, reqs, threads, j, i, r.inbox[i]);
    }
    forall i | 0 <= i < |reqs'|
      ensures Landed(r.mem, reqs'[i].tail, EntryAt(c, reqs', threads', i), LandedAt(r, i))
    {
      if i < n {
        assert Landed(r.mem, reqs[i].tail, EntryAt(c, reqs, threads, i), LandedAt(r, i));
      } else {
        assert n in r.inbox ==> WireInv(c, reqs, threads, j, n, r.inbox[n]);
      }
    }
  }

  lemma ReserveRest(reqs: seq<Request>, threads: seq<Thread>, committed: nat, j: nat, r: Replica, q: Request)
    requires |reqs| == |threads| && AcceptedInv(reqs, j, r) && ExecInv(reqs, threads, committed, r)
    ensures AcceptedInv(reqs + [q], j, r)
    ensures ExecInv(reqs + [q], threads + [Thread(Reserved, 0, 0)], committed, r)
  {
    hide RecordOf, ToLong, AckBytes;
    forall i | i in r.acks ensures AckInv(reqs + [q], j, i, r.acks[i]) { assert AckInv(reqs, j, i, r.acks[i]); }
  }

  lemma ReserveLeader(c: Config, s: State, s': State)
    requires |s.reqs| == |s.threads| && LeaderInv(c, s) && |s.replicas| == c.group
    requires |s'.reqs| == |s.reqs| + 1 && |s'.threads| == |s.threads| + 1
    requires s'.reqs[..|s.reqs|] == s.reqs && s'.threads[..|s.threads|] == s.threads
    requires s'.threads[|s.reqs|].pc.Reserved?
    requires s'.reqs[|s.reqs|].at == s'.reqs[|s.reqs|].tail == Used(s.reqs)
    requires Used(s'.reqs) <= LOG_SIZE
    requires s'.leader.mem == s.leader.mem && s'.leader.db == s.leader.db && s'.replicas == s.replicas
    requires forall k :: 0 <= k < c.group && k != c.leader ==> |s.reqs| !in s.replicas[k].acks
    ensures LeaderInv(c, s')
  {
    var n := |s.reqs|;
    hide Body, Key, Reads;
    forall i | 0 <= i < |s'.reqs| ensures LeaderEntryInv(c, s', i) {
      if i < n {
        assert LeaderEntryInv(c, s, i);
        assert s'.reqs[i] == s.reqs[i] && s'.threads[i] == s.threads[i];
      }
    }
  }

  lemma ReserveKeeps(c: Config, s: State, kind: byte, clt: ViewStamp, data: seq<byte>, prev: nat)
    requires Enabled(c, s, ReserveA(kind, clt, data, prev))
    requires Inv(c, s)
    ensures Inv(c, Reserve(s, kind, clt, data, prev))
  {
    hide LogInv, ThreadsInv, LeaderInv, CountedInv, MemInv, AcceptedInv, ExecInv;
    var s' := Reserve(s, kind, clt, data, prev);
    var n := |s.reqs|;
    var q := s'.reqs[n];
    ReservePacked(s, kind, clt, data, prev);
    LogFact(s.reqs, s.leader);
    LogFact(s'.reqs, s'.leader);
    ReserveThreads(c, s, q);
    forall j | 0 <= j < c.group && j != c.leader
      ensures ReplicaInv(c, s'.reqs, s'.threads, s'.leader.committed, j, s'.replicas[j])
      ensures n !in s.replicas[j].acks
    {
      assert ReplicaInv(c, s.reqs, s.threads, s.leader.committed, j, s.replicas[j]);
      ReserveMem(c, s.reqs, s.threads, j, s.replicas[j], q);
      ReserveRest(s.reqs, s.threads, s.leader.committed, j, s.replicas[j], q);
      AcksBelow(s.reqs, j, s.replicas[j]);
    }
    ReserveLeader(c, s, s');
    ReserveCounted(c, s.replicas, s.threads);
  }

  lemma LogFact(reqs: seq<Request>, l: Leader)
    requires LogInv(reqs, l)
    ensures Used(reqs) + HEADER_SIZE <= LOG_SIZE
    ensures forall i :: 0 <= i < |reqs| ==> reqs[i].at == reqs[i].tail
  {
  }

  lemma AcksBelow(reqs: seq<Request>, j: nat, r: Replica)
    requires AcceptedInv(reqs, j, r)
    ensures |reqs| !in r.acks
  {
    hide OffsetInv, AckInv;
  }

  lemma ReserveCounted(c: Config, replicas: seq<Replica>, threads: seq<Thread>)
    requires forall k :: 0 <= k < |threads| ==> CountedInv(c, replicas, k, threads[k])
    ensures var threads' := threads + [Thread(Reserved, 0, 0)];
            forall k :: 0 <= k < |threads'| ==> CountedInv(c, replicas, k, threads'[k])
  {
    var threads' := threads + [Thread(Reserved, 0, 0)];
    forall k | 0 <= k < |threads'| ensures CountedInv(c, replicas, k, threads'[k]) {
      if k < |threads| { assert CountedInv(c, replicas, k, threads[k]); }
    }
  }
}
