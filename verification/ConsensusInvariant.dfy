/** What every step of the replication protocol keeps. */
module ConsensusInvariant {
  import opened Options
  import opened Bytes
  import opened ViewStamps
  import opened EntryLayout
  import opened Bitmaps
  import opened Consensus

  // ------------------------------------------------------------------ the parts

  /** The entry of such a thread is built, stored at the leader and may be posted. */
  predicate Filled(pc: Pc)
  {
    !pc.Reserved? && !pc.Snapshotted? && !pc.StoreFailed?
  }

  predicate PastQuorum(pc: Pc)
  {
    pc.Spinning? || pc.Reading? || pc.Writing? || pc.Committed?
  }

  function Len(q: Request): (n: nat)
  {
    LengthFor(q.data)
  }

  function Used(reqs: seq<Request>): (n: nat)
  {
    if |reqs| == 0 then 0 else reqs[|reqs| - 1].tail + Len(reqs[|reqs| - 1])
  }

  /** Entries lie back to back from offset 0, and room for a header is left. */
  ghost predicate Packed(reqs: seq<Request>)
  {
    && (forall i :: 0 <= i < |reqs| ==> reqs[i].at == reqs[i].tail)
    && (|reqs| > 0 ==> reqs[0].tail == 0)
    && (forall i :: 0 < i < |reqs| ==> reqs[i].tail == reqs[i - 1].tail + Len(reqs[i - 1]))
    && (forall i, k :: 0 <= i < k < |reqs| ==> reqs[i].tail + Len(reqs[i]) <= reqs[k].tail)
    && Used(reqs) + HEADER_SIZE <= LOG_SIZE
    && |reqs| * HEADER_SIZE <= Used(reqs)
  }

  ghost predicate LogInv(reqs: seq<Request>, l: Leader)
  {
    && Packed(reqs)
    && l.seen == |reqs|
    && (|reqs| == 0 ==> l.end == l.tail == LOG_SIZE)
    && (|reqs| > 0 ==> l.end == Used(reqs) && l.tail == reqs[|reqs| - 1].tail)
  }

  /** One leader thread against the shared commit counter. */
  ghost predicate ThreadInv(c: Config, t: Thread, i: nat, committed: nat)
  {
    && (t.pc.Committed? <==> i < committed)
    && (t.pc.Reading? ==> committed == i)
    && (t.pc.Writing? ==> t.pc.read == committed == i)
    && (!t.pc.Reserved? ==> t.canExec <= committed && t.canExec <= i)
    && (PastQuorum(t.pc) ==> ReachedQuorum(t.bitmap, c.group))
  }

  /** A caller's earlier request has returned; if it was committed, the commit
      point that the later one carries covers it. */
  ghost predicate CallerInv(reqs: seq<Request>, threads: seq<Thread>, i: nat)
    requires i < |reqs| == |threads|
  {
    var prev := reqs[i].prev;
    && prev <= i
    && (prev > 0 ==> Returned(threads[prev - 1].pc))
    && (prev > 0 && threads[prev - 1].pc.Committed? && !threads[i].pc.Reserved? ==> prev <= threads[i].canExec)
  }

  ghost predicate ThreadsInv(c: Config, reqs: seq<Request>, threads: seq<Thread>, committed: nat)
  {
    && |threads| == |reqs|
    && committed <= |reqs|
    && (forall i :: 0 <= i < |threads| ==> ThreadInv(c, threads[i], i, committed))
    && (forall i :: 0 <= i < |reqs| ==> CallerInv(reqs, threads, i))
  }

  function EntryAt(c: Config, reqs: seq<Request>, threads: seq<Thread>, i: nat): (e: Entry)
    requires i < |reqs| == |threads|
  {
    EntryFor(c, i, reqs[i], threads[i].canExec)
  }

  ghost predicate ZeroFrom(mem: seq<byte>, from: nat)
  {
    forall a :: from <= a < |mem| ==> mem[a] == 0
  }

  /** What replica `k` has acknowledged of request `i`, if anything. */
  function AckOf(c: Config, replicas: seq<Replica>, k: nat, i: nat): (w: Option<Wire>)
  {
    if k < |replicas| && k != c.leader && i in replicas[k].acks then Some(replicas[k].acks[i]) else None
  }

  ghost predicate SlotInv(mem: seq<byte>, at: nat, w: Option<Wire>)
  {
    && at + ACK_SIZE <= |mem|
    && (w.Some? ==> |w.value.bytes| == ACK_SIZE)
    && forall a :: at <= a < at + ACK_SIZE ==>
         mem[a] == if w.Some? && a < at + w.value.landed then w.value.bytes[a - at] else 0
  }

  /** The entry of request `i` in leader memory: its body once built, and in each
      slot what has landed of the acknowledgement of that replica. */
  ghost predicate LeaderEntryInv(c: Config, s: State, i: nat)
    requires i < |s.reqs| == |s.threads|
  {
    && (Filled(s.threads[i].pc) ==>
          && Reads(s.leader.mem, s.reqs[i].at + ACKS_SIZE, Body(EntryAt(c, s.reqs, s.threads, i)))
          && Key(i) in s.leader.db && s.leader.db[Key(i)] == RecordOf(s.reqs[i]))
    && (forall k :: 0 <= k < MAX_SERVER_COUNT ==>
          SlotInv(s.leader.mem, s.reqs[i].at + ACK_SIZE * k, AckOf(c, s.replicas, k, i)))
  }

  ghost predicate LeaderInv(c: Config, s: State)
    requires |s.reqs| == |s.threads|
  {
    && |s.leader.mem| == LOG_SIZE
    && ZeroFrom(s.leader.mem, Used(s.reqs))
    && (forall i :: 0 <= i < |s.reqs| ==> LeaderEntryInv(c, s, i))
  }

  /** A posted write carries the finished entry to its reserved offset; the
      posting loop is past its receiver `j`. */
  ghost predicate WireInv(c: Config, reqs: seq<Request>, threads: seq<Thread>, j: nat, i: nat, w: Wire)
    requires |reqs| == |threads|
  {
    && i < |reqs|
    && Filled(threads[i].pc)
    && (threads[i].pc.Posting? ==> j < threads[i].pc.server)
    && w.at == reqs[i].tail
    && |w.bytes| == Len(reqs[i])
    && w.landed <= |w.bytes|
    && w.bytes[ACKS_SIZE..] == Body(EntryAt(c, reqs, threads, i))
  }

  function LandedAt(r: Replica, i: nat): (n: nat)
  {
    if i in r.inbox then r.inbox[i].landed else 0
  }

  /** Replica memory holds exactly what has landed of each entry, over zeros. */
  ghost predicate MemInv(c: Config, reqs: seq<Request>, threads: seq<Thread>, j: nat, r: Replica)
    requires |reqs| == |threads|
  {
    && |r.mem| == LOG_SIZE
    && ZeroFrom(r.mem, Used(reqs))
    && (forall i :: i in r.inbox ==> WireInv(c, reqs, threads, j, i, r.inbox[i]))
    && (forall i :: 0 <= i < |reqs| ==> Landed(r.mem, reqs[i].tail, EntryAt(c, reqs, threads, i), LandedAt(r, i)))
  }

  ghost predicate AckInv(reqs: seq<Request>, j: nat, i: nat, w: Wire)
  {
    && i < |reqs|
    && w.at == reqs[i].tail + ACK_SIZE * j
    && |w.bytes| == ACK_SIZE
    && j < U32 && w.bytes == AckBytes(StampOf(i), j, w.bytes[12..])
    && w.landed <= ACK_SIZE
  }

  /** Each accepted entry has landed in full and its record is in the database. */
  ghost predicate StoredInv(reqs: seq<Request>, r: Replica)
  {
    && r.accepted <= |reqs|
    && (forall i :: 0 <= i < r.accepted ==> i in r.inbox && r.inbox[i].landed == Len(reqs[i]))
    && (forall i :: 0 <= i < r.accepted ==> Key(i) in r.db && r.db[Key(i)] == RecordOf(reqs[i]))
  }

  ghost predicate AcksInv(reqs: seq<Request>, j: nat, r: Replica)
  {
    && (forall i :: i in r.acks <==> 0 <= i < r.accepted)
    && (forall i :: i in r.acks ==> AckInv(reqs, j, i, r.acks[i]))
  }

  /** The log offsets of the replica point behind and at its last entry. */
  ghost predicate OffsetInv(reqs: seq<Request>, r: Replica)
    requires r.accepted <= |reqs|
  {
    && r.end <= LOG_SIZE
    && (r.accepted == 0 ==> r.end == 0 || r.end == LOG_SIZE)
    && (r.accepted > 0 ==> r.end == reqs[r.accepted - 1].tail + Len(reqs[r.accepted - 1]))
    && (r.accepted > 0 ==> r.tail == reqs[r.accepted - 1].tail)
    && r.seen == ViewStamp(VIEW, r.accepted % U32)
  }

  /** A replica has taken the first `accepted` entries, in order and in full. */
  ghost predicate AcceptedInv(reqs: seq<Request>, j: nat, r: Replica)
  {
    StoredInv(reqs, r) && AcksInv(reqs, j, r) && OffsetInv(reqs, r)
  }

  /** The request id the replica will have executed up to when it polls again. */
  function Goal(r: Replica): (m: nat)
  {
    if r.work.Polling? then |r.executed| else r.work.commit.req
  }

  /** A replica has executed the first requests of the leader's order, each once. */
  ghost predicate ExecInv(reqs: seq<Request>, threads: seq<Thread>, committed: nat, r: Replica)
    requires |reqs| == |threads|
  {
    && |r.executed| <= Goal(r) <= r.accepted <= |reqs|
    && Goal(r) <= committed
    && (forall k :: 0 <= k < |r.executed| ==> r.executed[k] == Execution(Key(k), Some(RecordOf(reqs[k]))))
    && (r.work.Polling? ==> r.committed == ViewStamp(VIEW, |r.executed| % U32))
    && (r.work.Executing? ==>
          && r.work.commit == ViewStamp(VIEW, Goal(r) % U32)
          && r.work.next == ToLong(ViewStamp(VIEW, |r.executed| % U32)) + 1
          && r.work.last == ToLong(r.work.commit))
    && (forall i :: 0 <= i < r.accepted ==> threads[i].canExec <= Goal(r))
  }

  ghost predicate ReplicaInv(c: Config, reqs: seq<Request>, threads: seq<Thread>, committed: nat, j: nat, r: Replica)
    requires |reqs| == |threads|
  {
    && MemInv(c, reqs, threads, j, r)
    && AcceptedInv(reqs, j, r)
    && ExecInv(reqs, threads, committed, r)
  }

  ghost predicate SomeAccepted(c: Config, replicas: seq<Replica>, i: nat)
  {
    exists j :: 0 <= j < |replicas| && j != c.leader && i < replicas[j].accepted
  }

  /** Node `k` may be counted for request `i`: the leader, whoever has accepted it,
      and node 0 if anybody has. */
  ghost predicate MayCount(c: Config, replicas: seq<Replica>, i: nat, k: nat)
  {
    || k == c.leader
    || (k < |replicas| && i < replicas[k].accepted)
    || (k == 0 && SomeAccepted(c, replicas, i))
  }

  ghost predicate CountedInv(c: Config, replicas: seq<Replica>, i: nat, t: Thread)
  {
    Filled(t.pc) ==> forall k: nat :: HasBit(t.bitmap, k) ==> MayCount(c, replicas, i, k)
  }

  ghost predicate Inv(c: Config, s: State)
  {
    && |s.threads| == |s.reqs|
    && LogInv(s.reqs, s.leader)
    && ThreadsInv(c, s.reqs, s.threads, s.leader.committed)
    && LeaderInv(c, s)
    && |s.replicas| == c.group
    && (forall j :: 0 <= j < c.group && j != c.leader ==>
          ReplicaInv(c, s.reqs, s.threads, s.leader.committed, j, s.replicas[j]))
    && (forall i :: 0 <= i < |s.threads| ==> CountedInv(c, s.replicas, i, s.threads[i]))
  }

  // ----------------------------------------------------- facts about the log

  lemma EntryInside(reqs: seq<Request>, i: nat)
    requires Packed(reqs) && i < |reqs|
    ensures reqs[i].tail + Len(reqs[i]) <= Used(reqs)
  {
    assert i < |reqs| - 1 ==> reqs[i].tail + Len(reqs[i]) <= reqs[|reqs| - 1].tail;
  }

  lemma EntriesApart(reqs: seq<Request>, i: nat, k: nat)
    requires Packed(reqs) && i < |reqs| && k < |reqs| && i != k
    ensures reqs[i].tail + Len(reqs[i]) <= reqs[k].tail || reqs[k].tail + Len(reqs[k]) <= reqs[i].tail
  {
  }

  lemma PackedAt(reqs: seq<Request>, k: nat)
    requires Packed(reqs) && k < |reqs|
    ensures reqs[k].at == reqs[k].tail
  {
  }

  lemma Roomy(reqs: seq<Request>)
    requires Packed(reqs)
    ensures Used(reqs) + HEADER_SIZE <= LOG_SIZE
  {
  }

  /** The first pass ends long before request ids would wrap. */
  lemma FewRequests(reqs: seq<Request>, l: Leader)
    requires LogInv(reqs, l)
    ensures |reqs| < U32 - 1
  {
  }

  // ------------------------------------------------------------- frame lemmas

  /** Threads move on without unbuilding an entry, and the counter only grows. */
  ghost predicate Onward(threads: seq<Thread>, threads': seq<Thread>)
  {
    && |threads'| == |threads|
    && forall i :: 0 <= i < |threads| && Filled(threads[i].pc) ==>
         && Filled(threads'[i].pc)
         && threads'[i].canExec == threads[i].canExec
         && (threads'[i].pc.Posting? ==> threads[i].pc.Posting? && threads[i].pc.server <= threads'[i].pc.server)
  }

  lemma LandedNothing(mem: seq<byte>, at: nat, e: Entry, e': Entry)
    requires Landed(mem, at, e, 0) && e.data == e'.data
    ensures Landed(mem, at, e', 0)
  {
  }

  lemma MemStable(c: Config, reqs: seq<Request>, threads: seq<Thread>, threads': seq<Thread>, j: nat, r: Replica)
    requires |reqs| == |threads| && Onward(threads, threads')
    requires MemInv(c, reqs, threads, j, r)
    ensures MemInv(c, reqs, threads', j, r)
  {
    forall i | 0 <= i < |reqs|
      ensures Landed(r.mem, reqs[i].tail, EntryAt(c, reqs, threads', i), LandedAt(r, i))
    {
      if i in r.inbox {
        assert WireInv(c, reqs, threads, j, i, r.inbox[i]);
        assert EntryAt(c, reqs, threads', i) == EntryAt(c, reqs, threads, i);
      } else {
        LandedNothing(r.mem, reqs[i].tail, EntryAt(c, reqs, threads, i), EntryAt(c, reqs, threads', i));
      }
    }
  }

  lemma ReplicaStable(c: Config, reqs: seq<Request>, threads: seq<Thread>, threads': seq<Thread>,
                      committed: nat, committed': nat, j: nat, r: Replica)
    requires |reqs| == |threads| && Onward(threads, threads') && committed <= committed'
    requires ReplicaInv(c, reqs, threads, committed, j, r)
    ensures ReplicaInv(c, reqs, threads', committed', j, r)
  {
    MemStable(c, reqs, threads, threads', j, r);
    forall i | 0 <= i < r.accepted ensures threads'[i].canExec <= Goal(r) {
      assert i in r.inbox;
      assert WireInv(c, reqs, threads, j, i, r.inbox[i]);
    }
  }

  lemma ReplicasStable(c: Config, s: State, s': State)
    requires Inv(c, s)
    requires s'.reqs == s.reqs && s'.replicas == s.replicas
    requires Onward(s.threads, s'.threads) && s.leader.committed <= s'.leader.committed
    ensures forall j :: 0 <= j < c.group && j != c.leader ==>
              ReplicaInv(c, s'.reqs, s'.threads, s'.leader.committed, j, s'.replicas[j])
  {
    forall j | 0 <= j < c.group && j != c.leader
      ensures ReplicaInv(c, s'.reqs, s'.threads, s'.leader.committed, j, s'.replicas[j])
    {
      ReplicaStable(c, s.reqs, s.threads, s'.threads, s.leader.committed, s'.leader.committed, j, s.replicas[j]);
    }
  }

  /** A thread step leaves leader memory as it is. */
  lemma LeaderStable(c: Config, s: State, s': State, i: nat)
    requires |s.reqs| == |s.threads| && i < |s.threads| && LeaderInv(c, s)
    requires s'.reqs == s.reqs && s'.replicas == s.replicas
    requires s'.leader.mem == s.leader.mem && s'.leader.db == s.leader.db
    requires |s'.threads| == |s.threads| && s'.threads == s.threads[i := s'.threads[i]]
    requires Filled(s'.threads[i].pc) ==> Filled(s.threads[i].pc) && s'.threads[i].canExec == s.threads[i].canExec
    ensures LeaderInv(c, s')
  {
    forall k | 0 <= k < |s.reqs| ensures LeaderEntryInv(c, s', k) {
      assert LeaderEntryInv(c, s, k);
      assert Filled(s'.threads[k].pc) ==>
        Filled(s.threads[k].pc) && EntryAt(c, s'.reqs, s'.threads, k) == EntryAt(c, s.reqs, s.threads, k);
    }
  }

  /** A step of thread `i` that leaves its entry, the log and all memory alone. */
  lemma ThreadStep(c: Config, s: State, s': State, i: nat)
    requires Inv(c, s) && i < |s.threads|
    requires s'.reqs == s.reqs && s'.replicas == s.replicas
    requires s'.leader == s.leader.(committed := s'.leader.committed)
    requires |s'.threads| == |s.threads| && s'.threads == s.threads[i := s'.threads[i]]
    requires Filled(s'.threads[i].pc) ==> Filled(s.threads[i].pc)
    requires Onward(s.threads, s'.threads)
    requires s.leader.committed <= s'.leader.committed
    requires ThreadsInv(c, s'.reqs, s'.threads, s'.leader.committed)
    requires CountedInv(c, s.replicas, i, s'.threads[i])
    ensures Inv(c, s')
  {
    ReplicasStable(c, s, s');
    LeaderStable(c, s, s', i);
    CountedStable(c, s.replicas, s.threads, s'.threads, i);
  }

  lemma CountedStable(c: Config, replicas: seq<Replica>, threads: seq<Thread>, threads': seq<Thread>, i: nat)
    requires i < |threads| == |threads'| && threads' == threads[i := threads'[i]]
    requires forall k :: 0 <= k < |threads| ==> CountedInv(c, replicas, k, threads[k])
    requires CountedInv(c, replicas, i, threads'[i])
    ensures forall k :: 0 <= k < |threads'| ==> CountedInv(c, replicas, k, threads'[k])
  {
  }

  // ------------------------------------------------------ steps of one thread

  /** Replacing a thread that has not returned keeps what its callers rely on. */
  lemma ThreadsUpdate(c: Config, reqs: seq<Request>, threads: seq<Thread>, committed: nat, i: nat, t: Thread)
    requires ThreadsInv(c, reqs, threads, committed) && i < |threads|
    requires !Returned(threads[i].pc)
    requires ThreadInv(c, t, i, committed)
    requires !t.pc.Reserved? ==> t.canExec == (if threads[i].pc.Reserved? then committed else threads[i].canExec)
    ensures ThreadsInv(c, reqs, threads[i := t], committed)
  {
    var threads' := threads[i := t];
    forall k | 0 <= k < |reqs| ensures CallerInv(reqs, threads', k) {
      assert CallerInv(reqs, threads, k);
      assert reqs[k].prev > 0 ==> ThreadInv(c, threads[reqs[k].prev - 1], reqs[k].prev - 1, committed);
    }
  }

  lemma ThreadFact(c: Config, s: State, i: nat)
    requires ThreadsInv(c, s.reqs, s.threads, s.leader.committed) && i < |s.threads|
    ensures ThreadInv(c, s.threads[i], i, s.leader.committed)
  {
  }

  lemma SnapshotKeeps(c: Config, s: State, i: nat)
    requires Inv(c, s) && Enabled(c, s, SnapshotA(i))
    ensures Inv(c, Snapshot(s, i))
  {
    assert ThreadInv(c, s.threads[i], i, s.leader.committed);
    ThreadsUpdate(c, s.reqs, s.threads, s.leader.committed, i, Snapshot(s, i).threads[i]);
    ThreadStep(c, s, Snapshot(s, i), i);
  }

  lemma StoreFailedKeeps(c: Config, s: State, i: nat)
    requires Inv(c, s) && Enabled(c, s, StoreA(i, false))
    ensures Inv(c, Store(c, s, i, false))
  {
    assert ThreadInv(c, s.threads[i], i, s.leader.committed);
    ThreadsUpdate(c, s.reqs, s.threads, s.leader.committed, i, s.threads[i].(pc := StoreFailed));
    ThreadStep(c, s, Step(s, i, StoreFailed), i);
  }

  /** A step inside the posting, scanning or committing code that only moves `pc`. */
  lemma PcKeeps(c: Config, s: State, i: nat, pc: Pc)
    requires Inv(c, s) && i < |s.threads|
    requires Filled(s.threads[i].pc) && !Returned(s.threads[i].pc) && Filled(pc)
    requires pc.Posting? ==> s.threads[i].pc.Posting? && s.threads[i].pc.server <= pc.server
    requires ThreadInv(c, s.threads[i].(pc := pc), i, s.leader.committed)
    ensures Inv(c, Step(s, i, pc))
  {
    ThreadsUpdate(c, s.reqs, s.threads, s.leader.committed, i, s.threads[i].(pc := pc));
    assert CountedInv(c, s.replicas, i, s.threads[i]);
    ThreadStep(c, s, Step(s, i, pc), i);
  }

  lemma SpinKeeps(c: Config, s: State, i: nat)
    requires Inv(c, s) && Enabled(c, s, SpinA(i))
    ensures Inv(c, Step(s, i, Reading))
  {
    assert ThreadInv(c, s.threads[i], i, s.leader.committed);
    PcKeeps(c, s, i, Reading);
  }

  lemma ReadKeeps(c: Config, s: State, i: nat)
    requires Inv(c, s) && Enabled(c, s, ReadA(i))
    ensures Inv(c, Step(s, i, Writing(s.leader.committed)))
  {
    assert ThreadInv(c, s.threads[i], i, s.leader.committed);
    PcKeeps(c, s, i, Writing(s.leader.committed));
  }

  lemma WriteThreads(c: Config, reqs: seq<Request>, threads: seq<Thread>, committed: nat, i: nat)
    requires ThreadsInv(c, reqs, threads, committed) && i < |threads| && threads[i].pc.Writing?
    ensures threads[i].pc.read == committed == i
    ensures ThreadsInv(c, reqs, threads[i := threads[i].(pc := Committed)], committed + 1)
  {
    var threads' := threads[i := threads[i].(pc := Committed)];
    assert ThreadInv(c, threads[i], i, committed);
    forall k | 0 <= k < |threads| ensures ThreadInv(c, threads'[k], k, committed + 1) {
      assert ThreadInv(c, threads[k], k, committed);
    }
    forall k | 0 <= k < |reqs| ensures CallerInv(reqs, threads', k) {
      assert CallerInv(reqs, threads, k);
    }
  }

  /** The write-back stores `i + 1` over `i`: nothing is lost, skipped or repeated. */
  lemma WriteKeeps(c: Config, s: State, i: nat)
    requires Inv(c, s) && Enabled(c, s, WriteA(i))
    ensures WriteBack(s, i).leader.committed == s.leader.committed + 1 == i + 1
    ensures Inv(c, WriteBack(s, i))
  {
    WriteThreads(c, s.reqs, s.threads, s.leader.committed, i);
    assert CountedInv(c, s.replicas, i, s.threads[i]);
    ThreadStep(c, s, WriteBack(s, i), i);
  }

  // --------------------------------------------------- building and posting

  lemma KeysDistinct(i: nat, k: nat)
    requires i < k < U32 - 1
    ensures Key(i) != Key(k)
  {
    LongOrder(StampOf(i), StampOf(k));
  }

  lemma ReadsFrame(mem: seq<byte>, mem': seq<byte>, at: nat, s: seq<byte>)
    requires Reads(mem, at, s) && |mem'| == |mem|
    requires forall a :: at <= a < at + |s| ==> mem'[a] == mem[a]
    ensures Reads(mem', at, s)
  {
    assert mem'[at..at + |s|] == mem[at..at + |s|];
  }

  /** An entry none of whose bytes change stays as it is. */
  lemma LeaderEntryFrame(c: Config, s: State, s': State, k: nat)
    requires k < |s.reqs| == |s.threads| && LeaderEntryInv(c, s, k)
    requires s'.reqs == s.reqs && |s'.threads| == |s.threads| && s'.threads[k] == s.threads[k]
    requires |s'.leader.mem| == |s.leader.mem|
    requires forall a :: s.reqs[k].at <= a < s.reqs[k].at + Len(s.reqs[k]) && a < |s.leader.mem| ==>
               s'.leader.mem[a] == s.leader.mem[a]
    requires Key(k) in s.leader.db ==> Key(k) in s'.leader.db && s'.leader.db[Key(k)] == s.leader.db[Key(k)]
    requires forall m :: 0 <= m < MAX_SERVER_COUNT ==> AckOf(c, s'.replicas, m, k) == AckOf(c, s.replicas, m, k)
    ensures LeaderEntryInv(c, s', k)
  {
    if Filled(s.threads[k].pc) {
      ReadsFrame(s.leader.mem, s'.leader.mem, s.reqs[k].at + ACKS_SIZE, Body(EntryAt(c, s.reqs, s.threads, k)));
    }
    forall m | 0 <= m < MAX_SERVER_COUNT
      ensures SlotInv(s'.leader.mem, s.reqs[k].at + ACK_SIZE * m, AckOf(c, s'.replicas, m, k))
    {
      assert SlotInv(s.leader.mem, s.reqs[k].at + ACK_SIZE * m, AckOf(c, s.replicas, m, k));
    }
  }

  lemma SlotUnderBody(mem: seq<byte>, mem': seq<byte>, at: nat, from: nat, w: Option<Wire>)
    requires SlotInv(mem, at, w) && |mem'| == |mem| && at + ACK_SIZE <= from
    requires forall a :: 0 <= a < from && a < |mem| ==> mem'[a] == mem[a]
    ensures SlotInv(mem', at, w)
  {
  }

  lemma BuiltEntry(mem: seq<byte>, at: nat, e: Entry)
    requires at + LengthFor(e.data) <= |mem|
    ensures var mem' := Write(mem, at + ACKS_SIZE, Body(e));
            && Reads(mem', at + ACKS_SIZE, Body(e))
            && mem'[at + RECORD_AT..at + LengthFor(e.data) - 1] == RecordBytes(e.kind, e.clt, e.data)
  {
    hide Body, RecordBytes;
    BodyParts(Write(mem, at + ACKS_SIZE, Body(e)), at, e);
  }

  lemma StoreBuilds(c: Config, s: State, i: nat)
    requires Inv(c, s) && Enabled(c, s, StoreA(i, true))
    ensures LeaderEntryInv(c, Store(c, s, i, true), i)
  {
    hide LogInv, ThreadsInv, ReplicaInv, CountedInv, Body, RecordBytes, SlotInv, Key, Reads;
    var s' := Store(c, s, i, true);
    var q := s.reqs[i];
    var e := EntryAt(c, s.reqs, s.threads, i);
    var mem := s'.leader.mem;
    BuiltEntry(s.leader.mem, q.at, e);
    assert LeaderEntryInv(c, s, i);
    forall k | 0 <= k < MAX_SERVER_COUNT
      ensures SlotInv(mem, q.at + ACK_SIZE * k, AckOf(c, s'.replicas, k, i))
    {
      SlotUnderBody(s.leader.mem, mem, q.at + ACK_SIZE * k, q.at + ACKS_SIZE, AckOf(c, s.replicas, k, i));
    }
  }

  lemma StoreLeader(c: Config, s: State, i: nat)
    requires Inv(c, s) && Enabled(c, s, StoreA(i, true))
    ensures LeaderInv(c, Store(c, s, i, true))
  {
    hide ThreadsInv, ReplicaInv, CountedInv, Packed, LeaderEntryInv, Body, Key;
    var s' := Store(c, s, i, true);
    StoreBuilds(c, s, i);
    EntryInside(s.reqs, i);
    PackedAt(s.reqs, i);
    FewRequests(s.reqs, s.leader);
    forall k | 0 <= k < |s.reqs| && k != i ensures LeaderEntryInv(c, s', k) {
      EntriesApart(s.reqs, i, k);
      PackedAt(s.reqs, k);
      KeysDistinct(if i < k then i else k, if i < k then k else i);
      LeaderEntryFrame(c, s, s', k);
    }
  }

  lemma StoreKeeps(c: Config, s: State, i: nat)
    requires Inv(c, s) && Enabled(c, s, StoreA(i, true))
    ensures Inv(c, Store(c, s, i, true))
  {
    var s' := Store(c, s, i, true);
    StoreLeader(c, s, i);
    assert ThreadInv(c, s.threads[i], i, s.leader.committed);
    ThreadsUpdate(c, s.reqs, s.threads, s.leader.committed, i, s'.threads[i]);
    ReplicasStable(c, s, s');
    forall k: nat | HasBit(s'.threads[i].bitmap, k) ensures k == c.leader {
      NoBits(k);
      OrBitSets(0, c.leader, k);
    }
    CountedStable(c, s.replicas, s.threads, s'.threads, i);
  }

  /** A write newly posted to replica `j`, of which nothing has landed. */
  lemma InboxAddMem(c: Config, reqs: seq<Request>, threads: seq<Thread>, j: nat, r: Replica, i: nat, w: Wire)
    requires |reqs| == |threads| && MemInv(c, reqs, threads, j, r)
    requires i !in r.inbox && WireInv(c, reqs, threads, j, i, w) && w.landed == 0
    ensures MemInv(c, reqs, threads, j, r.(inbox := r.inbox[i := w]))
  {
    var r' := r.(inbox := r.inbox[i := w]);
    forall k | 0 <= k < |reqs|
      ensures Landed(r'.mem, reqs[k].tail, EntryAt(c, reqs, threads, k), LandedAt(r', k))
    {
      assert LandedAt(r', k) == LandedAt(r, k);
      assert Landed(r.mem, reqs[k].tail, EntryAt(c, reqs, threads, k), LandedAt(r, k));
    }
  }

  lemma InboxAddRest(reqs: seq<Request>, threads: seq<Thread>, committed: nat, j: nat, r: Replica, i: nat, w: Wire)
    requires |reqs| == |threads| && AcceptedInv(reqs, j, r) && ExecInv(reqs, threads, committed, r)
    requires i !in r.inbox
    ensures AcceptedInv(reqs, j, r.(inbox := r.inbox[i := w]))
    ensures ExecInv(reqs, threads, committed, r.(inbox := r.inbox[i := w]))
  {
    hide AckInv, RecordOf, Key;
  }

  lemma InboxAdd(c: Config, reqs: seq<Request>, threads: seq<Thread>, committed: nat, j: nat, r: Replica, i: nat,
                 w: Wire)
    requires |reqs| == |threads| && ReplicaInv(c, reqs, threads, committed, j, r)
    requires i !in r.inbox && WireInv(c, reqs, threads, j, i, w) && w.landed == 0
    ensures ReplicaInv(c, reqs, threads, committed, j, r.(inbox := r.inbox[i := w]))
  {
    hide MemInv, AcceptedInv, ExecInv, WireInv;
    InboxAddMem(c, reqs, threads, j, r, i, w);
    InboxAddRest(reqs, threads, committed, j, r, i, w);
  }

  lemma PostedImage(c: Config, s: State, i: nat)
    requires Inv(c, s) && i < |s.reqs| && Filled(s.threads[i].pc)
    requires s.threads[i].pc.Posting?
    ensures CanBuild(s, i)
    ensures WireInv(c, s.reqs, s.threads[i := s.threads[i].(pc := Posting(s.threads[i].pc.server + 1))],
                    s.threads[i].pc.server, i,
                    Wire(s.reqs[i].tail, s.leader.mem[s.reqs[i].at..s.reqs[i].at + Len(s.reqs[i])], 0))
  {
    var q := s.reqs[i];
    var e := EntryAt(c, s.reqs, s.threads, i);
    assert LeaderEntryInv(c, s, i);
    var image := s.leader.mem[q.at..q.at + Len(q)];
    assert image[ACKS_SIZE..] == s.leader.mem[q.at + ACKS_SIZE..q.at + ACKS_SIZE + |Body(e)|];
  }

  lemma PostWires(c: Config, s: State, i: nat)
    requires Inv(c, s) && i < |s.reqs| && s.threads[i].pc.Posting?
    requires s.threads[i].pc.server < c.group && s.threads[i].pc.server != c.leader
    ensures i !in s.replicas[s.threads[i].pc.server].inbox
  {
    var k := s.threads[i].pc.server;
    var r := s.replicas[k];
    assert ReplicaInv(c, s.reqs, s.threads, s.leader.committed, k, r);
    hide ThreadsInv, LeaderInv, CountedInv, LogInv, AcceptedInv, ExecInv, Landed;
    assert i in r.inbox ==> WireInv(c, s.reqs, s.threads, k, i, r.inbox[i]);
  }

  lemma PostKeeps(c: Config, s: State, i: nat, connected: bool)
    requires Inv(c, s) && Enabled(c, s, PostA(i, connected))
    ensures Inv(c, Post(c, s, i, connected))
  {
    hide ThreadsInv, LeaderInv, CountedInv, LogInv, ReplicaInv, WireInv;
    var k := s.threads[i].pc.server;
    var s' := Post(c, s, i, connected);
    ThreadFact(c, s, i);
    if k >= c.group {
      PcKeeps(c, s, i, Scanning(0));
    } else {
      var mid := Step(s, i, Posting(k + 1));
      PcKeeps(c, s, i, Posting(k + 1));
      if k != c.leader && connected {
        PostWires(c, s, i);
        PostedImage(c, s, i);
        InboxAdd(c, mid.reqs, mid.threads, mid.leader.committed, k, mid.replicas[k], i, s'.replicas[k].inbox[i]);
        ReplicaMoved(c, mid, s', k);
      }
    }
  }

  /** Leader memory does not depend on replicas but through their acknowledgements. */
  lemma LeaderUnmoved(c: Config, s: State, s': State, j: nat)
    requires |s.reqs| == |s.threads| && LeaderInv(c, s) && j < |s.replicas|
    requires |s'.replicas| == |s.replicas| && s' == s.(replicas := s.replicas[j := s'.replicas[j]])
    requires s'.replicas[j].acks == s.replicas[j].acks
    ensures LeaderInv(c, s')
  {
    forall k | 0 <= k < |s.reqs| ensures LeaderEntryInv(c, s', k) {
      assert LeaderEntryInv(c, s, k);
      assert forall m :: 0 <= m < MAX_SERVER_COUNT ==> AckOf(c, s'.replicas, m, k) == AckOf(c, s.replicas, m, k);
    }
  }

  lemma CountedUnmoved(c: Config, threads: seq<Thread>, replicas: seq<Replica>, j: nat, r: Replica)
    requires j < |replicas| && replicas[j].accepted <= r.accepted
    requires forall k :: 0 <= k < |threads| ==> CountedInv(c, replicas, k, threads[k])
    ensures forall k :: 0 <= k < |threads| ==> CountedInv(c, replicas[j := r], k, threads[k])
  {
    hide MayCount;
    forall i: nat, k: nat | MayCount(c, replicas, i, k) ensures MayCount(c, replicas[j := r], i, k) {
      MayCountStays(c, replicas, j, r, i, k);
    }
  }

  lemma MayCountStays(c: Config, replicas: seq<Replica>, j: nat, r: Replica, i: nat, k: nat)
    requires j < |replicas| && replicas[j].accepted <= r.accepted && MayCount(c, replicas, i, k)
    ensures MayCount(c, replicas[j := r], i, k)
  {
    var replicas' := replicas[j := r];
    if SomeAccepted(c, replicas, i) {
      var m :| 0 <= m < |replicas| && m != c.leader && i < replicas[m].accepted;
      assert i < replicas'[m].accepted;
    }
  }

  /** One replica moves while its history of acceptance stays. */
  lemma ReplicaMoved(c: Config, s: State, s': State, j: nat)
    requires Inv(c, s) && j < c.group && j != c.leader
    requires |s'.replicas| == |s.replicas| && s' == s.(replicas := s.replicas[j := s'.replicas[j]])
    requires s'.replicas[j].acks == s.replicas[j].acks && s'.replicas[j].accepted == s.replicas[j].accepted
    requires ReplicaInv(c, s.reqs, s.threads, s.leader.committed, j, s'.replicas[j])
    ensures Inv(c, s')
  {
    hide MemInv, LogInv, ThreadsInv, LeaderInv, CountedInv, ReplicaInv;
    LeaderUnmoved(c, s, s', j);
    CountedUnmoved(c, s.threads, s.replicas, j, s'.replicas[j]);
  }

  // -------------------------------------------------------------- the ack scan

  /** Whoever the scan of a slot counts has accepted the entry, or is node 0 because
      the sender has not landed yet. */
  lemma ScanCounts(c: Config, s: State, i: nat, k: nat)
    requires ValidConfig(c) && Inv(c, s) && i < |s.reqs| && k < MAX_SERVER_COUNT
    ensures s.reqs[i].at + ACK_SIZE * k + ACK_SIZE <= |s.leader.mem|
    ensures var slot := s.reqs[i].at + ACK_SIZE * k;
            LoadStamp(s.leader.mem, slot) == StampOf(i) ==>
              MayCount(c, s.replicas, i, Load32(s.leader.mem, slot + 8))
  {
    hide Inv, LoadStamp, Load32, AckLanded, AckBytes;
    var mem, slot, w := s.leader.mem, s.reqs[i].at + ACK_SIZE * k, AckOf(c, s.replicas, k, i);
    SlotOf(c, s, i, k);
    if w.None? {
      EmptySlot(mem, slot, w, StampOf(i));
      TornAck(mem, slot, StampOf(i), 0, seq(12, _ => 0 as byte), 0);
    } else {
      AckOfReplica(c, s, i, k);
      FilledSlot(mem, slot, w);
      TornAck(mem, slot, StampOf(i), k, w.value.bytes[12..], w.value.landed);
    }
  }

  /** Slot `k` of the entry of request `i` holds what has landed of an acknowledgement. */
  lemma SlotOf(c: Config, s: State, i: nat, k: nat)
    requires Inv(c, s) && i < |s.reqs| && k < MAX_SERVER_COUNT
    ensures SlotInv(s.leader.mem, s.reqs[i].at + ACK_SIZE * k, AckOf(c, s.replicas, k, i))
  {
    hide ThreadsInv, LogInv, CountedInv, ReplicaInv, SlotInv, Reads, Body, ZeroFrom;
    assert LeaderEntryInv(c, s, i);
  }

  lemma AckOfReplica(c: Config, s: State, i: nat, k: nat)
    requires Inv(c, s) && k < MAX_SERVER_COUNT && AckOf(c, s.replicas, k, i).Some?
    ensures AckInv(s.reqs, k, i, s.replicas[k].acks[i]) && i < s.replicas[k].accepted && k < c.group
  {
    hide ThreadsInv, LogInv, CountedInv, LeaderInv, MemInv, ExecInv, StoredInv, OffsetInv, AckInv;
    assert ReplicaInv(c, s.reqs, s.threads, s.leader.committed, k, s.replicas[k]);
  }

  lemma EmptySlot(mem: seq<byte>, at: nat, w: Option<Wire>, vs: ViewStamp)
    requires SlotInv(mem, at, w) && w.None?
    ensures AckLanded(mem, at, AckBytes(vs, 0, seq(12, _ => 0 as byte)), 0)
  {
  }

  lemma FilledSlot(mem: seq<byte>, at: nat, w: Option<Wire>)
    requires SlotInv(mem, at, w) && w.Some?
    ensures AckLanded(mem, at, w.value.bytes, w.value.landed)
  {
  }

  lemma OrCounted(c: Config, replicas: seq<Replica>, i: nat, t: Thread, t': Thread, id: nat)
    requires CountedInv(c, replicas, i, t) && Filled(t.pc) && t'.bitmap == OrBit(t.bitmap, id)
    requires MayCount(c, replicas, i, id)
    ensures CountedInv(c, replicas, i, t')
  {
    hide MayCount;
    forall k: nat | HasBit(t'.bitmap, k) ensures MayCount(c, replicas, i, k) {
      OrBitSets(t.bitmap, id, k);
    }
  }

  lemma ScanBitmap(c: Config, s: State, i: nat)
    requires ValidConfig(c) && Inv(c, s) && Enabled(c, s, ScanA(i))
    requires s.threads[i].pc.slot < MAX_SERVER_COUNT
    ensures CountedInv(c, s.replicas, i, Scan(c, s, i).threads[i])
  {
    hide LogInv, ThreadsInv, LeaderInv, ReplicaInv, OrBit, LoadStamp, Load32;
    var t, t' := s.threads[i], Scan(c, s, i).threads[i];
    var slot := s.reqs[i].at + ACK_SIZE * t.pc.slot;
    ScanCounts(c, s, i, t.pc.slot);
    assert CountedInv(c, s.replicas, i, t);
    if LoadStamp(s.leader.mem, slot) == StampOf(i) {
      OrCounted(c, s.replicas, i, t, t', Load32(s.leader.mem, slot + 8));
    }
  }

  lemma ScanKeeps(c: Config, s: State, i: nat)
    requires ValidConfig(c) && Inv(c, s) && Enabled(c, s, ScanA(i))
    ensures Inv(c, Scan(c, s, i))
  {
    hide LogInv, ThreadsInv, LeaderInv, ReplicaInv, CountedInv;
    var t := s.threads[i];
    var s' := Scan(c, s, i);
    ThreadFact(c, s, i);
    if t.pc.slot >= MAX_SERVER_COUNT {
      PcKeeps(c, s, i, s'.threads[i].pc);
    } else {
      ScanBitmap(c, s, i);
      ThreadsUpdate(c, s.reqs, s.threads, s.leader.committed, i, s'.threads[i]);
      ThreadStep(c, s, s', i);
    }
  }

  // ------------------------------------------------------------ landing writes

  lemma InMemory(mem: seq<byte>, at: nat, e: Entry, landed: nat)
    requires Landed(mem, at, e, landed)
    ensures at + LengthFor(e.data) <= |mem|
  {
  }

  lemma LandedElsewhere(mem: seq<byte>, at: nat, e: Entry, landed: nat, a: nat, b: byte)
    requires Landed(mem, at, e, landed) && a < |mem|
    requires a < at + ACKS_SIZE || at + LengthFor(e.data) <= a
    ensures Landed(mem[a := b], at, e, landed)
  {
  }

  lemma LandedNext(mem: seq<byte>, at: nat, e: Entry, landed: nat, b: byte)
    requires Landed(mem, at, e, landed) && landed < LengthFor(e.data)
    requires landed >= ACKS_SIZE ==> b == Body(e)[landed - ACKS_SIZE]
    ensures Landed(mem[at + landed := b], at, e, landed + 1)
  {
  }

  lemma LandMem(c: Config, reqs: seq<Request>, threads: seq<Thread>, j: nat, r: Replica, i: nat)
    requires |reqs| == |threads| && Packed(reqs) && MemInv(c, reqs, threads, j, r)
    requires i in r.inbox && r.inbox[i].landed < |r.inbox[i].bytes|
    ensures r.inbox[i].at + r.inbox[i].landed < |r.mem|
    ensures var w := r.inbox[i];
            MemInv(c, reqs, threads, j, r.(mem := r.mem[w.at + w.landed := w.bytes[w.landed]],
                                           inbox := r.inbox[i := w.(landed := w.landed + 1)]))
  {
    hide Packed, Landed, Body;
    var w := r.inbox[i];
    assert WireInv(c, reqs, threads, j, i, w);
    EntryInside(reqs, i);
    assert Landed(r.mem, reqs[i].tail, EntryAt(c, reqs, threads, i), w.landed);
    InMemory(r.mem, reqs[i].tail, EntryAt(c, reqs, threads, i), w.landed);
    var a, b := w.at + w.landed, w.bytes[w.landed];
    assert w.landed >= ACKS_SIZE ==> b == w.bytes[ACKS_SIZE..][w.landed - ACKS_SIZE];
    var r' := r.(mem := r.mem[a := b], inbox := r.inbox[i := w.(landed := w.landed + 1)]);
    forall k | 0 <= k < |reqs|
      ensures Landed(r'.mem, reqs[k].tail, EntryAt(c, reqs, threads, k), LandedAt(r', k))
    {
      var e := EntryAt(c, reqs, threads, k);
      assert Landed(r.mem, reqs[k].tail, e, LandedAt(r, k));
      if k == i {
        LandedNext(r.mem, reqs[k].tail, e, w.landed, b);
      } else {
        EntriesApart(reqs, i, k);
        LandedElsewhere(r.mem, reqs[k].tail, e, LandedAt(r, k), a, b);
      }
    }
  }

  lemma LandRest(reqs: seq<Request>, threads: seq<Thread>, committed: nat, j: nat, r: Replica, i: nat, r': Replica)
    requires |reqs| == |threads| && AcceptedInv(reqs, j, r) && ExecInv(reqs, threads, committed, r)
    requires i in r.inbox && i < |reqs| && r.inbox[i].landed < Len(reqs[i])
    requires r'.inbox == r.inbox[i := r.inbox[i].(landed := r.inbox[i].landed + 1)]
    requires r' == r.(mem := r'.mem, inbox := r'.inbox)
    ensures AcceptedInv(reqs, j, r') && ExecInv(reqs, threads, committed, r')
  {
    hide AckInv, RecordOf, Key;
  }

  lemma WireFact(c: Config, s: State, j: nat, i: nat)
    requires Inv(c, s) && j < c.group && j != c.leader && i in s.replicas[j].inbox
    ensures WireInv(c, s.reqs, s.threads, j, i, s.replicas[j].inbox[i])
  {
    hide LogInv, ThreadsInv, LeaderInv, CountedInv, AcceptedInv, ExecInv, Landed, ZeroFrom, WireInv;
    assert ReplicaInv(c, s.reqs, s.threads, s.leader.committed, j, s.replicas[j]);
  }

  lemma LandKeeps(c: Config, s: State, j: nat, i: nat)
    requires Inv(c, s) && Enabled(c, s, LandA(j, i))
    ensures Inv(c, Land(s, j, i))
  {
    hide ThreadsInv, LeaderInv, CountedInv, Packed, AcceptedInv, ExecInv, MemInv, Body;
    var s', r := Land(s, j, i), s.replicas[j];
    assert ReplicaInv(c, s.reqs, s.threads, s.leader.committed, j, r);
    WireFact(c, s, j, i);
    LandMem(c, s.reqs, s.threads, j, r, i);
    LandRest(s.reqs, s.threads, s.leader.committed, j, r, i, s'.replicas[j]);
    ReplicaMoved(c, s, s', j);
  }

  lemma SlotElsewhere(mem: seq<byte>, at: nat, w: Option<Wire>, a: nat, b: byte)
    requires SlotInv(mem, at, w) && a < |mem|
    requires a < at || at + ACK_SIZE <= a
    ensures SlotInv(mem[a := b], at, w)
  {
  }

  lemma SlotNext(mem: seq<byte>, at: nat, w: Wire)
    requires SlotInv(mem, at, Some(w)) && w.landed < ACK_SIZE
    ensures SlotInv(mem[at + w.landed := w.bytes[w.landed]], at, Some(w.(landed := w.landed + 1)))
  {
  }

  /** Slots are laid out from the start of each entry. */
  lemma LandAckSlots(c: Config, s: State, s': State, j: nat, i: nat, k: nat, w: Wire)
    requires j < |s.replicas| <= MAX_SERVER_COUNT && j != c.leader && i in s.replicas[j].acks
    requires w == s.replicas[j].acks[i] && |w.bytes| == ACK_SIZE && w.landed < ACK_SIZE
    requires w.at + w.landed < |s.leader.mem|
    requires s'.leader.mem == s.leader.mem[w.at + w.landed := w.bytes[w.landed]]
    requires s'.replicas == s.replicas[j := s.replicas[j].(acks := s.replicas[j].acks[i := w.(landed := w.landed + 1)])]
    requires i < |s.reqs| && k < |s.reqs| && w.at == s.reqs[i].tail + ACK_SIZE * j
    requires || k == i
             || s.reqs[i].tail + Len(s.reqs[i]) <= s.reqs[k].tail
             || s.reqs[k].tail + Len(s.reqs[k]) <= s.reqs[i].tail
    requires forall m :: 0 <= m < MAX_SERVER_COUNT ==>
               SlotInv(s.leader.mem, s.reqs[k].tail + ACK_SIZE * m, AckOf(c, s.replicas, m, k))
    ensures forall m :: 0 <= m < MAX_SERVER_COUNT ==>
              SlotInv(s'.leader.mem, s.reqs[k].tail + ACK_SIZE * m, AckOf(c, s'.replicas, m, k))
  {
    hide SlotInv;
    var a := w.at + w.landed;
    forall m | 0 <= m < MAX_SERVER_COUNT
      ensures SlotInv(s'.leader.mem, s.reqs[k].tail + ACK_SIZE * m, AckOf(c, s'.replicas, m, k))
    {
      assert SlotInv(s.leader.mem, s.reqs[k].tail + ACK_SIZE * m, AckOf(c, s.replicas, m, k));
      if k == i && m == j {
        SlotNext(s.leader.mem, w.at, w);
      } else {
        SlotElsewhere(s.leader.mem, s.reqs[k].tail + ACK_SIZE * m, AckOf(c, s.replicas, m, k), a, w.bytes[w.landed]);
      }
    }
  }

  /** A byte that lands in slot `j` of entry `i` extends that slot and nothing else. */
  lemma LandAckEntry(c: Config, s: State, j: nat, i: nat, k: nat)
    requires Inv(c, s) && Enabled(c, s, LandAckA(j, i)) && k < |s.reqs|
    requires i < |s.reqs| && AckInv(s.reqs, j, i, s.replicas[j].acks[i])
    ensures LeaderEntryInv(c, LandAck(s, j, i), k)
  {
    hide Packed, ThreadsInv, ReplicaInv, CountedInv, SlotInv, Body, AckBytes;
    var s', w := LandAck(s, j, i), s.replicas[j].acks[i];
    assert LeaderEntryInv(c, s, k);
    EntryInside(s.reqs, i);
    if k != i { EntriesApart(s.reqs, i, k); }
    PackedAt(s.reqs, k);
    LandAckSlots(c, s, s', j, i, k, w);
    if Filled(s.threads[k].pc) {
      ReadsFrame(s.leader.mem, s'.leader.mem, s.reqs[k].at + ACKS_SIZE, Body(EntryAt(c, s.reqs, s.threads, k)));
    }
  }
}
