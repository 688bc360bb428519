/** Where the first pass of the log ends: behind an entry that leaves no room for a
    header, a replica goes back to the start and takes the first entry again. */
module ConsensusFirstPass {
  import opened Bytes
  import opened EntryLayout
  import opened Consensus
  import opened ConsensusInvariant
  import opened ConsensusSafety

  /** A replica that has taken one more entry, which lies from `start` to `end`. */
  ghost predicate TookNext(r: Replica, r': Replica, start: nat, end: nat)
  {
    && start <= end == r'.end <= LOG_SIZE && r'.work.Polling? && |r.mem| == |r'.mem| == LOG_SIZE
    && forall a :: 0 <= a < LOG_SIZE && !(start <= a < end) ==> r'.mem[a] == r.mem[a]
  }

  /** The memory of a replica, as far as it matters here. */
  lemma MemFacts(c: Config, s: State, j: nat)
    requires Inv(c, s) && |s.reqs| > 0 && j < c.group && j != c.leader && s.replicas[j].accepted == |s.reqs|
    ensures |s.threads| == |s.reqs| && |s.replicas[j].mem| == LOG_SIZE && ZeroFrom(s.replicas[j].mem, Used(s.reqs))
    ensures s.reqs[0].tail == 0 && Len(s.reqs[0]) <= Used(s.reqs)
    ensures Landed(s.replicas[j].mem, 0, EntryAt(c, s.reqs, s.threads, 0), Len(s.reqs[0]))
  {
    hide LeaderInv, ThreadsInv, CountedInv, ExecInv, AcksInv, OffsetInv, ZeroFrom, Landed, EntryAt, WireInv;
    assert ReplicaInv(c, s.reqs, s.threads, s.leader.committed, j, s.replicas[j]);
    assert LandedAt(s.replicas[j], 0) == Len(s.reqs[0]);
  }

  lemma NothingThere(r: Replica, used: nat)
    requires |r.mem| == LOG_SIZE && used + HEADER_SIZE <= LOG_SIZE && ZeroFrom(r.mem, used) && r.end == used
    ensures PollAt(r) == used && !CanAccept(r)
  {
    ZerosReadZero(r.mem[used + RECORD_AT..used + RECORD_AT + 8]);
    hide FromLE;
  }

  lemma FirstThere(r: Replica, e: Entry)
    requires |r.mem| == LOG_SIZE && r.work.Polling? && r.end <= LOG_SIZE < r.end + HEADER_SIZE
    requires Landed(r.mem, 0, e, LengthFor(e.data)) && LengthFor(e.data) <= LOG_SIZE
    ensures PollAt(r) == 0 && CanAccept(r) && LoadStamp(r.mem, 168) == e.msg
  {
    hide Landed, Body, Load64, Reads, RecordBytes, LoadStamp, Load32, Complete;
    TornWrite(r.mem, 0, e, LengthFor(e.data));
    LandedInFull(r.mem, 0, e);
    DecodeEncoded(r.mem, 0, e);
  }

  lemma LandedFrame(mem: seq<byte>, mem': seq<byte>, e: Entry, start: nat)
    requires Landed(mem, 0, e, LengthFor(e.data)) && LengthFor(e.data) <= start <= |mem| == |mem'|
    requires forall a :: 0 <= a < start ==> mem'[a] == mem[a]
    ensures Landed(mem', 0, e, LengthFor(e.data))
  {
    hide Body;
  }

  /** In every state of every run, for every next request that fits the buffer and
      whatever its bytes are: a replica that has taken it too finds nothing more, if and
      only if it leaves room for a header.  Otherwise it takes the first entry again. */
  lemma FirstPassExact(c: Config, run: seq<State>, k: nat, j: nat, data: seq<byte>, r': Replica)
    requires ValidConfig(c) && Run(c, run) && k < |run| && |run[k].replicas| == c.group && j < c.group && j != c.leader
    requires |run[k].reqs| > 0 && run[k].replicas[j].accepted == |run[k].reqs|
    requires var start := ReservedTail(run[k].leader.end);
             TookNext(run[k].replicas[j], r', start, start + LengthFor(data))
    ensures FirstPass(run[k].leader.end, data) <==> !CanAccept(r')
    ensures !FirstPass(run[k].leader.end, data) ==> PollAt(r') == 0 && LoadStamp(r'.mem, 168) == StampOf(0)
  {
    hide Run, Inv, CanAccept, PollAt, LoadStamp, Landed, EntryAt, ReservedTail;
    var s := run[k];
    InvariantHolds(c, run, k);
    MemFacts(c, s, j);
    EndIsUsed(c, s);
    var e, mem := EntryAt(c, s.reqs, s.threads, 0), s.replicas[j].mem;
    FirstEntry(c, s);
    if FirstPass(s.leader.end, data) {
      assert ZeroFrom(r'.mem, r'.end);
      NothingThere(r', r'.end);
    } else {
      LandedFrame(mem, r'.mem, e, Used(s.reqs));
      FirstThere(r', e);
    }
  }

  lemma EndIsUsed(c: Config, s: State)
    requires Inv(c, s) && |s.reqs| > 0
    ensures ReservedTail(s.leader.end) == Used(s.reqs) && Used(s.reqs) + HEADER_SIZE <= LOG_SIZE
  {
    hide LeaderInv, ThreadsInv, CountedInv, ReplicaInv;
  }

  lemma FirstEntry(c: Config, s: State)
    requires Inv(c, s) && |s.reqs| > 0
    ensures var e := EntryAt(c, s.reqs, s.threads, 0); e.msg == StampOf(0) && LengthFor(e.data) == Len(s.reqs[0])
  {
    hide LeaderInv, ThreadsInv, CountedInv, ReplicaInv;
  }
}
