/** The acknowledgement that a replica posts lies in the slot of its own copy of the
    entry, and stays there: the device sends it from that memory. */
module ConsensusReplies {
  import opened Bytes
  import opened ViewStamps
  import opened EntryLayout
  import opened Consensus
  import opened ConsensusInvariant
  import opened ConsensusReplicas
  import opened ConsensusSafety

  /** The bytes of `w` are in `mem` where they are to be written to. */
  predicate InPlace(mem: seq<byte>, w: Wire)
  {
    w.at + |w.bytes| <= |mem| && mem[w.at..w.at + |w.bytes|] == w.bytes
  }

  ghost predicate RepliesInPlace(r: Replica)
  {
    forall i :: i in r.acks ==> InPlace(r.mem, r.acks[i])
  }

  lemma OtherByte(mem: seq<byte>, a: nat, x: byte, w: Wire)
    requires a < |mem| && InPlace(mem, w) && !(w.at <= a < w.at + |w.bytes|)
    ensures InPlace(mem[a := x], w)
  {
    forall k | 0 <= k < |w.bytes| ensures mem[a := x][w.at..w.at + |w.bytes|][k] == w.bytes[k] {
      assert mem[w.at..w.at + |w.bytes|][k] == mem[w.at + k];
    }
  }

  lemma OtherWrite(mem: seq<byte>, at: nat, bytes: seq<byte>, w: Wire)
    requires at + |bytes| <= |mem| && InPlace(mem, w)
    requires w.at + |w.bytes| <= at || at + |bytes| <= w.at
    ensures InPlace(Write(mem, at, bytes), w)
  {
    var m := Write(mem, at, bytes);
    forall k | 0 <= k < |w.bytes| ensures m[w.at..w.at + |w.bytes|][k] == w.bytes[k] {
      assert mem[w.at..w.at + |w.bytes|][k] == mem[w.at + k];
    }
  }

  lemma OwnWrite(mem: seq<byte>, at: nat, bytes: seq<byte>, landed: nat)
    requires at + |bytes| <= |mem|
    ensures InPlace(Write(mem, at, bytes), Wire(at, bytes, landed))
  {
  }

  /** Where the acknowledgement of an accepted entry lies, and that the entry is there. */
  lemma AckPlace(c: Config, s: State, j: nat, i: nat)
    requires Inv(c, s) && j < c.group && j != c.leader && i in s.replicas[j].acks
    ensures i < s.replicas[j].accepted <= |s.reqs| && i in s.replicas[j].inbox
    ensures s.replicas[j].inbox[i].landed == Len(s.reqs[i])
    ensures s.replicas[j].acks[i].at == s.reqs[i].tail + ACK_SIZE * j && |s.replicas[j].acks[i].bytes| == ACK_SIZE
  {
    hide LogInv, ThreadsInv, LeaderInv, CountedInv, MemInv, ExecInv, OffsetInv;
    assert ReplicaInv(c, s.reqs, s.threads, s.leader.committed, j, s.replicas[j]);
  }

  lemma WirePlace(c: Config, s: State, j: nat, i: nat)
    requires Inv(c, s) && j < c.group && j != c.leader && i in s.replicas[j].inbox
    ensures i < |s.reqs| && s.replicas[j].inbox[i].at == s.reqs[i].tail
    ensures |s.replicas[j].inbox[i].bytes| == Len(s.reqs[i])
  {
    hide LogInv, ThreadsInv, LeaderInv, CountedInv, AcceptedInv, ExecInv;
    assert ReplicaInv(c, s.reqs, s.threads, s.leader.committed, j, s.replicas[j]);
    assert WireInv(c, s.reqs, s.threads, j, i, s.replicas[j].inbox[i]);
  }

  lemma Apart(c: Config, s: State, i: nat, k: nat)
    requires Inv(c, s) && i < |s.reqs| && k < |s.reqs| && i != k
    ensures s.reqs[i].tail + Len(s.reqs[i]) <= s.reqs[k].tail || s.reqs[k].tail + Len(s.reqs[k]) <= s.reqs[i].tail
  {
    hide ThreadsInv, LeaderInv, CountedInv, ReplicaInv;
    EntriesApart(s.reqs, i, k);
  }

  lemma LandStays(c: Config, s: State, j: nat, k: nat)
    requires ValidConfig(c) && Inv(c, s) && Enabled(c, s, LandA(j, k)) && RepliesInPlace(s.replicas[j])
    ensures RepliesInPlace(Land(s, j, k).replicas[j])
  {
    hide Inv, InPlace;
    var r := s.replicas[j];
    WirePlace(c, s, j, k);
    var w := r.inbox[k];
    forall i | i in r.acks ensures InPlace(Land(s, j, k).replicas[j].mem, r.acks[i]) {
      AckPlace(c, s, j, i);
      if i != k { Apart(c, s, i, k); }
      OtherByte(r.mem, w.at + w.landed, w.bytes[w.landed], r.acks[i]);
    }
  }

  lemma AcceptStays(c: Config, s: State, j: nat, rest: seq<byte>)
    requires ValidConfig(c) && Inv(c, s) && Enabled(c, s, AcceptA(j, rest)) && RepliesInPlace(s.replicas[j])
    ensures RepliesInPlace(Accept(s.replicas[j], j, rest))
  {
    hide Inv, InPlace, Complete, LoadStamp, Load64, AckBytes, EntryLen, PollAt, Write;
    var r, r' := s.replicas[j], Accept(s.replicas[j], j, rest);
    NextPlace(c, s, j);
    var ack := AckBytes(LoadStamp(r.mem, PollAt(r) + 168), j, rest);
    AckLength(LoadStamp(r.mem, PollAt(r) + 168), j, rest);
    forall i | i in r'.acks ensures InPlace(r'.mem, r'.acks[i]) {
      if i == r.accepted {
        OwnWrite(r.mem, PollAt(r) + ACK_SIZE * j, ack, 0);
      } else {
        AckPlace(c, s, j, i);
        Apart(c, s, i, r.accepted);
        OtherWrite(r.mem, PollAt(r) + ACK_SIZE * j, ack, r.acks[i]);
      }
    }
  }

  lemma AckLength(vs: ViewStamp, j: nat, rest: seq<byte>)
    requires j < MAX_SERVER_COUNT && |rest| == 12
    ensures |AckBytes(vs, j, rest)| == ACK_SIZE
  {
  }

  lemma NextPlace(c: Config, s: State, j: nat)
    requires ValidConfig(c) && Inv(c, s) && j < c.group && j != c.leader && |s.replicas[j].mem| == LOG_SIZE
    requires s.replicas[j].end <= LOG_SIZE && Complete(s.replicas[j].mem, PollAt(s.replicas[j]))
    ensures s.replicas[j].accepted < |s.reqs| && PollAt(s.replicas[j]) == s.reqs[s.replicas[j].accepted].tail
    ensures PollAt(s.replicas[j]) + ACKS_SIZE <= LOG_SIZE
    ensures Len(s.reqs[s.replicas[j].accepted]) >= ACKS_SIZE
  {
    hide ThreadsInv, LeaderInv, CountedInv, ExecInv, MemInv, AcceptedInv, Packed, Complete;
    assert ReplicaInv(c, s.reqs, s.threads, s.leader.committed, j, s.replicas[j]);
    AcceptsNext(c, s.reqs, s.threads, j, s.replicas[j]);
  }

  lemma AckStays(c: Config, s: State, j: nat, i: nat)
    requires Enabled(c, s, LandAckA(j, i)) && RepliesInPlace(s.replicas[j])
    ensures RepliesInPlace(LandAck(s, j, i).replicas[j])
  {
  }

  lemma RestStays(c: Config, s: State, a: Action, j: nat)
    requires Enabled(c, s, a) && j < |s.replicas| && RepliesInPlace(s.replicas[j])
    requires !(a.LandA? && a.j == j) && !(a.AcceptA? && a.j == j) && !(a.LandAckA? && a.j == j)
    ensures j < |Apply(c, s, a).replicas| && RepliesInPlace(Apply(c, s, a).replicas[j])
  {
    hide InPlace, PollAt, Write;
  }

  /** In every state of every run, every acknowledgement of a replica is in its memory,
      byte by byte, where it is to be written to at the leader. */
  lemma {:induction false} RepliesStay(c: Config, run: seq<State>, k: nat, j: nat)
    requires ValidConfig(c) && Run(c, run) && k < |run| && j < c.group && j != c.leader
    ensures j < |run[k].replicas| && RepliesInPlace(run[k].replicas[j])
  {
    hide Inv, RepliesInPlace;
    if k == 0 {
      NoReplies(c, j);
    } else {
      var m := k - 1;
      RepliesStay(c, run, m, j);
      InvariantHolds(c, run, m);
      assert Next(c, run[m], run[m + 1]);
      var a: Action :| Enabled(c, run[m], a) && run[k] == Apply(c, run[m], a);
      if a.LandA? && a.j == j {
        LandStays(c, run[m], j, a.i);
      } else if a.AcceptA? && a.j == j {
        AcceptStays(c, run[m], j, a.rest);
      } else if a.LandAckA? && a.j == j {
        AckStays(c, run[m], j, a.i);
      } else {
        RestStays(c, run[m], a, j);
      }
    }
  }

  lemma NoReplies(c: Config, j: nat)
    requires j < c.group
    ensures RepliesInPlace(Init(c).replicas[j])
  {
  }
}
