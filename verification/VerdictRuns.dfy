/** The progress that causes a false restore is reached by runs: the request of an
    output check is committed, and its slots stand anywhere beyond the sender. */
module VerdictRuns {
  import opened Bytes
  import opened EntryLayout
  import opened Quorums
  import opened Decision
  import opened Consensus
  import opened ConsensusInvariant
  import opened ConsensusScan
  import opened ConsensusNextRequest
  import opened Verdict

  /** What node `i` acknowledges a check of index `k` with. */
  function RestOf(stream: seq<bv8>, k: nat): (rest: seq<byte>)
    ensures |rest| == 12
  {
    [0, 0, 0, 0] + ToLE(Reported(stream, k), 8)
  }

  /** The check of index `k`, sent to everybody. */
  function Check(c: Config, streams: seq<seq<bv8>>, k: nat): (o: Order)
  {
    Order(P_OUTPUT, StampOf(0), ToLE(k, 8), 0, Nodes(c.group) - {c.leader},
          seq(|streams|, i requires 0 <= i < |streams| => RestOf(streams[i], k)))
  }

  /** The leader's memory at one moment. */
  function AtOnce(mem: seq<byte>, n: nat): (v: Reading)
  {
    Reading.Reading(seq(n, _ => mem), seq(n, _ => mem))
  }

  function Pads(n: nat): (pads: seq<seq<byte>>)
  {
    seq(n, _ => [0, 0, 0, 0])
  }

  lemma CheckChosen(c: Config, streams: seq<seq<bv8>>, k: nat)
    requires ValidConfig(c) && |streams| == c.group
    ensures var o := Check(c, streams, k);
            && Chosen(c, Init(c), o) && |o.nodes| >= c.group / 2 && RequestOf(Init(c), o).kind == P_OUTPUT
    ensures Run(c, [Init(c)]) && Last([Init(c)]) == Init(c)
  {
    hide Reported, RestOf, Chosen;
    assert Nodes(c.group) == Check(c, streams, k).nodes + {c.leader};
    hide Nodes, RequestOf;
    FirstChosen(c, Check(c, streams, k));
  }

  /** Slot `j` as it is at the end of a run. */
  lemma SlotAtEnd(c: Config, s: State, streams: seq<seq<bv8>>, k: nat, j: nat, landed: nat)
    requires ValidConfig(c) && Inv(c, s) && |s.reqs| == 1 && |s.replicas| == c.group == |streams| && j < c.group
    requires if j == c.leader then landed == 0 else Replied(s.replicas[j], 0, RestOf(streams[j], k), landed)
    ensures AckLanded(s.leader.mem, s.reqs[0].at + ACK_SIZE * j, AckBytes(StampOf(0), j, RestOf(streams[j], k)), landed)
  {
    hide Inv, RestOf;
    if j == c.leader {
      SlotOf(c, s, 0, j);
    } else {
      SlotHolds(c, s, 0, j);
    }
  }

  /** For all streams, and for every progress of the slots beyond the sender, there is a
      run that ends with the check committed and the slots like that. */
  lemma SlotsReached(c: Config, streams: seq<seq<bv8>>, k: nat, landed: seq<nat>) returns (run: seq<State>)
    requires ValidConfig(c) && |streams| == |landed| == c.group && landed[c.leader] == 0
    requires forall j :: 0 <= j < c.group && j != c.leader ==> 9 <= landed[j] <= ACK_SIZE
    ensures |run| > 0 && Run(c, run)
    ensures var s := run[|run| - 1];
            && |s.reqs| == 1 && s.reqs[0].kind == P_OUTPUT && s.leader.committed == 1
            && Seen(AtOnce(s.leader.mem, c.group), s.reqs[0].at, StampOf(0), Pads(c.group), streams, k,
                    Progress(landed, landed))
  {
    hide Run, RestOf, Chosen, Inv, Replied, AckLanded, AckBytes, Seen, Check, AtOnce, Pads, RequestOf;
    var o := Check(c, streams, k);
    CheckChosen(c, streams, k);
    CheckReplies(c, streams, k);
    run := CommitsNext(c, [Init(c)], o, map j | j in o.nodes :: landed[j]);
    RunNotEmpty(c, run);
    InBuffer(c, run, 0);
    var s := run[|run| - 1];
    forall j | 0 <= j < c.group
      ensures AckLanded(s.leader.mem, s.reqs[0].at + ACK_SIZE * j,
                        AckBytes(StampOf(0), j, RestOf(streams[j], k)), landed[j])
    {
      SlotAtEnd(c, s, streams, k, j, landed[j]);
    }
    SeenThere(s.leader.mem, s.reqs[0].at, streams, k, landed);
  }

  lemma CheckReplies(c: Config, streams: seq<seq<bv8>>, k: nat)
    requires |streams| == c.group
    ensures var o := Check(c, streams, k);
            && |o.rests| == c.group
            && (forall j :: 0 <= j < c.group ==> o.rests[j] == RestOf(streams[j], k))
            && (forall j: nat :: j in o.nodes <==> j < c.group && j != c.leader)
  {
    hide RestOf;
  }

  lemma SeenThere(mem: seq<byte>, at: nat, streams: seq<seq<bv8>>, k: nat, landed: seq<nat>)
    requires |streams| == |landed| <= MAX_SERVER_COUNT
    requires forall j :: 0 <= j < |streams| ==>
               AckLanded(mem, at + ACK_SIZE * j, AckBytes(StampOf(0), j, RestOf(streams[j], k)), landed[j])
    ensures Seen(AtOnce(mem, |streams|), at, StampOf(0), Pads(|streams|), streams, k, Progress(landed, landed))
  {
    hide Reported, AckLanded, AckBytes, ToLE;
  }

  /** Every progress at which agreement is not safe is reached with the check committed,
      by streams that agree and cause restores. */
  lemma FalseRestoreReached(c: Config, k: nat, landed: seq<nat>) returns (streams: seq<seq<bv8>>, run: seq<State>)
    requires ValidConfig(c) && ValidProgress(Progress(landed, landed), c.group, c.leader)
    requires !Settled(Progress(landed, landed), c.leader)
    ensures |streams| == c.group && AgreeUpTo(streams, k)
    ensures |run| > 0 && Run(c, run)
    ensures var s, p := run[|run| - 1], Progress(landed, landed);
            && |s.reqs| == 1 && s.reqs[0].kind == P_OUTPUT && s.leader.committed == 1
            && Seen(AtOnce(s.leader.mem, c.group), s.reqs[0].at, StampOf(0), Pads(c.group), streams, k, p)
            && !Quiet(PeersFor(streams, c.leader, k, p))
  {
    hide Run, AgreeUpTo, Quiet, PeersFor, Seen;
    streams := UnsettledRestores(c.group, c.leader, k, Progress(landed, landed));
    run := SlotsReached(c, streams, k, landed);
  }

  /** Three nodes that agree, node 0 leads, the check is committed with 24 and 17 bytes in
      the slots, and node 2 gets a restore. */
  lemma CutHashReached(k: nat) returns (streams: seq<seq<bv8>>, run: seq<State>)
    ensures |streams| == 3 && AgreeUpTo(streams, k)
    ensures |run| > 0 && Run(Config(3, 0), run)
    ensures var s, p := run[|run| - 1], Progress([0, 24, 17], [0, 24, 17]);
            && |s.reqs| == 1 && s.leader.committed == 1
            && Seen(AtOnce(s.leader.mem, 3), s.reqs[0].at, StampOf(0), Pads(3), streams, k, p)
            && Restores(PeersFor(streams, 0, k, p), ONES_NUMBER) == [Restore(2, k)]
  {
    hide Run, AgreeUpTo, PeersFor, Seen, Restores, AllHashed, MajorityHash;
    streams := CutHashRestores(k);
    run := SlotsReached(Config(3, 0), streams, k, [0, 24, 17]);
  }
}
