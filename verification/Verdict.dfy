/** From the output streams of all nodes to the restores that go out.  The leader reads
    the acknowledgement slots while bytes may still be landing in them. */
module Verdict {
  import opened Bytes
  import opened ViewStamps
  import opened EntryLayout
  import opened Crc64
  import opened Output
  import opened Quorums
  import opened Decision
  import opened Consensus
  import opened ConsensusInvariant
  import opened ConsensusSafety

  /** A hash as an unsigned 64-bit number. */
  function Number(h: bv64): (n: nat)
  {
    h as nat
  }

  lemma NumberBack(h: bv64)
    ensures 0 <= h as int < U64 && (h as int) as bv64 == h
  {
  }

  lemma NumberInjective(a: bv64, b: bv64)
    requires Number(a) == Number(b)
    ensures a == b
  {
    NumberBack(a);
    NumberBack(b);
  }

  /** The hash a node reports for index `k`: 0 until its stream gets there. */
  function Reported(stream: seq<bv8>, k: nat): (h: nat)
  {
    if k < Blocks(stream) then Number(HashAt(stream, k)) else 0
  }

  lemma ReportBound(stream: seq<bv8>, k: nat)
    ensures Reported(stream, k) < U64
  {
    if k < Blocks(stream) { NumberBack(HashAt(stream, k)); }
  }

  // ------------------------------------------------------------ reading the slots

  /** The memory of the leader when it reads the sender of slot `i`, and when it reads
      the hash of slot `i`. */
  datatype Reading = Reading(ids: seq<seq<byte>>, hashes: seq<seq<byte>>)

  /** All slots of the entry at `at` lie inside the memory. */
  predicate Readable(v: Reading, at: nat)
  {
    && |v.ids| == |v.hashes|
    && forall i :: 0 <= i < |v.ids| ==>
         at + ACK_SIZE * i + ACK_SIZE <= |v.ids[i]| && at + ACK_SIZE * i + ACK_SIZE <= |v.hashes[i]|
  }

  function SlotPeer(v: Reading, at: nat, leader: nat, k: nat, i: nat): (p: Peer)
    requires Readable(v, at) && i < |v.ids|
  {
    Peer(leader, Load32(v.ids[i], at + ACK_SIZE * i + 8), Load64(v.hashes[i], at + ACK_SIZE * i + 16), k)
  }

  /** `prepare_peer_array`: the slots as they are when they are read, with the leader's
      own hash filled in. */
  method PreparePeers(v: Reading, at: nat, leader: nat, k: nat, own: nat) returns (peers: seq<Peer>)
    requires Readable(v, at) && leader < |v.ids|
    ensures |peers| == |v.ids|
    ensures forall i :: 0 <= i < |peers| ==>
              peers[i] ==
                if i == leader then SlotPeer(v, at, leader, k, i).(hash := own) else SlotPeer(v, at, leader, k, i)
  {
    peers := [];
    var i := 0;
    while i < |v.ids|
      invariant 0 <= i <= |v.ids| && |peers| == i
      invariant forall m :: 0 <= m < i ==> peers[m] == SlotPeer(v, at, leader, k, m)
    {
      peers := peers + [SlotPeer(v, at, leader, k, i)];
      i := i + 1;
    }
    peers := peers[leader := peers[leader].(hash := own)];
  }

  /** How far the acknowledgements have landed, in bytes, when the sender and when the
      hash of each slot is read. */
  datatype Progress = Progress(ids: seq<nat>, hashes: seq<nat>)

  /** The leader's own slot is never written. */
  ghost predicate ValidProgress(p: Progress, n: nat, leader: nat)
  {
    && |p.ids| == |p.hashes| == n && leader < n && p.hashes[leader] == 0
    && forall i :: 0 <= i < n ==> p.ids[i] <= p.hashes[i] <= ACK_SIZE
  }

  /** The slots of one request, stamped `vs`: each holds the first bytes of the
      acknowledgement of its node, which ends with the hash that the node reports. */
  ghost predicate Seen(v: Reading, at: nat, vs: ViewStamp, pads: seq<seq<byte>>, streams: seq<seq<bv8>>, k: nat,
                       p: Progress)
  {
    && |streams| == |pads| == |v.ids| == |v.hashes| == |p.ids| == |p.hashes| <= MAX_SERVER_COUNT
    && forall i :: 0 <= i < |streams| ==>
         && |pads[i]| == 4
         && AckLanded(v.ids[i], at + ACK_SIZE * i,
                      AckBytes(vs, i, pads[i] + ToLE(Reported(streams[i], k), 8)), p.ids[i])
         && AckLanded(v.hashes[i], at + ACK_SIZE * i,
                      AckBytes(vs, i, pads[i] + ToLE(Reported(streams[i], k), 8)), p.hashes[i])
  }

  /** Such slots are what every run has in the leader's memory: in each slot the first
      bytes of the acknowledgement of that replica, and nothing in the leader's own. */
  lemma SlotInRun(c: Config, run: seq<State>, n: nat, i: nat, j: nat) returns (rest: seq<byte>, landed: nat)
    requires ValidConfig(c) && Run(c, run) && n < |run| && i < |run[n].reqs| && j < c.group
    ensures |rest| == 12 && landed <= ACK_SIZE && (j == c.leader ==> landed == 0)
    ensures AckLanded(run[n].leader.mem, run[n].reqs[i].at + ACK_SIZE * j, AckBytes(StampOf(i), j, rest), landed)
  {
    hide Run, Inv, AckBytes;
    InvariantHolds(c, run, n);
    var s := run[n];
    SlotOf(c, s, i, j);
    var w := AckOf(c, s.replicas, j, i);
    if w.Some? {
      AckOfReplica(c, s, i, j);
      rest, landed := w.value.bytes[12..], w.value.landed;
    } else {
      rest, landed := seq(12, _ => 0), 0;
    }
  }

  /** The hash that the leader reads for node `i`. */
  function Read(streams: seq<seq<bv8>>, leader: nat, k: nat, p: Progress, i: nat): (h: nat)
    requires i < |streams| && i < |p.hashes|
  {
    if i == leader then Reported(streams[i], k) else CutHash(Reported(streams[i], k), p.hashes[i])
  }

  /** The node that slot `i` names: node 0 for the leader's own slot, and as long as the
      sender has not landed. */
  function Addressee(leader: nat, p: Progress, i: nat): (n: nat)
    requires i < |p.ids|
  {
    if i == leader || p.ids[i] < 9 then 0 else i
  }

  /** The peers that a decision on index `k` is taken on. */
  function PeersFor(streams: seq<seq<bv8>>, leader: nat, k: nat, p: Progress): (peers: seq<Peer>)
    requires |p.ids| == |p.hashes| == |streams|
    ensures |peers| == |streams|
  {
    seq(|streams|, i requires 0 <= i < |streams| =>
      Peer(leader, Addressee(leader, p, i), Read(streams, leader, k, p, i), k))
  }

  /** Reading the memory gives these peers. */
  lemma SlotRead(v: Reading, at: nat, vs: ViewStamp, pads: seq<seq<byte>>, streams: seq<seq<bv8>>, leader: nat,
                 k: nat, p: Progress, i: nat)
    requires Seen(v, at, vs, pads, streams, k, p) && ValidProgress(p, |streams|, leader) && i < |streams|
    requires Readable(v, at)
    ensures SlotPeer(v, at, leader, k, i).nodeId == Addressee(leader, p, i)
    ensures i != leader ==> SlotPeer(v, at, leader, k, i).hash == Read(streams, leader, k, p, i)
  {
    hide AckLanded, AckBytes, Reported, CutHash, Load32, Load64;
    var h := Reported(streams[i], k);
    TornAck(v.ids[i], at + ACK_SIZE * i, vs, i, pads[i] + ToLE(h, 8), p.ids[i]);
    TornHash(v.hashes[i], at + ACK_SIZE * i, vs, i, pads[i], h, p.hashes[i]);
  }

  lemma SeenReadable(v: Reading, at: nat, vs: ViewStamp, pads: seq<seq<byte>>, streams: seq<seq<bv8>>, k: nat,
                     p: Progress)
    requires Seen(v, at, vs, pads, streams, k, p)
    ensures Readable(v, at)
  {
    hide AckBytes, Reported;
  }

  // ----------------------------------------------------------- no false restore

  lemma WholeHash(hash: nat)
    requires hash < U64
    ensures CutHash(hash, ACK_SIZE) == hash
  {
    Pow256Values();
  }

  lemma NoHash(hash: nat, landed: nat)
    requires landed <= 16
    ensures CutHash(hash, landed) == 0
  {
  }

  /** Nodes that have got that far agree on everything up to the end of block `k`. */
  ghost predicate AgreeUpTo(streams: seq<seq<bv8>>, k: nat)
  {
    forall i, j :: 0 <= i < |streams| && 0 <= j < |streams| && k < Blocks(streams[i]) && k < Blocks(streams[j]) ==>
      streams[i][..HASH_BUFFER_SIZE * (k + 1)] == streams[j][..HASH_BUFFER_SIZE * (k + 1)]
  }

  /** All hashes of replicas have landed in full. */
  ghost predicate Whole(p: Progress, leader: nat)
  {
    forall i :: 0 <= i < |p.hashes| && i != leader ==> p.hashes[i] == ACK_SIZE
  }

  /** Some hash has not begun to land, or all have landed in full. */
  ghost predicate Settled(p: Progress, leader: nat)
  {
    Whole(p, leader) || exists i :: 0 <= i < |p.hashes| && i != leader && p.hashes[i] <= 16
  }

  lemma PeerRead(streams: seq<seq<bv8>>, leader: nat, k: nat, p: Progress, i: nat)
    requires |p.ids| == |p.hashes| == |streams| && i < |streams|
    ensures PeersFor(streams, leader, k, p)[i] ==
              Peer(leader, Addressee(leader, p, i), Read(streams, leader, k, p, i), k)
  {
  }

  lemma WholeRead(streams: seq<seq<bv8>>, leader: nat, k: nat, p: Progress, i: nat)
    requires |p.hashes| == |streams| && i < |streams| && Whole(p, leader)
    ensures Read(streams, leader, k, p, i) == Reported(streams[i], k)
  {
    hide Reported, CutHash;
    ReportBound(streams[i], k);
    if i != leader { WholeHash(Reported(streams[i], k)); }
  }

  lemma SameReports(streams: seq<seq<bv8>>, k: nat, i: nat, j: nat)
    requires AgreeUpTo(streams, k) && i < |streams| && j < |streams|
    requires Reported(streams[i], k) != 0 && Reported(streams[j], k) != 0
    ensures Reported(streams[i], k) == Reported(streams[j], k)
  {
    hide Checksum, Number;
    HashesPrefix(streams[i], streams[j], k);
  }

  /** If everybody agrees and the hashes have settled, nothing is to be done. */
  lemma AgreeQuiet(streams: seq<seq<bv8>>, leader: nat, k: nat, p: Progress)
    requires ValidProgress(p, |streams|, leader) && AgreeUpTo(streams, k) && Settled(p, leader)
    ensures Quiet(PeersFor(streams, leader, k, p))
  {
    hide AgreeUpTo, Reported, CutHash, PeersFor;
    var peers := PeersFor(streams, leader, k, p);
    if i :| 0 <= i < |p.hashes| && i != leader && p.hashes[i] <= 16 {
      PeerRead(streams, leader, k, p, i);
      NoHash(Reported(streams[i], k), p.hashes[i]);
      assert peers[i].hash == 0;
    } else if AllHashed(peers) {
      forall i, j | 0 <= i < |peers| && 0 <= j < |peers| ensures peers[i].hash == peers[j].hash {
        PeerRead(streams, leader, k, p, i);
        PeerRead(streams, leader, k, p, j);
        WholeRead(streams, leader, k, p, i);
        WholeRead(streams, leader, k, p, j);
        assert peers[i].hash != 0 && peers[j].hash != 0;
        SameReports(streams, k, i, j);
      }
    }
  }

  /** A hash all of whose bytes are 1. */
  const ONES: bv64 := 0x0101_0101_0101_0101
  const ONES_NUMBER := 0x0101_0101_0101_0101

  lemma OnesNumber()
    ensures Number(ONES) == ONES_NUMBER
  {
  }

  /** Cut anywhere, it is another hash and not zero. */
  lemma CutOnes(landed: nat)
    requires 17 <= landed <= ACK_SIZE
    ensures CutHash(ONES_NUMBER, landed) != 0
    ensures CutHash(ONES_NUMBER, landed) == ONES_NUMBER <==> landed == ACK_SIZE
    ensures landed == 17 ==> CutHash(ONES_NUMBER, landed) == 1
    ensures landed == 18 ==> CutHash(ONES_NUMBER, landed) == 257
  {
    assert Pow256(2) == 65536 && Pow256(3) == 16777216;
    Pow256Values();
    assert Pow256(5) == 0x100_0000_0000 && Pow256(6) == 0x1_0000_0000_0000 && Pow256(7) == 0x100_0000_0000_0000;
  }

  /** For every index there is a stream with every hash. */
  lemma StreamWithHash(k: nat, h: bv64) returns (stream: seq<bv8>)
    ensures Blocks(stream) == k + 1 && HashAt(stream, k) == h
  {
    hide Checksum;
    var n := HASH_BUFFER_SIZE * (k + 1);
    var front: seq<bv8> := seq(n - 8, _ => 0);
    var tail := EveryChecksum(0, front, h);
    stream := front + tail;
    assert stream[..n] == stream;
  }

  lemma {:induction false} OnesStream(k: nat) returns (stream: seq<bv8>)
    ensures Reported(stream, k) == ONES_NUMBER
  {
    hide HashAt, Number;
    stream := StreamWithHash(k, ONES);
    OnesNumber();
  }

  lemma OnesPeer(streams: seq<seq<bv8>>, leader: nat, k: nat, p: Progress, i: nat)
    requires |p.ids| == |p.hashes| == |streams| && i < |streams| && Reported(streams[i], k) == ONES_NUMBER
    ensures PeersFor(streams, leader, k, p)[i] ==
              Peer(leader, Addressee(leader, p, i),
                   if i == leader then ONES_NUMBER else CutHash(ONES_NUMBER, p.hashes[i]), k)
  {
    hide Reported, CutHash, PeersFor, Addressee;
    PeerRead(streams, leader, k, p, i);
  }

  lemma AllTheSame(one: seq<bv8>, n: nat, k: nat) returns (streams: seq<seq<bv8>>)
    ensures |streams| == n && AgreeUpTo(streams, k) && forall i :: 0 <= i < n ==> streams[i] == one
  {
    streams := seq(n, _ => one);
  }

  /** If the hashes have not settled, there are streams that agree and cause restores. */
  lemma UnsettledRestores(n: nat, leader: nat, k: nat, p: Progress) returns (streams: seq<seq<bv8>>)
    requires ValidProgress(p, n, leader) && !Settled(p, leader)
    ensures |streams| == n && AgreeUpTo(streams, k) && !Quiet(PeersFor(streams, leader, k, p))
  {
    hide Reported, CutHash, PeersFor, AgreeUpTo, Addressee;
    var one := OnesStream(k);
    streams := AllTheSame(one, n, k);
    var peers := PeersFor(streams, leader, k, p);
    forall i | 0 <= i < n ensures peers[i].hash != 0 {
      OnesPeer(streams, leader, k, p, i);
      if i != leader { CutOnes(p.hashes[i]); }
    }
    var i :| 0 <= i < |p.hashes| && i != leader && p.hashes[i] != ACK_SIZE;
    OnesPeer(streams, leader, k, p, i);
    OnesPeer(streams, leader, k, p, leader);
    CutOnes(p.hashes[i]);
    assert peers[i].hash != peers[leader].hash;
  }

  /** Streams that agree never cause a restore, exactly when some hash has not begun to
      land or all have landed in full. */
  lemma NoFalseRestore(n: nat, leader: nat, k: nat, p: Progress)
    requires ValidProgress(p, n, leader)
    ensures (forall streams: seq<seq<bv8>> :: |streams| == n && AgreeUpTo(streams, k) ==>
               Quiet(PeersFor(streams, leader, k, p)))
            <==> Settled(p, leader)
  {
    hide AgreeUpTo, Quiet, PeersFor;
    if Settled(p, leader) {
      forall streams: seq<seq<bv8>> | |streams| == n && AgreeUpTo(streams, k)
        ensures Quiet(PeersFor(streams, leader, k, p))
      {
        AgreeQuiet(streams, leader, k, p);
      }
    } else {
      var streams := UnsettledRestores(n, leader, k, p);
    }
  }

  /** Three nodes that agree.  One hash cut after a byte restores its node; two that are
      cut at different places restore everybody. */
  lemma CutHashRestores(k: nat) returns (streams: seq<seq<bv8>>)
    ensures |streams| == 3 && AgreeUpTo(streams, k)
    ensures var peers := PeersFor(streams, 0, k, Progress([0, 24, 17], [0, 24, 17]));
            AllHashed(peers) && MajorityHash(peers, ONES_NUMBER) && Restores(peers, ONES_NUMBER) == [Restore(2, k)]
    ensures var peers := PeersFor(streams, 0, k, Progress([0, 17, 18], [0, 17, 18]));
            AllHashed(peers) && (forall h :: !MajorityHash(peers, h))
            && Restores(peers, 0) == [Restore(0, k), Restore(1, k), Restore(2, k)]
  {
    hide Reported, CutHash, PeersFor, AgreeUpTo, AllHashed, MajorityHash, Restores;
    var one := OnesStream(k);
    streams := AllTheSame(one, 3, k);
    var p, q := Progress([0, 24, 17], [0, 24, 17]), Progress([0, 17, 18], [0, 17, 18]);
    forall i | 0 <= i < 3
      ensures PeersFor(streams, 0, k, p)[i] == Peer(0, i, [ONES_NUMBER, ONES_NUMBER, 1][i], k)
      ensures PeersFor(streams, 0, k, q)[i] == Peer(0, i, [ONES_NUMBER, 1, 257][i], k)
    {
      OnesPeer(streams, 0, k, p, i);
      OnesPeer(streams, 0, k, q, i);
      CutOnes(17);
      CutOnes(18);
      CutOnes(24);
    }
    OneOfThree(PeersFor(streams, 0, k, p), k);
    NoneOfThree(PeersFor(streams, 0, k, q), k, 0);
  }

  /** The restore of one slot, if it needs one. */
  function RestoreOf(p: Peer, aim: nat): (r: seq<Restore>)
  {
    if aim == 0 || p.hash != aim then [Restore(p.nodeId, p.hashIndex)] else []
  }

  lemma RestoresThree(peers: seq<Peer>, aim: nat)
    requires |peers| == 3
    ensures Restores(peers, aim) == RestoreOf(peers[0], aim) + RestoreOf(peers[1], aim) + RestoreOf(peers[2], aim)
  {
    var one, two := [peers[0]], [peers[0], peers[1]];
    assert peers[..2] == two && two[..1] == one && one[..0] == [];
    assert Restores(one, aim) == RestoreOf(peers[0], aim);
    assert Restores(two, aim) == Restores(one, aim) + RestoreOf(peers[1], aim);
  }

  lemma OneOfThree(peers: seq<Peer>, k: nat)
    requires |peers| == 3 && forall i :: 0 <= i < 3 ==> peers[i] == Peer(0, i, [ONES_NUMBER, ONES_NUMBER, 1][i], k)
    ensures AllHashed(peers) && MajorityHash(peers, ONES_NUMBER) && Restores(peers, ONES_NUMBER) == [Restore(2, k)]
  {
    hide Restores, Agreeing;
    TwoOfThree(peers, ONES_NUMBER);
    RestoresThree(peers, ONES_NUMBER);
  }

  lemma TwoOfThree(peers: seq<Peer>, h: nat)
    requires |peers| == 3 && peers[0].hash == peers[1].hash == h && peers[2].hash != h
    ensures MajorityHash(peers, h)
  {
    assert Agreeing(peers, h) == {0, 1};
  }

  lemma NoMajorityOfThree(peers: seq<Peer>, h: nat)
    requires |peers| == 3 && peers[0].hash != peers[1].hash && peers[1].hash != peers[2].hash
    requires peers[0].hash != peers[2].hash
    ensures !MajorityHash(peers, h)
  {
    var i := if peers[0].hash == h then 0 else if peers[1].hash == h then 1 else 2;
    SubsetSize(Agreeing(peers, h), {i});
  }

  lemma NoneOfThree(peers: seq<Peer>, k: nat, everybody: nat)
    requires |peers| == 3 && forall i :: 0 <= i < 3 ==> peers[i] == Peer(0, i, [ONES_NUMBER, 1, 257][i], k)
    requires everybody == 0
    ensures AllHashed(peers) && (forall h :: !MajorityHash(peers, h))
    ensures Restores(peers, everybody) == [Restore(0, k), Restore(1, k), Restore(2, k)]
  {
    hide Restores, MajorityHash;
    forall h ensures !MajorityHash(peers, h) { NoMajorityOfThree(peers, h); }
    RestoresThree(peers, everybody);
  }

  // -------------------------------------------------------------- who is restored

  /** The nodes whose report differs from `h`, and the nodes that get a restore. */
  function Differing(streams: seq<seq<bv8>>, k: nat, h: nat): (s: set<nat>)
  {
    set i | i in Nodes(|streams|) && Reported(streams[i], k) != h
  }

  function Targets(sent: seq<Restore>): (s: set<nat>)
  {
    set r | r in sent :: r.nodeId
  }

  /** A node gets a restore if and only if it is the addressee of a slot whose hash
      reads different. */
  lemma TargetMeaning(streams: seq<seq<bv8>>, leader: nat, k: nat, p: Progress, h: nat, n: nat)
    requires |p.ids| == |p.hashes| == |streams| && h != 0
    ensures n in Targets(Restores(PeersFor(streams, leader, k, p), h)) <==>
              exists i :: 0 <= i < |streams| && Read(streams, leader, k, p, i) != h && Addressee(leader, p, i) == n
  {
    hide PeersFor, Read, Restores, Addressee;
    var peers := PeersFor(streams, leader, k, p);
    var sent := Restores(peers, h);
    if n in Targets(sent) {
      var r :| r in sent && r.nodeId == n;
      RestoresExact(peers, h, r);
      var i: nat :| Restored(peers, h, i, r);
      PeerRead(streams, leader, k, p, i);
    }
    if i :| 0 <= i < |streams| && Read(streams, leader, k, p, i) != h && Addressee(leader, p, i) == n {
      PeerRead(streams, leader, k, p, i);
      var r := Restore(n, peers[i].hashIndex);
      assert Restored(peers, h, i, r);
      RestoresExact(peers, h, r);
    }
  }

  /** When all hashes have landed, the restores go to exactly the nodes that differ if
      and only if each of these is the addressee of its own slot. */
  lemma TargetsExact(streams: seq<seq<bv8>>, leader: nat, k: nat, p: Progress, h: nat)
    requires ValidProgress(p, |streams|, leader) && Whole(p, leader) && h != 0
    ensures Targets(Restores(PeersFor(streams, leader, k, p), h)) == Differing(streams, k, h)
            <==> forall i :: i in Differing(streams, k, h) ==> Addressee(leader, p, i) == i
  {
    hide PeersFor, Reported, Restores, Targets, Read, Whole;
    var targets, differing := Targets(Restores(PeersFor(streams, leader, k, p), h)), Differing(streams, k, h);
    forall i | 0 <= i < |streams| ensures Read(streams, leader, k, p, i) != h <==> i in differing {
      WholeRead(streams, leader, k, p, i);
    }
    if forall i :: i in differing ==> Addressee(leader, p, i) == i {
      forall n: nat ensures n in targets <==> n in differing { TargetMeaning(streams, leader, k, p, h, n); }
    } else {
      var i :| i in differing && Addressee(leader, p, i) != i;
      TargetMeaning(streams, leader, k, p, h, i);
      assert i !in targets;
    }
  }

  /** With the senders landed too: if and only if the leader is node 0 or agrees. */
  lemma TargetsLeader(streams: seq<seq<bv8>>, leader: nat, k: nat, p: Progress, h: nat)
    requires ValidProgress(p, |streams|, leader) && Whole(p, leader) && h != 0
    requires forall i :: 0 <= i < |p.ids| && i != leader ==> p.ids[i] >= 9
    ensures Targets(Restores(PeersFor(streams, leader, k, p), h)) == Differing(streams, k, h)
            <==> leader == 0 || Reported(streams[leader], k) == h
  {
    hide PeersFor, Reported, Restores, Targets;
    TargetsExact(streams, leader, k, p, h);
    assert leader in Differing(streams, k, h) <==> Reported(streams[leader], k) != h;
  }

  /** The output check of `mgr_on_check` from the proposal on, with slots that have landed
      as far as `p` says.  Agreeing streams cause no restore once the hashes have
      settled.  A strict majority restores at most a minority, and when all has landed
      it is the nodes that differ, exactly when the leader is node 0 or agrees.  The result
      is 2 exactly when the leader is not node 0 or differs from the majority. */
  method CheckOutput(v: Reading, at: nat, leader: nat, k: nat, own: nat,
                     ghost vs: ViewStamp, ghost pads: seq<seq<byte>>, ghost streams: seq<seq<bv8>>, ghost p: Progress)
    returns (ret: int, sent: seq<Restore>)
    requires Seen(v, at, vs, pads, streams, k, p) && ValidProgress(p, |streams|, leader)
    requires own == Reported(streams[leader], k)
    ensures sent == [] <==> Quiet(PeersFor(streams, leader, k, p))
    ensures AgreeUpTo(streams, k) && Settled(p, leader) ==> sent == []
    ensures var peers := PeersFor(streams, leader, k, p);
            && (!AllHashed(peers) ==> ret == 0)
            && (ret == 3 <==> AllHashed(peers) && forall h :: !MajorityHash(peers, h))
            && (ret == 3 ==> sent == Restores(peers, 0))
            && (AllHashed(peers) ==> forall h :: MajorityHash(peers, h) ==>
                  && h != 0 && |sent| <= (|streams| - 1) / 2
                  && (ret == 2 <==> leader != 0 || Reported(streams[leader], k) != h)
                  && (ret == 0 ==> leader == 0 && sent == []))
            && (AllHashed(peers) && Whole(p, leader)
                && (forall i :: 0 <= i < |p.ids| && i != leader ==> p.ids[i] >= 9) ==>
                  forall h :: MajorityHash(peers, h) ==>
                    (Targets(sent) == Differing(streams, k, h) <==> leader == 0 || Reported(streams[leader], k) == h))
  {
    hide Restores, MajorityHash, AllHashed, AgreeUpTo, Targets, Differing, Agreeing, LeaderHolds, Quiet, Seen, SlotPeer,
         Reported, PeersFor, Settled, Whole;
    SeenReadable(v, at, vs, pads, streams, k, p);
    SeenSizes(v, at, vs, pads, streams, k, p);
    var peers := PreparePeers(v, at, leader, k, own);
    PeersAre(v, at, vs, pads, streams, leader, k, p, peers, own);
    ret, sent := DoDecision(peers);
    if AgreeUpTo(streams, k) && Settled(p, leader) { AgreeQuiet(streams, leader, k, p); }
    if AllHashed(peers) {
      forall h | MajorityHash(peers, h)
        ensures |sent| <= (|streams| - 1) / 2 && (ret == 2 <==> leader != 0 || Reported(streams[leader], k) != h)
      {
        MinorityRestored(peers, h);
        LeaderSlot(streams, leader, k, p, h);
      }
      if Whole(p, leader) && (forall i :: 0 <= i < |p.ids| && i != leader ==> p.ids[i] >= 9) {
        forall h | MajorityHash(peers, h)
          ensures Targets(sent) == Differing(streams, k, h) <==> leader == 0 || Reported(streams[leader], k) == h
        {
          TargetsLeader(streams, leader, k, p, h);
        }
      }
    }
  }

  /** A slot names the leader only if the leader is node 0, and then it is its own. */
  lemma LeaderSlot(streams: seq<seq<bv8>>, leader: nat, k: nat, p: Progress, h: nat)
    requires ValidProgress(p, |streams|, leader)
    ensures LeaderHolds(PeersFor(streams, leader, k, p), h) <==> leader == 0 && Reported(streams[leader], k) == h
  {
    hide Reported, CutHash;
    var peers := PeersFor(streams, leader, k, p);
    if leader == 0 {
      OnlyFirst(peers, 0);
    }
  }

  lemma SeenSizes(v: Reading, at: nat, vs: ViewStamp, pads: seq<seq<byte>>, streams: seq<seq<bv8>>, k: nat, p: Progress)
    requires Seen(v, at, vs, pads, streams, k, p)
    ensures |v.ids| == |v.hashes| == |streams| == |p.ids| == |p.hashes|
  {
    hide AckLanded, AckBytes, Reported;
  }

  lemma PeersAre(v: Reading, at: nat, vs: ViewStamp, pads: seq<seq<byte>>, streams: seq<seq<bv8>>, leader: nat,
                 k: nat, p: Progress,
                 peers: seq<Peer>, own: nat)
    requires Seen(v, at, vs, pads, streams, k, p) && ValidProgress(p, |streams|, leader) && Readable(v, at)
    requires own == Reported(streams[leader], k) && |peers| == |v.ids| == |streams| == |p.ids| == |p.hashes|
    requires forall i :: 0 <= i < |peers| ==>
               peers[i] ==
                 if i == leader then SlotPeer(v, at, leader, k, i).(hash := own) else SlotPeer(v, at, leader, k, i)
    ensures peers == PeersFor(streams, leader, k, p)
  {
    hide Seen, Reported, PeersFor, Addressee;
    forall i | 0 <= i < |peers| ensures peers[i] == PeersFor(streams, leader, k, p)[i] {
      PeerRead(streams, leader, k, p, i);
      SlotRead(v, at, vs, pads, streams, leader, k, p, i);
    }
  }

  /** A node whose stream differs from another only inside a window of at most eight
      bytes, somewhere before the end of block `k`, reports a different hash. */
  lemma DivergenceSeen(before: seq<bv8>, s: seq<bv8>, t: seq<bv8>, after: seq<bv8>, k: nat)
    requires |s| == |t| <= 8 && s != t
    requires |before + s + after| >= HASH_BUFFER_SIZE * (k + 1) >= |before + s|
    ensures k < Blocks(before + s + after) && k < Blocks(before + t + after)
    ensures Reported(before + s + after, k) != Reported(before + t + after, k)
  {
    hide Checksum, Number;
    var n := HASH_BUFFER_SIZE * (k + 1) - |before + s|;
    assert (before + s + after)[..HASH_BUFFER_SIZE * (k + 1)] == before + s + after[..n];
    assert (before + t + after)[..HASH_BUFFER_SIZE * (k + 1)] == before + t + after[..n];
    WindowDetected(0, before, s, t, after[..n]);
    var a, b := HashAt(before + s + after, k), HashAt(before + t + after, k);
    if Number(a) == Number(b) { NumberInjective(a, b); }
  }
}
