/** The verdict on proposed output hashes: which nodes have to be restored. */
module Decision {
  import opened Quorums

  datatype Peer = Peer(leaderId: nat, nodeId: nat, hash: nat, hashIndex: int)

  datatype Restore = Restore(nodeId: nat, hashIndex: int)

  // -------------------------------------------------------------- specification

  /** The slots whose hash is `h`. */
  function Agreeing(peers: seq<Peer>, h: nat): (s: set<nat>)
    ensures s <= Nodes(|peers|)
  {
    set i | i in Nodes(|peers|) && peers[i].hash == h
  }

  /** The restores for everybody with another hash than `aim`, in slot order; an
      `aim` of zero stands for everybody. */
  function Restores(peers: seq<Peer>, aim: nat): (r: seq<Restore>)
  {
    if |peers| == 0 then []
    else
      var last := peers[|peers| - 1];
      Restores(peers[..|peers| - 1], aim)
      + if aim == 0 || last.hash != aim then [Restore(last.nodeId, last.hashIndex)] else []
  }

  ghost predicate AllHashed(peers: seq<Peer>)
  {
    forall i :: 0 <= i < |peers| ==> peers[i].hash != 0
  }

  /** A strict majority of the group has hash `h`. */
  predicate MajorityHash(peers: seq<Peer>, h: nat)
  {
    IsMajority(|peers|, Agreeing(peers, h))
  }

  /** Nothing is to be done: a hash is missing, or all are the same. */
  ghost predicate Quiet(peers: seq<Peer>)
  {
    !AllHashed(peers) || forall i, k :: 0 <= i < |peers| && 0 <= k < |peers| ==> peers[i].hash == peers[k].hash
  }

  // -------------------------------------------------------------------- the code

  method CountHash(peers: seq<Peer>, aim: nat) returns (cnt: nat)
    ensures cnt == |Agreeing(peers, aim)|
  {
    assert Agreeing(peers[..0], aim) == {};
    hide Agreeing;
    cnt := 0;
    var i := 0;
    while i < |peers|
      invariant 0 <= i <= |peers|
      invariant cnt == |Agreeing(peers[..i], aim)|
    {
      AgreeingNext(peers, aim, i);
      if peers[i].hash == aim {
        cnt := cnt + 1;
      }
      i := i + 1;
    }
    assert peers[..i] == peers;
  }

  lemma AgreeingNext(peers: seq<Peer>, aim: nat, i: nat)
    requires i < |peers|
    ensures Agreeing(peers[..i + 1], aim) == Agreeing(peers[..i], aim) + if peers[i].hash == aim then {i} else {}
    ensures i !in Agreeing(peers[..i], aim)
  {
  }

  /** A hash that no other is held more often than, and how often. */
  method MajorCountHash(peers: seq<Peer>) returns (max: nat, hash: nat)
    ensures forall i :: 0 <= i < |peers| ==> |Agreeing(peers, peers[i].hash)| <= max
    ensures |peers| > 0 ==> max == |Agreeing(peers, hash)| && exists i :: 0 <= i < |peers| && peers[i].hash == hash
    ensures |peers| == 0 ==> max == 0 && hash == 0
  {
    max, hash := 0, 0;
    var i := 0;
    while i < |peers|
      invariant 0 <= i <= |peers|
      invariant forall k :: 0 <= k < i ==> |Agreeing(peers, peers[k].hash)| <= max
      invariant i > 0 ==> max == |Agreeing(peers, hash)| && exists k :: 0 <= k < i && peers[k].hash == hash
      invariant i == 0 ==> max == 0 && hash == 0
    {
      var aim := peers[i].hash;
      var cnt := CountHash(peers, aim);
      assert i in Agreeing(peers, aim);
      if cnt > max {
        max, hash := cnt, aim;
      }
      i := i + 1;
    }
  }

  /** Slot `i` is the first one that names the leader. */
  predicate FirstLeader(peers: seq<Peer>, i: nat)
  {
    && i < |peers| && peers[i].leaderId == peers[i].nodeId
    && forall k :: 0 <= k < i ==> peers[k].leaderId != peers[k].nodeId
  }

  /** The slot of the leader holds `h`. */
  ghost predicate LeaderHolds(peers: seq<Peer>, h: nat)
  {
    exists i: nat :: FirstLeader(peers, i) && peers[i].hash == h
  }

  lemma OnlyFirst(peers: seq<Peer>, i: nat)
    requires FirstLeader(peers, i)
    ensures forall k: nat :: FirstLeader(peers, k) ==> k == i
    ensures forall h: nat :: LeaderHolds(peers, h) <==> peers[i].hash == h
  {
  }

  method GetMasterHash(peers: seq<Peer>) returns (hash: nat)
    ensures forall i: nat :: FirstLeader(peers, i) ==> hash == peers[i].hash
    ensures (forall i: nat :: !FirstLeader(peers, i)) ==> hash == 0
    ensures forall h: nat :: h != 0 ==> (LeaderHolds(peers, h) <==> hash == h)
  {
    hash := 0;
    var i := 0;
    while i < |peers|
      invariant 0 <= i <= |peers| && hash == 0
      invariant forall k :: 0 <= k < i ==> peers[k].leaderId != peers[k].nodeId
    {
      if peers[i].leaderId == peers[i].nodeId {
        OnlyFirst(peers, i);
        return peers[i].hash;
      }
      i := i + 1;
    }
  }

  method DoRestore(peers: seq<Peer>, aim: nat) returns (rc: int, sent: seq<Restore>)
    ensures rc == if |peers| == 0 then -1 else 0
    ensures sent == Restores(peers, aim)
  {
    sent := [];
    if |peers| == 0 {
      return -1, [];
    }
    var i := 0;
    while i < |peers|
      invariant 0 <= i <= |peers|
      invariant sent == Restores(peers[..i], aim)
    {
      if aim == 0 || peers[i].hash != aim {
        sent := sent + [Restore(peers[i].nodeId, peers[i].hashIndex)];
      }
      assert peers[..i + 1][..i] == peers[..i];
      i := i + 1;
    }
    assert peers[..i] == peers;
    rc := 0;
  }

  method CountZeros(peers: seq<Peer>) returns (zeros: nat)
    ensures zeros == 0 <==> AllHashed(peers)
  {
    zeros := 0;
    var i := 0;
    while i < |peers|
      invariant 0 <= i <= |peers|
      invariant zeros == 0 <==> forall k :: 0 <= k < i ==> peers[k].hash != 0
    {
      if peers[i].hash == 0 {
        zeros := zeros + 1;
      }
      i := i + 1;
    }
  }

  /** `do_decision`.  A missing hash stops the decision.  Otherwise, if a strict
      majority agrees, exactly the slots with another hash are restored, and the result
      says whether the slot of the leader is one of them; without a majority everybody is
      restored. */
  method DoDecision(peers: seq<Peer>) returns (ret: int, sent: seq<Restore>)
    ensures |peers| == 0 ==> ret == -1 && sent == []
    ensures |peers| > 0 && !AllHashed(peers) ==> ret == 0 && sent == []
    ensures |peers| > 0 && AllHashed(peers) ==>
              forall h :: MajorityHash(peers, h) ==>
                && h != 0
                && sent == Restores(peers, h)
                && ret == (if !LeaderHolds(peers, h) then 2 else if |Agreeing(peers, h)| == |peers| then 0 else 1)
    ensures |peers| > 0 && AllHashed(peers) && (forall h :: !MajorityHash(peers, h)) ==>
              ret == 3 && sent == Restores(peers, 0)
    ensures ret == 0 ==> sent == []
    ensures sent == [] <==> Quiet(peers)
  {
    if |peers| == 0 {
      return -1, [];
    }
    hide Agreeing, Restores, MajorityHash, AllHashed, LeaderHolds, Quiet;
    var master := GetMasterHash(peers);
    var zeros := CountZeros(peers);
    if zeros > 0 {
      MissingQuiet(peers);
      return 0, [];
    }
    var threshold := |peers| / 2 + 1;
    var same := CountHash(peers, master);
    if same == |peers| {
      Unanimous(peers, master);
      NoneRestored(peers, master);
      return 0, [];
    }
    if same >= threshold {
      EnoughAgree(peers, master);
      OneMajority(peers, master);
      NoneRestored(peers, master);
      var rc, r := DoRestore(peers, master);
      return 1, r;
    }
    var cnt, major := MajorCountHash(peers);
    if cnt >= threshold {
      EnoughAgree(peers, major);
      OneMajority(peers, major);
      NoneRestored(peers, major);
      var rc, r := DoRestore(peers, major);
      return 2, r;
    }
    forall h ensures !MajorityHash(peers, h) { NotMajor(peers, h, cnt); }
    AllRestored(peers);
    var rc, r := DoRestore(peers, 0);
    return 3, r;
  }

  // --------------------------------------------------------------------- proofs

  lemma EnoughAgree(peers: seq<Peer>, h: nat)
    requires |Agreeing(peers, h)| >= |peers| / 2 + 1
    ensures MajorityHash(peers, h)
  {
  }

  /** There is one majority hash at most, and it is one of the hashes. */
  lemma OneMajority(peers: seq<Peer>, h: nat)
    requires MajorityHash(peers, h) && AllHashed(peers)
    ensures h != 0
    ensures forall g :: MajorityHash(peers, g) ==> g == h
  {
    MajoritiesMeet(|peers|, Agreeing(peers, h), Agreeing(peers, h));
    forall g | MajorityHash(peers, g) ensures g == h {
      MajoritiesMeet(|peers|, Agreeing(peers, g), Agreeing(peers, h));
    }
  }

  lemma NotMajor(peers: seq<Peer>, h: nat, cnt: nat)
    requires |peers| > 0 && cnt < |peers| / 2 + 1
    requires forall i :: 0 <= i < |peers| ==> |Agreeing(peers, peers[i].hash)| <= cnt
    ensures !MajorityHash(peers, h)
  {
    if Agreeing(peers, h) != {} {
      var i :| i in Agreeing(peers, h);
      assert peers[i].hash == h;
    }
  }

  lemma FullSet(s: set<nat>, n: nat)
    requires s <= Nodes(n) && |s| == n
    ensures s == Nodes(n)
  {
    assert Nodes(n) == s + (Nodes(n) - s);
    assert |Nodes(n) - s| == 0;
  }

  lemma Unanimous(peers: seq<Peer>, h: nat)
    requires |peers| > 0 && |Agreeing(peers, h)| == |peers| && AllHashed(peers)
    ensures MajorityHash(peers, h) && Restores(peers, h) == []
    ensures forall g :: MajorityHash(peers, g) ==> g == h
  {
    FullSet(Agreeing(peers, h), |peers|);
    OneMajority(peers, h);
    forall i | 0 <= i < |peers| ensures peers[i].hash == h { assert i in Agreeing(peers, h); }
    NothingToRestore(peers, h);
  }

  lemma {:induction false} NothingToRestore(peers: seq<Peer>, h: nat)
    requires h != 0 || |peers| == 0
    requires forall i :: 0 <= i < |peers| ==> peers[i].hash == h
    ensures Restores(peers, h) == []
  {
    if |peers| > 0 { NothingToRestore(peers[..|peers| - 1], h); }
  }

  lemma {:induction false} RestoresCount(peers: seq<Peer>, h: nat)
    requires h != 0
    ensures |Restores(peers, h)| == |peers| - |Agreeing(peers, h)|
  {
    assert |peers| == 0 ==> Agreeing(peers, h) == {};
    hide Agreeing;
    if |peers| > 0 {
      var n := |peers| - 1;
      RestoresCount(peers[..n], h);
      AgreeingNext(peers, h, n);
      assert peers[..n + 1] == peers;
    }
  }

  /** Slot `i` disagrees and would be restored by `r`. */
  predicate Restored(peers: seq<Peer>, h: nat, i: nat, r: Restore)
  {
    i < |peers| && peers[i].hash != h && r == Restore(peers[i].nodeId, peers[i].hashIndex)
  }

  /** With a non-zero aim, the restores name exactly the slots that disagree. */
  lemma {:induction false} RestoresExact(peers: seq<Peer>, h: nat, r: Restore)
    requires h != 0
    ensures r in Restores(peers, h) <==> exists i: nat :: Restored(peers, h, i, r)
  {
    if |peers| > 0 {
      var n := |peers| - 1;
      var front := peers[..n];
      RestoresExact(front, h, r);
      if r in Restores(front, h) {
        var i: nat :| Restored(front, h, i, r);
        assert Restored(peers, h, i, r);
      }
      if Restored(peers, h, n, r) {
        assert r in Restores(peers, h);
      }
      if i: nat :| Restored(peers, h, i, r) {
        if i < n { assert Restored(front, h, i, r); }
      }
    }
  }

  lemma MissingQuiet(peers: seq<Peer>)
    requires !AllHashed(peers)
    ensures Quiet(peers)
  {
  }

  /** A majority verdict restores nobody exactly when all hashes are the same. */
  lemma NoneRestored(peers: seq<Peer>, h: nat)
    requires |peers| > 0 && AllHashed(peers) && MajorityHash(peers, h)
    ensures Restores(peers, h) == [] <==> Quiet(peers)
  {
    OneMajority(peers, h);
    RestoresCount(peers, h);
    if Restores(peers, h) == [] {
      FullSet(Agreeing(peers, h), |peers|);
      forall i | 0 <= i < |peers| ensures peers[i].hash == h { assert i in Agreeing(peers, h); }
    }
    if Quiet(peers) {
      MajoritiesMeet(|peers|, Agreeing(peers, h), Agreeing(peers, h));
      NothingToRestore(peers, h);
    }
  }

  /** Without a majority every slot is restored, in order. */
  lemma {:induction false} RestoresAll(peers: seq<Peer>)
    ensures |Restores(peers, 0)| == |peers|
    ensures forall i :: 0 <= i < |peers| ==> Restores(peers, 0)[i] == Restore(peers[i].nodeId, peers[i].hashIndex)
  {
    if |peers| > 0 { RestoresAll(peers[..|peers| - 1]); }
  }

  /** Without a majority somebody is restored, and there is reason to. */
  lemma AllRestored(peers: seq<Peer>)
    requires |peers| > 0 && AllHashed(peers) && forall h :: !MajorityHash(peers, h)
    ensures Restores(peers, 0) != [] && !Quiet(peers)
  {
    if Quiet(peers) {
      var h := peers[0].hash;
      assert Agreeing(peers, h) == Nodes(|peers|);
      assert MajorityHash(peers, h);
    }
  }

  /** A majority verdict restores a minority. */
  lemma MinorityRestored(peers: seq<Peer>, h: nat)
    requires |peers| > 0 && AllHashed(peers) && MajorityHash(peers, h)
    ensures |Restores(peers, h)| <= (|peers| - 1) / 2
  {
    OneMajority(peers, h);
    RestoresCount(peers, h);
  }
}
