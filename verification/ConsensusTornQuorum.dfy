/** Where durable commits end: a leader other than node 0 in a group of four or more
    commits a request that one node too few has stored.  Between the stamp and the
    sender of an acknowledgement the scan counts node 0, afterwards the sender too. */
module ConsensusTornQuorum {
  import opened Bytes
  import opened ViewStamps
  import opened EntryLayout
  import opened Bitmaps
  import opened Quorums
  import opened Consensus
  import opened ConsensusInvariant
  import opened ConsensusSafety
  import opened ConsensusScan
  import opened ConsensusNextRequest

  lemma {:induction false} Part(s: set<nat>, n: nat) returns (t: set<nat>)
    requires n <= |s|
    ensures t <= s && |t| == n
  {
    if n == 0 {
      t := {};
    } else {
      var x :| x in s;
      var rest := Part(s - {x}, n - 1);
      t := rest + {x};
    }
  }

  /** The nodes that get the entry: others than the leader and node 0, one too few for
      a quorum. */
  ghost predicate Sparing(c: Config, o: Order)
  {
    Chosen(c, Init(c), o) && c.leader != 0 && 0 !in o.nodes && |o.nodes| == c.group / 2 - 1
  }

  lemma {:induction false} ChooseNodes(c: Config) returns (o: Order)
    requires ValidConfig(c) && c.leader != 0 && c.group >= 4
    ensures Sparing(c, o)
  {
    SubsetSize({0, c.leader}, Nodes(c.group));
    var a := Part(Nodes(c.group) - {0, c.leader}, c.group / 2 - 1);
    o := Order(P_SEND, ViewStamp(VIEW, 0), [], 0, a, seq(c.group, _ => seq(12, _ => 0)));
    hide Nodes, Chosen;
    FirstChosen(c, o);
  }

  /** With node 0, the leader and the chosen nodes counted there is a quorum. */
  lemma EnoughBits(c: Config, s: State, o: Order)
    requires Sparing(c, o) && Inv(c, s) && |s.threads| == |s.reqs| == 1 && Filled(s.threads[0].pc)
    requires HasBit(s.threads[0].bitmap, 0) && HasBit(s.threads[0].bitmap, c.leader)
    requires forall j :: j in o.nodes ==> HasBit(s.threads[0].bitmap, j)
    ensures ReachedQuorum(s.threads[0].bitmap, c.group)
  {
    hide Inv, HasBit, Popcount, Nodes, Holders, Waiting, FirstPass, CallerReady;
    BitmapCounts(c, s, 0);
    assert o.nodes <= Nodes(c.group);
    SubsetSize(o.nodes + {0} + {c.leader}, BitsBelow(s.threads[0].bitmap, c.group));
  }

  lemma SparingFacts(c: Config, o: Order)
    requires Sparing(c, o)
    ensures Chosen(c, Init(c), o) && ValidConfig(c) && Run(c, [Init(c)]) && Last([Init(c)]) == Init(c)
    ensures |Init(c).reqs| == 0 && c.leader != 0
  {
    hide Chosen, Next;
    InChosen(c, Init(c), o);
  }

  /** A scan when one acknowledgement is cut behind its stamp counts node 0. */
  lemma FirstRound(c: Config, o: Order, j: nat) returns (run: seq<State>, landed: map<nat, nat>)
    requires Sparing(c, o) && j in o.nodes
    ensures Run(c, run) && Arrived(c, Init(c), Last(run), o, landed)
    ensures forall k :: k in o.nodes ==> k in landed && landed[k] <= ACK_SIZE
    ensures |Last(run).threads| == 1 && Last(run).threads[0].pc in {Spinning, Scanning(0)}
    ensures HasBit(Last(run).threads[0].bitmap, 0)
  {
    hide Run, Init, HasBit, ReachedQuorum, Arrived, Chosen, Sparing, Inv, RoundTo, Replied;
    SparingFacts(c, o);
    InChosen(c, Init(c), o);
    landed := (map k | k in o.nodes :: 0)[j := 8];
    assert landed.Keys == o.nodes;
    var run0 := Acknowledged(c, [Init(c)], o, landed);
    ArrivedKeys(c, Init(c), Last(run0), o, landed);
    ReplyStamped(Last(run0), j, o.rests[j], 8);
    run := ScanRound(c, run0, 0);
    InBuffer(c, run0, 0);
    RoundCounts(c, Last(run0), 0, j, Last(run0).threads[0].bitmap, Last(run).threads[0].bitmap);
    ArrivedScan(c, Init(c), Last(run0), Last(run), o, landed);
  }

  lemma ReplyStamped(s: State, j: nat, rest: seq<byte>, landed: nat)
    requires j < |s.replicas| && Replied(s.replicas[j], 0, rest, landed) && landed >= 8
    ensures Stamped(s, 0, j) && s.replicas[j].acks[0].landed == landed
  {
  }

  /** A scan when all have landed counts the senders as well. */
  lemma SecondRound(c: Config, run: seq<State>, o: Order, landed: map<nat, nat>) returns (run': seq<State>)
    requires Sparing(c, o) && Run(c, run) && Arrived(c, Init(c), Last(run), o, landed)
    requires forall k :: k in o.nodes ==> k in landed && landed[k] <= ACK_SIZE
    requires |Last(run).threads| == 1 && Last(run).threads[0].pc == Scanning(0)
    requires HasBit(Last(run).threads[0].bitmap, 0)
    ensures Run(c, run') && |Last(run').threads| == 1 && Last(run').threads[0].pc == Spinning
    ensures exists whole :: Arrived(c, Init(c), Last(run'), o, whole)
  {
    hide Run, Init, HasBit, ReachedQuorum, Arrived, Inv, Chosen, Sparing, Replied;
    SparingFacts(c, o);
    InChosen(c, Init(c), o);
    ArrivedKeys(c, Init(c), Last(run), o, landed);
    var run1, whole := AckAll(c, run, Init(c), o, landed, map j | j in o.nodes :: ACK_SIZE, c.group);
    ArrivedKeys(c, Init(c), Last(run1), o, whole);
    run' := ScanRound(c, run1, 0);
    InBuffer(c, run1, 0);
    forall j | j in o.nodes ensures HasBit(Last(run').threads[0].bitmap, j) {
      ReplyStamped(Last(run1), j, o.rests[j], ACK_SIZE);
      RoundCounts(c, Last(run1), 0, j, Last(run1).threads[0].bitmap, Last(run').threads[0].bitmap);
    }
    KeepsBit(Last(run1), Last(run').threads[0].bitmap, 0);
    RunNotEmpty(c, run');
    InBuffer(c, run', 0);
    LeaderCounted(c, run', |run'| - 1, 0);
    EnoughBits(c, Last(run'), o);
    ArrivedScan(c, Init(c), Last(run1), Last(run'), o, whole);
  }

  lemma KeepsBit(s: State, after: nat, k: nat)
    requires |s.reqs| > 0 && |s.threads| > 0 && s.reqs[0].at + ACKS_SIZE <= |s.leader.mem|
    requires RoundTo(s.leader.mem, s.reqs[0].at, StampOf(0), s.threads[0].bitmap, after, MAX_SERVER_COUNT)
    requires HasBit(s.threads[0].bitmap, k)
    ensures HasBit(after, k)
  {
    hide HasBit, Counted;
  }

  lemma CountsQuorum(c: Config, o: Order) returns (run: seq<State>, landed: map<nat, nat>)
    requires Sparing(c, o) && o.nodes != {}
    ensures Run(c, run) && Arrived(c, Init(c), Last(run), o, landed)
    ensures |Last(run).threads| == 1 && Last(run).threads[0].pc == Spinning
  {
    hide Run, Init, HasBit, Arrived, Sparing;
    var j :| j in o.nodes;
    run, landed := FirstRound(c, o, j);
    if Last(run).threads[0].pc != Spinning {
      run := SecondRound(c, run, o, landed);
      landed :| Arrived(c, Init(c), Last(run), o, landed);
    }
  }

  /** Only the leader and the chosen nodes hold the request. */
  lemma FewHolders(c: Config, s: State, o: Order, landed: map<nat, nat>)
    requires ValidConfig(c) && Arrived(c, Init(c), s, o, landed)
    ensures |s.reqs| == 1 && |s.replicas| == c.group && s.leader.committed == 0
    ensures Holders(c, s, 0) <= o.nodes + {c.leader}
  {
    hide Replied, RequestOf, Nodes, Zeros;
  }

  /** A leader other than node 0, in a group of four or more, may commit a request that
      no majority holds. */
  lemma LosesQuorum(c: Config) returns (run: seq<State>)
    requires ValidConfig(c) && !DurableConfig(c)
    ensures Run(c, run) && |Last(run).reqs| == 1 && |Last(run).replicas| == c.group
    ensures Last(run).leader.committed == 1 && !IsMajority(c.group, Holders(c, Last(run), 0))
  {
    hide Run, Init, Nodes, Arrived, Chosen;
    var o := ChooseNodes(c);
    var landed;
    run, landed := CountsQuorum(c, o);
    FewHolders(c, Last(run), o, landed);
    run := Commit(c, run, 0);
    SubsetSize(Holders(c, Last(run), 0), o.nodes + {c.leader});
  }

  /** In every run every committed request is held by a majority. */
  ghost predicate Durable(c: Config)
  {
    forall run: seq<State>, k: nat, i: nat ::
      Run(c, run) && k < |run| && i < run[k].leader.committed ==>
        i < |run[k].reqs| && |run[k].replicas| == c.group && IsMajority(c.group, Holders(c, run[k], i))
  }

  lemma CommitHeld(c: Config, run: seq<State>, k: nat, i: nat)
    requires ValidConfig(c) && DurableConfig(c) && Run(c, run) && k < |run| && i < run[k].leader.committed
    ensures i < |run[k].reqs| && |run[k].replicas| == c.group && IsMajority(c.group, Holders(c, run[k], i))
  {
    hide Run, Inv, Holders;
    InvariantHolds(c, run, k);
    CommittedHeld(c, run[k], i);
  }

  /** Commits are durable exactly when the leader is node 0 or the group has at most
      three nodes. */
  lemma DurableExact(c: Config)
    requires ValidConfig(c)
    ensures Durable(c) <==> DurableConfig(c)
  {
    hide Run, Holders, IsMajority;
    if DurableConfig(c) {
      forall run: seq<State>, k: nat, i: nat | Run(c, run) && k < |run| && i < run[k].leader.committed
        ensures i < |run[k].reqs| && |run[k].replicas| == c.group && IsMajority(c.group, Holders(c, run[k], i))
      {
        CommitHeld(c, run, k, i);
      }
    } else {
      var run := LosesQuorum(c);
      RunNotEmpty(c, run);
      var k, i := |run| - 1, 0;
      assert i < run[k].leader.committed;
    }
  }
}
