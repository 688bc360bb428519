/** One more request on top of any run that has committed all before it, step by step and
    byte by byte: the leader posts it to chosen nodes, they accept it, their
    acknowledgements land as far as one wants, and the leader scans and commits. */
module ConsensusNextRequest {
  import opened Bytes
  import opened ViewStamps
  import opened EntryLayout
  import opened Bitmaps
  import opened Quorums
  import opened Consensus
  import opened ConsensusInvariant
  import opened ConsensusSafety
  import opened ConsensusScan

  /** The request, the nodes that get it, and the last twelve bytes that each of them
      acknowledges it with. */
  datatype Order = Order(kind: byte, clt: ViewStamp, data: seq<byte>, prev: nat, nodes: set<nat>, rests: seq<seq<byte>>)

  /** The chosen nodes have taken all earlier entries, which are all committed. */
  ghost predicate Chosen(c: Config, b: State, o: Order)
  {
    && ValidConfig(c) && o.nodes <= Nodes(c.group) && c.leader !in o.nodes
    && |o.rests| == c.group && (forall j :: 0 <= j < c.group ==> |o.rests[j]| == 12)
    && |b.threads| == |b.reqs| == b.leader.committed && |b.replicas| == c.group
    && CallerReady(b, o.prev) && FirstPass(b.leader.end, o.data)
    && forall j :: 0 <= j < c.group && j in o.nodes ==> Waiting(b.replicas[j], |b.reqs|)
  }

  /** A node that polls for the entry of request `n`. */
  predicate Waiting(r: Replica, n: nat)
  {
    r.accepted == n && r.work.Polling?
  }

  function RequestOf(b: State, o: Order): (q: Request)
  {
    Reserve(b, o.kind, o.clt, o.data, o.prev).reqs[|b.reqs|]
  }

  /** The request is built and stored at the leader and not committed, and carries the
      commit of all before it; only the chosen nodes have been sent it. */
  ghost predicate Underway(c: Config, b: State, s: State, o: Order)
  {
    var n := |b.reqs|;
    && s.reqs == b.reqs + [RequestOf(b, o)] && |s.threads| == n + 1 == |b.threads| + 1 && |s.replicas| == c.group
    && (forall i :: 0 <= i < n ==> s.threads[i] == b.threads[i])
    && s.leader.committed == n && Filled(s.threads[n].pc) && s.threads[n].canExec == n
    && |b.replicas| == c.group
    && forall j :: 0 <= j < c.group && j !in o.nodes ==> s.replicas[j] == b.replicas[j]
  }

  // ------------------------------------------------------------------- posting

  lemma Built(c: Config, base: seq<State>, o: Order) returns (run: seq<State>)
    requires Run(c, base) && Chosen(c, Last(base), o)
    ensures Run(c, run) && base <= run && Flying(c, Last(base), Last(run), o, 0)
    ensures Last(run).threads[|Last(base).reqs|].pc == Posting(0)
  {
    hide Run, Inv, Nodes, OrBit, Waiting;
    var n := |Last(base).reqs|;
    SeenAll(c, base);
    var run1 := Extend(c, base, ReserveA(o.kind, o.clt, o.data, o.prev));
    InBuffer(c, run1, n);
    var run2 := Extend(c, run1, SnapshotA(n));
    InBuffer(c, run2, n);
    run := Extend(c, run2, StoreA(n, true));
  }

  lemma SeenAll(c: Config, run: seq<State>)
    requires ValidConfig(c) && Run(c, run)
    ensures Last(run).leader.seen == |Last(run).reqs|
  {
    hide ThreadsInv, LeaderInv, ReplicaInv, CountedInv, Packed;
    InvariantHolds(c, run, |run| - 1);
  }

  /** The entry of request `n` is on its way to a node. */
  predicate Sent(r: Replica, n: nat)
  {
    n in r.inbox && r.inbox[n].landed == 0 && Waiting(r, n)
  }

  /** The entry is on its way to the chosen nodes below `m`. */
  ghost predicate Flying(c: Config, b: State, s: State, o: Order, m: nat)
  {
    && Underway(c, b, s, o)
    && forall j :: 0 <= j < c.group && j in o.nodes ==>
         if j < m then Sent(s.replicas[j], |b.reqs|) else s.replicas[j] == b.replicas[j]
  }

  lemma PostOne(c: Config, b: State, s: State, o: Order, m: nat)
    requires Chosen(c, b, o) && m < c.group && Flying(c, b, s, o, m) && CanBuild(s, |b.reqs|)
    requires s.threads[|b.reqs|].pc == Posting(m)
    ensures var s' := Post(c, s, |b.reqs|, m in o.nodes);
            Flying(c, b, s', o, m + 1) && s'.threads[|b.reqs|].pc == Posting(m + 1)
  {
    hide Nodes, RequestOf, FirstPass, CallerReady;
    if m in o.nodes { assert Waiting(b.replicas[m], |b.reqs|); }
  }

  lemma {:induction false} PostTo(c: Config, base: seq<State>, o: Order, m: nat) returns (run: seq<State>)
    requires Run(c, base) && Chosen(c, Last(base), o) && m <= c.group
    ensures Run(c, run) && base <= run && Flying(c, Last(base), Last(run), o, m)
    ensures Last(run).threads[|Last(base).reqs|].pc == Posting(m)
  {
    hide Run, Inv, Nodes, Chosen;
    if m == 0 {
      run := Built(c, base, o);
    } else {
      var run0 := PostTo(c, base, o, m - 1);
      var n := |Last(base).reqs|;
      InChosen(c, Last(base), o);
      InBuffer(c, run0, n);
      run := Extend(c, run0, PostA(n, m - 1 in o.nodes));
      hide Flying, Post;
      PostOne(c, Last(base), Last(run0), o, m - 1);
    }
  }

  lemma InChosen(c: Config, b: State, o: Order)
    requires Chosen(c, b, o)
    ensures ValidConfig(c)
    ensures forall j :: j in o.nodes ==> j < c.group && j != c.leader && j < |o.rests| && |o.rests[j]| == 12
  {
  }

  lemma PostAll(c: Config, base: seq<State>, o: Order) returns (run: seq<State>)
    requires Run(c, base) && Chosen(c, Last(base), o)
    ensures Run(c, run) && base <= run && Flying(c, Last(base), Last(run), o, c.group)
    ensures Last(run).threads[|Last(base).reqs|].pc == Scanning(0)
  {
    hide Run, Inv, Nodes, Chosen;
    var run0 := PostTo(c, base, o, c.group);
    var n := |Last(base).reqs|;
    InChosen(c, Last(base), o);
    InBuffer(c, run0, n);
    run := Extend(c, run0, PostA(n, false));
  }

  // ------------------------------------------------------- landing and accepting

  /** Only replica `j` and the memory of the leader differ. */
  ghost predicate Moved(s: State, s': State, j: nat)
  {
    && s'.reqs == s.reqs && s'.threads == s.threads && s'.leader == s.leader.(mem := s'.leader.mem)
    && |s'.replicas| == |s.replicas|
    && forall k :: 0 <= k < |s.replicas| && k != j ==> s'.replicas[k] == s.replicas[k]
  }

  lemma CanLand(c: Config, run: seq<State>, j: nat)
    requires ValidConfig(c) && Run(c, run) && |Last(run).replicas| == c.group && j < c.group && j != c.leader
    ensures IsReplica(c, Last(run), j)
    ensures forall i :: i in Last(run).replicas[j].inbox ==>
              Last(run).replicas[j].inbox[i].at + |Last(run).replicas[j].inbox[i].bytes| <= LOG_SIZE
    ensures forall i :: i in Last(run).replicas[j].acks ==>
              Last(run).replicas[j].acks[i].at + |Last(run).replicas[j].acks[i].bytes| <= |Last(run).leader.mem|
  {
    StaysInBuffer(c, run, |run| - 1, j);
  }

  /** The first `m` bytes of the entry of request `i` land at node `j`. */
  lemma {:induction false} LandBytes(c: Config, run: seq<State>, j: nat, i: nat, m: nat) returns (run': seq<State>)
    requires ValidConfig(c) && Run(c, run) && |Last(run).replicas| == c.group && j < c.group && j != c.leader
    requires var r := Last(run).replicas[j]; i in r.inbox && r.inbox[i].landed == 0 && m <= |r.inbox[i].bytes|
    ensures Run(c, run') && run <= run' && Moved(Last(run), Last(run'), j)
    ensures var r, r' := Last(run).replicas[j], Last(run').replicas[j];
            && i in r'.inbox && r'.inbox[i] == r.inbox[i].(landed := m)
            && r'.accepted == r.accepted && r'.work == r.work
    decreases m
  {
    hide Run, Nodes;
    if m == 0 {
      run' := run;
    } else {
      var mid := LandBytes(c, run, j, i, m - 1);
      CanLand(c, mid, j);
      run' := Extend(c, mid, LandA(j, i));
    }
  }

  /** An entry that has landed in full is found by the poll. */
  lemma FindsEntry(c: Config, run: seq<State>, j: nat, i: nat, rest: seq<byte>)
    requires |rest| == 12 && ValidConfig(c) && Run(c, run) && |Last(run).replicas| == c.group && j < c.group
    requires j != c.leader && i < |Last(run).reqs| == |Last(run).threads|
    requires var r := Last(run).replicas[j];
             i in r.inbox && r.inbox[i].landed == |r.inbox[i].bytes| && Waiting(r, i)
    ensures Enabled(c, Last(run), AcceptA(j, rest))
  {
    hide Run, Inv, Complete, CanAccept, Start, PollAt, Init, Nodes;
    assert Last(run) == run[|run| - 1] by { RunNotEmpty(c, run); }
    InvariantHolds(c, run, |run| - 1);
    StaysInBuffer(c, run, |run| - 1, j);
    ReplicaOffsets(c, run, |run| - 1, j);
    LeaderOffsets(c, run, |run| - 1, i);
    LandedEntry(c, Last(run), j, i);
    assert CanAccept(Last(run).replicas[j]);
  }

  lemma LandedEntry(c: Config, s: State, j: nat, i: nat)
    requires Inv(c, s) && i < |s.reqs| && j < c.group && j != c.leader
    requires var r := s.replicas[j]; i in r.inbox && r.inbox[i].landed == |r.inbox[i].bytes|
    ensures |s.replicas[j].mem| == LOG_SIZE && s.reqs[i].tail + HEADER_SIZE <= LOG_SIZE
    ensures Complete(s.replicas[j].mem, s.reqs[i].tail)
  {
    var r := s.replicas[j];
    assert ReplicaInv(c, s.reqs, s.threads, s.leader.committed, j, r);
    assert WireInv(c, s.reqs, s.threads, j, i, r.inbox[i]);
    EntryInside(s.reqs, i);
    hide LeaderInv, ThreadsInv, LogInv, CountedInv, ExecInv, AcceptedInv, ZeroFrom, Complete, Landed, Body, Nodes;
    var e := EntryAt(c, s.reqs, s.threads, i);
    assert Landed(r.mem, s.reqs[i].tail, e, LandedAt(r, i));
    TornWrite(r.mem, s.reqs[i].tail, e, LandedAt(r, i));
  }

  /** A node has acknowledged request `n` with these last bytes, and so much of it has
      landed. */
  predicate Replied(r: Replica, n: nat, rest: seq<byte>, landed: nat)
  {
    && r.accepted == n + 1 && n in r.acks && r.acks[n].landed == landed
    && |r.acks[n].bytes| == ACK_SIZE && r.acks[n].bytes[12..] == rest
  }

  /** The chosen nodes below `m` have accepted the entry, and nothing has landed of
      their acknowledgements. */
  ghost predicate Took(c: Config, b: State, s: State, o: Order, m: nat)
  {
    && Underway(c, b, s, o)
    && forall j :: 0 <= j < c.group && j in o.nodes ==>
         if j < m then j < |o.rests| && Replied(s.replicas[j], |b.reqs|, o.rests[j], 0)
         else Sent(s.replicas[j], |b.reqs|)
  }

  /** Node `j` gets the whole entry and accepts it. */
  lemma TakeEntry(c: Config, run: seq<State>, j: nat, i: nat, rest: seq<byte>) returns (run': seq<State>)
    requires |rest| == 12 && ValidConfig(c) && Run(c, run) && |Last(run).replicas| == c.group && j < c.group
    requires j != c.leader && i < |Last(run).reqs| == |Last(run).threads| && Sent(Last(run).replicas[j], i)
    ensures Run(c, run') && run <= run' && Moved(Last(run), Last(run'), j)
    ensures Replied(Last(run').replicas[j], i, rest, 0)
  {
    hide Run, Nodes, Enabled;
    var mid := LandBytes(c, run, j, i, |Last(run).replicas[j].inbox[i].bytes|);
    FindsEntry(c, mid, j, i, rest);
    run' := Extend(c, mid, AcceptA(j, rest));
    AcceptMoves(c, Last(mid), j, rest);
  }

  lemma AcceptMoves(c: Config, s: State, j: nat, rest: seq<byte>)
    requires Enabled(c, s, AcceptA(j, rest))
    ensures var s' := Apply(c, s, AcceptA(j, rest));
            Moved(s, s', j) && Replied(s'.replicas[j], s.replicas[j].accepted, rest, 0)
  {
    hide Complete, LoadStamp, Load32, Load64, StampBytes, ToLE;
  }

  lemma {:induction false} TakeTo(c: Config, base: seq<State>, o: Order, m: nat) returns (run: seq<State>)
    requires Run(c, base) && Chosen(c, Last(base), o) && m <= c.group
    ensures Run(c, run) && base <= run && Took(c, Last(base), Last(run), o, m)
    ensures Last(run).threads[|Last(base).reqs|].pc == Scanning(0)
  {
    hide Run, Nodes, Chosen, RequestOf, Replied, Sent;
    InChosen(c, Last(base), o);
    if m == 0 {
      run := PostAll(c, base, o);
    } else {
      run := TakeTo(c, base, o, m - 1);
      if m - 1 in o.nodes {
        run := TakeEntry(c, run, m - 1, |Last(base).reqs|, o.rests[m - 1]);
      }
    }
  }

  // -------------------------------------------------------------- acknowledging

  /** How much of each acknowledgement has landed. */
  ghost predicate Arrived(c: Config, b: State, s: State, o: Order, landed: map<nat, nat>)
  {
    && Underway(c, b, s, o) && landed.Keys == o.nodes
    && forall j :: 0 <= j < c.group && j in o.nodes ==>
         j < |o.rests| && Replied(s.replicas[j], |b.reqs|, o.rests[j], landed[j])
  }

  lemma AckSize(c: Config, run: seq<State>, j: nat, i: nat)
    requires ValidConfig(c) && Run(c, run) && |Last(run).replicas| == c.group && j < c.group && j != c.leader
    requires i in Last(run).replicas[j].acks
    ensures |Last(run).replicas[j].acks[i].bytes| == ACK_SIZE
  {
    hide Inv;
    InvariantHolds(c, run, |run| - 1);
    AckOfReplica(c, Last(run), i, j);
  }

  /** More bytes of the acknowledgement of node `j` land. */
  lemma {:induction false} AckTo(c: Config, run: seq<State>, j: nat, i: nat, m: nat) returns (run': seq<State>)
    requires ValidConfig(c) && Run(c, run) && |Last(run).replicas| == c.group && j < c.group && j != c.leader
    requires i in Last(run).replicas[j].acks && Last(run).replicas[j].acks[i].landed <= m <= ACK_SIZE
    ensures Run(c, run') && run <= run' && Moved(Last(run), Last(run'), j)
    ensures i in Last(run').replicas[j].acks && Last(run').replicas[j].accepted == Last(run).replicas[j].accepted
    ensures Last(run').replicas[j].acks[i] == Last(run).replicas[j].acks[i].(landed := m)
    decreases m
  {
    hide Run, Nodes;
    if m == Last(run).replicas[j].acks[i].landed {
      run' := run;
    } else {
      var mid := AckTo(c, run, j, i, m - 1);
      CanLand(c, mid, j);
      AckSize(c, mid, j, i);
      run' := Extend(c, mid, LandAckA(j, i));
    }
  }

  lemma AckOne(c: Config, run: seq<State>, b: State, o: Order, landed: map<nat, nat>, j: nat, m: nat)
    returns (run': seq<State>)
    requires Chosen(c, b, o) && Run(c, run) && Arrived(c, b, Last(run), o, landed) && j in o.nodes
    requires landed[j] <= m <= ACK_SIZE
    ensures Run(c, run') && run <= run' && Arrived(c, b, Last(run'), o, landed[j := m])
    ensures Last(run').threads == Last(run).threads
  {
    hide Run, Nodes, RequestOf, Chosen;
    InChosen(c, b, o);
    run' := AckTo(c, run, j, |b.reqs|, m);
  }

  /** The acknowledgements of the nodes below `n` land as far as `target` says. */
  lemma {:induction false} AckAll(c: Config, run: seq<State>, b: State, o: Order, landed: map<nat, nat>,
                                  target: map<nat, nat>, n: nat)
    returns (run': seq<State>, landed': map<nat, nat>)
    requires Chosen(c, b, o) && Run(c, run) && Arrived(c, b, Last(run), o, landed) && n <= c.group
    requires target.Keys == o.nodes && forall j :: j in o.nodes ==> landed[j] <= target[j] <= ACK_SIZE
    ensures Run(c, run') && run <= run' && Arrived(c, b, Last(run'), o, landed')
    ensures Last(run').threads == Last(run).threads
    ensures forall j :: j in o.nodes ==> landed'[j] == if j < n then target[j] else landed[j]
  {
    hide Run, Nodes, Arrived, Chosen;
    run', landed' := run, landed;
    if n > 0 {
      var m := n - 1;
      run', landed' := AckAll(c, run, b, o, landed, target, m);
      ArrivedKeys(c, b, Last(run'), o, landed');
      if m in o.nodes {
        run' := AckOne(c, run', b, o, landed', m, target[m]);
        landed' := landed'[m := target[m]];
      }
    }
  }

  lemma ArrivedKeys(c: Config, b: State, s: State, o: Order, landed: map<nat, nat>)
    requires Arrived(c, b, s, o, landed)
    ensures landed.Keys == o.nodes && |s.threads| == |s.reqs| == |b.reqs| + 1 && |s.replicas| == c.group
    ensures Filled(s.threads[|b.reqs|].pc)
    ensures forall j :: 0 <= j < c.group && j in o.nodes ==>
              j < |o.rests| && Replied(s.replicas[j], |b.reqs|, o.rests[j], landed[j])
  {
  }

  /** All have arrived as `target` says, and the thread is about to scan. */
  lemma Acknowledged(c: Config, base: seq<State>, o: Order, target: map<nat, nat>) returns (run: seq<State>)
    requires Run(c, base) && Chosen(c, Last(base), o) && target.Keys == o.nodes
    requires forall j :: j in o.nodes ==> target[j] <= ACK_SIZE
    ensures Run(c, run) && base <= run && Arrived(c, Last(base), Last(run), o, target)
    ensures |Last(base).reqs| < |Last(run).threads| && Last(run).threads[|Last(base).reqs|].pc == Scanning(0)
  {
    hide Run, Arrived, Took, Chosen;
    var b := Last(base);
    InChosen(c, b, o);
    var run0 := TakeTo(c, base, o, c.group);
    var none := NothingArrived(c, b, Last(run0), o);
    ArrivedKeys(c, b, Last(run0), o, none);
    var landed;
    run, landed := AckAll(c, run0, b, o, none, target, c.group);
    ArrivedKeys(c, b, Last(run), o, landed);
    assert landed == target;
  }

  lemma NothingArrived(c: Config, b: State, s: State, o: Order) returns (landed: map<nat, nat>)
    requires Took(c, b, s, o, c.group)
    ensures Arrived(c, b, s, o, landed) && forall j :: j in o.nodes ==> landed[j] == 0
  {
    hide Replied;
    landed := map j | j in o.nodes :: 0;
  }

  /** A scan changes nothing of this. */
  lemma ArrivedScan(c: Config, b: State, s: State, s': State, o: Order, landed: map<nat, nat>)
    requires Arrived(c, b, s, o, landed) && |b.reqs| < |s.threads| && OnlyThread(s, s', |b.reqs|)
    requires Filled(s'.threads[|b.reqs|].pc)
    ensures Arrived(c, b, s', o, landed)
  {
    hide Replied, RequestOf;
  }

  // ------------------------------------------------------------------ committing

  /** A thread that has seen a quorum commits when all before it are committed. */
  lemma Commit(c: Config, run: seq<State>, i: nat) returns (run': seq<State>)
    requires ValidConfig(c) && Run(c, run) && i < |Last(run).threads| && Last(run).threads[i].pc == Spinning
    requires Last(run).leader.committed == i
    ensures Run(c, run') && run <= run' && Last(run').reqs == Last(run).reqs
    ensures Last(run').replicas == Last(run).replicas && Last(run').leader == Last(run).leader.(committed := i + 1)
    ensures Last(run').threads == Last(run).threads[i := Last(run).threads[i].(pc := Committed)]
  {
    hide Run, Inv;
    InBuffer(c, run, i);
    var run1 := Extend(c, run, SpinA(i));
    InBuffer(c, run1, i);
    var run2 := Extend(c, run1, ReadA(i));
    InBuffer(c, run2, i);
    run' := Extend(c, run2, WriteA(i));
  }

  /** The request is committed on top of `b`, with these acknowledgements. */
  ghost predicate CommittedOn(c: Config, b: State, s: State, o: Order, target: map<nat, nat>)
  {
    var n := |b.reqs|;
    && s.reqs == b.reqs + [RequestOf(b, o)] && s.leader.committed == n + 1 == |s.threads| && |s.replicas| == c.group
    && s.threads[n].pc == Committed && s.threads[n].canExec == n && target.Keys == o.nodes
    && |b.replicas| == c.group && |o.rests| == c.group
    && (forall j :: 0 <= j < c.group && j !in o.nodes ==> s.replicas[j] == b.replicas[j])
    && (forall j :: 0 <= j < c.group && j in o.nodes ==> Replied(s.replicas[j], n, o.rests[j], target[j]))
  }

  /** On top of any run that has committed all its requests, one more request, sent to enough
      nodes, can be committed as soon as their acknowledgements have landed beyond the
      sender, wherever each of them stands then. */
  lemma CommitsNext(c: Config, base: seq<State>, o: Order, target: map<nat, nat>) returns (run: seq<State>)
    requires Run(c, base) && Chosen(c, Last(base), o) && |o.nodes| >= c.group / 2 && target.Keys == o.nodes
    requires forall j :: j in o.nodes ==> 9 <= target[j] <= ACK_SIZE
    ensures Run(c, run) && base <= run && CommittedOn(c, Last(base), Last(run), o, target)
  {
    hide Run, Arrived, Chosen, CommittedOn, HasBit, Replied;
    var b, n := Last(base), |Last(base).reqs|;
    InChosen(c, b, o);
    var run1 := Acknowledged(c, base, o, target);
    ArrivedKeys(c, b, Last(run1), o, target);
    NodesIn(c, b, o);
    RepliesStamped(c, Last(run1), n, o, target);
    var run2 := QuorumSeen(c, run1, n, o.nodes);
    ArrivedScan(c, b, Last(run1), Last(run2), o, target);
    ArrivedCounter(c, b, Last(run2), o, target);
    run := Commit(c, run2, n);
    ArrivedCommitted(c, b, Last(run2), Last(run), o, target);
  }

  lemma RepliesStamped(c: Config, s: State, n: nat, o: Order, target: map<nat, nat>)
    requires |s.replicas| == c.group && target.Keys == o.nodes
    requires forall j :: j in o.nodes ==>
               9 <= target[j] && j < c.group && j < |o.rests| && Replied(s.replicas[j], n, o.rests[j], target[j])
    ensures forall j :: j in o.nodes ==> Stamped(s, n, j) && s.replicas[j].acks[n].landed >= 9
  {
  }

  lemma NodesIn(c: Config, b: State, o: Order)
    requires Chosen(c, b, o)
    ensures o.nodes <= Nodes(c.group) && c.leader !in o.nodes && |o.rests| == c.group
  {
  }

  lemma ArrivedCounter(c: Config, b: State, s: State, o: Order, landed: map<nat, nat>)
    requires Arrived(c, b, s, o, landed)
    ensures s.leader.committed == |b.reqs|
  {
  }

  lemma ArrivedCommitted(c: Config, b: State, s: State, s': State, o: Order, target: map<nat, nat>)
    requires Arrived(c, b, s, o, target) && |o.rests| == c.group
    requires s'.reqs == s.reqs && s'.replicas == s.replicas && s'.leader == s.leader.(committed := |b.reqs| + 1)
    requires s'.threads == s.threads[|b.reqs| := s.threads[|b.reqs|].(pc := Committed)]
    ensures CommittedOn(c, b, s', o, target)
  {
    hide Replied, RequestOf;
  }

  // --------------------------------------------------------------- any sequence of them

  /** A replica executes until it polls again; it keeps what it has accepted. */
  lemma {:induction false} DrainNode(c: Config, run: seq<State>, j: nat) returns (run': seq<State>)
    requires ValidConfig(c) && Run(c, run) && |Last(run).replicas| == c.group && j < c.group && j != c.leader
    ensures Run(c, run') && run <= run' && Moved(Last(run), Last(run'), j)
    ensures Waiting(Last(run').replicas[j], Last(run).replicas[j].accepted)
    decreases var w := Last(run).replicas[j].work;
              if w.Polling? then 0 else if w.next <= w.last then w.last + 2 - w.next else 1
  {
    hide Run;
    if Last(run).replicas[j].work.Polling? {
      run' := run;
    } else {
      CanLand(c, run, j);
      var mid := Extend(c, run, ExecuteA(j));
      run' := DrainNode(c, mid, j);
    }
  }

  lemma {:induction false} DrainTo(c: Config, run: seq<State>, nodes: set<nat>, m: nat) returns (run': seq<State>)
    requires ValidConfig(c) && Run(c, run) && |Last(run).replicas| == c.group && c.leader !in nodes && m <= c.group
    ensures Run(c, run') && run <= run' && Last(run').reqs == Last(run).reqs && Last(run').threads == Last(run).threads
    ensures Last(run').leader.committed == Last(run).leader.committed && Last(run').leader.end == Last(run).leader.end
    ensures |Last(run').replicas| == c.group
    ensures forall j :: 0 <= j < c.group ==> Last(run').replicas[j].accepted == Last(run).replicas[j].accepted
    ensures forall j :: 0 <= j < m && j in nodes ==> Last(run').replicas[j].work.Polling?
  {
    hide Run;
    run' := run;
    if m > 0 {
      run' := DrainTo(c, run, nodes, m - 1);
      if m - 1 in nodes { run' := DrainNode(c, run', m - 1); }
    }
  }

  /** The bytes that the entries of the requests take. */
  function TotalLength(os: seq<Order>): (n: nat)
  {
    if |os| == 0 then 0 else TotalLength(os[..|os| - 1]) + LengthFor(os[|os| - 1].data)
  }

  /** Requests for the same nodes, each of them behind one of the earlier ones or none. */
  ghost predicate Planned(c: Config, os: seq<Order>, nodes: set<nat>)
  {
    && ValidConfig(c) && nodes <= Nodes(c.group) && c.leader !in nodes
    && TotalLength(os) + HEADER_SIZE <= LOG_SIZE
    && forall i :: 0 <= i < |os| ==>
         && os[i].nodes == nodes && os[i].prev <= i && |os[i].rests| == c.group
         && forall j :: 0 <= j < c.group ==> |os[i].rests[j]| == 12
  }

  /** They are all committed, and the nodes have taken all of them and executed all but
      the last. */
  ghost predicate AllCommitted(c: Config, s: State, os: seq<Order>, nodes: set<nat>)
  {
    && |s.reqs| == |s.threads| == s.leader.committed == |os| && |s.replicas| == c.group
    && (forall i :: 0 <= i < |os| ==> s.threads[i].pc == Committed)
    && (forall i :: 0 <= i < |os| ==>
          s.reqs[i].kind == os[i].kind && s.reqs[i].data == os[i].data && s.reqs[i].prev == os[i].prev)
    && (forall j :: 0 <= j < c.group && j in nodes ==>
          Waiting(s.replicas[j], |os|) && |s.replicas[j].executed| + 1 >= |os|)
  }

  lemma {:induction false} StartTotal(reqs: seq<Request>, os: seq<Order>, n: nat)
    requires n <= |reqs| == |os| && forall i :: 0 <= i < n ==> reqs[i].data == os[i].data
    ensures Start(reqs, n) == TotalLength(os[..n])
  {
    if n > 0 {
      StartTotal(reqs, os, n - 1);
      assert os[..n][..n - 1] == os[..n - 1];
    }
  }

  lemma {:induction false} TotalGrows(os: seq<Order>, n: nat)
    requires n < |os|
    ensures TotalLength(os[..n]) + LengthFor(os[n].data) <= TotalLength(os)
    decreases |os|
  {
    var m := |os| - 1;
    if n < m {
      TotalGrows(os[..m], n);
      assert os[..m][..n] == os[..n];
    }
  }

  /** The log has room for the next one. */
  lemma NextFits(c: Config, run: seq<State>, os: seq<Order>, nodes: set<nat>, n: nat)
    requires Planned(c, os, nodes) && n < |os| && Run(c, run) && AllCommitted(c, Last(run), os[..n], nodes)
    ensures FirstPass(Last(run).leader.end, os[n].data)
  {
    hide Run, Nodes, Inv;
    RunNotEmpty(c, run);
    TotalGrows(os, n);
    InvariantHolds(c, run, |run| - 1);
    if n == 0 {
      EmptyEnd(c, Last(run));
    } else {
      LeaderOffsets(c, run, |run| - 1, n - 1);
      StartTotal(Last(run).reqs, os[..n], n);
      assert os[..n][..n] == os[..n];
    }
  }

  lemma EmptyEnd(c: Config, s: State)
    requires Inv(c, s) && |s.reqs| == 0
    ensures s.leader.end == LOG_SIZE
  {
    hide ThreadsInv, LeaderInv, ReplicaInv, CountedInv;
  }

  lemma NextChosen(c: Config, run: seq<State>, os: seq<Order>, nodes: set<nat>, n: nat)
    requires Planned(c, os, nodes) && n < |os| && Run(c, run) && AllCommitted(c, Last(run), os[..n], nodes)
    ensures Chosen(c, Last(run), os[n])
  {
    NextFits(c, run, os, nodes, n);
    hide Run, Nodes, FirstPass, TotalLength;
  }

  /** A node that is done with a request has executed as far as it carries. */
  lemma CarriedOut(c: Config, s: State, j: nat, i: nat)
    requires Inv(c, s) && j < c.group && j != c.leader && Waiting(s.replicas[j], i + 1) && i < |s.threads|
    ensures s.threads[i].canExec <= |s.replicas[j].executed|
  {
    hide LogInv, ThreadsInv, LeaderInv, CountedInv, MemInv, AcceptedInv;
    assert ReplicaInv(c, s.reqs, s.threads, s.leader.committed, j, s.replicas[j]);
  }

  lemma NextCommitted(c: Config, b: State, s: State, t: State, os: seq<Order>, nodes: set<nat>, n: nat,
                      target: map<nat, nat>)
    requires Planned(c, os, nodes) && n < |os| && AllCommitted(c, b, os[..n], nodes)
    requires CommittedOn(c, b, s, os[n], target) && t.reqs == s.reqs && t.threads == s.threads
    requires t.leader.committed == s.leader.committed && |t.replicas| == c.group && Inv(c, t)
    requires forall j :: 0 <= j < c.group ==> t.replicas[j].accepted == s.replicas[j].accepted
    requires forall j :: 0 <= j < c.group && j in nodes ==> t.replicas[j].work.Polling?
    ensures AllCommitted(c, t, os[..n + 1], nodes)
  {
    hide Inv, Nodes, TotalLength;
    ThreadsCommitted(c, t);
    forall j | 0 <= j < c.group && j in nodes ensures Waiting(t.replicas[j], n + 1) && |t.replicas[j].executed| >= n {
      CarriedOut(c, t, j, n);
    }
  }

  lemma ThreadsCommitted(c: Config, s: State)
    requires Inv(c, s) && s.leader.committed == |s.threads|
    ensures forall i :: 0 <= i < |s.threads| ==> s.threads[i].pc == Committed
  {
    hide LogInv, LeaderInv, ReplicaInv, CountedInv;
    forall i | 0 <= i < |s.threads| ensures s.threads[i].pc == Committed { ThreadFact(c, s, i); }
  }

  /** Every sequence of requests that fits the log can be committed, one after the other,
      by any set of nodes that is a quorum with the leader; and each of these nodes then has
      executed all but the last. */
  lemma {:induction false} CommitsAll(c: Config, os: seq<Order>, nodes: set<nat>, n: nat) returns (run: seq<State>)
    requires Planned(c, os, nodes) && |nodes| >= c.group / 2 && n <= |os|
    ensures Run(c, run) && AllCommitted(c, Last(run), os[..n], nodes)
  {
    hide Run, AllCommitted, Planned, Nodes;
    if n == 0 {
      run := NothingYet(c, os, nodes);
    } else {
      var base := CommitsAll(c, os, nodes, n - 1);
      run := OneMore(c, base, os, nodes, n - 1);
    }
  }

  lemma NothingYet(c: Config, os: seq<Order>, nodes: set<nat>) returns (run: seq<State>)
    ensures Run(c, run) && AllCommitted(c, Last(run), os[..0], nodes)
  {
    run := [Init(c)];
  }

  lemma OneMore(c: Config, base: seq<State>, os: seq<Order>, nodes: set<nat>, n: nat) returns (run: seq<State>)
    requires Planned(c, os, nodes) && |nodes| >= c.group / 2 && n < |os|
    requires Run(c, base) && AllCommitted(c, Last(base), os[..n], nodes)
    ensures Run(c, run) && base <= run && AllCommitted(c, Last(run), os[..n + 1], nodes)
  {
    hide Run, Inv, Nodes, TotalLength, AllCommitted, CommittedOn, Chosen;
    NextChosen(c, base, os, nodes, n);
    var target := map j | j in nodes :: ACK_SIZE;
    var mid := CommitsNext(c, base, os[n], target);
    CommittedSize(c, Last(base), Last(mid), os[n], target);
    run := DrainTo(c, mid, nodes, c.group);
    RunNotEmpty(c, run);
    InvariantHolds(c, run, |run| - 1);
    NextCommitted(c, Last(base), Last(mid), Last(run), os, nodes, n, target);
  }

  /** At the start any nodes can be chosen. */
  lemma FirstChosen(c: Config, o: Order)
    requires ValidConfig(c) && o.nodes <= Nodes(c.group) && c.leader !in o.nodes && o.prev == 0
    requires |o.rests| == c.group && forall j :: 0 <= j < c.group ==> |o.rests[j]| == 12
    requires LengthFor(o.data) + HEADER_SIZE <= LOG_SIZE
    ensures Chosen(c, Init(c), o) && Run(c, [Init(c)]) && Last([Init(c)]) == Init(c)
    ensures RequestOf(Init(c), o).kind == o.kind && RequestOf(Init(c), o).at == 0
  {
    hide Nodes;
  }

  lemma CommittedSize(c: Config, b: State, s: State, o: Order, target: map<nat, nat>)
    requires CommittedOn(c, b, s, o, target)
    ensures |s.replicas| == c.group
  {
  }
}
