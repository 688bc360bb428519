/** The execution layer: what a replica's event manager does with the records it
    is handed, and what the local server of a replica gets to see. */
module Replay {
  import opened Options
  import opened Bytes
  import opened ViewStamps
  import opened EntryLayout
  import opened Consensus
  import opened ConsensusInvariant
  import opened ConsensusSafety

  /** The connections a replica holds open to its local server, and all bytes it
      has written on each connection, open or closed. */
  datatype Sessions = Sessions(open: set<ViewStamp>, sent: map<ViewStamp, seq<byte>>)

  const NO_SESSIONS := Sessions({}, map[])

  /** What the non-blocking socket takes of `data` when `write` returns `took`; an
      error takes nothing, and no write takes more than it is given. */
  function Taken(data: seq<byte>, took: nat): (s: seq<byte>)
    ensures s <= data && (took < |data| ==> |s| == took) && (took >= |data| ==> s == data)
  {
    if took < |data| then data[..took] else data
  }

  /** `update_state` on one record; a send ignores how much `write` has taken. */
  function Replayed(s: Sessions, r: Record, took: nat): (s': Sessions)
  {
    if r.kind == P_TCP_CONNECT then
      Sessions(s.open + {r.clt}, if r.clt in s.sent then s.sent else s.sent[r.clt := []])
    else if r.kind == P_SEND && r.clt in s.open && r.clt in s.sent then
      s.(sent := s.sent[r.clt := s.sent[r.clt] + Taken(r.payload, took)])
    else if r.kind == P_CLOSE then
      s.(open := s.open - {r.clt})
    else s
  }

  /** A history of executions, replayed from the start, with what the writes took.  A
      missing record would stop the replica; such a history has no replay. */
  function ReplayAll(h: seq<Execution>, took: seq<nat>): (s: Option<Sessions>)
    requires |took| == |h|
  {
    if |h| == 0 then Some(NO_SESSIONS)
    else
      var n := |h| - 1;
      var s, e := ReplayAll(h[..n], took[..n]), h[n];
      if s.Some? && e.record.Some? && |e.record.value| >= RECORD_HEADER
      then Some(Replayed(s.value, DecodeRecord(e.record.value), took[n]))
      else None
  }

  // ------------------------------------------------- what the leader asked for

  /** The connections opened and closed by the first `n` requests. */
  function Connects(reqs: seq<Request>, n: nat): (s: set<ViewStamp>)
    requires n <= |reqs|
  {
    set i | 0 <= i < n && reqs[i].kind == P_TCP_CONNECT :: reqs[i].clt
  }

  function Closes(reqs: seq<Request>, n: nat): (s: set<ViewStamp>)
    requires n <= |reqs|
  {
    set i | 0 <= i < n && reqs[i].kind == P_CLOSE :: reqs[i].clt
  }

  /** Request `i` sends on connection `vs`. */
  predicate SendsOn(reqs: seq<Request>, vs: ViewStamp, i: nat)
    requires i < |reqs|
  {
    reqs[i].kind == P_SEND && reqs[i].clt == vs
  }

  /** The payloads sent on connection `vs` among the first `n` requests, in order. */
  function Payloads(reqs: seq<Request>, vs: ViewStamp, n: nat): (s: seq<byte>)
    requires n <= |reqs|
  {
    if n == 0 then []
    else Payloads(reqs, vs, n - 1) + if SendsOn(reqs, vs, n - 1) then reqs[n - 1].data else []
  }

  /** What the writes have taken of them.  Behind the close of its connection a send
      finds no connection and writes nothing. */
  function Written(reqs: seq<Request>, took: seq<nat>, vs: ViewStamp, n: nat): (s: seq<byte>)
    requires n <= |reqs| && n <= |took|
  {
    if n == 0 then []
    else
      Written(reqs, took, vs, n - 1) +
      if SendsOn(reqs, vs, n - 1) && vs !in Closes(reqs, n - 1) then Taken(reqs[n - 1].data, took[n - 1]) else []
  }

  /** Every write on connection `vs` was taken in full. */
  ghost predicate InFull(reqs: seq<Request>, took: seq<nat>, vs: ViewStamp, n: nat)
    requires n <= |reqs| && n <= |took|
  {
    forall i :: 0 <= i < n && SendsOn(reqs, vs, i) && vs !in Closes(reqs, i) ==> took[i] >= |reqs[i].data|
  }

  /** No bytes are sent on connection `vs` behind its close. */
  ghost predicate NoneLate(reqs: seq<Request>, vs: ViewStamp, n: nat)
    requires n <= |reqs|
  {
    forall i :: 0 <= i < n && SendsOn(reqs, vs, i) && reqs[i].data != [] ==> vs !in Closes(reqs, i)
  }

  /** `vs` is the stamp of a connect among `reqs`. */
  ghost predicate IsConnect(reqs: seq<Request>, vs: ViewStamp)
  {
    exists m :: 0 <= m < |reqs| && reqs[m].kind == P_TCP_CONNECT && reqs[m].clt == vs
  }

  /** Request `i` is about a connection that an earlier request opened. */
  ghost predicate OnEarlierConnect(reqs: seq<Request>, i: nat)
    requires i < |reqs|
  {
    exists m :: 0 <= m < i && reqs[m].kind == P_TCP_CONNECT && reqs[m].clt == reqs[i].clt
  }

  /** Connects are keyed by their own stamp, and NOPs by none. */
  ghost predicate OwnStamps(reqs: seq<Request>)
  {
    && (forall i :: 0 <= i < |reqs| && reqs[i].kind == P_TCP_CONNECT ==> reqs[i].clt == StampOf(i))
    && (forall i :: 0 <= i < |reqs| && reqs[i].kind == P_NOP ==> reqs[i].clt == ViewStamp(0, 0))
  }

  /** A request of such a kind names a connection. */
  predicate OnConnection(kind: byte)
  {
    kind == P_SEND || kind == P_CLOSE || kind == P_OUTPUT
  }

  /** Connects are keyed by their own stamp, and the other requests name the stamp
      of an earlier connect. */
  ghost predicate Disciplined(reqs: seq<Request>)
  {
    && OwnStamps(reqs)
    && forall i :: 0 <= i < |reqs| && OnConnection(reqs[i].kind) ==> OnEarlierConnect(reqs, i)
  }

  /** The sessions that the first `n` requests call for: open are the connects
      minus the closes, and each connection has got what was taken of its payloads,
      in order. */
  ghost predicate Faithful(s: Sessions, reqs: seq<Request>, took: seq<nat>, n: nat)
    requires n <= |reqs| && n <= |took|
  {
    && s.open == Connects(reqs, n) - Closes(reqs, n)
    && s.sent.Keys == Connects(reqs, n)
    && forall vs :: vs in s.sent ==> s.sent[vs] == Written(reqs, took, vs, n)
  }

  // ------------------------------------------------------- requests in every run

  /** In every run, connects are keyed by their own stamp, so that stamps of connections
      are unique, and NOPs by none. */
  lemma {:induction false} ConnectsOwnStamps(c: Config, run: seq<State>, k: nat)
    requires ValidConfig(c) && Run(c, run) && k < |run|
    ensures OwnStamps(run[k].reqs)
  {
    if k > 0 {
      var j := k - 1;
      ConnectsOwnStamps(c, run, j);
      SeenIsNext(c, run, j);
      assert Next(c, run[j], run[j + 1]);
      var a: Action :| Enabled(c, run[j], a) && run[k] == Apply(c, run[j], a);
      hide Run, Next, Enabled;
      if a.ReserveA? { OwnStampNext(run[j], a); } else { OnlyReserve(c, run[j], a); }
    }
  }

  lemma OwnStampNext(s: State, a: Action)
    requires a.ReserveA? && OwnStamps(s.reqs) && s.leader.seen == |s.reqs|
    ensures OwnStamps(Reserve(s, a.kind, a.clt, a.data, a.prev).reqs)
  {
  }

  lemma OnlyReserve(c: Config, s: State, a: Action)
    requires Enabled(c, s, a) && !a.ReserveA?
    ensures Apply(c, s, a).reqs == s.reqs
  {
  }

  lemma SeenIsNext(c: Config, run: seq<State>, k: nat)
    requires ValidConfig(c) && Run(c, run) && k < |run|
    ensures run[k].leader.seen == |run[k].reqs|
  {
    hide Run, ThreadsInv, LeaderInv, ReplicaInv, CountedInv, Packed;
    InvariantHolds(c, run, k);
  }

  /** A submission about a connection carries the stamp of a connect that has been
      reserved, and comes after that one has returned. */
  ghost predicate Known(reqs: seq<Request>, a: Action)
  {
    a.ReserveA? && OnConnection(a.kind) ==> IsConnect(reqs, a.clt) && a.prev == a.clt.req
  }

  ghost predicate KnownNext(c: Config, s: State, s': State)
  {
    exists a: Action :: Enabled(c, s, a) && Known(s.reqs, a) && s' == Apply(c, s, a)
  }

  /** A run whose submissions are such. */
  ghost predicate KnownRun(c: Config, run: seq<State>)
  {
    && |run| > 0 && run[0] == Init(c)
    && forall i, k :: 0 <= i < k == i + 1 < |run| ==> KnownNext(c, run[i], run[k])
  }

  lemma KnownIsRun(c: Config, run: seq<State>)
    requires KnownRun(c, run)
    ensures Run(c, run)
  {
    forall i | 0 <= i < |run| - 1 ensures Next(c, run[i], run[i + 1]) {
      var k := i + 1;
      assert KnownNext(c, run[i], run[k]);
    }
  }

  lemma DisciplinedNext(reqs: seq<Request>, q: Request)
    requires Disciplined(reqs)
    requires q.kind == P_TCP_CONNECT ==> q.clt == StampOf(|reqs|)
    requires q.kind == P_NOP ==> q.clt == ViewStamp(0, 0)
    requires OnConnection(q.kind) ==> IsConnect(reqs, q.clt)
    ensures Disciplined(reqs + [q])
  {
    var reqs' := reqs + [q];
    forall i | 0 <= i < |reqs'| && OnConnection(reqs'[i].kind) ensures OnEarlierConnect(reqs', i) {
      if i < |reqs| {
        assert OnEarlierConnect(reqs, i);
        var m :| 0 <= m < i && reqs[m].kind == P_TCP_CONNECT && reqs[m].clt == reqs[i].clt;
        assert reqs'[m] == reqs[m];
      } else {
        var m :| 0 <= m < |reqs| && reqs[m].kind == P_TCP_CONNECT && reqs[m].clt == q.clt;
        assert reqs'[m] == reqs[m];
      }
    }
  }

  /** In every such run all requests name the stamp of an earlier connect. */
  lemma {:induction false} RunDisciplined(c: Config, run: seq<State>, k: nat)
    requires ValidConfig(c) && KnownRun(c, run) && k < |run|
    ensures Disciplined(run[k].reqs)
  {
    hide Disciplined;
    if k == 0 {
      NoneDisciplined();
    } else {
      var j := k - 1;
      RunDisciplined(c, run, j);
      KnownIsRun(c, run);
      SeenIsNext(c, run, j);
      assert KnownNext(c, run[j], run[k]);
      var a: Action :| Enabled(c, run[j], a) && Known(run[j].reqs, a) && run[k] == Apply(c, run[j], a);
      hide KnownRun, Run, Enabled, IsConnect;
      if a.ReserveA? {
        DisciplinedNext(run[j].reqs, run[k].reqs[|run[j].reqs|]);
      } else {
        OnlyReserve(c, run[j], a);
      }
    }
  }

  lemma NoneDisciplined()
    ensures Disciplined([])
  {
  }

  /** All requests about a connection come after its connect has returned. */
  ghost predicate AfterConnect(reqs: seq<Request>)
  {
    forall i :: 0 <= i < |reqs| && OnConnection(reqs[i].kind) ==> reqs[i].prev == reqs[i].clt.req
  }

  lemma {:induction false} RunAfterConnect(c: Config, run: seq<State>, k: nat)
    requires KnownRun(c, run) && k < |run|
    ensures AfterConnect(run[k].reqs)
  {
    if k > 0 {
      var j := k - 1;
      RunAfterConnect(c, run, j);
      assert KnownNext(c, run[j], run[k]);
      var a: Action :| Enabled(c, run[j], a) && Known(run[j].reqs, a) && run[k] == Apply(c, run[j], a);
      hide KnownRun, Enabled, IsConnect;
      if !a.ReserveA? { OnlyReserve(c, run[j], a); }
    }
  }

  // --------------------------------------------------------------------- proofs

  lemma CountersNext(reqs: seq<Request>, n: nat)
    requires n < |reqs|
    ensures Connects(reqs, n + 1) ==
              if reqs[n].kind == P_TCP_CONNECT then Connects(reqs, n) + {reqs[n].clt} else Connects(reqs, n)
    ensures Closes(reqs, n + 1) == if reqs[n].kind == P_CLOSE then Closes(reqs, n) + {reqs[n].clt} else Closes(reqs, n)
  {
  }

  /** How one more request changes the connects and closes. */
  lemma ConnectionsNext(reqs: seq<Request>, q: Request)
    ensures var reqs', n := reqs + [q], |reqs|;
            && Connects(reqs', n + 1) ==
                 (if q.kind == P_TCP_CONNECT then Connects(reqs, n) + {q.clt} else Connects(reqs, n))
            && Closes(reqs', n + 1) == (if q.kind == P_CLOSE then Closes(reqs, n) + {q.clt} else Closes(reqs, n))
  {
    var reqs', n := reqs + [q], |reqs|;
    assert forall i :: 0 <= i < n ==> reqs'[i] == reqs[i];
    assert Connects(reqs', n) == Connects(reqs, n);
    assert Closes(reqs', n) == Closes(reqs, n);
    CountersNext(reqs', n);
  }

  lemma OpenIsConnect(reqs: seq<Request>, vs: ViewStamp)
    requires vs in Connects(reqs, |reqs|)
    ensures IsConnect(reqs, vs)
  {
  }

  /** Nothing has been said about a connection before its connect. */
  lemma {:induction false} FreshStamp(reqs: seq<Request>, took: seq<nat>, n: nat, k: nat)
    requires Disciplined(reqs) && k <= n < |reqs| < U32 - 1 && k <= |took| && reqs[n].kind == P_TCP_CONNECT
    ensures reqs[n].clt !in Connects(reqs, k) && reqs[n].clt !in Closes(reqs, k)
    ensures Written(reqs, took, reqs[n].clt, k) == [] && Payloads(reqs, reqs[n].clt, k) == []
  {
    if k > 0 {
      FreshStamp(reqs, took, n, k - 1);
      CountersNext(reqs, k - 1);
      if reqs[k - 1].kind == P_TCP_CONNECT {
        KeysDistinct(k - 1, n);
      } else if OnConnection(reqs[k - 1].kind) {
        assert OnEarlierConnect(reqs, k - 1);
        var m :| 0 <= m < k - 1 && reqs[m].kind == P_TCP_CONNECT && reqs[m].clt == reqs[k - 1].clt;
        KeysDistinct(m, n);
      }
    }
  }

  lemma SendPayload(s: Sessions, reqs: seq<Request>, took: seq<nat>, n: nat)
    requires Disciplined(reqs) && n < |reqs| && n <= |took| && reqs[n].kind == P_SEND && Faithful(s, reqs, took, n)
    ensures reqs[n].clt in s.sent
    ensures reqs[n].clt in s.open <==> reqs[n].clt !in Closes(reqs, n)
  {
    assert OnEarlierConnect(reqs, n);
  }

  /** Replaying the next request keeps the sessions faithful. */
  lemma ReplayNext(s: Sessions, reqs: seq<Request>, took: seq<nat>, n: nat)
    requires Disciplined(reqs) && n < |reqs| < U32 - 1 && n < |took| && Faithful(s, reqs, took, n)
    ensures var r := Record(|reqs[n].data| + 1, reqs[n].kind, reqs[n].clt, reqs[n].data);
            Faithful(Replayed(s, r, took[n]), reqs, took, n + 1)
  {
    var q := reqs[n];
    var s' := Replayed(s, Record(|q.data| + 1, q.kind, q.clt, q.data), took[n]);
    CountersNext(reqs, n);
    if q.kind == P_TCP_CONNECT {
      FreshStamp(reqs, took, n, n);
    } else if q.kind == P_SEND {
      SendPayload(s, reqs, took, n);
    }
  }

  lemma {:induction false} WrittenPrefix(reqs: seq<Request>, took: seq<nat>, vs: ViewStamp, n: nat, m: nat)
    requires n <= m <= |took| && n <= |reqs|
    ensures Written(reqs, took[..m], vs, n) == Written(reqs, took, vs, n)
  {
    if n > 0 { WrittenPrefix(reqs, took, vs, n - 1, m); }
  }

  lemma {:induction false} ReplayPrefix(reqs: seq<Request>, took: seq<nat>, n: nat)
    requires Disciplined(reqs) && n == |took| <= |reqs| < U32 - 1
    requires forall i :: 0 <= i < |reqs| ==> LengthFor(reqs[i].data) <= LOG_SIZE
    ensures ReplayAll(LeaderOrder(reqs)[..n], took).Some?
    ensures Faithful(ReplayAll(LeaderOrder(reqs)[..n], took).value, reqs, took, n)
  {
    var h := LeaderOrder(reqs)[..n];
    if n > 0 {
      var m := n - 1;
      ReplayPrefix(reqs, took[..m], m);
      assert h[..m] == LeaderOrder(reqs)[..m];
      var q, s := reqs[m], ReplayAll(h[..m], took[..m]).value;
      RecordRoundTrip(q.kind, q.clt, q.data);
      forall vs | vs in s.sent ensures s.sent[vs] == Written(reqs, took, vs, m) { WrittenPrefix(reqs, took, vs, m, m); }
      hide Disciplined;
      ReplayNext(s, reqs, took, m);
    }
  }

  lemma SameParts<T>(a: seq<T>, b: seq<T>, x: seq<T>, y: seq<T>)
    requires |a| <= |b| && |x| <= |y|
    ensures a + x == b + y <==> a == b && x == y
  {
    if a + x == b + y {
      assert |a| == |b| && |x| == |y|;
      assert a == (a + x)[..|a|] && b == (b + y)[..|a|];
      assert x == (a + x)[|a|..] && y == (b + y)[|a|..];
    }
  }

  /** The bytes on a connection are its payloads, all of them, exactly when every write
      on it was taken in full and none came behind its close: what a short write or a
      late send leaves out is never made good. */
  lemma {:induction false} WrittenExact(reqs: seq<Request>, took: seq<nat>, vs: ViewStamp, n: nat)
    requires n <= |reqs| && n <= |took|
    ensures |Written(reqs, took, vs, n)| <= |Payloads(reqs, vs, n)|
    ensures |Written(reqs, took, vs, n)| == |Payloads(reqs, vs, n)| <==>
              Written(reqs, took, vs, n) == Payloads(reqs, vs, n)
    ensures Written(reqs, took, vs, n) == Payloads(reqs, vs, n) <==> InFull(reqs, took, vs, n) && NoneLate(reqs, vs, n)
  {
    if n > 0 {
      var m := n - 1;
      WrittenExact(reqs, took, vs, m);
      var sends, late := SendsOn(reqs, vs, m), vs in Closes(reqs, m);
      var x := if sends && !late then Taken(reqs[m].data, took[m]) else [];
      var y := if sends then reqs[m].data else [];
      LossNext(reqs, took, vs, m);
      hide SendsOn, InFull, NoneLate, Closes;
      SameParts(Written(reqs, took, vs, m), Payloads(reqs, vs, m), x, y);
      assert |x| == |y| <==> x == y;
    }
  }

  lemma LossNext(reqs: seq<Request>, took: seq<nat>, vs: ViewStamp, m: nat)
    requires m < |reqs| && m < |took|
    ensures var sends, late := SendsOn(reqs, vs, m), vs in Closes(reqs, m);
            && (InFull(reqs, took, vs, m + 1) <==>
                  InFull(reqs, took, vs, m) && (sends && !late ==> took[m] >= |reqs[m].data|))
            && (NoneLate(reqs, vs, m + 1) <==> NoneLate(reqs, vs, m) && (sends && late ==> reqs[m].data == []))
  {
    hide SendsOn, Closes;
  }

  lemma EntriesShort(c: Config, s: State)
    requires Inv(c, s)
    ensures |s.reqs| < U32 - 1
    ensures forall i :: 0 <= i < |s.reqs| ==> LengthFor(s.reqs[i].data) <= LOG_SIZE
  {
    hide ThreadsInv, LeaderInv, ReplicaInv, CountedInv;
    FewRequests(s.reqs, s.leader);
    Roomy(s.reqs);
    forall i | 0 <= i < |s.reqs| ensures LengthFor(s.reqs[i].data) <= LOG_SIZE { EntryInside(s.reqs, i); }
  }

  /** End to end: whatever a replica has executed at any moment of a run, and whatever
      its sockets took of each write, its open connections are the leader's connects
      minus closes in that prefix, and its local server has got, per connection, what
      was taken of the payloads the leader sent, in order; all of them exactly when every
      write was taken in full and none came behind the close. */
  lemma ReplicaSeesLeader(c: Config, run: seq<State>, k: nat, j: nat, took: seq<nat>)
    requires ValidConfig(c) && KnownRun(c, run) && k < |run| && j < c.group && j != c.leader
    requires j < |run[k].replicas| ==> |took| == |run[k].replicas[j].executed|
    ensures j < |run[k].replicas| && |took| <= |run[k].reqs|
    ensures ReplayAll(run[k].replicas[j].executed, took).Some?
    ensures var s := ReplayAll(run[k].replicas[j].executed, took).value;
            && Faithful(s, run[k].reqs, took, |took|)
            && forall vs :: vs in s.sent ==>
                 (s.sent[vs] == Payloads(run[k].reqs, vs, |took|) <==>
                    InFull(run[k].reqs, took, vs, |took|) && NoneLate(run[k].reqs, vs, |took|))
  {
    hide Run, KnownRun, Inv, LeaderOrder, Disciplined, Written, Payloads, InFull, NoneLate, SendsOn, Replayed;
    RunDisciplined(c, run, k);
    KnownIsRun(c, run);
    ExecutesLeaderOrder(c, run, k, j);
    InvariantHolds(c, run, k);
    EntriesShort(c, run[k]);
    ReplayPrefix(run[k].reqs, took, |took|);
    var s := ReplayAll(run[k].replicas[j].executed, took).value;
    forall vs | vs in s.sent
      ensures s.sent[vs] == Payloads(run[k].reqs, vs, |took|) <==>
                InFull(run[k].reqs, took, vs, |took|) && NoneLate(run[k].reqs, vs, |took|)
    {
      WrittenExact(run[k].reqs, took, vs, |took|);
    }
  }

  /** When a replica comes to the entry of an output check, `get_mapping_fd` finds the
      connection if and only if the replica has executed its connect and no close of
      it; and it has executed the connect if any earlier entry is about the same
      connection. */
  lemma OutputConnection(c: Config, run: seq<State>, k: nat, j: nat, took: seq<nat>, e: nat)
    requires ValidConfig(c) && KnownRun(c, run) && k < |run| && j < c.group && j != c.leader
    requires j < |run[k].replicas| ==> |took| == |run[k].replicas[j].executed|
    requires j < |run[k].replicas| ==> run[k].replicas[j].work.Polling? && run[k].replicas[j].accepted < |run[k].reqs|
    ensures j < |run[k].replicas| && |took| <= |run[k].reqs|
    ensures ReplayAll(run[k].replicas[j].executed, took).Some?
    ensures var s, reqs := ReplayAll(run[k].replicas[j].executed, took).value, run[k].reqs;
            var q := reqs[run[k].replicas[j].accepted];
            && (q.clt in s.open <==> q.clt in Connects(reqs, |took|) && q.clt !in Closes(reqs, |took|))
            && (q.kind == P_OUTPUT && e < run[k].replicas[j].accepted
                && OnConnection(reqs[e].kind) && reqs[e].clt == q.clt ==>
                  q.clt in Connects(reqs, |took|))
  {
    hide Run, KnownRun, Connects, Closes, Written, Payloads, InFull, NoneLate, Disciplined, AfterConnect;
    ReplicaSeesLeader(c, run, k, j, took);
    var reqs, i := run[k].reqs, run[k].replicas[j].accepted;
    if reqs[i].kind == P_OUTPUT && e < i && OnConnection(reqs[e].kind) && reqs[e].clt == reqs[i].clt {
      KnownIsRun(c, run);
      RunDisciplined(c, run, k);
      RunAfterConnect(c, run, k);
      GroupSize(c, run, k);
      PredecessorExecuted(c, run, k, j, e);
      ConnectBelow(reqs, e, |took|);
    }
  }

  lemma GroupSize(c: Config, run: seq<State>, k: nat)
    requires ValidConfig(c) && Run(c, run) && k < |run|
    ensures |run[k].replicas| == c.group && |run[k].reqs| < U32 - 1
  {
    hide Run, Inv;
    InvariantHolds(c, run, k);
    SizesOf(c, run[k]);
    EntriesShort(c, run[k]);
  }

  lemma SizesOf(c: Config, s: State)
    requires Inv(c, s)
    ensures |s.replicas| == c.group
  {
    hide LogInv, ThreadsInv, LeaderInv, ReplicaInv, CountedInv;
  }

  lemma ConnectBelow(reqs: seq<Request>, e: nat, n: nat)
    requires Disciplined(reqs) && AfterConnect(reqs) && e < |reqs| < U32 - 1 && n <= |reqs|
    requires OnConnection(reqs[e].kind) && reqs[e].prev <= n
    ensures reqs[e].clt in Connects(reqs, n)
  {
    assert OnEarlierConnect(reqs, e);
    var m :| 0 <= m < e && reqs[m].kind == P_TCP_CONNECT && reqs[m].clt == reqs[e].clt;
    assert reqs[m].clt == StampOf(m);
  }
}
