/** Both races from the start, in groups of every size: a connection is accepted and
    its connect is committed at all nodes; then a read and the close, or two reads, of
    different threads overlap. */
module HookRaceRuns {
  import opened Options
  import opened Bytes
  import opened ViewStamps
  import opened EntryLayout
  import opened Quorums
  import opened Consensus
  import opened ConsensusSafety
  import opened ConsensusScan
  import opened ConsensusNextRequest
  import opened Replay
  import opened Hooks
  import opened HookRaces

  const FD := 5

  /** The connect, sent to everybody. */
  function Connecting(c: Config): (o: Order)
  {
    Order(P_TCP_CONNECT, ViewStamp(0, 0), [], 0, Nodes(c.group) - {c.leader}, seq(c.group, _ => seq(12, _ => 0)))
  }

  /** The request that it becomes. */
  function FirstRequest(c: Config): (q: Request)
  {
    RequestOf(Init(c), Connecting(c))
  }

  lemma EverybodyElse(c: Config)
    requires ValidConfig(c)
    ensures Chosen(c, Init(c), Connecting(c)) && |Connecting(c).nodes| >= c.group / 2
    ensures Run(c, [Init(c)]) && ConsensusScan.Last([Init(c)]) == Init(c)
  {
    var o := Connecting(c);
    assert Nodes(c.group) == o.nodes + {c.leader};
    hide Chosen, Nodes;
    FirstChosen(c, o);
  }

  lemma ConnectCommits(c: Config) returns (run: seq<State>)
    requires ValidConfig(c)
    ensures Run(c, run) && |run| > 0 && run[|run| - 1].reqs == [FirstRequest(c)]
    ensures |run[|run| - 1].threads| == 1 && run[|run| - 1].threads[0].pc == Committed
    ensures run[|run| - 1].leader.end == LengthFor([])
  {
    hide Run, Nodes, Chosen, Connecting, Replied, RequestOf;
    EverybodyElse(c);
    var o := Connecting(c);
    run := CommitsNext(c, [Init(c)], o, map j | j in o.nodes :: ACK_SIZE);
    RunNotEmpty(c, run);
    LeaderOffsets(c, run, |run| - 1, 0);
    OneStart(c, run[|run| - 1].reqs);
  }

  lemma OneStart(c: Config, reqs: seq<Request>)
    requires reqs == [FirstRequest(c)]
    ensures ConsensusSafety.Start(reqs, 1) == LengthFor([])
  {
  }

  /** The hooks over a run whose only request is a connect. */
  ghost predicate Over(h: Hooked, s: State)
  {
    h.s == s && h.calls == map[] &&
    if |s.reqs| == 0 then h.conns == [] && h.table == map[] && h.input == [] && h.queues == []
    else h.conns == [Some(StampOf(0))] && h.table == map[FD := 0] && h.input == [[]] && h.queues == [[]]
  }

  lemma AcceptOver(c: Config, hooks: seq<Hooked>, s: State, a: Action) returns (hooks': seq<Hooked>)
    requires |hooks| > 0 && HookRun(c, hooks) && HookRaces.Last(hooks).s == s && Over(HookRaces.Last(hooks), s)
    requires |s.reqs| == 0
    requires Enabled(c, s, a) && a.ReserveA? && Apply(c, s, a).reqs == [FirstRequest(c)] && s.leader.seen == 0
    ensures |hooks'| > 0 && HookRun(c, hooks') && Over(HookRaces.Last(hooks'), Apply(c, s, a))
  {
    hide HookRun;
    var q := Apply(c, s, a).reqs[0];
    assert a.kind == q.kind && a.data == q.data && a.prev == q.prev;
    var mid := HookRaces.Extend(c, hooks, OnAccept(0, FD));
    hooks' := HookRaces.Extend(c, mid, Submit(0));
  }

  lemma {:induction false} Lift(c: Config, run: seq<State>, k: nat) returns (hooks: seq<Hooked>)
    requires ValidConfig(c) && Run(c, run) && k < |run| && run[k].reqs <= [FirstRequest(c)]
    ensures |hooks| > 0 && HookRun(c, hooks) && Over(HookRaces.Last(hooks), run[k])
  {
    if k == 0 {
      hooks := [Hooks.Start(c)];
    } else {
      var j := k - 1;
      assert Next(c, run[j], run[j + 1]);
      var a: Action :| Enabled(c, run[j], a) && run[k] == Apply(c, run[j], a);
      SeenIsNext(c, run, j);
      hide Run, HookRun, Enabled;
      if a.ReserveA? {
        ReserveGrows(c, run[j], a);
        hooks := Lift(c, run, j);
        hooks := AcceptOver(c, hooks, run[j], a);
      } else {
        OnlyReserve(c, run[j], a);
        hooks := Lift(c, run, j);
        hooks := HookRaces.Extend(c, hooks, Inner(a));
      }
    }
  }

  /** One open connection with its calls under way, reads and pending reads. */
  ghost predicate Session(c: Config, h: Hooked, calls: map<nat, Call>, table: map<int, nat>, read: seq<byte>,
                          queue: seq<Pending>)
  {
    && h.conns == [Some(StampOf(0))] && h.table == table && h.calls == calls && h.input == [read] && h.queues == [queue]
    && h.s.reqs == [FirstRequest(c)] && h.s.leader.end == LengthFor([]) && CallerReady(h.s, StampOf(0).req)
  }

  /** A server that has one connection, whose connect has returned. */
  lemma Connected(c: Config) returns (hooks: seq<Hooked>)
    requires ValidConfig(c)
    ensures |hooks| > 0 && HookRun(c, hooks)
    ensures Session(c, HookRaces.Last(hooks), map[], map[FD := 0], [], [])
  {
    var run := ConnectCommits(c);
    hide Run, HookRun;
    hooks := Lift(c, run, |run| - 1);
  }

  lemma SessionRead(c: Config, h: Hooked, calls: map<nat, Call>, read: seq<byte>, queue: seq<Pending>, t: nat,
                    data: seq<byte>)
    requires Session(c, h, calls, map[FD := 0], read, queue) && t !in calls
    ensures CanStep(c, h, OnData(t, FD, P_SEND, data))
    ensures Session(c, DoStep(c, h, OnData(t, FD, P_SEND, data)), calls[t := Sending(0, P_SEND, data)], map[FD := 0],
                    read + data, queue + [Pending(t, data)])
  {
  }

  lemma SessionClose(c: Config, h: Hooked, calls: map<nat, Call>, read: seq<byte>, queue: seq<Pending>, t: nat)
    requires Session(c, h, calls, map[FD := 0], read, queue) && t !in calls
    ensures CanStep(c, h, OnClose(t, FD))
    ensures Session(c, DoStep(c, h, OnClose(t, FD)), calls[t := Closing(StampOf(0))], map[], read, queue)
  {
    assert h.table - {FD} == map[];
  }

  /** Two of the calls submit, one after the other. */
  lemma SessionSubmit(c: Config, hooks: seq<Hooked>, calls: map<nat, Call>, table: map<int, nat>, read: seq<byte>,
                      queue: seq<Pending>, t: nat, u: nat)
    returns (hooks': seq<Hooked>, q: Request, r: Request)
    requires ValidConfig(c) && |hooks| > 0 && HookRun(c, hooks)
    requires Session(c, HookRaces.Last(hooks), calls, table, read, queue)
    requires t in calls && u in calls && t != u && (calls[t].Sending? || calls[t].Closing?) && calls[u].Sending?
    requires |DataOf(calls[t])| <= 1 && |DataOf(calls[u])| <= 1
    ensures |hooks'| > 0 && HookRun(c, hooks')
    ensures var h := HookRaces.Last(hooks');
            && h.conns == [Some(StampOf(0))] && h.input == [read] && h.s.reqs == [FirstRequest(c), q, r]
            && Names(h.conns, calls[t], q) && Names(h.conns, calls[u], r)
  {
    hide HookRun, CallerReady, Names, FirstRequest, Connecting;
    hooks', q, r := SubmitBoth(c, hooks, t, u);
  }

  /** A thread reads a byte, another closes the connection, and the close is submitted
      first: the byte is read and no replica ever passes it on. */
  lemma ReadAndClose(c: Config) returns (hooks: seq<Hooked>)
    requires ValidConfig(c)
    ensures |hooks| > 0 && HookRun(c, hooks)
    ensures var h, vs := HookRaces.Last(hooks), StampOf(0);
            && h.conns == [Some(vs)] && h.input == [[65]] && |h.s.reqs| == 3
            && h.s.reqs[0].kind == P_TCP_CONNECT && h.s.reqs[1].kind == P_CLOSE && h.s.reqs[2].kind == P_SEND
            && (forall i :: 0 <= i < 3 ==> h.s.reqs[i].clt == vs) && h.s.reqs[2].data == [65]
            && !Kept(h, 0)
  {
    hide HookRun, Kept, Session, CanStep, DoStep;
    var hooks0 := Connected(c);
    SessionRead(c, HookRaces.Last(hooks0), map[], [], [], 1, [65]);
    var hooks1 := HookRaces.Extend(c, hooks0, OnData(1, FD, P_SEND, [65]));
    var calls := map[1 := Sending(0, P_SEND, [65])];
    assert map[][1 := Sending(0, P_SEND, [65])] == calls && [] + [65] == [65];
    SessionClose(c, HookRaces.Last(hooks1), calls, [65], [] + [Pending(1, [65])], 0);
    var hooks2 := HookRaces.Extend(c, hooks1, OnClose(0, FD));
    var q, r;
    hooks, q, r := SessionSubmit(c, hooks2, calls[0 := Closing(StampOf(0))], map[], [65],
                                 [] + [Pending(1, [65])], 0, 1);
    LateByte(HookRaces.Last(hooks));
  }

  lemma LateByte(h: Hooked)
    requires h.conns == [Some(StampOf(0))] && |h.input| == 1 && |h.s.reqs| == 3
    requires h.s.reqs[1].kind == P_CLOSE && h.s.reqs[1].clt == StampOf(0)
    requires h.s.reqs[2].kind == P_SEND && h.s.reqs[2].clt == StampOf(0) && h.s.reqs[2].data != []
    ensures !Kept(h, 0)
  {
    assert SendsOn(h.s.reqs, StampOf(0), 2);
    assert StampOf(0) in Closes(h.s.reqs, 2);
  }

  /** Two threads read a byte each, and the later one is submitted first. */
  lemma ReadAndRead(c: Config) returns (hooks: seq<Hooked>)
    requires ValidConfig(c)
    ensures |hooks| > 0 && HookRun(c, hooks)
    ensures var h, vs := HookRaces.Last(hooks), StampOf(0);
            && h.conns == [Some(vs)] && h.input == [[65, 66]] && |h.s.reqs| == 3
            && h.s.reqs[0].kind == P_TCP_CONNECT && h.s.reqs[1].kind == P_SEND && h.s.reqs[2].kind == P_SEND
            && (forall i :: 0 <= i < 3 ==> h.s.reqs[i].clt == vs)
            && h.s.reqs[1].data == [66] && h.s.reqs[2].data == [65]
            && !Kept(h, 0)
  {
    hide HookRun, Kept, Session, CanStep, DoStep;
    var hooks0 := Connected(c);
    SessionRead(c, HookRaces.Last(hooks0), map[], [], [], 1, [65]);
    var hooks1 := HookRaces.Extend(c, hooks0, OnData(1, FD, P_SEND, [65]));
    var calls := map[1 := Sending(0, P_SEND, [65])];
    assert map[][1 := Sending(0, P_SEND, [65])] == calls && [] + [65] == [65] && [65] + [66] == [65, 66];
    var queue := [] + [Pending(1, [65])];
    SessionRead(c, HookRaces.Last(hooks1), calls, [65], queue, 2, [66]);
    var hooks2 := HookRaces.Extend(c, hooks1, OnData(2, FD, P_SEND, [66]));
    var q, r;
    hooks, q, r := SessionSubmit(c, hooks2, calls[2 := Sending(0, P_SEND, [66])], map[FD := 0], [65, 66],
                                 queue + [Pending(2, [66])], 2, 1);
    TurnedBytes(HookRaces.Last(hooks));
  }

  lemma TurnedBytes(h: Hooked)
    requires h.conns == [Some(StampOf(0))] && h.input == [[65, 66]] && |h.s.reqs| == 3
    requires h.s.reqs[0].kind == P_TCP_CONNECT && h.s.reqs[1].kind == P_SEND && h.s.reqs[2].kind == P_SEND
    requires h.s.reqs[1].clt == h.s.reqs[2].clt == StampOf(0) && h.s.reqs[1].data == [66] && h.s.reqs[2].data == [65]
    ensures !Kept(h, 0)
  {
    var reqs, vs := h.s.reqs, StampOf(0);
    assert Payloads(reqs, vs, 1) == [];
    assert Payloads(reqs, vs, 2) == [66];
    assert Payloads(reqs, vs, 3) == [66, 65];
    assert h.input[0][0] == 65 && Payloads(reqs, vs, 3)[0] == 66;
  }
}
