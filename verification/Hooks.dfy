/** The hooks of the leader's server threads, interleaved with each other and with the
    replication protocol.  A hook looks its descriptor up, or enters or removes it, in
    one step, and submits its request in a later one. */
module Hooks {
  import opened Options
  import opened Bytes
  import opened ViewStamps
  import opened Consensus
  import opened ConsensusInvariant
  import opened ConsensusSafety
  import opened Replay

  /** What a hook has still to submit.  `conn` points to a `leader_tcp_pair`. */
  datatype Call =
    | Accepting(conn: nat)
    | Sending(conn: nat, kind: byte, data: seq<byte>)
    | Closing(vs: ViewStamp)
    | Closed(prev: nat)

  /** A read whose bytes the thread has still to submit. */
  datatype Pending = Pending(thread: nat, data: seq<byte>)

  /** `conns` are the `leader_tcp_pair`s ever made, each with its stamp once the connect
      is reserved; `table` is `leader_tcp_map`; `calls` are the hooks under way, by
      thread.  History, per connection: `input` are the bytes that the server has read,
      `queues` those reads that are not submitted yet, in order. */
  datatype Hooked = Hooked(s: State, conns: seq<Option<ViewStamp>>, table: map<int, nat>, calls: map<nat, Call>,
                           input: seq<seq<byte>>, queues: seq<seq<Pending>>)

  datatype Step =
    | OnAccept(t: nat, fd: int)
    | OnData(t: nat, fd: int, kind: byte, data: seq<byte>)
    | OnClose(t: nat, fd: int)
    | Submit(t: nat)
    | Inner(a: Action)

  function Start(c: Config): (h: Hooked)
  {
    Hooked(Init(c), [], map[], map[], [], [])
  }

  /** The descriptor is in the table and its connect has returned: the server has a
      descriptor only when its accept has. */
  predicate Ready(h: Hooked, fd: int)
  {
    && fd in h.table && h.table[fd] < |h.conns| && h.conns[h.table[fd]].Some?
    && CallerReady(h.s, h.conns[h.table[fd]].value.req)
  }

  /** The queue without the read of a thread. */
  function Without(queue: seq<Pending>, t: nat): (q: seq<Pending>)
  {
    if |queue| == 0 then [] else if queue[0].thread == t then queue[1..] else [queue[0]] + Without(queue[1..], t)
  }

  /** The history after a read of connection `conn`, and after its submission. */
  function Read(h: Hooked, t: nat, conn: nat, data: seq<byte>): (h': Hooked)
  {
    if conn < |h.input| && conn < |h.queues| then
      h.(input := h.input[conn := h.input[conn] + data],
         queues := h.queues[conn := h.queues[conn] + [Pending(t, data)]])
    else h
  }

  function Passed(h: Hooked, t: nat, conn: nat): (h': Hooked)
  {
    if conn < |h.queues| then h.(queues := h.queues[conn := Without(h.queues[conn], t)]) else h
  }

  /** The request that a hook submits.  The connect of the same stamp was submitted before
      it and has returned; the NOP follows its CLOSE in the same way. */
  function Submission(h: Hooked, call: Call): (a: Action)
  {
    match call
    case Accepting(conn) => ReserveA(P_TCP_CONNECT, ViewStamp(0, 0), [], 0)
    case Sending(conn, kind, data) =>
      var vs := if conn < |h.conns| && h.conns[conn].Some? then h.conns[conn].value else ViewStamp(0, 0);
      ReserveA(kind, vs, data, vs.req)
    case Closing(vs) => ReserveA(P_CLOSE, vs, [], vs.req)
    case Closed(prev) => ReserveA(P_NOP, ViewStamp(0, 0), [], prev)
  }

  /** A descriptor is handed out again only when it has left the table. */
  ghost predicate CanStep(c: Config, h: Hooked, e: Step)
  {
    match e
    case OnAccept(t, fd) => t !in h.calls && fd !in h.table
    case OnData(t, fd, kind, data) => t !in h.calls && Ready(h, fd) && (kind == P_SEND || kind == P_OUTPUT)
    case OnClose(t, fd) => t !in h.calls && Ready(h, fd)
    case Submit(t) => t in h.calls && Enabled(c, h.s, Submission(h, h.calls[t]))
    case Inner(a) => !a.ReserveA? && Enabled(c, h.s, a)
  }

  ghost function DoStep(c: Config, h: Hooked, e: Step): (h': Hooked)
    requires CanStep(c, h, e)
  {
    match e
    case OnAccept(t, fd) =>
      h.(conns := h.conns + [None], table := h.table[fd := |h.conns|], calls := h.calls[t := Accepting(|h.conns|)],
         input := h.input + [[]], queues := h.queues + [[]])
    case OnData(t, fd, kind, data) =>
      var h' := if kind == P_SEND then Read(h, t, h.table[fd], data) else h;
      h'.(calls := h.calls[t := Sending(h.table[fd], kind, data)])
    case OnClose(t, fd) => h.(table := h.table - {fd}, calls := h.calls[t := Closing(h.conns[h.table[fd]].value)])
    case Submit(t) =>
      var call := h.calls[t];
      var s' := Apply(c, h.s, Submission(h, call));
      (match call
       case Accepting(conn) =>
         h.(s := s', calls := h.calls - {t},
            conns := if conn < |h.conns| then h.conns[conn := Some(StampOf(h.s.leader.seen))] else h.conns)
       case Sending(conn, kind, data) =>
         (if kind == P_SEND then Passed(h, t, conn) else h).(s := s', calls := h.calls - {t})
       case Closing(vs) => h.(s := s', calls := h.calls[t := Closed(|h.s.reqs| + 1)])
       case Closed(prev) => h.(s := s', calls := h.calls - {t}))
    case Inner(a) => h.(s := Apply(c, h.s, a))
  }

  ghost predicate HookNext(c: Config, h: Hooked, h': Hooked)
  {
    exists e: Step :: CanStep(c, h, e) && h' == DoStep(c, h, e)
  }

  ghost predicate HookRun(c: Config, run: seq<Hooked>)
  {
    && |run| > 0 && run[0] == Start(c)
    && forall i, k :: 0 <= i < k == i + 1 < |run| ==> HookNext(c, run[i], run[k])
  }

  // --------------------------------------------------------------- the invariant

  /** The stamps in the table. */
  ghost function Named(conns: seq<Option<ViewStamp>>, table: map<int, nat>): (s: set<ViewStamp>)
  {
    set fd | fd in table && table[fd] < |conns| && conns[table[fd]].Some? :: conns[table[fd]].value
  }

  /** The stamps of closes that are not submitted yet. */
  ghost function Closings(calls: map<nat, Call>): (s: set<ViewStamp>)
  {
    set t | t in calls && calls[t].Closing? :: calls[t].vs
  }

  ghost predicate TableOk(conns: seq<Option<ViewStamp>>, table: map<int, nat>)
  {
    && (forall f :: f in table ==> table[f] < |conns|)
    && (forall f, g :: f in table && g in table && f != g ==> table[f] != table[g])
    && (forall i, k :: 0 <= i < k < |conns| && conns[i].Some? && conns[k].Some? ==> conns[i] != conns[k])
  }

  ghost predicate CallOk(conns: seq<Option<ViewStamp>>, table: map<int, nat>, call: Call)
  {
    match call
    case Accepting(conn) => conn < |conns| && conns[conn] == None && exists f :: f in table && table[f] == conn
    case Sending(conn, kind, data) => conn < |conns| && conns[conn].Some? && (kind == P_SEND || kind == P_OUTPUT)
    case _ => true
  }

  ghost predicate CallsOk(conns: seq<Option<ViewStamp>>, table: map<int, nat>, calls: map<nat, Call>)
  {
    && (forall t :: t in calls ==> CallOk(conns, table, calls[t]))
    && (forall t, u :: t in calls && u in calls && t != u && !calls[t].Sending? && !calls[t].Closed? ==>
          calls[t] != calls[u])
  }

  /** Every connection with a stamp has its connect among the requests; those not yet
      closed are the ones in the table and the ones whose close is under way. */
  ghost predicate OpenOk(reqs: seq<Request>, conns: seq<Option<ViewStamp>>, table: map<int, nat>, calls: map<nat, Call>)
  {
    var n := |reqs|;
    && (forall i :: 0 <= i < |conns| && conns[i].Some? ==> conns[i].value in Connects(reqs, n))
    && Connects(reqs, n) - Closes(reqs, n) == Named(conns, table) + Closings(calls)
    && Named(conns, table) !! Closings(calls)
  }

  ghost predicate HookInv(h: Hooked)
  {
    TableOk(h.conns, h.table) && CallsOk(h.conns, h.table, h.calls) && OpenOk(h.s.reqs, h.conns, h.table, h.calls)
  }

  lemma AcceptKeeps(c: Config, h: Hooked, t: nat, fd: int)
    requires HookInv(h) && CanStep(c, h, OnAccept(t, fd))
    ensures HookInv(DoStep(c, h, OnAccept(t, fd)))
  {
    hide Connects, Closes;
    var h' := DoStep(c, h, OnAccept(t, fd));
    assert Named(h'.conns, h'.table) == Named(h.conns, h.table) by {
      assert forall f :: f in h.table ==> h'.conns[h'.table[f]] == h.conns[h.table[f]];
    }
    assert Closings(h'.calls) == Closings(h.calls) by {
      assert forall u :: u in h.calls ==> h'.calls[u] == h.calls[u];
    }
    forall u | u in h'.calls ensures CallOk(h'.conns, h'.table, h'.calls[u]) {
      if u == t {
        assert h'.table[fd] == |h.conns|;
      } else {
        assert CallOk(h.conns, h.table, h.calls[u]);
        if h.calls[u].Accepting? {
          var f :| f in h.table && h.table[f] == h.calls[u].conn;
          assert h'.table[f] == h.calls[u].conn;
        }
      }
    }
  }

  lemma DataKeeps(c: Config, h: Hooked, t: nat, fd: int, kind: byte, data: seq<byte>)
    requires HookInv(h) && CanStep(c, h, OnData(t, fd, kind, data))
    ensures HookInv(DoStep(c, h, OnData(t, fd, kind, data)))
  {
    hide Connects, Closes, Named;
    var h' := DoStep(c, h, OnData(t, fd, kind, data));
    assert Closings(h'.calls) == Closings(h.calls) by {
      assert forall u :: u in h.calls ==> h'.calls[u] == h.calls[u];
    }
  }

  lemma CloseKeeps(c: Config, h: Hooked, t: nat, fd: int)
    requires HookInv(h) && CanStep(c, h, OnClose(t, fd))
    ensures HookInv(DoStep(c, h, OnClose(t, fd)))
  {
    hide Connects, Closes;
    var h' := DoStep(c, h, OnClose(t, fd));
    var vs := h.conns[h.table[fd]].value;
    assert Closings(h'.calls) == Closings(h.calls) + {vs} by {
      assert forall u :: u in h.calls ==> h'.calls[u] == h.calls[u];
      assert h'.calls[t] == Closing(vs);
    }
    assert vs in Named(h.conns, h.table);
    assert Named(h'.conns, h'.table) == Named(h.conns, h.table) - {vs} by {
      assert forall f :: f in h'.table ==> f in h.table && f != fd && h'.table[f] == h.table[f];
      assert forall f :: f in h.table && f != fd ==> f in h'.table;
    }
    forall u | u in h'.calls ensures CallOk(h'.conns, h'.table, h'.calls[u]) {
      if u != t {
        assert CallOk(h.conns, h.table, h.calls[u]);
        if h.calls[u].Accepting? {
          var f :| f in h.table && h.table[f] == h.calls[u].conn;
          assert h'.table[f] == h.calls[u].conn;
        }
      }
    }
    forall u, v | u in h'.calls && v in h'.calls && u != v && !h'.calls[u].Sending? && !h'.calls[u].Closed?
      ensures h'.calls[u] != h'.calls[v]
    {
      if u == t && h'.calls[v].Closing? { assert h.calls[v].vs in Closings(h.calls); }
      if v == t && h'.calls[u].Closing? { assert h.calls[u].vs in Closings(h.calls); }
    }
  }

  // -------------------------------------------------------------- submissions

  /** The stamp of the next connect has never been named. */
  lemma NewStamp(reqs: seq<Request>, q: Request)
    requires Disciplined(reqs) && |reqs| < U32 - 2 && q.kind == P_TCP_CONNECT && q.clt == StampOf(|reqs|)
    ensures q.clt !in Connects(reqs, |reqs|) && q.clt !in Closes(reqs, |reqs|)
  {
    var reqs' := reqs + [q];
    hide Disciplined, IsConnect;
    DisciplinedNext(reqs, q);
    FreshStamp(reqs', seq(|reqs|, _ => 0), |reqs|, |reqs|);
    assert forall i :: 0 <= i < |reqs| ==> reqs'[i] == reqs[i];
    assert Connects(reqs', |reqs|) == Connects(reqs, |reqs|) && Closes(reqs', |reqs|) == Closes(reqs, |reqs|);
  }

  lemma ClosingsWithout(calls: map<nat, Call>, t: nat)
    requires t in calls && !calls[t].Closing?
    ensures Closings(calls - {t}) == Closings(calls)
  {
    var less := calls - {t};
    forall vs ensures vs in Closings(less) <==> vs in Closings(calls) {
      if vs in Closings(calls) {
        var u :| u in calls && calls[u].Closing? && calls[u].vs == vs;
        assert u in less && less[u] == calls[u];
      }
      if vs in Closings(less) {
        var u :| u in less && less[u].Closing? && less[u].vs == vs;
        assert calls[u] == less[u];
      }
    }
  }

  lemma NamedAdds(conns: seq<Option<ViewStamp>>, table: map<int, nat>, conn: nat, vs: ViewStamp)
    requires conn < |conns| && conns[conn] == None && exists f :: f in table && table[f] == conn
    ensures Named(conns[conn := Some(vs)], table) == Named(conns, table) + {vs}
  {
    var conns' := conns[conn := Some(vs)];
    var f :| f in table && table[f] == conn;
    assert conns'[table[f]].value == vs;
    assert forall g :: g in table && table[g] < |conns| && table[g] != conn ==> conns'[table[g]] == conns[table[g]];
  }

  lemma AcceptedCalls(conns: seq<Option<ViewStamp>>, table: map<int, nat>, calls: map<nat, Call>, t: nat, vs: ViewStamp)
    requires CallsOk(conns, table, calls) && t in calls && calls[t].Accepting? && calls[t].conn < |conns|
    ensures CallsOk(conns[calls[t].conn := Some(vs)], table, calls - {t})
  {
    var conns', less := conns[calls[t].conn := Some(vs)], calls - {t};
    forall u | u in less ensures CallOk(conns', table, less[u]) {
      assert CallOk(conns, table, calls[u]);
      assert less[u] == calls[u] != calls[t];
    }
  }

  lemma AcceptedOpen(h: Hooked, t: nat, q: Request)
    requires HookInv(h) && t in h.calls && h.calls[t].Accepting?
    requires Disciplined(h.s.reqs) && |h.s.reqs| < U32 - 2 && q.kind == P_TCP_CONNECT && q.clt == StampOf(|h.s.reqs|)
    ensures var conn := h.calls[t].conn;
            && conn < |h.conns|
            && var conns, calls := h.conns[conn := Some(q.clt)], h.calls - {t};
               && TableOk(conns, h.table) && CallsOk(conns, h.table, calls)
               && OpenOk(h.s.reqs + [q], conns, h.table, calls)
  {
    hide Connects, Closes, Disciplined, Named, Closings;
    NewStamp(h.s.reqs, q);
    ConnectionsNext(h.s.reqs, q);
    assert CallOk(h.conns, h.table, h.calls[t]);
    NamedAdds(h.conns, h.table, h.calls[t].conn, q.clt);
    ClosingsWithout(h.calls, t);
    AcceptedCalls(h.conns, h.table, h.calls, t, q.clt);
  }

  lemma SentOpen(h: Hooked, t: nat, q: Request)
    requires HookInv(h) && t in h.calls && !h.calls[t].Accepting? && !h.calls[t].Closing?
    requires q.kind != P_TCP_CONNECT && q.kind != P_CLOSE
    ensures CallsOk(h.conns, h.table, h.calls - {t}) && OpenOk(h.s.reqs + [q], h.conns, h.table, h.calls - {t})
  {
    hide Connects, Closes, Named, Closings;
    ConnectionsNext(h.s.reqs, q);
    ClosingsWithout(h.calls, t);
  }

  lemma ClosedOpen(h: Hooked, t: nat, q: Request, prev: nat)
    requires HookInv(h) && t in h.calls && h.calls[t].Closing? && q.kind == P_CLOSE && q.clt == h.calls[t].vs
    ensures var calls := h.calls[t := Closed(prev)];
            CallsOk(h.conns, h.table, calls) && OpenOk(h.s.reqs + [q], h.conns, h.table, calls)
  {
    ConnectionsNext(h.s.reqs, q);
    hide Connects, Closes, Named;
    var calls := h.calls[t := Closed(prev)];
    assert q.clt in Closings(h.calls);
    assert Closings(calls) == Closings(h.calls) - {q.clt} by {
      assert forall u :: u in h.calls && u != t ==> calls[u] == h.calls[u];
    }
  }

  /** A hook submits under its own stamp, or that of a connect. */
  lemma SubmissionKnown(c: Config, h: Hooked, t: nat)
    requires HookInv(h) && t in h.calls
    ensures Submission(h, h.calls[t]).ReserveA? && Known(h.s.reqs, Submission(h, h.calls[t]))
  {
    hide Closes, Named, Connects;
    var call := h.calls[t];
    assert CallOk(h.conns, h.table, call);
    if call.Sending? {
      OpenIsConnect(h.s.reqs, h.conns[call.conn].value);
    } else if call.Closing? {
      assert call.vs in Closings(h.calls);
      OpenIsConnect(h.s.reqs, call.vs);
    }
  }

  lemma SubmitKeeps(c: Config, h: Hooked, t: nat)
    requires HookInv(h) && CanStep(c, h, Submit(t))
    requires Disciplined(h.s.reqs) && |h.s.reqs| < U32 - 2 && h.s.leader.seen == |h.s.reqs|
    ensures HookInv(DoStep(c, h, Submit(t)))
  {
    hide TableOk, CallsOk, OpenOk, Disciplined, Enabled;
    var h' := DoStep(c, h, Submit(t));
    if h.calls[t].Sending? { KindOk(h, t); }
    SubmissionKnown(c, h, t);
    var a := Submission(h, h.calls[t]);
    assert h'.s == Reserve(h.s, a.kind, a.clt, a.data, a.prev);
    var q := h'.s.reqs[|h.s.reqs|];
    assert h'.s.reqs == h.s.reqs + [q];
    match h.calls[t]
    case Accepting(conn) => AcceptedOpen(h, t, q);
    case Sending(conn, kind, data) => SentOpen(h, t, q);
    case Closing(vs) => ClosedOpen(h, t, q, |h.s.reqs| + 1);
    case Closed(prev) => SentOpen(h, t, q);
  }

  lemma KindOk(h: Hooked, t: nat)
    requires HookInv(h) && t in h.calls && h.calls[t].Sending?
    ensures h.calls[t].kind == P_SEND || h.calls[t].kind == P_OUTPUT
  {
    assert CallOk(h.conns, h.table, h.calls[t]);
  }

  // -------------------------------------------------------------------- runs

  lemma StepKeeps(c: Config, h: Hooked, e: Step)
    requires HookInv(h) && CanStep(c, h, e)
    requires Disciplined(h.s.reqs) && |h.s.reqs| < U32 - 2 && h.s.leader.seen == |h.s.reqs|
    ensures HookInv(DoStep(c, h, e))
  {
    hide HookInv, DoStep, Disciplined;
    match e
    case OnAccept(t, fd) => AcceptKeeps(c, h, t, fd);
    case OnData(t, fd, kind, data) => DataKeeps(c, h, t, fd, kind, data);
    case OnClose(t, fd) => CloseKeeps(c, h, t, fd);
    case Submit(t) => SubmitKeeps(c, h, t);
    case Inner(a) => InnerKeeps(c, h, a);
  }

  lemma InnerKeeps(c: Config, h: Hooked, a: Action)
    requires HookInv(h) && CanStep(c, h, Inner(a))
    ensures HookInv(DoStep(c, h, Inner(a)))
  {
    hide TableOk, CallsOk, OpenOk, Enabled, Apply;
    OnlyReserve(c, h.s, a);
  }

  lemma StartKeeps(c: Config)
    ensures HookInv(Start(c))
  {
  }

  ghost function LastOf(run: seq<State>): (s: State)
    requires |run| > 0
  {
    run[|run| - 1]
  }

  lemma ExtendKnown(c: Config, run: seq<State>, a: Action) returns (run': seq<State>)
    requires KnownRun(c, run) && Enabled(c, LastOf(run), a) && Known(LastOf(run).reqs, a)
    ensures KnownRun(c, run') && LastOf(run') == Apply(c, LastOf(run), a)
  {
    run' := run + [Apply(c, LastOf(run), a)];
    hide Enabled, Apply, Known;
    forall i, k | 0 <= i < k == i + 1 < |run'| ensures KnownNext(c, run'[i], run'[k]) {
      assert run'[i] == run[i];
      if k < |run| { assert run'[k] == run[k]; }
    }
  }

  /** A step of the hooks is a step of the protocol with a known stamp, or leaves it
      alone. */
  lemma Projects(c: Config, h: Hooked, e: Step, run: seq<State>) returns (run': seq<State>)
    requires HookInv(h) && CanStep(c, h, e) && KnownRun(c, run) && LastOf(run) == h.s
    ensures KnownRun(c, run') && LastOf(run') == DoStep(c, h, e).s
  {
    hide KnownRun, HookInv, Enabled, Known, LastOf;
    match e
    case Submit(t) =>
      SubmissionKnown(c, h, t);
      run' := ExtendKnown(c, run, Submission(h, h.calls[t]));
    case Inner(a) =>
      InnerKnown(h.s.reqs, a);
      run' := ExtendKnown(c, run, a);
    case _ => run' := run;
  }

  lemma InnerKnown(reqs: seq<Request>, a: Action)
    requires !a.ReserveA?
    ensures Known(reqs, a)
  {
  }

  lemma LastFacts(c: Config, run: seq<State>)
    requires ValidConfig(c) && KnownRun(c, run)
    ensures Disciplined(LastOf(run).reqs) && |LastOf(run).reqs| < U32 - 2
    ensures LastOf(run).leader.seen == |LastOf(run).reqs|
  {
    hide Inv, Disciplined, Run;
    var k := |run| - 1;
    RunDisciplined(c, run, k);
    KnownIsRun(c, run);
    SeenIsNext(c, run, k);
    InvariantHolds(c, run, k);
    VeryFew(c, run[k]);
  }

  lemma VeryFew(c: Config, s: State)
    requires Inv(c, s)
    ensures |s.reqs| < U32 - 2
  {
    hide ThreadsInv, LeaderInv, ReplicaInv, CountedInv;
  }

  /** Every state of the hooks is over a state of a run of the protocol whose requests
      name known connections, and keeps the table right. */
  lemma {:induction false} HooksOverProtocol(c: Config, hooks: seq<Hooked>, k: nat) returns (run: seq<State>)
    requires ValidConfig(c) && HookRun(c, hooks) && k < |hooks|
    ensures KnownRun(c, run) && LastOf(run) == hooks[k].s && HookInv(hooks[k])
  {
    if k == 0 {
      run := [Init(c)];
      StartKeeps(c);
    } else {
      var j := k - 1;
      var run0 := HooksOverProtocol(c, hooks, j);
      assert HookNext(c, hooks[j], hooks[k]);
      var e: Step :| CanStep(c, hooks[j], e) && hooks[k] == DoStep(c, hooks[j], e);
      LastFacts(c, run0);
      StepKeeps(c, hooks[j], e);
      run := Projects(c, hooks[j], e, run0);
    }
  }

  /** Whatever the hooks of any number of threads do, the connections that are open once
      all requests so far are replayed are those in the table and those whose close is
      under way. */
  lemma OpenConnections(c: Config, hooks: seq<Hooked>, k: nat)
    requires ValidConfig(c) && HookRun(c, hooks) && k < |hooks|
    ensures var h := hooks[k];
            Connects(h.s.reqs, |h.s.reqs|) - Closes(h.s.reqs, |h.s.reqs|) == Named(h.conns, h.table) + Closings(h.calls)
  {
    var run := HooksOverProtocol(c, hooks, k);
  }

  /** Over every interleaving of hooks and protocol, with no condition on the requests:
      connections and bytes at a replica are those that the hooks have submitted. */
  lemma ServerSeesServer(c: Config, hooks: seq<Hooked>, k: nat, j: nat, took: seq<nat>)
    requires ValidConfig(c) && HookRun(c, hooks) && k < |hooks| && j < c.group && j != c.leader
    requires j < |hooks[k].s.replicas| ==> |took| == |hooks[k].s.replicas[j].executed|
    ensures j < |hooks[k].s.replicas| && |took| <= |hooks[k].s.reqs|
    ensures ReplayAll(hooks[k].s.replicas[j].executed, took).Some?
    ensures var s, reqs := ReplayAll(hooks[k].s.replicas[j].executed, took).value, hooks[k].s.reqs;
            && Faithful(s, reqs, took, |took|)
            && forall vs :: vs in s.sent ==>
                 (s.sent[vs] == Payloads(reqs, vs, |took|) <==>
                    InFull(reqs, took, vs, |took|) && NoneLate(reqs, vs, |took|))
  {
    hide HookRun, HookInv;
    var run := HooksOverProtocol(c, hooks, k);
    ReplicaSeesLeader(c, run, |run| - 1, j, took);
  }

  // ---------------------------------------------------------- the NOP behind a close

  /** Request `m` is the NOP of the close `k`. */
  predicate IsNopOf(reqs: seq<Request>, k: nat, m: nat)
  {
    k < m < |reqs| && reqs[m].kind == P_NOP && reqs[m].prev == k + 1
  }

  /** The close `k` has its NOP behind it, or the hook has still to submit it. */
  ghost predicate Followed(reqs: seq<Request>, calls: map<nat, Call>, k: nat)
  {
    (exists m :: IsNopOf(reqs, k, m)) || (exists t :: t in calls && calls[t] == Closed(k + 1))
  }

  ghost predicate NopsFollow(h: Hooked)
  {
    forall k :: 0 <= k < |h.s.reqs| && h.s.reqs[k].kind == P_CLOSE ==> Followed(h.s.reqs, h.calls, k)
  }

  lemma FollowedStays(reqs: seq<Request>, calls: map<nat, Call>, reqs': seq<Request>, calls': map<nat, Call>, k: nat)
    requires Followed(reqs, calls, k) && reqs <= reqs'
    requires forall t :: t in calls && calls[t] == Closed(k + 1) ==>
               (t in calls' && calls'[t] == calls[t]) || exists m :: IsNopOf(reqs', k, m)
    ensures Followed(reqs', calls', k)
  {
    if m :| IsNopOf(reqs, k, m) {
      assert IsNopOf(reqs', k, m);
    } else {
      var t :| t in calls && calls[t] == Closed(k + 1);
    }
  }

  lemma SubmitFollows(c: Config, h: Hooked, t: nat)
    requires HookInv(h) && NopsFollow(h) && CanStep(c, h, Submit(t)) && h.s.leader.seen == |h.s.reqs|
    ensures NopsFollow(DoStep(c, h, Submit(t)))
  {
    hide TableOk, OpenOk, Enabled, Followed;
    assert CallOk(h.conns, h.table, h.calls[t]);
    var h', n := DoStep(c, h, Submit(t)), |h.s.reqs|;
    var a := Submission(h, h.calls[t]);
    assert h'.s == Reserve(h.s, a.kind, a.clt, a.data, a.prev);
    forall k | 0 <= k < |h'.s.reqs| && h'.s.reqs[k].kind == P_CLOSE ensures Followed(h'.s.reqs, h'.calls, k) {
      if k < n {
        assert h.calls[t] == Closed(k + 1) ==> IsNopOf(h'.s.reqs, k, n);
        FollowedStays(h.s.reqs, h.calls, h'.s.reqs, h'.calls, k);
      } else {
        assert h'.calls[t] == Closed(k + 1);
        StillToSubmit(h'.s.reqs, h'.calls, k, t);
      }
    }
  }

  lemma StillToSubmit(reqs: seq<Request>, calls: map<nat, Call>, k: nat, t: nat)
    requires t in calls && calls[t] == Closed(k + 1)
    ensures Followed(reqs, calls, k)
  {
  }

  lemma OtherFollows(c: Config, h: Hooked, e: Step)
    requires NopsFollow(h) && CanStep(c, h, e) && !e.Submit?
    ensures NopsFollow(DoStep(c, h, e))
  {
    hide Followed, Enabled, Apply, Ready;
    var h' := DoStep(c, h, e);
    if e.Inner? { OnlyReserve(c, h.s, e.a); }
    forall k | 0 <= k < |h'.s.reqs| && h'.s.reqs[k].kind == P_CLOSE ensures Followed(h'.s.reqs, h'.calls, k) {
      FollowedStays(h.s.reqs, h.calls, h'.s.reqs, h'.calls, k);
    }
  }

  /** In every interleaving, each close is followed by its NOP, or its hook is about to
      submit it. */
  lemma {:induction false} ClosesFollowed(c: Config, hooks: seq<Hooked>, k: nat)
    requires ValidConfig(c) && HookRun(c, hooks) && k < |hooks|
    ensures NopsFollow(hooks[k])
  {
    if k > 0 {
      var j := k - 1;
      ClosesFollowed(c, hooks, j);
      var run := HooksOverProtocol(c, hooks, j);
      LastFacts(c, run);
      assert HookNext(c, hooks[j], hooks[k]);
      var e: Step :| CanStep(c, hooks[j], e) && hooks[k] == DoStep(c, hooks[j], e);
      hide HookRun, HookInv, NopsFollow, CanStep, DoStep, KnownRun, Disciplined;
      if e.Submit? { SubmitFollows(c, hooks[j], e.t); } else { OtherFollows(c, hooks[j], e); }
    }
  }

  /** So a close gets through: a replica that is done with the NOP of a close has executed
      the close. */
  lemma CloseCarried(c: Config, hooks: seq<Hooked>, k: nat, j: nat, i: nat, m: nat)
    requires ValidConfig(c) && HookRun(c, hooks) && k < |hooks| && j < c.group && j != c.leader
    requires |hooks[k].s.replicas| == c.group && IsNopOf(hooks[k].s.reqs, i, m)
    requires m < hooks[k].s.replicas[j].accepted && hooks[k].s.replicas[j].work.Polling?
    ensures i < |hooks[k].s.replicas[j].executed|
    ensures hooks[k].s.replicas[j].executed[i] == Execution(Key(i), Some(RecordOf(hooks[k].s.reqs[i])))
  {
    hide HookRun, HookInv, KnownRun, Run, LeaderOrder;
    var run := HooksOverProtocol(c, hooks, k);
    KnownIsRun(c, run);
    PredecessorExecuted(c, run, |run| - 1, j, m);
    ExecutesLeaderOrder(c, run, |run| - 1, j);
    OrderAt(hooks[k].s.reqs, i);
  }

  lemma OrderAt(reqs: seq<Request>, i: nat)
    requires i < |reqs|
    ensures i < |LeaderOrder(reqs)| && LeaderOrder(reqs)[i] == Execution(Key(i), Some(RecordOf(reqs[i])))
  {
  }
}
