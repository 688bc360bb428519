/** What the leader's server reads against what the server of a replica gets.  Between
    the look-up of a descriptor and the submission of the bytes, another thread may
    submit bytes of the same connection, or its close. */
module HookReads {
  import opened Options
  import opened Bytes
  import opened ViewStamps
  import opened Consensus
  import opened Replay
  import opened Hooks

  // ------------------------------------------------------------------- pending reads

  function Joined(queue: seq<Pending>): (s: seq<byte>)
  {
    if |queue| == 0 then [] else queue[0].data + Joined(queue[1..])
  }

  /** It does not matter which of the two comes first. */
  predicate Commute(a: seq<byte>, b: seq<byte>)
  {
    a + b == b + a
  }

  lemma {:induction false} JoinedAppend(queue: seq<Pending>, p: Pending)
    ensures Joined(queue + [p]) == Joined(queue) + p.data
  {
    if |queue| == 0 {
      assert queue + [p] == [p];
    } else {
      JoinedAppend(queue[1..], p);
      assert (queue + [p])[1..] == queue[1..] + [p];
    }
  }

  /** Read `i` of the queue is the one of thread `t`. */
  predicate IsRead(queue: seq<Pending>, t: nat, i: nat)
  {
    i < |queue| && queue[i].thread == t && forall k :: 0 <= k < i ==> queue[k].thread != t
  }

  lemma {:induction false} WithoutOne(queue: seq<Pending>, t: nat, i: nat)
    requires IsRead(queue, t, i)
    ensures Without(queue, t) == queue[..i] + queue[i + 1..]
  {
    if i > 0 {
      WithoutOne(queue[1..], t, i - 1);
      assert queue[..i] == [queue[0]] + queue[1..][..i - 1] && queue[1..][i..] == queue[i + 1..];
    }
  }

  /** Taking a read out of the queue takes its bytes out, and puts them in front if all
      earlier ones commute with them. */
  lemma {:induction false} JoinedWithout(queue: seq<Pending>, t: nat, i: nat)
    requires IsRead(queue, t, i)
    ensures |Joined(queue)| == |queue[i].data| + |Joined(Without(queue, t))|
    ensures (forall k :: 0 <= k < i ==> Commute(queue[k].data, queue[i].data)) ==>
              Joined(queue) == queue[i].data + Joined(Without(queue, t))
  {
    if i > 0 {
      var a, d, rest := queue[0].data, queue[i].data, Without(queue[1..], t);
      JoinedWithout(queue[1..], t, i - 1);
      assert ([queue[0]] + rest)[1..] == rest;
      if forall k :: 0 <= k < i ==> Commute(queue[k].data, queue[i].data) {
        assert a + d == d + a by { assert Commute(queue[0].data, queue[i].data); }
        assert forall k :: 0 <= k < i - 1 ==> queue[1..][k] == queue[k + 1];
        assert a + (d + Joined(rest)) == (a + d) + Joined(rest);
        assert d + (a + Joined(rest)) == (d + a) + Joined(rest);
      }
    }
  }

  // ------------------------------------------------------------- what every run keeps

  /** The queue of a connection has exactly the reads that threads have to submit. */
  ghost predicate QueueOk(calls: map<nat, Call>, conn: nat, queue: seq<Pending>)
  {
    && (forall i :: 0 <= i < |queue| ==>
          queue[i].thread in calls && calls[queue[i].thread] == Sending(conn, P_SEND, queue[i].data))
    && (forall i, k :: 0 <= i < k < |queue| ==> queue[i].thread != queue[k].thread)
  }

  /** A call that has looked its connection up, which had returned by then. */
  ghost predicate CallReady(s: State, conns: seq<Option<ViewStamp>>, call: Call)
  {
    && (call.Sending? ==> call.conn < |conns| && conns[call.conn].Some? && CallerReady(s, conns[call.conn].value.req))
    && (call.Closing? ==> CallerReady(s, call.vs.req))
  }

  ghost predicate InQueue(queues: seq<seq<Pending>>, t: nat, call: Call)
  {
    call.Sending? && call.kind == P_SEND ==> call.conn < |queues| && Pending(t, call.data) in queues[call.conn]
  }

  /** No byte is made up: what is submitted and what is to be submitted is as much as
      has been read. */
  ghost predicate SizeOk(reqs: seq<Request>, stamp: Option<ViewStamp>, read: seq<byte>, queue: seq<Pending>)
  {
    match stamp
    case None => read == [] && queue == []
    case Some(vs) => |Payloads(reqs, vs, |reqs|)| + |Joined(queue)| == |read|
  }

  ghost predicate CallsKept(h: Hooked)
  {
    forall t :: t in h.calls ==> CallReady(h.s, h.conns, h.calls[t]) && InQueue(h.queues, t, h.calls[t])
  }

  ghost predicate ReadsKept(h: Hooked)
  {
    && |h.input| == |h.queues| == |h.conns|
    && forall i :: 0 <= i < |h.conns| ==>
         QueueOk(h.calls, i, h.queues[i]) && SizeOk(h.s.reqs, h.conns[i], h.input[i], h.queues[i])
  }

  ghost predicate ReadInv(h: Hooked)
  {
    CallsKept(h) && ReadsKept(h)
  }

  // ------------------------------------------------------------------------ requests

  lemma {:induction false} PayloadsPrefix(reqs: seq<Request>, more: seq<Request>, vs: ViewStamp, n: nat)
    requires n <= |reqs| && reqs <= more
    ensures Payloads(more, vs, n) == Payloads(reqs, vs, n)
  {
    if n > 0 { PayloadsPrefix(reqs, more, vs, n - 1); }
  }

  lemma {:induction false} PayloadsGrow(reqs: seq<Request>, vs: ViewStamp, n: nat, m: nat)
    requires n <= m <= |reqs|
    ensures Payloads(reqs, vs, n) <= Payloads(reqs, vs, m)
    decreases m
  {
    if n < m { PayloadsGrow(reqs, vs, n, m - 1); }
  }

  lemma PayloadsNext(reqs: seq<Request>, q: Request, vs: ViewStamp)
    ensures Payloads(reqs + [q], vs, |reqs| + 1) ==
              Payloads(reqs, vs, |reqs|) + if q.kind == P_SEND && q.clt == vs then q.data else []
  {
    PayloadsPrefix(reqs, reqs + [q], vs, |reqs|);
  }

  lemma ClosesPrefix(reqs: seq<Request>, more: seq<Request>, n: nat)
    requires n <= |reqs| && reqs <= more
    ensures Closes(more, n) == Closes(reqs, n)
  {
  }

  lemma NoneLateNext(reqs: seq<Request>, q: Request, vs: ViewStamp)
    ensures NoneLate(reqs + [q], vs, |reqs| + 1) <==>
              NoneLate(reqs, vs, |reqs|) &&
              (q.kind == P_SEND && q.clt == vs && q.data != [] ==> vs !in Closes(reqs, |reqs|))
  {
    var more, n := reqs + [q], |reqs|;
    forall i | 0 <= i <= n ensures Closes(more, i) == Closes(reqs, i) { ClosesPrefix(reqs, more, i); }
    hide Closes;
    assert forall i :: 0 <= i < n ==> more[i] == reqs[i];
    if NoneLate(more, vs, n + 1) {
      forall i | 0 <= i < n && SendsOn(reqs, vs, i) && reqs[i].data != [] ensures vs !in Closes(reqs, i) {
        assert SendsOn(more, vs, i);
      }
      assert SendsOn(more, vs, n) <==> q.kind == P_SEND && q.clt == vs;
    }
  }

  lemma {:induction false} NothingSent(reqs: seq<Request>, vs: ViewStamp, n: nat)
    requires n <= |reqs| && Payloads(reqs, vs, n) == []
    ensures NoneLate(reqs, vs, n)
  {
    forall i | 0 <= i < n && SendsOn(reqs, vs, i) ensures reqs[i].data == [] {
      PayloadsGrow(reqs, vs, i + 1, n);
    }
  }

  lemma NewConnection(reqs: seq<Request>, q: Request)
    requires Disciplined(reqs) && |reqs| < U32 - 2 && q.kind == P_TCP_CONNECT && q.clt == StampOf(|reqs|)
    ensures Payloads(reqs, q.clt, |reqs|) == []
  {
    var more := reqs + [q];
    hide Disciplined, IsConnect;
    DisciplinedNext(reqs, q);
    FreshStamp(more, seq(|reqs|, _ => 0), |reqs|, |reqs|);
    PayloadsPrefix(reqs, more, q.clt, |reqs|);
  }

  /** A connect that has returned stays so. */
  lemma ReadyStays(c: Config, s: State, a: Action, prev: nat)
    requires Enabled(c, s, a) && CallerReady(s, prev)
    ensures CallerReady(Apply(c, s, a), prev)
  {
    hide Write;
  }

  // ----------------------------------------------------------------- order and loss

  /** What is submitted and what is to be submitted are the bytes read, in order, and
      nothing is behind the close. */
  ghost predicate InOrder(reqs: seq<Request>, vs: ViewStamp, read: seq<byte>, queue: seq<Pending>)
  {
    Payloads(reqs, vs, |reqs|) + Joined(queue) == read && NoneLate(reqs, vs, |reqs|)
  }

  ghost predicate AllInOrder(h: Hooked)
  {
    |h.input| == |h.queues| == |h.conns| && forall i :: 0 <= i < |h.conns| && h.conns[i].Some? ==>
      InOrder(h.s.reqs, h.conns[i].value, h.input[i], h.queues[i])
  }

  /** A request that is no send on a connection leaves it alone. */
  lemma OtherRequest(reqs: seq<Request>, q: Request, stamp: Option<ViewStamp>, read: seq<byte>, queue: seq<Pending>)
    requires q.kind != P_SEND || stamp != Some(q.clt)
    ensures SizeOk(reqs, stamp, read, queue) ==> SizeOk(reqs + [q], stamp, read, queue)
    ensures stamp.Some? && InOrder(reqs, stamp.value, read, queue) ==> InOrder(reqs + [q], stamp.value, read, queue)
  {
    hide Payloads, NoneLate;
    if stamp.Some? {
      PayloadsNext(reqs, q, stamp.value);
      NoneLateNext(reqs, q, stamp.value);
    }
  }

  /** A send moves its bytes from the queue to the requests, in order if it commutes with
      the reads before it and is not late. */
  lemma OwnRequest(reqs: seq<Request>, q: Request, read: seq<byte>, queue: seq<Pending>, t: nat, i: nat)
    requires q.kind == P_SEND && IsRead(queue, t, i) && queue[i].data == q.data
    ensures SizeOk(reqs, Some(q.clt), read, queue) ==> SizeOk(reqs + [q], Some(q.clt), read, Without(queue, t))
    ensures InOrder(reqs, q.clt, read, queue) && (forall k :: 0 <= k < i ==> Commute(queue[k].data, queue[i].data))
            && (q.data != [] ==> q.clt !in Closes(reqs, |reqs|)) ==>
              InOrder(reqs + [q], q.clt, read, Without(queue, t))
  {
    hide Payloads, NoneLate, Joined, Without, Closes;
    PayloadsNext(reqs, q, q.clt);
    NoneLateNext(reqs, q, q.clt);
    JoinedWithout(queue, t, i);
    var p, d, rest := Payloads(reqs, q.clt, |reqs|), q.data, Joined(Without(queue, t));
    assert p + (d + rest) == (p + d) + rest;
  }

  lemma OthersStay(queue: seq<Pending>, t: nat, i: nat)
    requires IsRead(queue, t, i)
    ensures |Without(queue, t)| == |queue| - 1
    ensures forall k :: 0 <= k < |queue| - 1 ==> Without(queue, t)[k] == queue[if k < i then k else k + 1]
    ensures forall k :: 0 <= k < |queue| && k != i ==> queue[k] in Without(queue, t)
  {
    hide Without;
    WithoutOne(queue, t, i);
    var q := Without(queue, t);
    forall k | 0 <= k < |queue| && k != i ensures queue[k] in q {
      assert queue[k] == q[if k < i then k else k - 1];
    }
  }

  lemma QueueWithout(calls: map<nat, Call>, conn: nat, queue: seq<Pending>, t: nat, i: nat)
    requires QueueOk(calls, conn, queue) && IsRead(queue, t, i)
    ensures QueueOk(calls - {t}, conn, Without(queue, t))
    ensures forall p :: p in queue && p.thread != t ==> p in Without(queue, t)
  {
    hide Without;
    OthersStay(queue, t, i);
    var q := Without(queue, t);
    forall k | 0 <= k < |q|
      ensures q[k].thread in calls - {t} && (calls - {t})[q[k].thread] == Sending(conn, P_SEND, q[k].data)
    {
      var m := if k < i then k else k + 1;
      assert queue[m].thread != queue[i].thread;
    }
  }

  predicate SendsFor(call: Call, conn: nat)
  {
    call.Sending? && call.kind == P_SEND && call.conn == conn
  }

  /** Calls of other threads come and go. */
  lemma QueueFrame(calls: map<nat, Call>, calls': map<nat, Call>, conn: nat, queue: seq<Pending>, t: nat)
    requires QueueOk(calls, conn, queue) && (t in calls ==> !SendsFor(calls[t], conn))
    requires forall u :: u in calls && u != t ==> u in calls' && calls'[u] == calls[u]
    ensures QueueOk(calls', conn, queue)
  {
  }

  // ------------------------------------------------------------------------- steps

  lemma AcceptReads(c: Config, h: Hooked, t: nat, fd: int)
    requires ReadInv(h) && CanStep(c, h, OnAccept(t, fd))
    ensures var h' := DoStep(c, h, OnAccept(t, fd));
            ReadInv(h') && (AllInOrder(h) ==> AllInOrder(h'))
  {
    hide SizeOk, QueueOk, InOrder, CallerReady;
    var h' := DoStep(c, h, OnAccept(t, fd));
    forall i | 0 <= i < |h'.conns|
      ensures QueueOk(h'.calls, i, h'.queues[i]) && SizeOk(h'.s.reqs, h'.conns[i], h'.input[i], h'.queues[i])
    {
      if i < |h.conns| {
        QueueFrame(h.calls, h'.calls, i, h.queues[i], t);
      } else {
        NewQueue(h'.calls, h'.s.reqs, i);
      }
    }
    forall u | u in h'.calls
      ensures CallReady(h'.s, h'.conns, h'.calls[u]) && InQueue(h'.queues, u, h'.calls[u])
    {
      if u != t { assert CallReady(h.s, h.conns, h.calls[u]) && InQueue(h.queues, u, h.calls[u]); }
    }
  }

  lemma NewQueue(calls: map<nat, Call>, reqs: seq<Request>, conn: nat)
    ensures QueueOk(calls, conn, []) && SizeOk(reqs, None, [], [])
  {
  }

  lemma CloseReads(c: Config, h: Hooked, t: nat, fd: int)
    requires ReadInv(h) && CanStep(c, h, OnClose(t, fd))
    ensures var h' := DoStep(c, h, OnClose(t, fd));
            ReadInv(h') && (AllInOrder(h) ==> AllInOrder(h'))
  {
    hide SizeOk, QueueOk, InOrder, CallerReady;
    var h' := DoStep(c, h, OnClose(t, fd));
    forall i | 0 <= i < |h'.conns| ensures QueueOk(h'.calls, i, h'.queues[i]) {
      QueueFrame(h.calls, h'.calls, i, h.queues[i], t);
    }
  }

  /** A read grows the input and the queue alike. */
  lemma ReadOne(reqs: seq<Request>, vs: ViewStamp, read: seq<byte>, queue: seq<Pending>, p: Pending)
    ensures SizeOk(reqs, Some(vs), read, queue) ==> SizeOk(reqs, Some(vs), read + p.data, queue + [p])
    ensures InOrder(reqs, vs, read, queue) ==> InOrder(reqs, vs, read + p.data, queue + [p])
  {
    hide Payloads, NoneLate, Joined;
    JoinedAppend(queue, p);
    assert Payloads(reqs, vs, |reqs|) + (Joined(queue) + p.data) == Payloads(reqs, vs, |reqs|) + Joined(queue) + p.data;
  }

  lemma QueueRead(calls: map<nat, Call>, calls': map<nat, Call>, conn: nat, queue: seq<Pending>, p: Pending)
    requires QueueOk(calls, conn, queue) && p.thread !in calls
    requires calls' == calls[p.thread := Sending(conn, P_SEND, p.data)]
    ensures QueueOk(calls', conn, queue + [p])
  {
  }

  lemma DataReads(c: Config, h: Hooked, t: nat, fd: int, kind: byte, data: seq<byte>)
    requires ReadInv(h) && CanStep(c, h, OnData(t, fd, kind, data))
    ensures var h' := DoStep(c, h, OnData(t, fd, kind, data));
            ReadInv(h') && (AllInOrder(h) ==> AllInOrder(h'))
  {
    hide SizeOk, QueueOk, InOrder, CallerReady;
    var h', conn := DoStep(c, h, OnData(t, fd, kind, data)), h.table[fd];
    var p, vs := Pending(t, data), h.conns[conn].value;
    ReadOne(h.s.reqs, vs, h.input[conn], h.queues[conn], p);
    forall i | 0 <= i < |h'.conns|
      ensures QueueOk(h'.calls, i, h'.queues[i]) && SizeOk(h'.s.reqs, h'.conns[i], h'.input[i], h'.queues[i])
    {
      if i == conn && kind == P_SEND {
        QueueRead(h.calls, h'.calls, conn, h.queues[conn], p);
      } else {
        QueueFrame(h.calls, h'.calls, i, h.queues[i], t);
      }
    }
    forall u | u in h'.calls
      ensures CallReady(h'.s, h'.conns, h'.calls[u]) && InQueue(h'.queues, u, h'.calls[u])
    {
      if u != t {
        assert CallReady(h.s, h.conns, h.calls[u]) && InQueue(h.queues, u, h.calls[u]);
      } else if kind == P_SEND {
        assert h'.queues[conn][|h.queues[conn]|] == p;
      }
    }
  }

  lemma InnerReads(c: Config, h: Hooked, a: Action)
    requires ReadInv(h) && CanStep(c, h, Inner(a))
    ensures var h' := DoStep(c, h, Inner(a));
            ReadInv(h') && (AllInOrder(h) ==> AllInOrder(h'))
  {
    hide SizeOk, QueueOk, InOrder, CallerReady, Enabled, Apply;
    var h' := DoStep(c, h, Inner(a));
    OnlyReserve(c, h.s, a);
    forall u | u in h'.calls ensures CallReady(h'.s, h'.conns, h'.calls[u]) {
      CallStays(c, h.s, a, h.conns, h.calls[u]);
    }
  }

  lemma CallStays(c: Config, s: State, a: Action, conns: seq<Option<ViewStamp>>, call: Call)
    requires Enabled(c, s, a) && CallReady(s, conns, call)
    ensures CallReady(Apply(c, s, a), conns, call)
  {
    hide CallerReady, Enabled, Apply;
    if call.Sending? { ReadyStays(c, s, a, conns[call.conn].value.req); }
    if call.Closing? { ReadyStays(c, s, a, call.vs.req); }
  }

  // ------------------------------------------------------------------- calm states

  ghost predicate Attached(table: map<int, nat>, conn: nat)
  {
    exists fd :: fd in table && table[fd] == conn
  }

  /** While bytes of a connection are to be submitted its close has not been looked up,
      and reads that are under way together commute. */
  ghost predicate CalmQueue(table: map<int, nat>, conn: nat, queue: seq<Pending>)
  {
    && (forall i :: 0 <= i < |queue| && queue[i].data != [] ==> Attached(table, conn))
    && (forall i, k :: 0 <= i < k < |queue| ==> Commute(queue[i].data, queue[k].data))
  }

  ghost predicate Calm(h: Hooked)
  {
    forall i :: 0 <= i < |h.queues| ==> CalmQueue(h.table, i, h.queues[i])
  }

  /** A connection in the table is not closed. */
  lemma AttachedOpen(h: Hooked, conn: nat)
    requires HookInv(h) && conn < |h.conns| && h.conns[conn].Some? && Attached(h.table, conn)
    ensures h.conns[conn].value !in Closes(h.s.reqs, |h.s.reqs|)
  {
    hide Connects, Closes;
    var fd :| fd in h.table && h.table[fd] == conn;
    assert h.conns[conn].value in Named(h.conns, h.table);
  }

  // -------------------------------------------------------------------- submissions

  /** What a submission adds to the requests. */
  lemma Submitted(c: Config, h: Hooked, t: nat) returns (q: Request)
    requires HookInv(h) && CanStep(c, h, Submit(t)) && h.s.leader.seen == |h.s.reqs|
    ensures DoStep(c, h, Submit(t)).s.reqs == h.s.reqs + [q]
    ensures match h.calls[t]
            case Accepting(conn) => q.kind == P_TCP_CONNECT && q.clt == StampOf(|h.s.reqs|)
            case Sending(conn, kind, data) =>
              && kind in {P_SEND, P_OUTPUT} && conn < |h.conns| && h.conns[conn].Some?
              && q.kind == kind && q.clt == h.conns[conn].value && q.data == data
            case Closing(vs) => q.kind == P_CLOSE && q.clt == vs
            case Closed(prev) => q.kind == P_NOP
  {
    hide TableOk, OpenOk, Enabled;
    assert CallOk(h.conns, h.table, h.calls[t]);
    var a := Submission(h, h.calls[t]);
    q := Reserve(h.s, a.kind, a.clt, a.data, a.prev).reqs[|h.s.reqs|];
  }

  /** The calls of the other threads. */
  lemma OthersReady(c: Config, h: Hooked, t: nat, u: nat, conns: seq<Option<ViewStamp>>)
    requires CallsKept(h) && CanStep(c, h, Submit(t)) && u in h.calls && |conns| == |h.conns|
    requires forall i :: 0 <= i < |conns| && h.conns[i].Some? ==> conns[i] == h.conns[i]
    ensures CallReady(DoStep(c, h, Submit(t)).s, conns, h.calls[u])
  {
    hide CallerReady, Enabled, Apply;
    CallStays(c, h.s, Submission(h, h.calls[t]), h.conns, h.calls[u]);
  }

  lemma SubmitAccept(c: Config, h: Hooked, t: nat)
    requires HookInv(h) && ReadInv(h) && CanStep(c, h, Submit(t)) && h.calls[t].Accepting?
    requires Disciplined(h.s.reqs) && |h.s.reqs| < U32 - 2 && h.s.leader.seen == |h.s.reqs|
    ensures var h' := DoStep(c, h, Submit(t));
            ReadInv(h') && (AllInOrder(h) ==> AllInOrder(h'))
  {
    hide SizeOk, QueueOk, InOrder, CallerReady, Enabled, Apply, Disciplined, OpenOk, TableOk;
    var q := Submitted(c, h, t);
    var h', conn := DoStep(c, h, Submit(t)), h.calls[t].conn;
    assert CallOk(h.conns, h.table, h.calls[t]);
    FirstSize(h.s.reqs, q, h.input[conn], h.queues[conn]);
    forall i | 0 <= i < |h'.conns|
      ensures QueueOk(h'.calls, i, h'.queues[i]) && SizeOk(h'.s.reqs, h'.conns[i], h'.input[i], h'.queues[i])
      ensures AllInOrder(h) && h'.conns[i].Some? ==> InOrder(h'.s.reqs, h'.conns[i].value, h'.input[i], h'.queues[i])
    {
      QueueFrame(h.calls, h'.calls, i, h.queues[i], t);
      OtherRequest(h.s.reqs, q, h.conns[i], h.input[i], h.queues[i]);
    }
    forall u | u in h'.calls
      ensures CallReady(h'.s, h'.conns, h'.calls[u]) && InQueue(h'.queues, u, h'.calls[u])
    {
      OthersReady(c, h, t, u, h'.conns);
      assert InQueue(h.queues, u, h.calls[u]);
    }
  }

  lemma FirstSize(reqs: seq<Request>, q: Request, read: seq<byte>, queue: seq<Pending>)
    requires Disciplined(reqs) && |reqs| < U32 - 2 && q.kind == P_TCP_CONNECT && q.clt == StampOf(|reqs|)
    requires SizeOk(reqs, None, read, queue)
    ensures SizeOk(reqs + [q], Some(q.clt), read, queue) && InOrder(reqs + [q], q.clt, read, queue)
  {
    hide Disciplined, Payloads, NoneLate;
    NewConnection(reqs, q);
    PayloadsNext(reqs, q, q.clt);
    NothingSent(reqs + [q], q.clt, |reqs| + 1);
  }

  lemma ReadPosition(calls: map<nat, Call>, conn: nat, queue: seq<Pending>, t: nat, data: seq<byte>) returns (i: nat)
    requires QueueOk(calls, conn, queue) && Pending(t, data) in queue
    ensures IsRead(queue, t, i) && queue[i].data == data
  {
    i :| 0 <= i < |queue| && queue[i] == Pending(t, data);
    assert forall k :: 0 <= k < i ==> queue[k].thread != queue[i].thread;
  }

  lemma SubmitSend(c: Config, h: Hooked, t: nat)
    requires HookInv(h) && ReadInv(h) && CanStep(c, h, Submit(t)) && h.s.leader.seen == |h.s.reqs|
    requires h.calls[t].Sending? && h.calls[t].kind == P_SEND
    ensures var h' := DoStep(c, h, Submit(t));
            ReadInv(h') && (AllInOrder(h) && Calm(h) ==> AllInOrder(h'))
  {
    hide SizeOk, QueueOk, InOrder, CallerReady, Enabled, Apply, OpenOk, Without, Closes, CallOk;
    var q := Submitted(c, h, t);
    var h', conn := DoStep(c, h, Submit(t)), h.calls[t].conn;
    assert InQueue(h.queues, t, h.calls[t]);
    var at := ReadPosition(h.calls, conn, h.queues[conn], t, q.data);
    QueueWithout(h.calls, conn, h.queues[conn], t, at);
    OwnRequest(h.s.reqs, q, h.input[conn], h.queues[conn], t, at);
    if Calm(h) { CalmSend(h, conn, at); }
    forall i | 0 <= i < |h'.conns|
      ensures QueueOk(h'.calls, i, h'.queues[i]) && SizeOk(h'.s.reqs, h'.conns[i], h'.input[i], h'.queues[i])
      ensures AllInOrder(h) && Calm(h) && h'.conns[i].Some? ==>
                InOrder(h'.s.reqs, h'.conns[i].value, h'.input[i], h'.queues[i])
    {
      if i != conn {
        QueueFrame(h.calls, h'.calls, i, h.queues[i], t);
        StampsApart(h, i, conn);
        OtherRequest(h.s.reqs, q, h.conns[i], h.input[i], h.queues[i]);
      }
    }
    forall u | u in h'.calls
      ensures CallReady(h'.s, h'.conns, h'.calls[u]) && InQueue(h'.queues, u, h'.calls[u])
    {
      OthersReady(c, h, t, u, h'.conns);
      assert InQueue(h.queues, u, h.calls[u]);
    }
  }

  lemma StampsApart(h: Hooked, i: nat, k: nat)
    requires HookInv(h) && i < |h.conns| && k < |h.conns| && i != k && h.conns[k].Some?
    ensures h.conns[i] != h.conns[k]
  {
    hide CallsOk, OpenOk;
  }

  lemma CalmSend(h: Hooked, conn: nat, at: nat)
    requires HookInv(h) && Calm(h) && conn < |h.conns| && conn < |h.queues| && h.conns[conn].Some?
    requires at < |h.queues[conn]|
    ensures forall k :: 0 <= k < at ==> Commute(h.queues[conn][k].data, h.queues[conn][at].data)
    ensures h.queues[conn][at].data != [] ==> h.conns[conn].value !in Closes(h.s.reqs, |h.s.reqs|)
  {
    hide HookInv, Commute, Attached, Closes;
    assert CalmQueue(h.table, conn, h.queues[conn]);
    if h.queues[conn][at].data != [] { AttachedOpen(h, conn); }
  }

  /** A submission that is neither a connect nor a send. */
  lemma SubmitOther(c: Config, h: Hooked, t: nat)
    requires HookInv(h) && ReadInv(h) && CanStep(c, h, Submit(t)) && h.s.leader.seen == |h.s.reqs|
    requires !h.calls[t].Accepting? && (h.calls[t].Sending? ==> h.calls[t].kind != P_SEND)
    ensures var h' := DoStep(c, h, Submit(t));
            ReadInv(h') && (AllInOrder(h) ==> AllInOrder(h'))
  {
    hide SizeOk, QueueOk, InOrder, CallerReady, Enabled, Apply, OpenOk, TableOk, CallOk;
    var q := Submitted(c, h, t);
    var h' := DoStep(c, h, Submit(t));
    forall i | 0 <= i < |h'.conns|
      ensures QueueOk(h'.calls, i, h'.queues[i]) && SizeOk(h'.s.reqs, h'.conns[i], h'.input[i], h'.queues[i])
      ensures AllInOrder(h) && h'.conns[i].Some? ==> InOrder(h'.s.reqs, h'.conns[i].value, h'.input[i], h'.queues[i])
    {
      QueueFrame(h.calls, h'.calls, i, h.queues[i], t);
      OtherRequest(h.s.reqs, q, h.conns[i], h.input[i], h.queues[i]);
    }
    forall u | u in h'.calls
      ensures CallReady(h'.s, h'.conns, h'.calls[u]) && InQueue(h'.queues, u, h'.calls[u])
    {
      if u != t {
        OthersReady(c, h, t, u, h'.conns);
        assert InQueue(h.queues, u, h.calls[u]);
      }
    }
  }

  lemma StepReads(c: Config, h: Hooked, e: Step)
    requires HookInv(h) && ReadInv(h) && CanStep(c, h, e)
    requires Disciplined(h.s.reqs) && |h.s.reqs| < U32 - 2 && h.s.leader.seen == |h.s.reqs|
    ensures var h' := DoStep(c, h, e);
            ReadInv(h') && (AllInOrder(h) && Calm(h) ==> AllInOrder(h'))
  {
    hide HookInv, ReadInv, DoStep, Disciplined, AllInOrder, Calm;
    match e
    case OnAccept(t, fd) => AcceptReads(c, h, t, fd);
    case OnData(t, fd, kind, data) => DataReads(c, h, t, fd, kind, data);
    case OnClose(t, fd) => CloseReads(c, h, t, fd);
    case Submit(t) =>
      if h.calls[t].Accepting? {
        SubmitAccept(c, h, t);
      } else if h.calls[t].Sending? && h.calls[t].kind == P_SEND {
        SubmitSend(c, h, t);
      } else {
        SubmitOther(c, h, t);
      }
    case Inner(a) => InnerReads(c, h, a);
  }

  // -------------------------------------------------------------------------- runs

  ghost predicate Sound(h: Hooked)
  {
    Disciplined(h.s.reqs) && |h.s.reqs| < U32 - 2 && h.s.leader.seen == |h.s.reqs|
  }

  lemma StartReads(c: Config)
    ensures ReadInv(Start(c)) && AllInOrder(Start(c))
  {
  }

  /** No run makes bytes up; one whose states are calm submits what is read in order, and
      before the close. */
  lemma {:induction false} ReadsHold(c: Config, hooks: seq<Hooked>, k: nat)
    requires ValidConfig(c) && HookRun(c, hooks) && k < |hooks|
    ensures HookInv(hooks[k]) && ReadInv(hooks[k]) && Sound(hooks[k])
    ensures (forall i :: 0 <= i < k ==> Calm(hooks[i])) ==> AllInOrder(hooks[k])
  {
    var run := HooksOverProtocol(c, hooks, k);
    LastFacts(c, run);
    if k == 0 {
      StartReads(c);
    } else {
      var j := k - 1;
      ReadsHold(c, hooks, j);
      assert HookNext(c, hooks[j], hooks[k]);
      var e: Step :| CanStep(c, hooks[j], e) && hooks[k] == DoStep(c, hooks[j], e);
      hide HookRun, HookNext, HookInv, ReadInv, AllInOrder, Calm, KnownRun, Disciplined;
      StepReads(c, hooks[j], e);
    }
  }

  /** End to end, from the reads of the leader's server to the server of a replica.  In a
      run whose states are calm, writes that are taken in full give it the bytes read on
      each connection, in order; and all of them once it has executed all requests and
      no read is under way. */
  lemma CalmSuffices(c: Config, hooks: seq<Hooked>, k: nat, j: nat, took: seq<nat>, conn: nat)
    requires ValidConfig(c) && HookRun(c, hooks) && k < |hooks| && j < c.group && j != c.leader
    requires j < |hooks[k].s.replicas| ==> |took| == |hooks[k].s.replicas[j].executed|
    requires forall i :: 0 <= i < k ==> Calm(hooks[i])
    requires conn < |hooks[k].conns| && hooks[k].conns[conn].Some?
    ensures j < |hooks[k].s.replicas| && |took| <= |hooks[k].s.reqs|
    ensures |hooks[k].input| == |hooks[k].queues| == |hooks[k].conns|
    ensures ReplayAll(hooks[k].s.replicas[j].executed, took).Some?
    ensures var s, reqs := ReplayAll(hooks[k].s.replicas[j].executed, took).value, hooks[k].s.reqs;
            var vs, read, queue := hooks[k].conns[conn].value, hooks[k].input[conn], hooks[k].queues[conn];
            vs in s.sent ==>
              && (InFull(reqs, took, vs, |took|) ==> s.sent[vs] <= read)
              && (|took| == |reqs| && queue == [] ==> (s.sent[vs] == read <==> InFull(reqs, took, vs, |took|)))
  {
    hide HookRun, HookInv, ReadInv, Calm, InFull, NoneLate, Payloads, Faithful, Sound;
    ReadsHold(c, hooks, k);
    ServerSeesServer(c, hooks, k, j, took);
    var h := hooks[k];
    var vs := h.conns[conn].value;
    assert InOrder(h.s.reqs, vs, h.input[conn], h.queues[conn]);
    NoneLatePrefix(h.s.reqs, h.s.reqs, vs, |took|);
    PayloadsGrow(h.s.reqs, vs, |took|, |h.s.reqs|);
  }

  lemma NoneLatePrefix(reqs: seq<Request>, more: seq<Request>, vs: ViewStamp, n: nat)
    requires reqs <= more && n <= |reqs| && NoneLate(more, vs, |more|)
    ensures NoneLate(reqs, vs, n)
  {
    forall i | 0 <= i < n && SendsOn(reqs, vs, i) && reqs[i].data != [] ensures vs !in Closes(reqs, i) {
      assert SendsOn(more, vs, i);
      ClosesPrefix(reqs, more, i);
    }
  }
}
