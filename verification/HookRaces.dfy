/** Where the bytes of a connection get lost or out of order: every state that is not
    calm can go on to one from which the server of no replica ever gets what the
    leader's server has read. */
module HookRaces {
  import opened Options
  import opened Bytes
  import opened ViewStamps
  import opened EntryLayout
  import opened Consensus
  import opened Replay
  import opened Hooks
  import opened HookReads

  ghost function Last(hooks: seq<Hooked>): (h: Hooked)
    requires |hooks| > 0
  {
    hooks[|hooks| - 1]
  }

  lemma Extend(c: Config, hooks: seq<Hooked>, e: Step) returns (hooks': seq<Hooked>)
    requires HookRun(c, hooks) && CanStep(c, Last(hooks), e)
    ensures HookRun(c, hooks') && |hooks| > 0 && hooks <= hooks' && Last(hooks') == DoStep(c, Last(hooks), e)
  {
    hooks' := hooks + [DoStep(c, Last(hooks), e)];
    hide CanStep, DoStep;
    forall i, k | 0 <= i < k == i + 1 < |hooks'| ensures HookNext(c, hooks'[i], hooks'[k]) {
      assert hooks'[i] == hooks[i];
      if k < |hooks| { assert hooks'[k] == hooks[k]; }
    }
  }

  // ------------------------------------------------------------- submitting in a row

  /** The log has room for a request with each of the payloads. */
  predicate RoomFor(end: nat, a: seq<byte>, b: seq<byte>)
  {
    ReservedTail(end) + LengthFor(a) + LengthFor(b) + HEADER_SIZE <= LOG_SIZE
  }

  lemma RoomAfter(s: State, kind: byte, clt: ViewStamp, prev: nat, a: seq<byte>, b: seq<byte>)
    requires RoomFor(s.leader.end, a, b)
    ensures FirstPass(s.leader.end, a) && FirstPass(Reserve(s, kind, clt, a, prev).leader.end, b)
  {
  }

  /** The bytes that a call submits. */
  function DataOf(call: Call): (data: seq<byte>)
  {
    if call.Sending? then call.data else []
  }

  /** A call under way that has looked its connection up can be submitted as long as there
      is room. */
  lemma CanSubmit(c: Config, h: Hooked, t: nat)
    requires HookInv(h) && ReadInv(h) && t in h.calls && (h.calls[t].Sending? || h.calls[t].Closing?)
    requires FirstPass(h.s.leader.end, DataOf(h.calls[t]))
    ensures CanStep(c, h, Submit(t))
  {
    hide TableOk, OpenOk, ReadsKept, FirstPass;
    assert CallOk(h.conns, h.table, h.calls[t]);
    assert CallReady(h.s, h.conns, h.calls[t]);
  }

  lemma SubmitFrame(c: Config, h: Hooked, t: nat)
    requires CanStep(c, h, Submit(t)) && (h.calls[t].Sending? || h.calls[t].Closing?)
    ensures var h' := DoStep(c, h, Submit(t));
            && h'.conns == h.conns && h'.table == h.table && h'.input == h.input
            && (forall u :: u in h.calls && u != t ==> u in h'.calls && h'.calls[u] == h.calls[u])
            && forall b :: RoomFor(h.s.leader.end, DataOf(h.calls[t]), b) ==> FirstPass(h'.s.leader.end, b)
  {
    hide Enabled, FirstPass, RoomFor;
    var a, h' := Submission(h, h.calls[t]), DoStep(c, h, Submit(t));
    assert h'.s == Reserve(h.s, a.kind, a.clt, a.data, a.prev);
    forall b | RoomFor(h.s.leader.end, DataOf(h.calls[t]), b) ensures FirstPass(h'.s.leader.end, b) {
      RoomAfter(h.s, a.kind, a.clt, a.prev, a.data, b);
    }
  }

  /** One call submits and then another. */
  lemma SubmitBoth(c: Config, hooks: seq<Hooked>, t: nat, u: nat) returns (hooks': seq<Hooked>, q: Request, r: Request)
    requires ValidConfig(c) && |hooks| > 0 && HookRun(c, hooks) && t != u && t in Last(hooks).calls
    requires u in Last(hooks).calls
    requires var x, y := Last(hooks).calls[t], Last(hooks).calls[u];
             && (x.Sending? || x.Closing?) && y.Sending? && RoomFor(Last(hooks).s.leader.end, DataOf(x), DataOf(y))
    ensures HookRun(c, hooks') && hooks <= hooks'
    ensures var h, h' := Last(hooks), Last(hooks');
            && h'.conns == h.conns && h'.input == h.input && h'.s.reqs == h.s.reqs + [q, r]
            && Names(h.conns, h.calls[t], q) && Names(h.conns, h.calls[u], r)
  {
    hide HookRun, HookInv, ReadInv, CanStep, DoStep, FirstPass, RoomFor, Sound;
    var h := Last(hooks);
    ReadsHold(c, hooks, |hooks| - 1);
    FirstRoom(h.s, DataOf(h.calls[t]), DataOf(h.calls[u]));
    CanSubmit(c, h, t);
    SubmitFrame(c, h, t);
    var mid := Extend(c, hooks, Submit(t));
    q := SubmitNames(c, h, t);
    var m := Last(mid);
    ReadsHold(c, mid, |mid| - 1);
    CanSubmit(c, m, u);
    SubmitFrame(c, m, u);
    hooks' := Extend(c, mid, Submit(u));
    r := SubmitNames(c, m, u);
  }

  lemma FirstRoom(s: State, a: seq<byte>, b: seq<byte>)
    requires RoomFor(s.leader.end, a, b)
    ensures FirstPass(s.leader.end, a)
  {
  }

  /** The request of a send or close. */
  predicate Names(conns: seq<Option<ViewStamp>>, call: Call, q: Request)
  {
    match call
    case Sending(conn, kind, data) => conn < |conns| && conns[conn] == Some(q.clt) && q.kind == kind && q.data == data
    case Closing(vs) => q.clt == vs && q.kind == P_CLOSE
    case _ => false
  }

  lemma SubmitNames(c: Config, h: Hooked, t: nat) returns (q: Request)
    requires HookInv(h) && Sound(h) && CanStep(c, h, Submit(t)) && (h.calls[t].Sending? || h.calls[t].Closing?)
    ensures DoStep(c, h, Submit(t)).s.reqs == h.s.reqs + [q] && Names(h.conns, h.calls[t], q)
  {
    hide HookInv, CanStep, DoStep, Disciplined;
    q := Submitted(c, h, t);
  }

  // ------------------------------------------------------------------- lost for ever

  /** So far the payloads of a connection are the bytes read on it, in order, and none of
      them is behind its close. */
  ghost predicate Kept(h: Hooked, conn: nat)
    requires conn < |h.conns| && h.conns[conn].Some? && conn < |h.input|
  {
    var vs, reqs := h.conns[conn].value, h.s.reqs;
    NoneLate(reqs, vs, |reqs|) && Payloads(reqs, vs, |reqs|) <= h.input[conn]
  }

  /** In a run whose states are calm all is kept. */
  lemma CalmKept(c: Config, hooks: seq<Hooked>, k: nat, conn: nat)
    requires ValidConfig(c) && HookRun(c, hooks) && k < |hooks| && forall i :: 0 <= i < k ==> Calm(hooks[i])
    requires conn < |hooks[k].conns| && hooks[k].conns[conn].Some?
    ensures conn < |hooks[k].input| && Kept(hooks[k], conn)
  {
    hide HookRun, HookInv, ReadInv, Calm, NoneLate, Payloads, Sound;
    ReadsHold(c, hooks, k);
    assert InOrder(hooks[k].s.reqs, hooks[k].conns[conn].value, hooks[k].input[conn], hooks[k].queues[conn]);
  }

  /** Requests, stamps and reads are never taken back. */
  ghost predicate Grown(h: Hooked, h': Hooked, conn: nat)
  {
    && h.s.reqs <= h'.s.reqs && conn < |h.conns| <= |h'.conns| && h'.conns[conn] == h.conns[conn]
    && conn < |h.input| <= |h'.input| && h.input[conn] <= h'.input[conn]
  }

  lemma StepGrows(c: Config, h: Hooked, e: Step, conn: nat)
    requires HookInv(h) && CanStep(c, h, e) && conn < |h.conns| && h.conns[conn].Some? && conn < |h.input|
    ensures Grown(h, DoStep(c, h, e), conn)
  {
    hide TableOk, OpenOk, Enabled, Apply;
    match e
    case Submit(t) =>
      assert CallOk(h.conns, h.table, h.calls[t]);
      ReserveGrows(c, h.s, Submission(h, h.calls[t]));
    case Inner(a) => OnlyReserve(c, h.s, a);
    case _ =>
  }

  lemma ReserveGrows(c: Config, s: State, a: Action)
    requires Enabled(c, s, a)
    ensures s.reqs <= Apply(c, s, a).reqs
  {
  }

  lemma {:induction false} RunGrows(c: Config, hooks: seq<Hooked>, k: nat, m: nat, conn: nat)
    requires ValidConfig(c) && HookRun(c, hooks) && k <= m < |hooks|
    requires conn < |hooks[k].conns| && hooks[k].conns[conn].Some? && conn < |hooks[k].input|
    ensures Grown(hooks[k], hooks[m], conn)
    decreases m
  {
    if k < m {
      var j := m - 1;
      RunGrows(c, hooks, k, j, conn);
      var run := HooksOverProtocol(c, hooks, j);
      assert HookNext(c, hooks[j], hooks[m]);
      var e: Step :| CanStep(c, hooks[j], e) && hooks[m] == DoStep(c, hooks[j], e);
      hide HookRun, HookInv, CanStep, DoStep, KnownRun;
      StepGrows(c, hooks[j], e, conn);
    }
  }

  lemma NoMoreThanRead(h: Hooked, conn: nat)
    requires ReadInv(h) && conn < |h.conns| && h.conns[conn].Some?
    ensures conn < |h.input| && |Payloads(h.s.reqs, h.conns[conn].value, |h.s.reqs|)| <= |h.input[conn]|
  {
    hide CallsKept, QueueOk, Payloads;
    assert SizeOk(h.s.reqs, h.conns[conn], h.input[conn], h.queues[conn]);
  }

  lemma BrokenStays(h: Hooked, h': Hooked, conn: nat)
    requires ReadInv(h) && Grown(h, h', conn) && h.conns[conn].Some? && !Kept(h, conn)
    ensures !Kept(h', conn)
  {
    hide ReadInv, NoneLate, Payloads;
    var vs, reqs, more := h.conns[conn].value, h.s.reqs, h'.s.reqs;
    if Kept(h', conn) {
      NoneLatePrefix(reqs, more, vs, |reqs|);
      NoMoreThanRead(h, conn);
      PayloadsPrefix(reqs, more, vs, |reqs|);
      PayloadsGrow(more, vs, |reqs|, |more|);
    }
  }

  /** What is lost or out of order stays so: from then on the server of no replica has
      got exactly the bytes read on the connection, whatever its writes take. */
  lemma NeverAgain(c: Config, hooks: seq<Hooked>, k: nat, m: nat, conn: nat, j: nat, took: seq<nat>)
    requires ValidConfig(c) && HookRun(c, hooks) && k <= m < |hooks|
    requires conn < |hooks[k].conns| && hooks[k].conns[conn].Some? && conn < |hooks[k].input| && !Kept(hooks[k], conn)
    requires j < c.group && j != c.leader
    requires j < |hooks[m].s.replicas| ==> |took| == |hooks[m].s.replicas[j].executed|
    ensures Grown(hooks[k], hooks[m], conn)
    ensures j < |hooks[m].s.replicas| && |took| <= |hooks[m].s.reqs|
    ensures ReplayAll(hooks[m].s.replicas[j].executed, took).Some?
    ensures var s, vs := ReplayAll(hooks[m].s.replicas[j].executed, took).value, hooks[k].conns[conn].value;
            vs in s.sent ==> s.sent[vs] != hooks[m].input[conn]
  {
    hide HookRun, HookInv, ReadInv, InFull, NoneLate, Payloads, Sound, Kept, Written;
    RunGrows(c, hooks, k, m, conn);
    ReadsHold(c, hooks, k);
    ReadsHold(c, hooks, m);
    BrokenStays(hooks[k], hooks[m], conn);
    ServerSeesServer(c, hooks, m, j, took);
    NoMoreThanRead(hooks[m], conn);
    var s := ReplayAll(hooks[m].s.replicas[j].executed, took).value;
    var vs := hooks[k].conns[conn].value;
    if vs in s.sent { NotAll(hooks[m], conn, took); }
  }

  lemma NotAll(h: Hooked, conn: nat, took: seq<nat>)
    requires conn < |h.conns| && h.conns[conn].Some? && conn < |h.input| && !Kept(h, conn) && |took| <= |h.s.reqs|
    requires |Payloads(h.s.reqs, h.conns[conn].value, |h.s.reqs|)| <= |h.input[conn]|
    ensures Written(h.s.reqs, took, h.conns[conn].value, |took|) != h.input[conn]
  {
    hide NoneLate, Payloads, Written, InFull;
    var vs, reqs, n := h.conns[conn].value, h.s.reqs, |took|;
    WrittenExact(reqs, took, vs, n);
    PayloadsGrow(reqs, vs, n, |reqs|);
    if Written(reqs, took, vs, n) == h.input[conn] {
      assert Payloads(reqs, vs, n) == Payloads(reqs, vs, |reqs|);
      LateBehind(reqs, vs, n);
    }
  }

  lemma LateBehind(reqs: seq<Request>, vs: ViewStamp, n: nat)
    requires n <= |reqs| && Payloads(reqs, vs, n) == Payloads(reqs, vs, |reqs|) && NoneLate(reqs, vs, n)
    ensures NoneLate(reqs, vs, |reqs|)
  {
    forall i | n <= i < |reqs| && SendsOn(reqs, vs, i) ensures reqs[i].data == [] {
      PayloadsGrow(reqs, vs, n, i);
      PayloadsGrow(reqs, vs, i + 1, |reqs|);
    }
  }

  // ------------------------------------------------------------------ every storm breaks

  /** A send under way while its connection is closed can get behind the close. */
  lemma CloseOvertakes(c: Config, hooks: seq<Hooked>, conn: nat, i: nat) returns (hooks': seq<Hooked>)
    requires ValidConfig(c) && |hooks| > 0 && HookRun(c, hooks)
    requires conn < |Last(hooks).queues| && i < |Last(hooks).queues[conn]| && conn < |Last(hooks).conns|
    requires Last(hooks).queues[conn][i].data != [] && !Attached(Last(hooks).table, conn)
    requires RoomFor(Last(hooks).s.leader.end, [], Last(hooks).queues[conn][i].data)
    ensures HookRun(c, hooks') && hooks <= hooks'
    ensures var h, h' := Last(hooks), Last(hooks');
            && h.conns[conn].Some? && h'.conns == h.conns && h'.input == h.input
            && !NoneLate(h'.s.reqs, h.conns[conn].value, |h'.s.reqs|)
  {
    hide HookRun, HookInv, ReadInv, Sound, NoneLate, Connects, Closes, RoomFor, Attached, FirstPass;
    var h := Last(hooks);
    ReadsHold(c, hooks, |hooks| - 1);
    var t := h.queues[conn][i].thread;
    PendingCall(h, conn, i);
    var vs := h.conns[conn].value;
    if vs in Closes(h.s.reqs, |h.s.reqs|) {
      RoomForOne(h.s.leader.end, h.queues[conn][i].data);
      CanSubmit(c, h, t);
      SubmitFrame(c, h, t);
      hooks' := Extend(c, hooks, Submit(t));
      var q := SubmitNames(c, h, t);
      NoneLateNext(h.s.reqs, q, vs);
    } else {
      var u := ClosingCall(h, conn);
      var q, r;
      hooks', q, r := SubmitBoth(c, hooks, u, t);
      ConnectionsNext(h.s.reqs, q);
      NoneLateNext(h.s.reqs + [q], r, vs);
      assert h.s.reqs + [q] + [r] == h.s.reqs + [q, r];
    }
  }

  lemma RoomForOne(end: nat, data: seq<byte>)
    requires RoomFor(end, [], data)
    ensures FirstPass(end, data)
  {
  }

  lemma PendingCall(h: Hooked, conn: nat, i: nat)
    requires HookInv(h) && ReadInv(h) && conn < |h.queues| && i < |h.queues[conn]|
    ensures h.queues[conn][i].thread in h.calls
    ensures h.calls[h.queues[conn][i].thread] == Sending(conn, P_SEND, h.queues[conn][i].data)
    ensures conn < |h.conns| && h.conns[conn].Some?
  {
    hide OpenOk, TableOk, SizeOk;
    assert QueueOk(h.calls, conn, h.queues[conn]);
    assert CallOk(h.conns, h.table, h.calls[h.queues[conn][i].thread]);
  }

  lemma NamedAttached(h: Hooked, conn: nat)
    requires HookInv(h) && conn < |h.conns| && h.conns[conn].Some?
    ensures h.conns[conn].value in Named(h.conns, h.table) ==> Attached(h.table, conn)
  {
    hide OpenOk, CallsOk;
    var vs := h.conns[conn].value;
    if vs in Named(h.conns, h.table) {
      var fd :| fd in h.table && h.table[fd] < |h.conns| && h.conns[h.table[fd]] == Some(vs);
      assert h.table[fd] == conn;
    }
  }

  /** A connection that has left the table and is not closed is being closed. */
  lemma ClosingCall(h: Hooked, conn: nat) returns (u: nat)
    requires HookInv(h) && conn < |h.conns| && h.conns[conn].Some? && !Attached(h.table, conn)
    requires h.conns[conn].value !in Closes(h.s.reqs, |h.s.reqs|)
    ensures u in h.calls && h.calls[u] == Closing(h.conns[conn].value)
  {
    hide Connects, Closes, CallsOk;
    var vs := h.conns[conn].value;
    NamedAttached(h, conn);
    assert vs in Closings(h.calls);
    u :| u in h.calls && h.calls[u].Closing? && h.calls[u].vs == vs;
  }

  /** Two sends in a row. */
  lemma SendBoth(c: Config, hooks: seq<Hooked>, conn: nat, i: nat, k: nat) returns (hooks': seq<Hooked>)
    requires ValidConfig(c) && |hooks| > 0 && HookRun(c, hooks) && i != k
    requires conn < |Last(hooks).queues| && i < |Last(hooks).queues[conn]| && k < |Last(hooks).queues[conn]|
    requires RoomFor(Last(hooks).s.leader.end, Last(hooks).queues[conn][i].data, Last(hooks).queues[conn][k].data)
    ensures HookRun(c, hooks') && hooks <= hooks'
    ensures var h, h' := Last(hooks), Last(hooks');
            && conn < |h.conns| && h.conns[conn].Some? && h'.conns == h.conns && h'.input == h.input
            && Payloads(h'.s.reqs, h.conns[conn].value, |h'.s.reqs|) ==
                 Payloads(h.s.reqs, h.conns[conn].value, |h.s.reqs|) + h.queues[conn][i].data + h.queues[conn][k].data
  {
    hide HookRun, HookInv, ReadInv, Sound, Payloads, RoomFor;
    var h := Last(hooks);
    ReadsHold(c, hooks, |hooks| - 1);
    PendingCall(h, conn, i);
    PendingCall(h, conn, k);
    ThreadsApart(h, conn, i, k);
    var q, r;
    hooks', q, r := SubmitBoth(c, hooks, h.queues[conn][i].thread, h.queues[conn][k].thread);
    PayloadsNext(h.s.reqs, q, q.clt);
    PayloadsNext(h.s.reqs + [q], r, q.clt);
    assert h.s.reqs + [q] + [r] == h.s.reqs + [q, r];
  }

  lemma ThreadsApart(h: Hooked, conn: nat, i: nat, k: nat)
    requires ReadInv(h) && conn < |h.queues| && i < |h.queues[conn]| && k < |h.queues[conn]| && i != k
    ensures h.queues[conn][i].thread != h.queues[conn][k].thread
  {
    hide CallsKept, SizeOk;
    assert QueueOk(h.calls, conn, h.queues[conn]);
  }

  /** Of two sends under way together, one can get before the other. */
  lemma SendOvertakes(c: Config, hooks: seq<Hooked>, conn: nat, i: nat, k: nat) returns (hooks': seq<Hooked>)
    requires ValidConfig(c) && |hooks| > 0 && HookRun(c, hooks) && i != k
    requires conn < |Last(hooks).queues| && i < |Last(hooks).queues[conn]| && k < |Last(hooks).queues[conn]|
    requires !Commute(Last(hooks).queues[conn][i].data, Last(hooks).queues[conn][k].data)
    requires RoomFor(Last(hooks).s.leader.end, Last(hooks).queues[conn][i].data, Last(hooks).queues[conn][k].data)
    ensures HookRun(c, hooks') && hooks <= hooks'
    ensures var h, h' := Last(hooks), Last(hooks');
            && conn < |h.conns| && h.conns[conn].Some? && h'.conns == h.conns && h'.input == h.input && conn < |h.input|
            && !(Payloads(h'.s.reqs, h.conns[conn].value, |h'.s.reqs|) <= h.input[conn])
  {
    hide HookRun, Payloads, RoomFor, HookInv, CallsKept, QueueOk, SizeOk, Sound;
    var h := Last(hooks);
    var one := SendBoth(c, hooks, conn, i, k);
    RoomTurned(h.s.leader.end, h.queues[conn][i].data, h.queues[conn][k].data);
    var two := SendBoth(c, hooks, conn, k, i);
    ReadsHold(c, hooks, |hooks| - 1);
    var p := Payloads(h.s.reqs, h.conns[conn].value, |h.s.reqs|);
    var a, b := h.queues[conn][i].data, h.queues[conn][k].data;
    if p + a + b <= h.input[conn] && p + b + a <= h.input[conn] {
      BothPrefixes(h.input[conn], p, a, b);
      assert false;
    }
    hooks' := if p + a + b <= h.input[conn] then two else one;
  }

  lemma RoomTurned(end: nat, a: seq<byte>, b: seq<byte>)
    requires RoomFor(end, a, b)
    ensures RoomFor(end, b, a)
  {
  }

  lemma BothPrefixes(s: seq<byte>, p: seq<byte>, a: seq<byte>, b: seq<byte>)
    requires p + a + b <= s && p + b + a <= s
    ensures Commute(a, b)
  {
    var n := |p| + |a| + |b|;
    assert p + a + b == s[..n] == p + b + a;
    assert (p + a + b)[|p|..] == a + b && (p + b + a)[|p|..] == b + a;
  }

  /** From every state of every run that is not calm on a connection, with room in the
      log, there is a way to lose or turn around bytes that were read on it. */
  lemma StormBreaks(c: Config, hooks: seq<Hooked>, conn: nat) returns (hooks': seq<Hooked>)
    requires ValidConfig(c) && |hooks| > 0 && HookRun(c, hooks)
    requires conn < |Last(hooks).queues| && !CalmQueue(Last(hooks).table, conn, Last(hooks).queues[conn])
    requires var queue := Last(hooks).queues[conn];
             forall i, k :: 0 <= i < |queue| && 0 <= k < |queue| ==>
               RoomFor(Last(hooks).s.leader.end, queue[i].data, queue[k].data)
    ensures HookRun(c, hooks') && hooks <= hooks'
    ensures var h' := Last(hooks');
            && conn < |h'.conns| && h'.conns[conn].Some? && conn < |h'.input| && h'.input == Last(hooks).input
            && !Kept(h', conn)
  {
    hide HookRun, HookInv, CallsKept, QueueOk, SizeOk, Sound, RoomFor, Attached, Commute, NoneLate, Payloads;
    var h := Last(hooks);
    var queue := h.queues[conn];
    ReadsHold(c, hooks, |hooks| - 1);
    if i :| 0 <= i < |queue| && queue[i].data != [] && !Attached(h.table, conn) {
      RoomToClose(h.s.leader.end, queue[i].data);
      hooks' := CloseOvertakes(c, hooks, conn, i);
    } else {
      var i, k :| 0 <= i < k < |queue| && !Commute(queue[i].data, queue[k].data);
      hooks' := SendOvertakes(c, hooks, conn, i, k);
    }
  }

  lemma RoomToClose(end: nat, data: seq<byte>)
    requires RoomFor(end, data, data)
    ensures RoomFor(end, [], data)
  {
  }
}
