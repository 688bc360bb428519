/** The replication protocol as a system of interleaved steps: any number of
    leader threads submit requests, RDMA writes land byte by byte, and every
    replica polls its own memory.

    Threads and requests are numbered from 0; thread `i` owns request id `i + 1`.
    The runs are those of one view with one fixed leader, on the first pass of the
    log buffer. */
module Consensus {
  import opened Options
  import opened Bytes
  import opened ViewStamps
  import opened EntryLayout
  import opened Bitmaps

  const VIEW: u32 := 1

  const P_TCP_CONNECT: byte := 1
  const P_SEND: byte := 2
  const P_CLOSE: byte := 3
  const P_OUTPUT: byte := 4
  const P_NOP: byte := 5

  datatype Config = Config(group: nat, leader: nat)

  predicate ValidConfig(c: Config)
  {
    c.leader < c.group <= MAX_SERVER_COUNT
  }

  // --------------------------------------------------------------------- state

  /** What a thread fixed under the lock.  `at` is where it builds the entry,
      `tail` the offset it posts to; `prev` is the request id its caller submitted
      before this one (0 for none). */
  datatype Request = Request(kind: byte, clt: ViewStamp, data: seq<byte>, prev: nat, at: nat, tail: nat)

  /** Where a leader thread stands in `leader_handle_submit_req`. */
  datatype Pc =
    | Reserved             // left the lock
    | Snapshotted          // has read the commit counter into req_canbe_exed
    | StoreFailed          // returned, its database put failed
    | Posting(server: nat) // in the posting loop
    | Scanning(slot: nat)  // in the recheck loop
    | Spinning             // saw a quorum, waits for its turn
    | Reading              // about to read the commit counter
    | Writing(read: nat)   // about to write it back, incremented
    | Committed            // returned

  datatype Thread = Thread(pc: Pc, canExec: nat, bitmap: nat)

  /** A posted RDMA write: its first `landed` bytes are in remote memory. */
  datatype Wire = Wire(at: nat, bytes: seq<byte>, landed: nat)

  datatype Execution = Execution(key: nat, record: Option<seq<byte>>)

  /** A replica polls, or is inside its execute loop. */
  datatype Work = Polling | Executing(next: nat, last: nat, commit: ViewStamp)

  datatype Leader = Leader(mem: seq<byte>, end: nat, tail: nat, seen: nat, committed: nat,
                           db: map<nat, seq<byte>>)

  /** `accepted`, `inbox`, `acks` and `executed` record the history of a replica:
      entries taken, writes posted to it, its acknowledgements, its executions. */
  datatype Replica = Replica(mem: seq<byte>, end: nat, tail: nat, seen: ViewStamp, committed: ViewStamp,
                             db: map<nat, seq<byte>>, work: Work, executed: seq<Execution>,
                             accepted: nat, inbox: map<nat, Wire>, acks: map<nat, Wire>)

  datatype State = State(reqs: seq<Request>, threads: seq<Thread>, leader: Leader, replicas: seq<Replica>)

  function Zeros(): (m: seq<byte>)
  {
    seq(LOG_SIZE, _ => 0)
  }

  function Init(c: Config): (s: State)
  {
    State([], [],
          Leader(Zeros(), LOG_SIZE, LOG_SIZE, 0, 0, map[]),
          seq(c.group, _ => Replica(Zeros(), LOG_SIZE, LOG_SIZE, ViewStamp(VIEW, 0), ViewStamp(VIEW, 0),
                                    map[], Polling, [], 0, map[], map[])))
  }

  /** The view stamp of request `i`; request ids are 32 bits wide. */
  function StampOf(i: nat): (vs: ViewStamp)
  {
    ViewStamp(VIEW, (i + 1) % U32)
  }

  function Key(i: nat): (key: nat)
  {
    ToLong(StampOf(i))
  }

  function RecordOf(q: Request): (r: seq<byte>)
  {
    RecordBytes(q.kind, q.clt, q.data)
  }

  function EntryFor(c: Config, i: nat, q: Request, canExec: nat): (e: Entry)
  {
    Entry(StampOf(i), ViewStamp(VIEW, canExec % U32), c.leader % U32, q.kind, q.clt, q.data)
  }

  /** Overwrite the bytes of `mem` from `at` on. */
  function Write(mem: seq<byte>, at: nat, bytes: seq<byte>): (m: seq<byte>)
    requires at + |bytes| <= |mem|
    ensures |m| == |mem|
    ensures forall a :: 0 <= a < |mem| ==> m[a] == if at <= a < at + |bytes| then bytes[a - at] else mem[a]
  {
    mem[..at] + bytes + mem[at + |bytes|..]
  }

  /** `log_fit_entry_header`: the subtraction is unsigned, so an offset beyond the
      buffer passes as well. */
  predicate FitsHeader(offset: nat)
  {
    offset > LOG_SIZE || LOG_SIZE - offset >= HEADER_SIZE
  }

  // ------------------------------------------------------------- leader threads

  predicate Returned(pc: Pc)
  {
    pc.StoreFailed? || pc.Committed?
  }

  /** A caller submits one request after the other. */
  predicate CallerReady(s: State, prev: nat)
  {
    prev <= |s.reqs| && (prev == 0 || (prev <= |s.threads| && Returned(s.threads[prev - 1].pc)))
  }

  /** The offset a reservation posts to. */
  function ReservedTail(end: nat): (tail: nat)
  {
    if FitsHeader(end) then end else 0
  }

  /** The first pass: room is left for one more header, so nobody wraps. */
  predicate FirstPass(end: nat, data: seq<byte>)
  {
    ReservedTail(end) + LengthFor(data) + HEADER_SIZE <= LOG_SIZE
  }

  /** The critical section: take the next view stamp and the next offset. */
  function Reserve(s: State, kind: byte, clt: ViewStamp, data: seq<byte>, prev: nat): (s': State)
  {
    var l := s.leader;
    var next := StampOf(l.seen);
    var at := if l.end == LOG_SIZE then 0 else l.end;
    var tail := ReservedTail(l.end);
    var id := if kind == P_TCP_CONNECT then next else if kind == P_NOP then ViewStamp(0, 0) else clt;
    s.(reqs := s.reqs + [Request(kind, id, data, prev, at, tail)],
       threads := s.threads + [Thread(Reserved, 0, 0)],
       leader := l.(seen := l.seen + 1, tail := tail, end := tail + EntryLen(|data| + 1)))
  }

  function Step(s: State, i: nat, pc: Pc): (s': State)
    requires i < |s.threads|
  {
    s.(threads := s.threads[i := s.threads[i].(pc := pc)])
  }

  /** Outside the lock: copy the commit counter into the entry. */
  function Snapshot(s: State, i: nat): (s': State)
    requires i < |s.threads|
  {
    s.(threads := s.threads[i := s.threads[i].(pc := Snapshotted, canExec := s.leader.committed)])
  }

  predicate CanBuild(s: State, i: nat)
  {
    i < |s.threads| && i < |s.reqs| && s.reqs[i].at + LengthFor(s.reqs[i].data) <= |s.leader.mem|
  }

  /** Build the entry in local memory, cut the record out of it and store that;
      a failed put returns at once, a good one enters the posting loop. */
  function Store(c: Config, s: State, i: nat, ok: bool): (s': State)
    requires CanBuild(s, i)
  {
    var q := s.reqs[i];
    var e := EntryFor(c, i, q, s.threads[i].canExec);
    var mem := Write(s.leader.mem, q.at + ACKS_SIZE, Body(e));
    var record := mem[q.at + RECORD_AT..q.at + LengthFor(q.data) - 1];
    if ok then
      s.(leader := s.leader.(mem := mem, db := s.leader.db[Key(i) := record]),
         threads := s.threads[i := s.threads[i].(pc := Posting(0), bitmap := OrBit(0, c.leader))])
    else
      Step(s, i, StoreFailed)
  }

  /** One turn of the posting loop; servers that are not connected are skipped. */
  function Post(c: Config, s: State, i: nat, connected: bool): (s': State)
    requires CanBuild(s, i) && s.threads[i].pc.Posting? && |s.replicas| == c.group
  {
    var k, q := s.threads[i].pc.server, s.reqs[i];
    if k >= c.group then Step(s, i, Scanning(0))
    else if k == c.leader || !connected then Step(s, i, Posting(k + 1))
    else
      var image := s.leader.mem[q.at..q.at + LengthFor(q.data)];
      var r := s.replicas[k];
      Step(s, i, Posting(k + 1)).(replicas := s.replicas[k := r.(inbox := r.inbox[i := Wire(q.tail, image, 0)])])
  }

  predicate ReachedQuorum(bitmap: nat, group: nat)
  {
    Popcount(bitmap) >= group / 2 + 1
  }

  /** One turn of the recheck loop, over the slots and back to the start. */
  function Scan(c: Config, s: State, i: nat): (s': State)
    requires CanBuild(s, i) && s.threads[i].pc.Scanning?
  {
    var t, q := s.threads[i], s.reqs[i];
    if t.pc.slot >= MAX_SERVER_COUNT then
      Step(s, i, if ReachedQuorum(t.bitmap, c.group) then Spinning else Scanning(0))
    else
      var slot := q.at + ACK_SIZE * t.pc.slot;
      var hit := LoadStamp(s.leader.mem, slot) == StampOf(i);
      s.(threads := s.threads[i := t.(pc := Scanning(t.pc.slot + 1),
                                      bitmap := if hit then OrBit(t.bitmap, Load32(s.leader.mem, slot + 8))
                                                else t.bitmap)])
  }

  /** The write-back of the commit counter, without a lock. */
  function WriteBack(s: State, i: nat): (s': State)
    requires i < |s.threads| && s.threads[i].pc.Writing?
  {
    Step(s, i, Committed).(leader := s.leader.(committed := s.threads[i].pc.read + 1))
  }

  // ------------------------------------------------------------------- replicas

  /** One more byte of the entry of request `i` lands at replica `j`. */
  function Land(s: State, j: nat, i: nat): (s': State)
    requires j < |s.replicas| && i in s.replicas[j].inbox
    requires var w := s.replicas[j].inbox[i];
             w.landed < |w.bytes| && w.at + w.landed < |s.replicas[j].mem|
  {
    var r := s.replicas[j];
    var w := r.inbox[i];
    s.(replicas := s.replicas[j := r.(mem := r.mem[w.at + w.landed := w.bytes[w.landed]],
                                      inbox := r.inbox[i := w.(landed := w.landed + 1)])])
  }

  /** One more byte of replica `j`'s acknowledgement of `i` lands at the leader. */
  function LandAck(s: State, j: nat, i: nat): (s': State)
    requires j < |s.replicas| && i in s.replicas[j].acks
    requires var w := s.replicas[j].acks[i];
             w.landed < |w.bytes| && w.at + w.landed < |s.leader.mem|
  {
    var r := s.replicas[j];
    var w := r.acks[i];
    s.(leader := s.leader.(mem := s.leader.mem[w.at + w.landed := w.bytes[w.landed]]),
       replicas := s.replicas[j := r.(acks := r.acks[i := w.(landed := w.landed + 1)])])
  }

  /** `log_get_entry`: the offset polled, wrapped when no header fits. */
  function PollAt(r: Replica): (at: nat)
    ensures r.end <= LOG_SIZE ==> at + HEADER_SIZE <= LOG_SIZE
  {
    if FitsHeader(r.end) then r.end else 0
  }

  /** The poll finds a complete entry: note its stamp, store its record, advance
      the log, acknowledge, and enter the execute loop if its commit point is new.
      `rest` is the padding and output hash in the acknowledgement. */
  function Accept(r: Replica, j: nat, rest: seq<byte>): (r': Replica)
    requires |r.mem| == LOG_SIZE && r.end <= LOG_SIZE && |rest| == 12
    requires Complete(r.mem, PollAt(r))
    requires j < MAX_SERVER_COUNT
    requires PollAt(r) + RECORD_AT < PollAt(r) + EntryLen(Load64(r.mem, PollAt(r) + RECORD_AT))
  {
    var at := PollAt(r);
    var msg := LoadStamp(r.mem, at + 168);
    var canExec := LoadStamp(r.mem, at + 176);
    var size := Load64(r.mem, at + RECORD_AT);
    var ack := AckBytes(msg, j, rest);
    r.(seen := if Compare(msg, r.seen) > 0 then msg else r.seen,
       db := r.db[ToLong(msg) := r.mem[at + RECORD_AT..at + EntryLen(size) - 1]],
       tail := at,
       end := at + EntryLen(size),
       mem := Write(r.mem, at + ACK_SIZE * j, ack),
       acks := r.acks[r.accepted := Wire(at + ACK_SIZE * j, ack, 0)],
       accepted := r.accepted + 1,
       work := if Compare(canExec, r.committed) > 0
               then Executing(ToLong(r.committed) + 1, ToLong(canExec), canExec)
               else Polling)
  }

  /** One turn of the execute loop: hand the record under the next key to the
      event manager, or leave the loop and move the commit point. */
  function Execute(r: Replica): (r': Replica)
    requires r.work.Executing?
  {
    var next := r.work.next;
    if next <= r.work.last then
      r.(executed := r.executed + [Execution(next, if next in r.db then Some(r.db[next]) else None)],
         work := r.work.(next := next + 1))
    else
      r.(committed := r.work.commit, work := Polling)
  }

  // ----------------------------------------------------------------------- runs

  datatype Action =
    | ReserveA(kind: byte, clt: ViewStamp, data: seq<byte>, prev: nat)
    | SnapshotA(i: nat)
    | StoreA(i: nat, ok: bool)
    | PostA(i: nat, connected: bool)
    | ScanA(i: nat)
    | SpinA(i: nat)
    | ReadA(i: nat)
    | WriteA(i: nat)
    | LandA(j: nat, i: nat)
    | LandAckA(j: nat, i: nat)
    | MissA(j: nat)
    | AcceptA(j: nat, rest: seq<byte>)
    | ExecuteA(j: nat)

  ghost predicate IsReplica(c: Config, s: State, j: nat)
  {
    |s.replicas| == c.group <= MAX_SERVER_COUNT && j < c.group && j != c.leader && |s.replicas[j].mem| == LOG_SIZE
  }

  ghost predicate CanAccept(r: Replica)
    requires |r.mem| == LOG_SIZE
  {
    && r.work.Polling?
    && r.end <= LOG_SIZE
    && Complete(r.mem, PollAt(r))
    && RECORD_AT < EntryLen(Load64(r.mem, PollAt(r) + RECORD_AT))
  }

  ghost predicate Enabled(c: Config, s: State, a: Action)
  {
    match a
    case ReserveA(kind, clt, data, prev) => CallerReady(s, prev) && FirstPass(s.leader.end, data)
    case SnapshotA(i) => CanBuild(s, i) && s.threads[i].pc.Reserved?
    case StoreA(i, ok) => CanBuild(s, i) && s.threads[i].pc.Snapshotted?
    case PostA(i, connected) => CanBuild(s, i) && s.threads[i].pc.Posting? && |s.replicas| == c.group
    case ScanA(i) => CanBuild(s, i) && s.threads[i].pc.Scanning?
    case SpinA(i) => CanBuild(s, i) && s.threads[i].pc.Spinning? && !(i + 1 > s.leader.committed + 1)
    case ReadA(i) => CanBuild(s, i) && s.threads[i].pc.Reading?
    case WriteA(i) => CanBuild(s, i) && s.threads[i].pc.Writing?
    case LandA(j, i) =>
      && IsReplica(c, s, j) && i in s.replicas[j].inbox
      && var w := s.replicas[j].inbox[i];
         w.landed < |w.bytes| && w.at + w.landed < LOG_SIZE
    case LandAckA(j, i) =>
      && IsReplica(c, s, j) && i in s.replicas[j].acks
      && var w := s.replicas[j].acks[i];
         w.landed < |w.bytes| && w.at + w.landed < |s.leader.mem|
    case MissA(j) => IsReplica(c, s, j) && s.replicas[j].work.Polling?
    case AcceptA(j, rest) => IsReplica(c, s, j) && |rest| == 12 && CanAccept(s.replicas[j])
    case ExecuteA(j) => IsReplica(c, s, j) && s.replicas[j].work.Executing?
  }

  ghost function Apply(c: Config, s: State, a: Action): (s': State)
    requires Enabled(c, s, a)
  {
    match a
    case ReserveA(kind, clt, data, prev) => Reserve(s, kind, clt, data, prev)
    case SnapshotA(i) => Snapshot(s, i)
    case StoreA(i, ok) => Store(c, s, i, ok)
    case PostA(i, connected) => Post(c, s, i, connected)
    case ScanA(i) => Scan(c, s, i)
    case SpinA(i) => Step(s, i, Reading)
    case ReadA(i) => Step(s, i, Writing(s.leader.committed))
    case WriteA(i) => WriteBack(s, i)
    case LandA(j, i) => Land(s, j, i)
    case LandAckA(j, i) => LandAck(s, j, i)
    case MissA(j) => s.(replicas := s.replicas[j := s.replicas[j].(end := PollAt(s.replicas[j]))])
    case AcceptA(j, rest) => s.(replicas := s.replicas[j := Accept(s.replicas[j], j, rest)])
    case ExecuteA(j) => s.(replicas := s.replicas[j := Execute(s.replicas[j])])
  }

  ghost predicate Next(c: Config, s: State, s': State)
  {
    exists a: Action :: Enabled(c, s, a) && s' == Apply(c, s, a)
  }

  /** A run of the system, from the initial state. */
  ghost predicate Run(c: Config, run: seq<State>)
  {
    && |run| > 0
    && run[0] == Init(c)
    && forall k :: 0 <= k < |run| - 1 ==> Next(c, run[k], run[k + 1])
  }
}
