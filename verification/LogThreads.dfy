/** The sequential code inside the protocol steps: the log offsets, one pass of the
    acknowledgement scan, and one round of the replica thread. */
module LogThreads {
  import opened Options
  import opened Bytes
  import opened ViewStamps
  import opened EntryLayout
  import opened Bitmaps
  import opened Consensus
  import opened ConsensusScan

  /** The offsets of a log of `LOG_SIZE` bytes. */
  class DareLog {
    var end: nat
    var tail: nat

    /** `log_new`: an empty log has `end` at the length of the buffer. */
    constructor ()
      ensures end == tail == LOG_SIZE
    {
      end, tail := LOG_SIZE, LOG_SIZE;
    }

    /** The leader's part of the critical section.  The entry is built at `at` and
        posted to `offset`; they are the same place exactly when the log is empty
        or a header still fits, that is, as long as the log does not wrap. */
    method AddEntry(dataSize: nat) returns (at: nat, offset: nat)
      modifies this
      ensures tail == offset == ReservedTail(old(end))
      ensures tail + EntryLen(dataSize) == end
      ensures old(end) == LOG_SIZE ==> at == 0
      ensures old(end) != LOG_SIZE ==> at == old(end)
      ensures at == offset <==> old(end) == LOG_SIZE || FitsHeader(old(end))
    {
      at := if end == LOG_SIZE then 0 else end;
      if !FitsHeader(end) {
        end := 0;
      }
      tail := end;
      end := end + EntryLen(dataSize);
      offset := tail;
    }

    /** `log_get_entry`: the offset a replica polls. */
    method GetEntry() returns (at: nat)
      modifies this`end
      ensures at == end == ReservedTail(old(end))
    {
      if !FitsHeader(end) {
        end := 0;
      }
      at := end;
    }
  }

  /** One pass of the recheck loop over the slots of the entry at `at`: the bitmap
      gains the senders read from the slots that carry the awaited stamp, as it does by a
      round of scan steps of the protocol. */
  method ScanAcks(mem: array<byte>, at: nat, stamp: ViewStamp, before: nat) returns (bitmap: nat)
    requires at + ACKS_SIZE <= mem.Length
    ensures RoundTo(mem[..], at, stamp, before, bitmap, MAX_SERVER_COUNT)
  {
    bitmap := before;
    var i := 0;
    while i < MAX_SERVER_COUNT
      invariant 0 <= i <= MAX_SERVER_COUNT
      invariant RoundTo(mem[..], at, stamp, before, bitmap, i)
    {
      var slot := at + ACK_SIZE * i;
      ghost var last := bitmap;
      if LoadStamp(mem[..], slot) == stamp {
        bitmap := OrBit(bitmap, Load32(mem[..], slot + 8));
      }
      RoundNext(mem[..], at, stamp, before, last, bitmap, i);
      i := i + 1;
    }
  }

  /** Run the execute loop to its end. */
  function Drain(r: Replica): (r': Replica)
    ensures r'.work.Polling?
    decreases if r.work.Executing? then 1 else 0,
              if r.work.Executing? && r.work.next <= r.work.last then r.work.last + 1 - r.work.next else 0
  {
    if r.work.Polling? then r else Drain(Execute(r))
  }

  lemma DrainIdle(r: Replica)
    requires r.work.Polling?
    ensures Drain(r) == r
  {
  }

  /** What one round of the replica thread makes of its state. */
  ghost function Round(r: Replica, j: nat, rest: seq<byte>): (r': Replica)
    requires |r.mem| == LOG_SIZE && r.end <= LOG_SIZE && |rest| == 12 && j < MAX_SERVER_COUNT
  {
    if Complete(r.mem, PollAt(r)) && RECORD_AT < EntryLen(Load64(r.mem, PollAt(r) + RECORD_AT))
    then Drain(Accept(r, j, rest))
    else r.(end := PollAt(r))
  }

  /** Execute steps of the protocol run the loop to its end. */
  lemma {:induction false} DrainIsSteps(c: Config, run: seq<State>, j: nat) returns (run': seq<State>)
    requires Run(c, run) && IsReplica(c, ConsensusScan.Last(run), j)
    ensures Run(c, run') && run <= run'
    ensures var s := ConsensusScan.Last(run);
            ConsensusScan.Last(run') == s.(replicas := s.replicas[j := Drain(s.replicas[j])])
    decreases var w := ConsensusScan.Last(run).replicas[j].work;
              if w.Polling? then 0 else if w.next <= w.last then w.last + 2 - w.next else 1
  {
    hide Run;
    var s := ConsensusScan.Last(run);
    if s.replicas[j].work.Polling? {
      run' := run;
      assert s.replicas[j := s.replicas[j]] == s.replicas;
    } else {
      var mid := ConsensusScan.Extend(c, run, ExecuteA(j));
      run' := DrainIsSteps(c, mid, j);
      var r := s.replicas[j];
      assert s.replicas[j := Execute(r)][j := Drain(Execute(r))] == s.replicas[j := Drain(r)];
    }
  }

  /** One round of a replica thread is a sequence of steps of the protocol, from every state
      of every run in which it polls. */
  lemma RoundIsSteps(c: Config, run: seq<State>, j: nat, rest: seq<byte>) returns (run': seq<State>)
    requires Run(c, run) && IsReplica(c, ConsensusScan.Last(run), j) && |rest| == 12
    requires var r := ConsensusScan.Last(run).replicas[j]; r.work.Polling? && r.end <= LOG_SIZE
    ensures Run(c, run') && run <= run'
    ensures var s := ConsensusScan.Last(run);
            ConsensusScan.Last(run') == s.(replicas := s.replicas[j := Round(s.replicas[j], j, rest)])
  {
    hide Run, Complete, Load64, EntryLen, Accept, Drain;
    var s := ConsensusScan.Last(run);
    var r := s.replicas[j];
    if Complete(r.mem, PollAt(r)) && RECORD_AT < EntryLen(Load64(r.mem, PollAt(r) + RECORD_AT)) {
      var mid := ConsensusScan.Extend(c, run, AcceptA(j, rest));
      AcceptSize(r, j, rest);
      run' := DrainIsSteps(c, mid, j);
      var r' := Accept(r, j, rest);
      assert s.replicas[j := r'][j := Drain(r')] == s.replicas[j := Drain(r')];
    } else {
      run' := ConsensusScan.Extend(c, run, MissA(j));
    }
  }

  lemma AcceptSize(r: Replica, j: nat, rest: seq<byte>)
    requires |r.mem| == LOG_SIZE && r.end <= LOG_SIZE && |rest| == 12 && j < MAX_SERVER_COUNT
    requires Complete(r.mem, PollAt(r)) && RECORD_AT < EntryLen(Load64(r.mem, PollAt(r) + RECORD_AT))
    ensures |Accept(r, j, rest).mem| == LOG_SIZE
  {
  }

  /** The thread that polls for entries at a replica. */
  class ReplicaThread {
    const id: nat
    const mem: array<byte>
    const log: DareLog
    var seen: ViewStamp
    var committed: ViewStamp
    var db: map<nat, seq<byte>>
    var executed: seq<Execution>
    ghost var accepted: nat
    ghost var inbox: map<nat, Wire>
    ghost var acks: map<nat, Wire>

    ghost predicate Valid()
      reads this, mem, log
    {
      id < MAX_SERVER_COUNT && mem.Length == LOG_SIZE && log.end <= LOG_SIZE
    }

    /** The thread between two rounds, as a state of the step system. */
    ghost function View(): (r: Replica)
      reads this, mem, log
    {
      Replica(mem[..], log.end, log.tail, seen, committed, db, Polling, executed, accepted, inbox, acks)
    }

    constructor (id: nat, mem: array<byte>)
      requires id < MAX_SERVER_COUNT && mem.Length == LOG_SIZE
      ensures this.id == id && this.mem == mem && fresh(log)
      ensures Valid()
      ensures mem[..] == Zeros() ==>
                View() == Replica(Zeros(), LOG_SIZE, LOG_SIZE, ViewStamp(VIEW, 0), ViewStamp(VIEW, 0),
                                  map[], Polling, [], 0, map[], map[])
    {
      this.id, this.mem := id, mem;
      seen, committed := ViewStamp(VIEW, 0), ViewStamp(VIEW, 0);
      db, executed := map[], [];
      accepted, inbox, acks := 0, map[], map[];
      log := new DareLog();
    }

    /** Note the stamp, store the record, advance the log and leave the reply in
        the entry's slot: the accept step but for the execute loop. */
    method Take(at: nat, rest: seq<byte>) returns (canExec: ViewStamp)
      requires Valid() && |rest| == 12
      requires at == log.end == PollAt(View()) && Complete(mem[..], at)
      requires RECORD_AT < EntryLen(Load64(mem[..], at + RECORD_AT))
      requires at + EntryLen(Load64(mem[..], at + RECORD_AT)) <= LOG_SIZE
      modifies this, mem, log
      ensures Valid()
      ensures canExec == LoadStamp(old(mem[..]), at + 176)
      ensures View() == Accept(old(View()), id, rest).(work := Polling)
    {
      hide Load64, LoadStamp, EntryLen, ToLong, AckBytes, Complete, Compare, Write;
      var image := mem[..];
      var msg := LoadStamp(image, at + 168);
      canExec := LoadStamp(image, at + 176);
      var size := Load64(image, at + RECORD_AT);
      if Compare(msg, seen) > 0 {
        seen := msg;
      }
      db := db[ToLong(msg) := image[at + RECORD_AT..at + EntryLen(size) - 1]];
      log.tail := log.end;
      log.end := log.end + EntryLen(size);
      var ack := AckBytes(msg, id, rest);
      CopyIn(mem, at + ACK_SIZE * id, ack);
      acks := acks[accepted := Wire(at + ACK_SIZE * id, ack, 0)];
      accepted := accepted + 1;
    }

    /** The execute loop: from behind the last commit point up to the new one. */
    method ExecuteUpTo(canExec: ViewStamp)
      requires Valid()
      modifies this
      ensures Valid()
      ensures View() == Drain(old(View()).(work := Executing(ToLong(old(committed)) + 1, ToLong(canExec), canExec)))
    {
      var index := ToLong(committed) + 1;
      var last := ToLong(canExec);
      ghost var start := View().(work := Executing(index, last, canExec));
      while index <= last
        invariant Valid()
        invariant Drain(View().(work := Executing(index, last, canExec))) == Drain(start)
      {
        executed := executed + [Execution(index, if index in db then Some(db[index]) else None)];
        index := index + 1;
      }
      committed := canExec;
    }

    /** One round of `handle_accept_req`: a poll in vain moves only `end`; a poll
        that finds a complete entry takes the accept step and then execute steps
        until the loop is done. */
    method HandleAccept(rest: seq<byte>) returns (took: bool)
      requires Valid() && |rest| == 12
      requires Complete(mem[..], PollAt(View())) ==>
                 RECORD_AT < EntryLen(Load64(mem[..], PollAt(View()) + RECORD_AT))
                 && PollAt(View()) + EntryLen(Load64(mem[..], PollAt(View()) + RECORD_AT)) <= LOG_SIZE
      modifies this, mem, log
      ensures Valid()
      ensures took == old(Complete(mem[..], PollAt(View())))
      ensures View() == Round(old(View()), id, rest)
    {
      hide Load64, LoadStamp, EntryLen, ToLong, AckBytes, Complete, Compare, Write, Drain;
      ghost var before := View();
      var at := log.GetEntry();
      assert View() == before.(end := PollAt(before));
      took := Complete(mem[..], at);
      if took {
        ghost var polled := View();
        assert Accept(polled, id, rest) == Accept(before, id, rest);
        var canExec := Take(at, rest);
        if Compare(canExec, committed) > 0 {
          ExecuteUpTo(canExec);
        } else {
          DrainIdle(View());
        }
      }
    }
  }

  /** `memcpy` into the registered memory. */
  method CopyIn(mem: array<byte>, at: nat, bytes: seq<byte>)
    requires at + |bytes| <= mem.Length
    modifies mem
    ensures mem[..] == Write(old(mem[..]), at, bytes)
  {
    var i := 0;
    while i < |bytes|
      invariant 0 <= i <= |bytes|
      invariant mem[..] == Write(old(mem[..]), at, bytes[..i])
    {
      mem[at + i] := bytes[i];
      i := i + 1;
    }
    assert bytes[..i] == bytes;
  }
}
