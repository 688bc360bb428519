/** Selective signalling of RDMA writes: every 4096th write to an endpoint asks for
    a completion, and the last write before the next such one first waits for it. */
module Signalling {
  import opened Bytes
  import opened Quorums
  import opened Words

  const Q_DEPTH := 8192
  const S_DEPTH := 4096

  // ------------------------------------------------------------- one endpoint

  /** The 32-bit counter wraps, the masked counter does not notice. */
  lemma MaskedCounter(n: nat)
    ensures And(n % U32, S_DEPTH - 1) == n % S_DEPTH
  {
    TwelveBits();
    MaskAndShift(n % U32, 12);
    hide And, Shr, Pow2;
    Periods(n, n % U32, Shr(n % U32, 12), And(n % U32, 4095));
  }

  lemma TwelveBits()
    ensures Pow2(12) == 4096
  {
    assert Pow2(6) == 64;
    assert Pow2(9) == 512;
  }

  lemma Periods(n: nat, m: nat, q: nat, r: nat)
    requires m == n % U32 && m == q * 4096 + r && r < 4096
    ensures n % 4096 == r
  {
    var k := n / U32;
    assert n == U32 * k + m;
    assert n == (1048576 * k + q) * 4096 + r;
  }

  /** One queue pair.  `sendCount` is the only thing the program keeps; the ghosts
      say what the device has: `posted` writes so far, the numbers of the signalled
      ones whose completion has not been polled, and how many writes are known to be
      complete because a later completion has been polled. */
  class Endpoint {
    var sendCount: u32
    ghost var posted: nat
    ghost var unpolled: seq<nat>
    ghost var known: nat

    ghost predicate Valid()
      reads this
    {
      var r := posted % S_DEPTH;
      && sendCount == posted % U32
      && unpolled == (if r == 0 then [] else [posted - r])
      && known == (if posted < S_DEPTH then 0 else posted - r - (S_DEPTH - 1))
    }

    constructor ()
      ensures Valid() && posted == 0
    {
      sendCount, posted, unpolled, known := 0, 0, [], 0;
    }

    /** A write in the order of the counter.  A poll finds exactly one completion to
        wait for; afterwards there is at most one that is unpolled; and the queue,
        which holds what is not known to be complete, always has room. */
    method Send() returns (signalled: bool, poll: bool)
      requires Valid()
      modifies this
      ensures Valid() && posted == old(posted) + 1
      ensures signalled <==> old(posted) % S_DEPTH == 0
      ensures poll <==> old(posted) % S_DEPTH == S_DEPTH - 1
      ensures poll ==> |old(unpolled)| == 1 && known == old(unpolled)[0] + 1 && unpolled == []
      ensures !poll ==> known == old(known) && unpolled == old(unpolled) + if signalled then [old(posted)] else []
      ensures |unpolled| <= 1
      ensures known <= posted <= known + Q_DEPTH - 2
    {
      MaskedCounter(posted);
      hide And;
      signalled := And(sendCount, S_DEPTH - 1) == 0;
      poll := And(sendCount, S_DEPTH - 1) == S_DEPTH - 1;
      sendCount := (sendCount + 1) % U32;
      if poll {
        known := unpolled[0] + 1;
        unpolled := unpolled[1..];
      }
      if signalled {
        unpolled := unpolled + [posted];
      }
      posted := posted + 1;
      CounterStep(old(posted));
    }
  }

  lemma CounterStep(n: nat)
    ensures (n + 1) % U32 == (n % U32 + 1) % U32
    ensures n % S_DEPTH < S_DEPTH - 1 ==> (n + 1) % S_DEPTH == n % S_DEPTH + 1
    ensures n % S_DEPTH == S_DEPTH - 1 ==> (n + 1) % S_DEPTH == 0
  {
  }

  // ------------------------------------------------- writes in any order

  /** The flags are fixed under the lock, in the order of the counter; the writes are
      posted after the lock is released, in any order.  `pending` are the numbers
      that are reserved and not yet posted. */
  datatype Queue = Queue(reserved: nat, pending: set<nat>, done: set<nat>, completions: nat)

  predicate Signals(n: nat)
  {
    n % S_DEPTH == 0
  }

  predicate Polls(n: nat)
  {
    n % S_DEPTH == S_DEPTH - 1
  }

  const EMPTY := Queue(0, {}, {}, 0)

  function Reserve(q: Queue): (q': Queue)
  {
    q.(reserved := q.reserved + 1, pending := q.pending + {q.reserved})
  }

  /** A write that polls waits until there is a completion to take. */
  predicate MayPost(q: Queue, n: nat)
  {
    n in q.pending && (Polls(n) ==> q.completions > 0)
  }

  function Post(q: Queue, n: nat): (q': Queue)
    requires MayPost(q, n)
  {
    q.(pending := q.pending - {n}, done := q.done + {n},
       completions := if Polls(n) then q.completions - 1 else if Signals(n) then q.completions + 1 else q.completions)
  }

  ghost predicate Step(q: Queue, q': Queue)
  {
    q' == Reserve(q) || exists n :: MayPost(q, n) && q' == Post(q, n)
  }

  ghost predicate Run(run: seq<Queue>)
  {
    && |run| > 0 && run[0] == EMPTY
    && forall i, j :: 0 <= i < j == i + 1 < |run| ==> Step(run[i], run[j])
  }

  ghost function SignalsIn(s: set<nat>): (t: set<nat>)
  {
    set n | n in s && Signals(n)
  }

  ghost function PollsIn(s: set<nat>): (t: set<nat>)
  {
    set n | n in s && Polls(n)
  }

  ghost predicate Inv(q: Queue)
  {
    && q.pending !! q.done
    && q.pending + q.done == Nodes(q.reserved)
    && |SignalsIn(q.done)| == |PollsIn(q.done)| + q.completions
  }

  lemma Joins(s: set<nat>, n: nat)
    requires n !in s
    ensures |SignalsIn(s + {n})| == |SignalsIn(s)| + if Signals(n) then 1 else 0
    ensures |PollsIn(s + {n})| == |PollsIn(s)| + if Polls(n) then 1 else 0
  {
    hide Signals, Polls;
    assert SignalsIn(s + {n}) == if Signals(n) then SignalsIn(s) + {n} else SignalsIn(s);
    assert PollsIn(s + {n}) == if Polls(n) then PollsIn(s) + {n} else PollsIn(s);
  }

  lemma NodesNext(n: nat)
    ensures Nodes(n + 1) == Nodes(n) + {n} && n !in Nodes(n)
  {
  }

  lemma InvReserve(q: Queue)
    requires Inv(q)
    ensures Inv(Reserve(q))
  {
    hide SignalsIn, PollsIn, Nodes;
    var q' := Reserve(q);
    NodesNext(q.reserved);
    assert q'.pending + q'.done == Nodes(q'.reserved);
  }

  lemma InvPost(q: Queue, n: nat)
    requires Inv(q) && MayPost(q, n)
    ensures Inv(Post(q, n))
  {
    hide SignalsIn, PollsIn, Nodes;
    var q' := Post(q, n);
    Joins(q.done, n);
    assert q.pending + q.done == q'.pending + q'.done;
  }

  lemma InvStep(q: Queue, q': Queue)
    requires Inv(q) && Step(q, q')
    ensures Inv(q')
  {
    hide Inv, Reserve, Post, MayPost;
    if q' == Reserve(q) {
      InvReserve(q);
    } else {
      var n :| MayPost(q, n) && q' == Post(q, n);
      InvPost(q, n);
    }
  }

  lemma {:induction false} RunInv(run: seq<Queue>, i: nat)
    requires Run(run) && i < |run|
    ensures Inv(run[i])
  {
    if i == 0 {
      assert SignalsIn({}) == {} && PollsIn({}) == {};
    } else {
      var j := i - 1;
      RunInv(run, j);
      InvStep(run[j], run[i]);
    }
  }

  lemma ShareStep(m: nat)
    ensures (m + S_DEPTH) / S_DEPTH == (m + S_DEPTH - 1) / S_DEPTH + if Signals(m) then 1 else 0
    ensures (m + 1) / S_DEPTH == m / S_DEPTH + if Polls(m) then 1 else 0
  {
    var k, r := m / S_DEPTH, m % S_DEPTH;
    assert m == S_DEPTH * k + r;
  }

  /** Among the first `n` numbers one in 4096 signals, and one in 4096 polls. */
  lemma {:induction false} Shares(n: nat)
    ensures |SignalsIn(Nodes(n))| == (n + S_DEPTH - 1) / S_DEPTH
    ensures |PollsIn(Nodes(n))| == n / S_DEPTH
  {
    hide Signals, Polls;
    if n == 0 {
      assert SignalsIn(Nodes(0)) == {} && PollsIn(Nodes(0)) == {};
    } else {
      hide SignalsIn, PollsIn, Nodes;
      var m := n - 1;
      Shares(m);
      NodesNext(m);
      Joins(Nodes(m), m);
      ShareStep(m);
    }
  }

  lemma Tally(q: Queue)
    requires Inv(q)
    ensures |PollsIn(q.done)| >= q.reserved / S_DEPTH - |q.pending|
    ensures |SignalsIn(q.done)| <= q.reserved / S_DEPTH + 1
    ensures SignalsIn(q.pending) == {} ==> |SignalsIn(q.done)| == (q.reserved + S_DEPTH - 1) / S_DEPTH
  {
    hide Signals, Polls;
    Shares(q.reserved);
    assert PollsIn(q.done) + PollsIn(q.pending) == PollsIn(Nodes(q.reserved));
    assert SignalsIn(q.done) + SignalsIn(q.pending) == SignalsIn(Nodes(q.reserved));
    SubsetSize(PollsIn(q.pending), q.pending);
  }

  /** In every run, whatever the order of the writes, no more completions wait to be
      polled than one plus the writes that are reserved and not yet posted. */
  lemma CompletionsBounded(run: seq<Queue>, i: nat)
    requires Run(run) && i < |run|
    ensures run[i].completions <= 1 + |run[i].pending|
  {
    RunInv(run, i);
    Tally(run[i]);
  }

  /** In every run, whatever the order of the writes, the polls do not deadlock: while
      writes are pending, one of them may be posted. */
  lemma SomeWriteProceeds(run: seq<Queue>, i: nat)
    requires Run(run) && i < |run| && run[i].pending != {}
    ensures exists n :: MayPost(run[i], n)
  {
    var q := run[i];
    RunInv(run, i);
    if n :| n in q.pending && !Polls(n) {
      assert MayPost(q, n);
    } else {
      PollersLeft(q);
      var n :| n in q.pending;
      assert MayPost(q, n);
    }
  }

  /** When only pollers are left there is a completion for one of them. */
  lemma PollersLeft(q: Queue)
    requires Inv(q) && q.pending != {} && forall n :: n in q.pending ==> Polls(n)
    ensures q.completions > 0
  {
    Shares(q.reserved);
    assert PollsIn(q.pending) == q.pending;
    assert SignalsIn(q.pending) == {};
    assert PollsIn(q.done) + q.pending == PollsIn(Nodes(q.reserved));
    assert |PollsIn(q.done)| == q.reserved / S_DEPTH - |q.pending|;
    Tally(q);
  }
}
