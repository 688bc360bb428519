/** The two-pass scan of pending vote requests. */
module VoteScan {
  import opened Options
  import opened Bytes
  import opened Sids

  const FIXED_LEADER := 1

  datatype VoteReq = VoteReq(sid: Sid, index: nat, term: nat)

  /** How up to date a log is: the term and index of its last entry. */
  datatype Rank = Rank(term: nat, index: nat)

  /** `a` is strictly better than `b`. */
  predicate Beats(a: Rank, b: Rank)
  {
    a.term > b.term || (a.term == b.term && a.index > b.index)
  }

  function RankOf(r: VoteReq): (k: Rank)
  {
    Rank(r.term, r.index)
  }

  /** What a server says of its own log. */
  function LocalRank(me: nat): (k: Rank)
  {
    Rank(1, if me == FIXED_LEADER then 1 else 0)
  }

  /** What the scan comes to: nothing to do, raise the own term, or back the
      candidate that sent `sid`. */
  datatype Verdict = Ignore | Raise(term: nat) | Support(sid: Sid)

  // ------------------------------------------------------------- specification

  /** The largest word among `mark` and the first `n` requests, the own slot aside. */
  function BestSid(s: seq<VoteReq>, me: nat, mark: Sid, n: nat): (b: Sid)
    requires n <= |s|
  {
    if n == 0 then mark
    else
      var b := BestSid(s, me, mark, n - 1);
      if n - 1 != me && s[n - 1].sid > b then s[n - 1].sid else b
  }

  lemma BestSidNext(s: seq<VoteReq>, me: nat, mark: Sid, n: nat)
    requires n < |s|
    ensures BestSid(s, me, mark, n + 1) ==
              if Survives(s, me, mark, n) then s[n].sid else BestSid(s, me, mark, n)
  {
  }

  /** It bounds them all, and grows with `n`. */
  lemma {:induction false} BestSidBounds(s: seq<VoteReq>, me: nat, mark: Sid, m: nat, n: nat)
    requires m <= n <= |s|
    ensures mark <= BestSid(s, me, mark, m) <= BestSid(s, me, mark, n)
    ensures m < n && m != me ==> s[m].sid <= BestSid(s, me, mark, n)
    decreases n
  {
    if m < n {
      BestSidBounds(s, me, mark, m, n - 1);
    } else if n > 0 {
      BestSidBounds(s, me, mark, n - 1, n - 1);
    }
  }

  /** Unless it is `mark` itself, it is the word of a survivor. */
  lemma {:induction false} BestSidSurvives(s: seq<VoteReq>, me: nat, mark: Sid, n: nat) returns (i: nat)
    requires n <= |s| && BestSid(s, me, mark, n) != mark
    ensures i < n && Survives(s, me, mark, i) && s[i].sid == BestSid(s, me, mark, n)
  {
    if n - 1 != me && s[n - 1].sid > BestSid(s, me, mark, n - 1) {
      i := n - 1;
    } else {
      i := BestSidSurvives(s, me, mark, n - 1);
    }
  }

  /** Request `i` is kept by the first pass: larger than all before it. */
  predicate Survives(s: seq<VoteReq>, me: nat, mark: Sid, i: nat)
    requires i < |s|
  {
    i != me && s[i].sid > BestSid(s, me, mark, i)
  }

  /** The slot the second pass likes best among the first `n`; none means itself. */
  function Winner(s: seq<VoteReq>, me: nat, mark: Sid, n: nat): (w: Option<nat>)
    requires n <= |s|
    ensures w.Some? ==> w.value < n
  {
    if n == 0 then None
    else
      var w := Winner(s, me, mark, n - 1);
      if Survives(s, me, mark, n - 1) && !Beats(WinnerRank(s, me, w), RankOf(s[n - 1])) then Some(n - 1) else w
  }

  lemma WinnerNext(s: seq<VoteReq>, me: nat, mark: Sid, n: nat)
    requires n < |s|
    ensures var w := Winner(s, me, mark, n);
            Winner(s, me, mark, n + 1) ==
              if Survives(s, me, mark, n) && !Beats(WinnerRank(s, me, w), RankOf(s[n])) then Some(n) else w
  {
  }

  lemma NothingScanned(s: seq<VoteReq>, me: nat, mark: Sid)
    ensures BestSid(s, me, mark, 0) == mark && Winner(s, me, mark, 0) == None
  {
  }

  function WinnerRank(s: seq<VoteReq>, me: nat, w: Option<nat>): (k: Rank)
    requires w.Some? ==> w.value < |s|
  {
    if w.Some? then RankOf(s[w.value]) else LocalRank(me)
  }

  function Decide(s: seq<VoteReq>, me: nat, sid: Sid): (v: Verdict)
  {
    var mark := SetL(sid);
    if GetL(sid) || BestSid(s, me, mark, |s|) == mark then Ignore
    else
      var w := Winner(s, me, mark, |s|);
      if w.Some? then Support(s[w.value].sid) else Raise(GetTerm(BestSid(s, me, mark, |s|)))
  }

  /** Slot `i` still holds its request after both passes: it survived the first and
      the second found it worse than the best so far. */
  predicate Stays(s: seq<VoteReq>, me: nat, mark: Sid, i: nat)
    requires i < |s|
  {
    Survives(s, me, mark, i) && Beats(WinnerRank(s, me, Winner(s, me, mark, i)), RankOf(s[i]))
  }

  /** The slots after the scan. */
  function Cleared(s: seq<VoteReq>, me: nat, sid: Sid): (s': seq<VoteReq>)
    ensures |s'| == |s|
  {
    var mark := SetL(sid);
    if GetL(sid) then s
    else if BestSid(s, me, mark, |s|) == mark then
      seq(|s|, i requires 0 <= i < |s| => if i == me then s[i] else s[i].(sid := 0))
    else
      seq(|s|, i requires 0 <= i < |s| => if Stays(s, me, mark, i) then s[i] else s[i].(sid := 0))
  }

  // ------------------------------------------------------------------- the code

  /** First pass: drop every request that is no larger than the best so far. */
  method DropSmaller(slots: array<VoteReq>, me: nat, mark: Sid) returns (best: Sid)
    modifies slots
    ensures best == BestSid(old(slots[..]), me, mark, slots.Length)
    ensures forall i :: 0 <= i < slots.Length ==>
              slots[i] ==
                if i == me || Survives(old(slots[..]), me, mark, i) then old(slots[i]) else old(slots[i]).(sid := 0)
  {
    hide BestSid;
    best := mark;
    ghost var s := slots[..];
    var i := 0;
    NothingScanned(s, me, mark);
    while i < slots.Length
      invariant 0 <= i <= slots.Length
      invariant best == BestSid(s, me, mark, i)
      invariant forall k :: i <= k < slots.Length ==> slots[k] == s[k]
      invariant forall k :: 0 <= k < i ==>
                  slots[k] == if k == me || Survives(s, me, mark, k) then s[k] else s[k].(sid := 0)
    {
      BestSidNext(s, me, mark, i);
      if i != me {
        if best >= slots[i].sid {
          slots[i] := slots[i].(sid := 0);
        } else {
          best := slots[i].sid;
        }
      }
      i := i + 1;
    }
  }

  /** Second pass, over what the first has left of `s`: keep the request whose log
      is at least as good as the best so far.  The own slot holds an older word of
      this server, so it is dropped like the rest. */
  method ChooseBest(slots: array<VoteReq>, me: nat, mark: Sid, top: Sid, ghost s: seq<VoteReq>)
    returns (best: VoteReq, highest: nat)
    requires |s| == slots.Length && me < |s| && s[me].sid < mark && top == BestSid(s, me, mark, |s|)
    requires forall i :: 0 <= i < |s| ==>
               slots[i] == if i == me || Survives(s, me, mark, i) then s[i] else s[i].(sid := 0)
    modifies slots
    ensures var w := Winner(s, me, mark, |s|);
            best.sid == (if w.Some? then s[w.value].sid else mark)
    ensures highest == GetTerm(top)
    ensures forall i :: 0 <= i < |s| ==> slots[i] == if Stays(s, me, mark, i) then s[i] else s[i].(sid := 0)
  {
    hide BestSid, Winner, GetTerm;
    best := VoteReq(mark, if me == FIXED_LEADER then 1 else 0, 1);
    highest := GetTerm(top);
    var i := 0;
    NothingScanned(s, me, mark);
    while i < slots.Length
      invariant 0 <= i <= |s|
      invariant var w := Winner(s, me, mark, i);
                && best.sid == (if w.Some? then s[w.value].sid else mark)
                && RankOf(best) == WinnerRank(s, me, w)
                && best.sid <= BestSid(s, me, mark, i)
      invariant highest == GetTerm(top)
      invariant best.sid >= mark
      invariant forall k :: i <= k < |s| ==>
                  slots[k] == if k == me || Survives(s, me, mark, k) then s[k] else s[k].(sid := 0)
      invariant forall k :: 0 <= k < i ==> slots[k] == if Stays(s, me, mark, k) then s[k] else s[k].(sid := 0)
    {
      var request := slots[i];
      BestSidBounds(s, me, mark, i, |s|);
      BestSidNext(s, me, mark, i);
      WinnerNext(s, me, mark, i);
      if best.sid > request.sid {
        slots[i] := request.(sid := 0);
      } else {
        assert Survives(s, me, mark, i);
        TermMonotone(request.sid, top);
        if highest < GetTerm(request.sid) {
          highest := GetTerm(request.sid);
        }
        if !(best.term > request.term || (best.term == request.term && best.index > request.index)) {
          best := request;
          slots[i] := request.(sid := 0);
        }
      }
      i := i + 1;
    }
  }

  /** `poll_vote_requests`, up to acting on its verdict. */
  method PollVoteRequests(slots: array<VoteReq>, me: nat, sid: Sid) returns (v: Verdict)
    requires me < slots.Length && slots[me].sid < SetL(sid)
    modifies slots
    ensures v == Decide(old(slots[..]), me, sid)
    ensures slots[..] == Cleared(old(slots[..]), me, sid)
  {
    hide BestSid, Winner, Survives;
    if GetL(sid) {
      return Ignore;
    }
    var marked := SetL(sid);
    ghost var s := slots[..];
    var top := DropSmaller(slots, me, marked);
    if top == marked {
      forall i | 0 <= i < |s| && i != me ensures !Survives(s, me, marked, i) { NoSurvivor(s, me, marked, i); }
      return Ignore;
    }
    var best, highest := ChooseBest(slots, me, marked, top, s);
    WinnerIsChoice(s, me, marked, |s|);
    if best.sid == marked {
      return Raise(highest);
    }
    return Support(best.sid);
  }

  lemma NoSurvivor(s: seq<VoteReq>, me: nat, mark: Sid, i: nat)
    requires i < |s| && BestSid(s, me, mark, |s|) == mark
    ensures !Survives(s, me, mark, i)
  {
    BestSidBounds(s, me, mark, i, |s|);
  }

  // --------------------------------------------------------- what the scan picks

  /** `c` has the best log of the survivors, the last such, no worse than the own. */
  ghost predicate IsChoice(s: seq<VoteReq>, me: nat, mark: Sid, n: nat, c: nat)
    requires n <= |s|
  {
    && c < n && Survives(s, me, mark, c)
    && !Beats(LocalRank(me), RankOf(s[c]))
    && (forall k :: 0 <= k < n && Survives(s, me, mark, k) ==> !Beats(RankOf(s[k]), RankOf(s[c])))
    && (forall k :: c < k < n && Survives(s, me, mark, k) ==> Beats(RankOf(s[c]), RankOf(s[k])))
  }

  /** The scan picks that request, or beats every survivor itself. */
  lemma {:induction false} WinnerIsChoice(s: seq<VoteReq>, me: nat, mark: Sid, n: nat)
    requires n <= |s|
    ensures var w := Winner(s, me, mark, n);
            && (w.Some? ==> IsChoice(s, me, mark, n, w.value) && s[w.value].sid > mark)
            && (w.None? ==> forall k :: 0 <= k < n && Survives(s, me, mark, k) ==> Beats(LocalRank(me), RankOf(s[k])))
  {
    hide BestSid;
    if n > 0 {
      WinnerIsChoice(s, me, mark, n - 1);
      WinnerNext(s, me, mark, n - 1);
      BestSidBounds(s, me, mark, n - 1, n);
    }
  }

  /** Survivors come in the order of their words. */
  lemma SurvivorsAscend(s: seq<VoteReq>, me: nat, mark: Sid, i: nat, k: nat)
    requires i < k < |s| && Survives(s, me, mark, i) && Survives(s, me, mark, k)
    ensures s[i].sid < s[k].sid
  {
    BestSidBounds(s, me, mark, i, k);
  }

  /** A request dropped by the first pass was dropped for a survivor before it. */
  lemma DroppedFor(s: seq<VoteReq>, me: nat, mark: Sid, d: nat) returns (e: nat)
    requires d < |s| && d != me && s[d].sid > mark && !Survives(s, me, mark, d)
    ensures e < d && Survives(s, me, mark, e) && s[e].sid >= s[d].sid
  {
    e := BestSidSurvives(s, me, mark, d);
  }

  // ------------------------------------------------------- when it picks a best

  /** No pending request has both a larger word and a log at least as good. */
  ghost predicate ParetoBest(s: seq<VoteReq>, me: nat, mark: Sid, c: nat)
    requires c < |s|
  {
    forall d :: 0 <= d < |s| && d != me && s[d].sid > mark ==>
      !(s[d].sid > s[c].sid && !Beats(RankOf(s[c]), RankOf(s[d])))
  }

  /** The requests in `s` carry the given ranks, slot by slot; a slot whose word is
      zero holds no request. */
  predicate HasRanks(s: seq<VoteReq>, ranks: seq<Rank>)
  {
    |s| == |ranks| && forall i :: 0 <= i < |s| && s[i].sid != 0 ==> RankOf(s[i]) == ranks[i]
  }

  /** A rank at least the own, then in a later slot a worse one, then in a still
      later slot one that is again as good. */
  ghost predicate Dips(ranks: seq<Rank>, me: nat, a: nat, b: nat, d: nat)
  {
    && a < b < d < |ranks| && a != me && b != me && d != me
    && !Beats(LocalRank(me), ranks[a])
    && Beats(ranks[a], ranks[b]) && !Beats(ranks[a], ranks[d])
  }

  ghost predicate NoDip(ranks: seq<Rank>, me: nat)
  {
    forall a, b, d :: !Dips(ranks, me, a, b, d)
  }

  lemma ChoiceIsPareto(s: seq<VoteReq>, ranks: seq<Rank>, me: nat, mark: Sid, c: nat)
    requires HasRanks(s, ranks) && NoDip(ranks, me) && IsChoice(s, me, mark, |s|, c)
    ensures ParetoBest(s, me, mark, c)
  {
    hide BestSid;
    forall d | 0 <= d < |s| && d != me && s[d].sid > mark && s[d].sid > s[c].sid
      ensures Beats(RankOf(s[c]), RankOf(s[d]))
    {
      if Survives(s, me, mark, d) {
        if d < c { SurvivorsAscend(s, me, mark, d, c); }
      } else {
        var e := DroppedFor(s, me, mark, d);
        if e < c { SurvivorsAscend(s, me, mark, e, c); }
        assert Beats(RankOf(s[c]), RankOf(s[e]));
        assert !Dips(ranks, me, c, e, d);
      }
    }
  }

  /** Three words that make the scan settle for the first of three dipping ranks. */
  function Trap(ranks: seq<Rank>, a: nat, b: nat, d: nat, mark: Sid): (s: seq<VoteReq>)
    requires mark < U64 - 3
  {
    seq(|ranks|, i requires 0 <= i < |ranks| =>
      VoteReq(if i == a then mark + 1 else if i == b then mark + 3 else if i == d then mark + 2 else 0,
              ranks[i].index, ranks[i].term))
  }

  lemma {:induction false} TrapBest(ranks: seq<Rank>, me: nat, a: nat, b: nat, d: nat, mark: Sid, n: nat)
    requires Dips(ranks, me, a, b, d) && mark < U64 - 3 && n <= |ranks|
    ensures BestSid(Trap(ranks, a, b, d, mark), me, mark, n) ==
              if n <= a then mark else if n <= b then mark + 1 else mark + 3
  {
    if n > 0 { TrapBest(ranks, me, a, b, d, mark, n - 1); }
  }

  lemma TrapWorks(ranks: seq<Rank>, me: nat, a: nat, b: nat, d: nat, mark: Sid)
    requires Dips(ranks, me, a, b, d) && mark < U64 - 3
    ensures var s := Trap(ranks, a, b, d, mark);
            HasRanks(s, ranks) && IsChoice(s, me, mark, |s|, a) && !ParetoBest(s, me, mark, a)
  {
    var s := Trap(ranks, a, b, d, mark);
    forall k | 0 <= k < |s| ensures Survives(s, me, mark, k) <==> k == a || k == b {
      TrapBest(ranks, me, a, b, d, mark, k);
    }
    assert s[d].sid > s[a].sid;
  }

  /** Whatever words arrive, the scan picks a best request in this sense -- exactly
      when the ranks of the slots have no dip. */
  lemma ParetoExact(ranks: seq<Rank>, me: nat, mark: Sid)
    requires mark < U64 - 3
    ensures NoDip(ranks, me) <==>
              forall s: seq<VoteReq>, c: nat ::
                HasRanks(s, ranks) && IsChoice(s, me, mark, |s|, c) ==> ParetoBest(s, me, mark, c)
  {
    hide ParetoBest;
    if NoDip(ranks, me) {
      forall s: seq<VoteReq>, c: nat | HasRanks(s, ranks) && IsChoice(s, me, mark, |s|, c)
        ensures ParetoBest(s, me, mark, c)
      {
        ChoiceIsPareto(s, ranks, me, mark, c);
      }
    } else {
      var a, b, d :| Dips(ranks, me, a, b, d);
      TrapWorks(ranks, me, a, b, d, mark);
    }
  }

  /** The ranks that servers really send: term 1, and index 1 for the fixed leader. */
  function SentRanks(size: nat): (ranks: seq<Rank>)
  {
    seq(size, i requires 0 <= i < size => LocalRank(i))
  }

  lemma SentRanksNoDip(size: nat, me: nat)
    ensures NoDip(SentRanks(size), me)
  {
  }

  /** When the scan finds no request to its liking, its own log strictly beats every
      pending one -- exactly when no slot worse than the own log is followed by one
      that is as good. */
  ghost predicate NoLateEqual(ranks: seq<Rank>, me: nat)
  {
    forall b, d :: 0 <= b < d < |ranks| && b != me && d != me && Beats(LocalRank(me), ranks[b]) ==>
      Beats(LocalRank(me), ranks[d])
  }

  ghost predicate BeatsAll(s: seq<VoteReq>, me: nat, mark: Sid)
  {
    forall d :: 0 <= d < |s| && d != me && s[d].sid > mark ==> Beats(LocalRank(me), RankOf(s[d]))
  }

  lemma KeepsOwn(s: seq<VoteReq>, ranks: seq<Rank>, me: nat, mark: Sid)
    requires HasRanks(s, ranks) && NoLateEqual(ranks, me) && Winner(s, me, mark, |s|).None?
    ensures BeatsAll(s, me, mark)
  {
    WinnerIsChoice(s, me, mark, |s|);
    hide BestSid, Winner;
    forall d | 0 <= d < |s| && d != me && s[d].sid > mark ensures Beats(LocalRank(me), RankOf(s[d])) {
      if !Survives(s, me, mark, d) {
        var e := DroppedFor(s, me, mark, d);
        assert Beats(LocalRank(me), ranks[e]);
      }
    }
  }

  function Shadow(ranks: seq<Rank>, b: nat, d: nat, mark: Sid): (s: seq<VoteReq>)
    requires mark < U64 - 3
  {
    seq(|ranks|, i requires 0 <= i < |ranks| =>
      VoteReq(if i == b then mark + 2 else if i == d then mark + 1 else 0, ranks[i].index, ranks[i].term))
  }

  lemma {:induction false} ShadowBest(ranks: seq<Rank>, me: nat, b: nat, d: nat, mark: Sid, n: nat)
    requires b < d < |ranks| && b != me && mark < U64 - 3 && n <= |ranks|
    ensures BestSid(Shadow(ranks, b, d, mark), me, mark, n) == if n <= b then mark else mark + 2
  {
    if n > 0 { ShadowBest(ranks, me, b, d, mark, n - 1); }
  }

  lemma ShadowWorks(ranks: seq<Rank>, me: nat, b: nat, d: nat, mark: Sid)
    requires b < d < |ranks| && b != me && d != me && mark < U64 - 3
    requires Beats(LocalRank(me), ranks[b]) && !Beats(LocalRank(me), ranks[d])
    ensures var s := Shadow(ranks, b, d, mark);
            HasRanks(s, ranks) && Winner(s, me, mark, |s|).None? && !BeatsAll(s, me, mark)
  {
    var s := Shadow(ranks, b, d, mark);
    forall k | 0 <= k < |s| ensures Survives(s, me, mark, k) <==> k == b {
      ShadowBest(ranks, me, b, d, mark, k);
    }
    WinnerIsChoice(s, me, mark, |s|);
    assert s[d].sid > mark;
  }

  lemma KeepsOwnExact(ranks: seq<Rank>, me: nat, mark: Sid)
    requires mark < U64 - 3
    ensures NoLateEqual(ranks, me) <==>
              forall s: seq<VoteReq> ::
                HasRanks(s, ranks) && Winner(s, me, mark, |s|).None? ==> BeatsAll(s, me, mark)
  {
    hide Winner, BeatsAll;
    if NoLateEqual(ranks, me) {
      forall s: seq<VoteReq> | HasRanks(s, ranks) && Winner(s, me, mark, |s|).None? ensures BeatsAll(s, me, mark) {
        KeepsOwn(s, ranks, me, mark);
      }
    } else {
      var b, d :| && 0 <= b < d < |ranks| && b != me && d != me
                  && Beats(LocalRank(me), ranks[b]) && !Beats(LocalRank(me), ranks[d]);
      ShadowWorks(ranks, me, b, d, mark);
    }
  }

  lemma SentRanksNoLateEqual(size: nat, me: nat)
    ensures NoLateEqual(SentRanks(size), me)
  {
  }

  /** The request in slot `i` is pending: its word is above the own one with the leader
      flag up. */
  predicate Pending(s: seq<VoteReq>, me: nat, mark: Sid, i: nat)
  {
    i < |s| && i != me && s[i].sid > mark
  }

  /** A scan ignores the requests if and only if the server knows a leader or none of them
      is pending. */
  lemma IgnoreExact(s: seq<VoteReq>, me: nat, sid: Sid)
    ensures Decide(s, me, sid).Ignore? <==> GetL(sid) || forall i: nat :: !Pending(s, me, SetL(sid), i)
  {
    hide Winner;
    var mark := SetL(sid);
    if BestSid(s, me, mark, |s|) == mark {
      forall i: nat | i < |s| && i != me ensures s[i].sid <= mark { BestSidBounds(s, me, mark, i, |s|); }
    } else {
      var i := BestSidSurvives(s, me, mark, |s|);
      BestSidBounds(s, me, mark, i, |s|);
      SurvivorPending(s, me, mark, i);
    }
  }

  lemma SurvivorPending(s: seq<VoteReq>, me: nat, mark: Sid, i: nat)
    requires i < |s| && Survives(s, me, mark, i)
    ensures Pending(s, me, mark, i)
  {
    BestSidBounds(s, me, mark, i, i);
  }

  /** The first pass keeps exactly the pending requests that are larger than all before
      them. */
  lemma SurvivesExact(s: seq<VoteReq>, me: nat, mark: Sid, i: nat)
    requires i < |s|
    ensures Survives(s, me, mark, i) <==>
              Pending(s, me, mark, i) && forall k :: 0 <= k < i && k != me ==> s[k].sid < s[i].sid
  {
    forall k | 0 <= k < i && k != me ensures s[k].sid <= BestSid(s, me, mark, i) { BestSidBounds(s, me, mark, k, i); }
    BestSidBounds(s, me, mark, i, i);
    if BestSid(s, me, mark, i) != mark { var k := BestSidSurvives(s, me, mark, i); }
  }

  /** The second pass leaves exactly those of them that the own log beats, or one of them
      that came before. */
  lemma StaysExact(s: seq<VoteReq>, me: nat, mark: Sid, i: nat)
    requires i < |s|
    ensures Stays(s, me, mark, i) <==>
              && Survives(s, me, mark, i)
              && (|| Beats(LocalRank(me), RankOf(s[i]))
                  || exists k :: 0 <= k < i && Survives(s, me, mark, k) && Beats(RankOf(s[k]), RankOf(s[i])))
  {
    WinnerIsChoice(s, me, mark, i);
    hide BestSid, Winner, Survives;
  }

  /** What a scan leaves in the slots.  With a leader known it touches nothing.  Otherwise
      it clears every word but that of a request which survived both passes, and the own
      one if nothing is pending; it never touches a rank, and the supported request is
      cleared. */
  lemma ClearedExact(s: seq<VoteReq>, me: nat, sid: Sid, i: nat)
    requires i < |s|
    ensures var s', v := Cleared(s, me, sid), Decide(s, me, sid);
            && s'[i] in {s[i], s[i].(sid := 0)}
            && (GetL(sid) ==> s'[i] == s[i])
            && (!GetL(sid) && i != me ==> s'[i].sid == if Stays(s, me, SetL(sid), i) then s[i].sid else 0)
            && (!GetL(sid) && i == me ==> s'[i].sid == if v.Ignore? then s[i].sid else 0)
            && (v.Support? && s[i].sid == v.sid && i != me ==> s'[i].sid == 0)
  {
    var mark, n := SetL(sid), |s|;
    IgnoreExact(s, me, sid);
    if !GetL(sid) {
      if BestSid(s, me, mark, n) == mark { NoSurvivor(s, me, mark, i); }
      if Decide(s, me, sid).Support? && i != me && Stays(s, me, mark, i) {
        WinnerIsChoice(s, me, mark, n);
        WinnerIsChoice(s, me, mark, i);
        var c := Winner(s, me, mark, n).value;
        if c < i { SurvivorsAscend(s, me, mark, c, i); }
        if i < c { SurvivorsAscend(s, me, mark, i, c); }
        hide BestSid, Winner, Survives;
        StaysExact(s, me, mark, i);
      }
    }
  }

  /** On the ranks that servers send, it supports somebody if and only if some pending
      request is not beaten by the own log. */
  lemma SupportExact(s: seq<VoteReq>, me: nat, sid: Sid)
    requires HasRanks(s, SentRanks(|s|)) && !Decide(s, me, sid).Ignore?
    ensures Decide(s, me, sid).Support? <==>
              exists i: nat :: Pending(s, me, SetL(sid), i) && !Beats(LocalRank(me), RankOf(s[i]))
  {
    var mark := SetL(sid);
    WinnerIsChoice(s, me, mark, |s|);
    hide BestSid, Winner, SentRanks, NoLateEqual, Beats;
    var w := Winner(s, me, mark, |s|);
    if w.Some? {
      SurvivorPending(s, me, mark, w.value);
    } else {
      SentRanksNoLateEqual(|s|, me);
      KeepsOwn(s, SentRanks(|s|), me, mark);
    }
  }

  /** A raised term is the highest of the pending terms. */
  lemma RaiseExact(s: seq<VoteReq>, me: nat, sid: Sid)
    requires Decide(s, me, sid).Raise?
    ensures var t := Decide(s, me, sid).term;
            && (forall i: nat :: Pending(s, me, SetL(sid), i) ==> GetTerm(s[i].sid) <= t)
            && (exists i: nat :: Pending(s, me, SetL(sid), i) && GetTerm(s[i].sid) == t)
  {
    hide BestSid, Winner, GetTerm;
    var mark := SetL(sid);
    forall i: nat | Pending(s, me, mark, i) ensures GetTerm(s[i].sid) <= Decide(s, me, sid).term {
      BestSidBounds(s, me, mark, i, |s|);
      TermMonotone(s[i].sid, BestSid(s, me, mark, |s|));
    }
    var i := BestSidSurvives(s, me, mark, |s|);
    SurvivorPending(s, me, mark, i);
  }

  /** On the requests that servers really send, a scan that supports a candidate has
      found the last of those with the best log, which is Pareto-best and of a strictly
      higher term; one that raises the own term beats every pending log, and the new term
      is strictly higher too.  It is silent only if it knows a leader or nothing is
      pending. */
  lemma ScanVerdict(s: seq<VoteReq>, me: nat, sid: Sid)
    requires me < |s| && HasRanks(s, SentRanks(|s|)) && s[me].sid < SetL(sid)
    requires forall i :: 0 <= i < |s| ==> !GetL(s[i].sid)
    ensures var v := Decide(s, me, sid);
            && (v.Support? ==> exists c ::
                  && 0 <= c < |s| && c != me && s[c].sid == v.sid && GetTerm(v.sid) > GetTerm(sid)
                  && IsChoice(s, me, SetL(sid), |s|, c) && ParetoBest(s, me, SetL(sid), c))
            && (v.Raise? ==> v.term > GetTerm(sid) && BeatsAll(s, me, SetL(sid)))
            && (v.Ignore? <==> GetL(sid) || forall i: nat :: !Pending(s, me, SetL(sid), i))
  {
    var mark, v := SetL(sid), Decide(s, me, sid);
    IgnoreExact(s, me, sid);
    Setters(sid, 0, 0);
    PackFields(GetTerm(sid), true, GetIdx(sid), sid);
    WinnerIsChoice(s, me, mark, |s|);
    hide BestSid, Winner, NoDip, NoLateEqual, Survives, SentRanks;
    if v.Support? {
      var c := Winner(s, me, mark, |s|).value;
      SentRanksNoDip(|s|, me);
      ChoiceIsPareto(s, SentRanks(|s|), me, mark, c);
      HigherTerm(mark, s[c].sid);
      ChoiceNotMe(s, me, mark, c);
    } else if v.Raise? {
      SentRanksNoLateEqual(|s|, me);
      KeepsOwn(s, SentRanks(|s|), me, mark);
      var i := BestSidSurvives(s, me, mark, |s|);
      BestSidBounds(s, me, mark, i, |s|);
      HigherTerm(mark, s[i].sid);
    }
  }

  lemma ChoiceNotMe(s: seq<VoteReq>, me: nat, mark: Sid, c: nat)
    requires IsChoice(s, me, mark, |s|, c)
    ensures c != me
  {
  }

  /** Above a word with the leader flag, only a higher term has the flag down. */
  lemma HigherTerm(mark: Sid, s: Sid)
    requires GetL(mark) && !GetL(s) && s > mark
    ensures GetTerm(s) > GetTerm(mark)
  {
    PackOrder(s, mark);
  }
}
