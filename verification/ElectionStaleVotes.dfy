/** Without the condition on the votes, one leader per term fails: raising the own
    term keeps old votes in the cells, and a winner counts them.  In every group of
    five or more servers there is a run in which servers 1 and 2 both become leader
    of term 4; in a group of up to four there is none. */
module ElectionStaleVotes {
  import opened Options
  import opened Sids
  import opened VoteScan
  import opened Quorums
  import opened Election

  /** The word of candidate `p` in a term. */
  function Word(term: nat, p: nat): (s: Sid)
    requires term <= MAX_TERM && p < 256
  {
    Pack(term, false, p)
  }

  lemma WordFields(term: nat, p: nat)
    requires term <= MAX_TERM && p < 256
    ensures GetTerm(Word(term, p)) == term && !GetL(Word(term, p)) && GetIdx(Word(term, p)) == p
    ensures SetL(Word(term, p)) == term * 512 + 256 + p
    ensures Word(term, p) == term * 512 + p
  {
    PackFields(term, false, p, 0);
    Setters(Word(term, p), 0, 0);
  }

  /** The request that candidate `p` of a term sends to server `i`. */
  function Ask(p: nat, i: nat, term: nat): (m: Msg)
    requires term <= MAX_TERM && p < 256
  {
    RequestMsg(p, i, VoteReq(Word(term, p), LocalRank(p).index, 1))
  }

  // ------------------------------------------------------------ effects of steps

  ghost function Last(run: seq<State>): (s: State)
  {
    if run == [] then Init(0) else run[|run| - 1]
  }

  lemma Extend(n: nat, run: seq<State>, a: Action) returns (run': seq<State>)
    requires Run(n, run) && Enabled(Last(run), a)
    ensures Run(n, run') && Last(run') == Apply(Last(run), a)
  {
    run' := run + [Apply(Last(run), a)];
    forall k | 0 <= k < |run'| - 1 ensures Next(run'[k], run'[k + 1]) {
      if k < |run| - 1 { assert Next(run[k], run[k + 1]); }
    }
  }

  /** Only server `p` differs; messages are added, claims are not. */
  ghost predicate Moved(s: State, s': State, p: nat)
  {
    && Shaped(s) && Shaped(s') && |s'.servers| == |s.servers| && p < |s.servers|
    && (forall q :: 0 <= q < |s.servers| && q != p ==> s'.servers[q] == s.servers[q])
    && s.sent <= s'.sent && s'.claims == s.claims
  }

  lemma Timeout(n: nat, run: seq<State>, p: nat, t: nat) returns (run': seq<State>)
    requires Run(n, run) && Shaped(Last(run)) && p < |Last(run).servers| && p != INIT_LEADER
    requires GetTerm(Last(run).servers[p].sid) + 1 == t <= MAX_TERM
    ensures Run(n, run') && Moved(Last(run), Last(run'), p)
    ensures var v := Last(run').servers[p];
            && v.sid == Word(t, p)
            && v.reqs == Last(run).servers[p].reqs[p := VoteReq(Word(t, p), LocalRank(p).index, 1)]
            && v.acks == seq(|Last(run).servers|, _ => Ack(NO_REPLY, 0))
    ensures forall i :: 0 <= i < |Last(run).servers| && i != p && i != INIT_LEADER ==> Ask(p, i, t) in Last(run').sent
  {
    run' := Extend(n, run, TimeoutA(p));
    CandidacyGrows(Last(run).servers[p].sid, p);
  }

  lemma Hand(n: nat, run: seq<State>, m: Msg) returns (run': seq<State>)
    requires Run(n, run) && Shaped(Last(run)) && m in Last(run).sent
    requires m.from < |Last(run).servers| && m.to < |Last(run).servers| && (m.RequestMsg? ==> !GetL(m.req.sid))
    ensures Run(n, run') && Moved(Last(run), Last(run'), m.to) && Last(run').sent == Last(run).sent
    ensures var v, w := Last(run).servers[m.to], Last(run').servers[m.to];
            && w.sid == v.sid
            && w.reqs == (if m.RequestMsg? then v.reqs[m.from := m.req] else v.reqs)
            && w.acks == (if m.VoteMsg? then v.acks[m.from := m.ack] else v.acks)
  {
    run' := Extend(n, run, if m.RequestMsg? then DeliverA(m, m.req, 0) else DeliverA(m, VoteReq(0, 0, 0), m.ack.end));
  }

  /** A scan with a single request above the own word. */
  lemma {:induction false} OnePending(s: seq<VoteReq>, me: nat, mark: Sid, c: nat, n: nat)
    requires c < |s| && c != me && s[c].sid > mark && n <= |s|
    requires forall i :: 0 <= i < |s| && i != me && i != c ==> s[i].sid <= mark
    ensures BestSid(s, me, mark, n) == if n <= c then mark else s[c].sid
    ensures Winner(s, me, mark, n) == if n <= c || Beats(LocalRank(me), RankOf(s[c])) then None else Some(c)
  {
    if n > 0 {
      OnePending(s, me, mark, c, n - 1);
      BestSidNext(s, me, mark, n - 1);
      WinnerNext(s, me, mark, n - 1);
    }
  }

  /** Server `p` scans, finds the one request of `c`, and backs it or outbids it. */
  lemma Poll(n: nat, run: seq<State>, p: nat, c: nat, own: Sid, t: nat) returns (run': seq<State>)
    requires Run(n, run) && Shaped(Last(run)) && p < |Last(run).servers| && c < |Last(run).servers| && c != p
    requires GetTerm(own) < t <= MAX_TERM && !GetL(own) && Last(run).servers[p].sid == own
    requires Last(run).servers[p].reqs[c] == VoteReq(Word(t, c), LocalRank(c).index, 1)
    requires forall i :: 0 <= i < |Last(run).servers| && i != p && i != c ==> Last(run).servers[p].reqs[i].sid <= own
    ensures Run(n, run') && Moved(Last(run), Last(run'), p)
    ensures Last(run').servers[p].acks == Last(run).servers[p].acks
    ensures forall i :: 0 <= i < |Last(run).servers| ==>
              Last(run').servers[p].reqs[i].sid == 0 || Last(run').servers[p].reqs[i] == Last(run).servers[p].reqs[i]
    ensures if Beats(LocalRank(p), LocalRank(c)) then Last(run').servers[p].sid == Word(t, p)
            else && Last(run').servers[p].sid == Word(t, c)
                 && VoteMsg(p, c, Ack(0, t)) in Last(run').sent
  {
    run' := Extend(n, run, PollA(p, 0));
    var me := Last(run).servers[p];
    Setters(own, p, t);
    PackFields(GetTerm(own), true, GetIdx(own), own);
    WordFields(t, c);
    WordFields(t, p);
    PackOrder(SetL(own), Word(t, c));
    OnePending(me.reqs, p, SetL(own), c, |me.reqs|);
    hide BestSid, Winner;
    assert Decide(me.reqs, p, own) ==
      if Beats(LocalRank(p), LocalRank(c)) then Raise(t) else Support(Word(t, c));
    if Beats(LocalRank(p), LocalRank(c)) { Raised(own, t, p); }
  }

  lemma Raised(sid: Sid, term: nat, p: nat)
    requires term <= MAX_TERM && p < 256 && !GetL(sid)
    ensures SetIdx(SetTerm(sid, term), p) == Word(term, p)
  {
    Setters(sid, p, term);
    PackFields(term, false, GetIdx(sid), sid);
    Setters(Pack(term, false, GetIdx(sid)), p, term);
  }

  /** No request in the slots is above `bound`. */
  ghost predicate UpTo(reqs: seq<VoteReq>, bound: Sid)
  {
    forall i :: 0 <= i < |reqs| ==> reqs[i].sid <= bound
  }

  /** No server has replied. */
  ghost predicate NoReplies(v: Server)
  {
    forall i :: 0 <= i < |v.acks| ==> v.acks[i].end == NO_REPLY
  }

  /** Server `p` will back a candidate of term `t`. */
  ghost predicate Behind(p: nat, v: Server, t: nat)
  {
    !GetL(v.sid) && GetTerm(v.sid) < t && UpTo(v.reqs, v.sid) && (GetIdx(v.sid) == p ==> NoReplies(v))
  }

  /** A candidate counts before it scans; without replies that changes nothing. */
  lemma CountNone(n: nat, run: seq<State>, p: nat) returns (run': seq<State>)
    requires Run(n, run) && Shaped(Last(run)) && p < |Last(run).servers| && |Last(run).servers| >= 2
    requires IsCandidate(Last(run), p) && NoReplies(Last(run).servers[p])
    ensures Run(n, run') && Last(run') == Last(run)
  {
    run' := Extend(n, run, CountA(p));
    assert Voters(Last(run), p) == {};
  }

  /** Server `p` counts if it is a candidate, gets the request of `c` for term `t`, and
      backs it. */
  lemma Back(n: nat, run: seq<State>, p: nat, c: nat, t: nat) returns (run': seq<State>)
    requires Run(n, run) && Shaped(Last(run)) && |Last(run).servers| == n && 2 <= p < n && p != c && (c == 1 || c == 2)
    requires t <= MAX_TERM && Behind(p, Last(run).servers[p], t)
    requires Ask(c, p, t) in Last(run).sent && !Beats(LocalRank(p), LocalRank(c))
    ensures Run(n, run') && Moved(Last(run), Last(run'), p) && VoteMsg(p, c, Ack(0, t)) in Last(run').sent
    ensures Last(run').servers[p].sid == Word(t, c) && UpTo(Last(run').servers[p].reqs, Word(t, c))
  {
    hide Run, Word, GetTerm, GetL, SetL, Beats;
    var own := Last(run).servers[p].sid;
    WordFields(t, c);
    PackOrder(own, Word(t, c));
    var run0 := run;
    if IsCandidate(Last(run), p) { run0 := CountNone(n, run, p); }
    var run1 := Hand(n, run0, Ask(c, p, t));
    run' := Poll(n, run1, p, c, own, t);
  }

  /** And its vote is delivered. */
  lemma CastVote(n: nat, run: seq<State>, p: nat, c: nat, t: nat) returns (run': seq<State>)
    requires Run(n, run) && Shaped(Last(run)) && |Last(run).servers| == n && 2 <= p < n && p != c && (c == 1 || c == 2)
    requires t <= MAX_TERM && Behind(p, Last(run).servers[p], t)
    requires Ask(c, p, t) in Last(run).sent && !Beats(LocalRank(p), LocalRank(c))
    ensures Run(n, run') && Shaped(Last(run')) && |Last(run').servers| == n
    ensures forall q :: 0 <= q < n && q != p && q != c ==> Last(run').servers[q] == Last(run).servers[q]
    ensures Last(run').servers[p].sid == Word(t, c) && UpTo(Last(run').servers[p].reqs, Word(t, c))
    ensures var v, w := Last(run).servers[c], Last(run').servers[c];
            w.sid == v.sid && w.reqs == v.reqs && w.acks == v.acks[p := Ack(0, t)]
    ensures Last(run).sent <= Last(run').sent && Last(run').claims == Last(run).claims
  {
    hide Run, Word, Behind, UpTo, Beats;
    var mid := Back(n, run, p, c, t);
    run' := Hand(n, mid, VoteMsg(p, c, Ack(0, t)));
  }

  /** From `s` to `s'`, servers `low` up to `k` have voted for `c` in term `t`, and their
      votes have arrived. */
  ghost predicate Voted(s: State, s': State, low: nat, k: nat, c: nat, t: nat)
    requires t <= MAX_TERM && c < 256
  {
    && Shaped(s') && |s'.servers| == |s.servers| && c < low <= k <= |s.servers|
    && (forall p :: low <= p < k ==>
          s'.servers[p].sid == Word(t, c) && UpTo(s'.servers[p].reqs, Word(t, c)) && s'.servers[c].acks[p] == Ack(0, t))
    && (forall p :: 0 <= p < |s.servers| && p != c && !(low <= p < k) ==> s'.servers[p] == s.servers[p])
    && s'.servers[c].sid == s.servers[c].sid && s'.servers[c].reqs == s.servers[c].reqs
    && s.sent <= s'.sent && s'.claims == s.claims
  }

  lemma {:induction false} CastVotes(n: nat, run: seq<State>, low: nat, k: nat, c: nat, t: nat)
    returns (run': seq<State>)
    requires Run(n, run) && Shaped(Last(run)) && |Last(run).servers| == n && 1 <= c < low <= 3 && low <= k <= n
    requires t <= MAX_TERM
    requires forall p :: low <= p < n ==> Behind(p, Last(run).servers[p], t) && Ask(c, p, t) in Last(run).sent
    ensures Run(n, run') && Voted(Last(run), Last(run'), low, k, c, t)
    decreases k
  {
    hide Run, Behind;
    if k == low {
      run' := run;
    } else {
      var p := k - 1;
      var mid := CastVotes(n, run, low, p, c, t);
      run' := CastVote(n, mid, p, c, t);
    }
  }

  /** Candidate `p` counts the replies of servers `low` and up, and claims its term. */
  lemma Win(n: nat, run: seq<State>, low: nat, p: nat, t: nat) returns (run': seq<State>)
    requires Run(n, run) && Shaped(Last(run)) && |Last(run).servers| == n && 1 <= p < low <= 3
    requires low <= n && n - low + 1 >= n / 2 + 1 && t <= MAX_TERM && Last(run).servers[p].sid == Word(t, p)
    requires forall q :: low <= q < n ==> Last(run).servers[p].acks[q].end == 0
    ensures Run(n, run') && Shaped(Last(run')) && |Last(run').servers| == n
    ensures forall q :: 0 <= q < n && q != p ==> Last(run').servers[q] == Last(run).servers[q]
    ensures Last(run').sent == Last(run).sent && Last(run).claims <= Last(run').claims
    ensures exists c :: c in Last(run').claims && c.server == p && c.term == t
  {
    hide Run, Nodes, Voters, Word, GetTerm, GetIdx, GetL, SetL;
    WordFields(t, p);
    run' := Extend(n, run, CountA(p));
    var s, s' := Last(run), Last(run');
    EnoughVoters(s, n, low, p);
    var c := Claim(p, t, map i | i in Voters(s, p) :: s.servers[p].acks[i].term);
    assert c in s'.claims;
  }

  lemma EnoughVoters(s: State, n: nat, low: nat, p: nat)
    requires Shaped(s) && |s.servers| == n && 1 <= p < low <= n
    requires forall q :: low <= q < n ==> s.servers[p].acks[q].end == 0
    ensures |Voters(s, p)| >= n - low
  {
    hide Nodes;
    assert Nodes(n) - Nodes(low) <= Voters(s, p);
    SubsetSize(Nodes(n) - Nodes(low), Voters(s, p));
    SubsetSize(Nodes(low), Nodes(n));
  }

  // ---------------------------------------------------------------------- the run

  /** Servers `low` up to `k` have timed out once, the others never. */
  ghost predicate Down(s: State, n: nat, low: nat, k: nat)
  {
    && Shaped(s) && |s.servers| == n && low <= k <= n
    && (forall p :: low <= p < k ==>
          s.servers[p].sid == Word(2, p) && UpTo(s.servers[p].reqs, Word(2, p)) && NoReplies(s.servers[p]))
    && (forall p :: 0 <= p < n && !(low <= p < k) ==>
          s.servers[p].sid == Pack(1, true, INIT_LEADER) && UpTo(s.servers[p].reqs, 0))
  }

  lemma {:induction false} StepDown(n: nat, low: nat, k: nat) returns (run: seq<State>)
    requires 2 <= low <= k <= n <= 255
    ensures Run(n, run) && Down(Last(run), n, low, k)
    decreases k
  {
    if k == low {
      run := [Init(n)];
    } else {
      var p := k - 1;
      var mid := StepDown(n, low, p);
      PackFields(1, true, INIT_LEADER, 0);
      WordFields(2, p);
      hide Run, Pack;
      run := Timeout(n, mid, p, 2);
    }
  }

  /** Servers `low` and up back server 1 in term 3, and their votes have arrived. */
  ghost predicate FirstVotes(s: State, n: nat, low: nat)
  {
    && Shaped(s) && |s.servers| == n >= 3 && 2 <= low <= 3
    && s.servers[1].sid == Word(3, 1) && (low == 3 ==> s.servers[2].sid == Pack(1, true, INIT_LEADER))
    && UpTo(s.servers[1].reqs, Word(3, 1))
    && forall p :: low <= p < n ==>
         s.servers[p].sid == Word(3, 1) && UpTo(s.servers[p].reqs, Word(3, 1)) && s.servers[1].acks[p] == Ack(0, 3)
  }

  lemma Prologue(n: nat, low: nat) returns (run: seq<State>)
    requires 3 <= n <= 255 && 2 <= low <= 3
    ensures Run(n, run) && FirstVotes(Last(run), n, low)
  {
    var run0 := StepDown(n, low, n);
    PackFields(1, true, INIT_LEADER, 0);
    WordFields(2, 1);
    WordFields(3, 1);
    hide Run, Pack;
    var run1 := Timeout(n, run0, 1, 2);
    var run2 := Timeout(n, run1, 1, 3);
    var run3 := CountNone(n, run2, 1);
    forall p | low <= p < n ensures Behind(p, Last(run3).servers[p], 3) {
      WordFields(2, p);
    }
    run := CastVotes(n, run3, low, n, 1, 3);
  }

  /** Server 2 reaches term 4; server 1, which has counted before the votes arrived, goes
      on to scan and outbids it without clearing its votes. */
  lemma Outbid(n: nat, run: seq<State>) returns (run': seq<State>)
    requires 5 <= n <= 255 && Run(n, run) && FirstVotes(Last(run), n, 3)
    ensures Run(n, run') && Shaped(Last(run')) && |Last(run').servers| == n
    ensures var s, s' := Last(run), Last(run');
            && s'.servers[1].sid == Word(4, 1) && s'.servers[1].acks == s.servers[1].acks
            && s'.servers[2].sid == Word(4, 2)
            && forall p :: 3 <= p < n ==> s'.servers[p] == s.servers[p] && Ask(2, p, 4) in s'.sent
  {
    PackFields(1, true, INIT_LEADER, 0);
    WordFields(2, 2);
    WordFields(3, 2);
    WordFields(3, 1);
    WordFields(4, 2);
    hide Run, Pack;
    var run1 := Timeout(n, run, 2, 2);
    var run2 := Timeout(n, run1, 2, 3);
    var run3 := Timeout(n, run2, 2, 4);
    var run4 := Hand(n, run3, Ask(2, 1, 4));
    run' := Poll(n, run4, 1, 2, Word(3, 1), 4);
  }

  /** In every group of five or more, two servers claim term 4 in one run. */
  lemma TwoLeadersOneTerm(n: nat) returns (run: seq<State>, a: Claim, b: Claim)
    requires 5 <= n <= 255
    ensures Run(n, run)
    ensures a in Last(run).claims && b in Last(run).claims
    ensures a.term == b.term == 4 && a.server == 1 && b.server == 2
  {
    var run0 := Prologue(n, 3);
    hide Run;
    var run1 := Outbid(n, run0);
    var run2 := Win(n, run1, 3, 1, 4);
    a :| a in Last(run2).claims && a.server == 1 && a.term == 4;
    WordFields(3, 1);
    var run3 := CastVotes(n, run2, 3, n, 2, 4);
    run := Win(n, run3, 3, 2, 4);
    b :| b in Last(run).claims && b.server == 2 && b.term == 4;
  }

  /** In every group of three or more the fixed leader can be elected. */
  lemma FixedLeaderWins(n: nat) returns (run: seq<State>)
    requires 3 <= n <= 255
    ensures Run(n, run) && exists c :: c in Last(run).claims && c.server == FIXED_LEADER && c.term == 3
  {
    hide Run;
    var run0 := Prologue(n, 2);
    run := Win(n, run0, 2, 1, 3);
  }
}
