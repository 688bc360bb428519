/** What every step of an election keeps, and when there is one leader per term. */
module ElectionSafety {
  import opened Sids
  import opened VoteScan
  import opened Quorums
  import opened Election

  /** The word of a server is the newest it backed, and per term it backed one. */
  ghost predicate BackedInv(n: nat, backed: set<Backing>, p: nat, sid: Sid)
  {
    && GetIdx(sid) < n
    && Backing(p, GetTerm(sid), GetIdx(sid)) in backed
    && (forall b :: b in backed && b.server == p ==> b.term <= GetTerm(sid))
    && (forall b, d :: b in backed && d in backed && b.server == d.server == p && b.term == d.term ==> b == d)
  }

  /** A request is a candidacy of its sender, or what is left of one, with no better rank
      than it claims. */
  ghost predicate ReqInv(from: nat, req: VoteReq)
  {
    req.sid != 0 ==> !GetL(req.sid) && GetIdx(req.sid) in {from, INIT_LEADER} && !Beats(RankOf(req), LocalRank(from))
  }

  /** A vote tagged with a term comes from a server that backed the receiver then. */
  ghost predicate AckInv(backed: set<Backing>, from: nat, to: nat, ack: Ack)
  {
    ack.term > 0 ==> Backing(from, ack.term, to) in backed
  }

  ghost predicate SlotsInv(n: nat, backed: set<Backing>, p: nat, v: Server)
  {
    && p < n == |v.reqs| == |v.acks|
    && (forall i :: 0 <= i < n ==> ReqInv(i, v.reqs[i]))
    && (forall i :: 0 <= i < n ==> AckInv(backed, i, p, v.acks[i]))
    && v.reqs[p].sid <= v.sid
  }

  ghost predicate MsgInv(n: nat, backed: set<Backing>, m: Msg)
  {
    && m.from < n && m.to < n
    && (m.RequestMsg? ==> ReqInv(m.from, m.req) && m.from != m.to)
    && (m.VoteMsg? ==> AckInv(backed, m.from, m.to, m.ack))
  }

  /** A claim rests on a majority, and on what its voters backed. */
  ghost predicate ClaimInv(n: nat, backed: set<Backing>, c: Claim)
  {
    && c.server < n
    && IsMajority(n, c.voters.Keys + {c.server})
    && Backing(c.server, c.term, c.server) in backed
    && forall q :: q in c.voters && c.voters[q] > 0 ==> Backing(q, c.voters[q], c.server) in backed
  }

  ghost predicate Inv(s: State)
  {
    && Shaped(s)
    && (forall p :: 0 <= p < |s.servers| ==> BackedInv(|s.servers|, s.backed, p, s.servers[p].sid))
    && (forall p :: 0 <= p < |s.servers| ==> SlotsInv(|s.servers|, s.backed, p, s.servers[p]))
    && (forall m :: m in s.sent ==> MsgInv(|s.servers|, s.backed, m))
    && (forall c :: c in s.claims ==> ClaimInv(|s.servers|, s.backed, c))
  }

  // ---------------------------------------------------------------------- words

  /** How the word of a server may change: to one of a strictly higher term, or, by
      its own claim, by raising the leader flag on its own candidacy. */
  ghost predicate WordStep(p: nat, sid: Sid, sid': Sid)
  {
    || sid' == sid
    || GetTerm(sid') > GetTerm(sid)
    || (!GetL(sid) && GetIdx(sid) == p && sid' == SetL(sid))
  }

  lemma WordStepGrows(p: nat, sid: Sid, sid': Sid)
    requires WordStep(p, sid, sid')
    ensures sid <= sid'
    ensures GetTerm(sid) <= GetTerm(sid')
    ensures GetTerm(sid) == GetTerm(sid') ==> GetIdx(sid) == GetIdx(sid')
    ensures sid == sid' ==> GetTerm(sid) == GetTerm(sid')
  {
    PackOrder(sid, sid');
    Setters(sid, 0, 0);
    PackFields(GetTerm(sid), true, GetIdx(sid), sid);
  }

  /** What a scan may do to the word of server `p`. */
  lemma ScanWord(s: State, p: nat)
    requires Shaped(s) && p < |s.servers| && SlotsInv(|s.servers|, s.backed, p, s.servers[p])
    ensures var me := s.servers[p];
            var v := Decide(me.reqs, p, me.sid);
            && (v.Support? ==> GetTerm(v.sid) > GetTerm(me.sid) && GetIdx(v.sid) < |s.servers| && !GetL(v.sid))
            && (v.Raise? ==> v.term > GetTerm(me.sid) && v.term <= MAX_TERM && !GetL(me.sid))
  {
    var me := s.servers[p];
    var mark, v := SetL(me.sid), Decide(me.reqs, p, me.sid);
    Setters(me.sid, 0, 0);
    PackFields(GetTerm(me.sid), true, GetIdx(me.sid), me.sid);
    hide BestSid, Winner;
    if v.Support? {
      WinnerIsChoice(me.reqs, p, mark, |me.reqs|);
      var c := Winner(me.reqs, p, mark, |me.reqs|).value;
      assert ReqInv(c, me.reqs[c]);
      HigherTerm(mark, me.reqs[c].sid);
    } else if v.Raise? {
      var i := BestSidSurvives(me.reqs, p, mark, |me.reqs|);
      BestSidBounds(me.reqs, p, mark, i, |me.reqs|);
      assert ReqInv(i, me.reqs[i]);
      HigherTerm(mark, me.reqs[i].sid);
      PackFields(0, false, 0, me.reqs[i].sid);
    }
  }

  lemma RaisedWord(sid: Sid, term: nat, p: nat)
    requires term <= MAX_TERM && p < 256 && !GetL(sid)
    ensures SetIdx(SetTerm(sid, term), p) == Pack(term, false, p)
  {
    Setters(sid, p, term);
    PackFields(0, false, 0, sid);
    PackFields(term, false, GetIdx(sid), sid);
    Setters(Pack(term, false, GetIdx(sid)), p, term);
  }

  // ---------------------------------------------------------------- preservation

  /** More backings never hurt what was true of slots, messages and claims. */
  lemma MoreBacking(s: State, backed: set<Backing>)
    requires Inv(s) && s.backed <= backed
    ensures forall p :: 0 <= p < |s.servers| ==> SlotsInv(|s.servers|, backed, p, s.servers[p])
    ensures forall m :: m in s.sent ==> MsgInv(|s.servers|, backed, m)
    ensures forall c :: c in s.claims ==> ClaimInv(|s.servers|, backed, c)
  {
    hide BackedInv, ReqInv, IsMajority;
    forall p | 0 <= p < |s.servers| ensures SlotsInv(|s.servers|, backed, p, s.servers[p]) {
      assert SlotsInv(|s.servers|, s.backed, p, s.servers[p]);
    }
  }

  /** A server that moves on to a newer word still backs one index per term. */
  lemma NewWord(n: nat, backed: set<Backing>, p: nat, sid: Sid, sid': Sid, q: nat, other: Sid)
    requires BackedInv(n, backed, p, sid) && BackedInv(n, backed, q, other)
    requires WordStep(p, sid, sid') && GetIdx(sid') < n && (q == p ==> other == sid)
    ensures BackedInv(n, backed + {Backing(p, GetTerm(sid'), GetIdx(sid'))}, q, if q == p then sid' else other)
  {
    hide GetTerm, GetIdx, GetL, SetL;
    WordStepGrows(p, sid, sid');
  }

  /** The invariant after one server has changed: its slots and word, the messages
      and claims it added. */
  lemma Assemble(s: State, s': State, p: nat)
    requires Inv(s) && p < |s.servers|
    requires |s'.servers| == |s.servers| && s'.servers == s.servers[p := s'.servers[p]]
    requires s'.backed == s.backed + {Backing(p, GetTerm(s'.servers[p].sid), GetIdx(s'.servers[p].sid))}
    requires WordStep(p, s.servers[p].sid, s'.servers[p].sid) && GetIdx(s'.servers[p].sid) < |s.servers|
    requires SlotsInv(|s.servers|, s'.backed, p, s'.servers[p])
    requires forall m :: m in s'.sent && m !in s.sent ==> MsgInv(|s.servers|, s'.backed, m)
    requires forall c :: c in s'.claims && c !in s.claims ==> ClaimInv(|s.servers|, s'.backed, c)
    ensures Inv(s')
  {
    hide BackedInv, SlotsInv, MsgInv, ClaimInv, WordStep;
    var n := |s.servers|;
    SlotsShape(n, s'.backed, p, s'.servers[p]);
    MoreBacking(s, s'.backed);
    forall q | 0 <= q < n ensures BackedInv(n, s'.backed, q, s'.servers[q].sid) {
      NewWord(n, s.backed, p, s.servers[p].sid, s'.servers[p].sid, q, s.servers[q].sid);
    }
  }

  lemma SlotsShape(n: nat, backed: set<Backing>, p: nat, v: Server)
    requires SlotsInv(n, backed, p, v)
    ensures |v.reqs| == |v.acks| == n
  {
  }

  /** A server whose word stays where it is backs nothing new. */
  lemma SameWord(n: nat, backed: set<Backing>, p: nat, sid: Sid)
    requires BackedInv(n, backed, p, sid)
    ensures backed + {Backing(p, GetTerm(sid), GetIdx(sid))} == backed
    ensures GetIdx(sid) < n && WordStep(p, sid, sid)
  {
  }

  lemma TimeoutKeeps(s: State, p: nat)
    requires Inv(s) && Enabled(s, TimeoutA(p))
    ensures Inv(StartElection(s, p))
    ensures WordStep(p, s.servers[p].sid, StartElection(s, p).servers[p].sid)
  {
    hide BackedInv, MsgInv, ClaimInv, Candidacy;
    var s', n, sid := StartElection(s, p), |s.servers|, s.servers[p].sid;
    var sid' := s'.servers[p].sid;
    CandidacyGrows(sid, p);
    PackFields(GetTerm(sid) + 1, false, p, sid);
    assert GetTerm(sid') == GetTerm(sid) + 1 && !GetL(sid') && GetIdx(sid') == p;
    hide GetTerm, GetIdx, GetL, Pack;
    var req := VoteReq(sid', LocalRank(p).index, LocalRank(p).term);
    assert ReqInv(p, req);
    assert SlotsInv(n, s.backed, p, s.servers[p]);
    forall m | m in s'.sent && m !in s.sent ensures MsgInv(n, s'.backed, m) {
      NewRequest(n, s'.backed, m, p, req);
    }
    Assemble(s, s', p);
  }

  lemma NewRequest(n: nat, backed: set<Backing>, m: Msg, p: nat, req: VoteReq)
    requires ReqInv(p, req) && p < n
    requires m.RequestMsg? && m.from == p && m.req == req && m.to < n && m.to != p
    ensures MsgInv(n, backed, m)
  {
  }

  lemma CountKeeps(s: State, p: nat)
    requires Inv(s) && Enabled(s, CountA(p))
    ensures Inv(CountVotes(s, p))
    ensures WordStep(p, s.servers[p].sid, CountVotes(s, p).servers[p].sid)
  {
    var s', n, sid := CountVotes(s, p), |s.servers|, s.servers[p].sid;
    var v := Voters(s, p);
    if |v| + 1 >= n / 2 + 1 {
      Setters(sid, 0, 0);
      PackFields(0, false, 0, sid);
      PackFields(GetTerm(sid), true, GetIdx(sid), sid);
      PackOrder(sid, SetL(sid));
      assert BackedInv(n, s.backed, p, sid);
      assert SlotsInv(n, s.backed, p, s.servers[p]);
      hide BackedInv, MsgInv, GetTerm, GetIdx, GetL, SetL, Pack;
      var c := Claim(p, GetTerm(sid), map i | i in v :: s.servers[p].acks[i].term);
      assert c.voters.Keys == v;
      assert ClaimInv(n, s'.backed, c);
      Assemble(s, s', p);
    }
  }

  lemma PollKeeps(s: State, p: nat, end: nat)
    requires Inv(s) && Enabled(s, PollA(p, end))
    ensures Inv(PollRequests(s, p, end))
    ensures WordStep(p, s.servers[p].sid, PollRequests(s, p, end).servers[p].sid)
  {
    hide BackedInv, MsgInv, ClaimInv, Decide, Cleared, GetTerm, GetIdx, GetL, SetTerm, SetIdx;
    var s', n, me := PollRequests(s, p, end), |s.servers|, s.servers[p];
    var v := Decide(me.reqs, p, me.sid);
    assert SlotsInv(n, s.backed, p, me);
    ClearedSlots(me.reqs, p, me.sid);
    ScanWord(s, p);
    SameWord(n, s.backed, p, me.sid);
    match v
    case Ignore =>
      Assemble(s, s', p);
    case Raise(term) =>
      RaisedWord(me.sid, term, p);
      PackFields(term, false, p, me.sid);
      PackOrder(me.sid, s'.servers[p].sid);
      Assemble(s, s', p);
    case Support(sid) =>
      PackOrder(me.sid, sid);
      forall m | m in s'.sent && m !in s.sent ensures MsgInv(n, s'.backed, m) {
        NewVote(n, s'.backed, m, p, sid);
      }
      Assemble(s, s', p);
  }

  lemma ClearedSlots(s: seq<VoteReq>, me: nat, sid: Sid)
    ensures forall i :: 0 <= i < |s| ==> Cleared(s, me, sid)[i] == s[i] || Cleared(s, me, sid)[i] == s[i].(sid := 0)
  {
  }

  lemma NewVote(n: nat, backed: set<Backing>, m: Msg, p: nat, sid: Sid)
    requires Backing(p, GetTerm(sid), GetIdx(sid)) in backed && p < n && GetIdx(sid) < n
    requires m.VoteMsg? && m.from == p && m.to == GetIdx(sid) && m.ack.term == GetTerm(sid)
    ensures MsgInv(n, backed, m)
  {
  }

  lemma LandingReq(from: nat, got: VoteReq, req: VoteReq)
    requires ReqInv(from, req) && Landing(got, req)
    ensures ReqInv(from, got)
  {
  }

  lemma DeliverKeeps(s: State, m: Msg, got: VoteReq, end: nat)
    requires Inv(s) && Enabled(s, DeliverA(m, got, end))
    ensures Inv(Deliver(s, m, got, end))
    ensures Deliver(s, m, got, end).servers[m.to].sid == s.servers[m.to].sid
  {
    var s', n, p := Deliver(s, m, got, end), |s.servers|, m.to;
    assert MsgInv(n, s.backed, m);
    if m.RequestMsg? { LandingReq(m.from, got, m.req); }
    assert SlotsInv(n, s.backed, p, s.servers[p]);
    SameWord(n, s.backed, p, s.servers[p].sid);
    hide BackedInv, MsgInv, ClaimInv, GetTerm, GetIdx;
    Assemble(s, s', p);
  }

  lemma InitHolds(n: nat)
    requires n <= 255
    ensures Inv(Init(n))
  {
    PackFields(1, true, INIT_LEADER, 0);
    hide GetTerm, GetIdx, Pack, Nodes;
    var s := Init(n);
    forall p | 0 <= p < n ensures BackedInv(n, s.backed, p, s.servers[p].sid) {
      assert Backing(p, 1, INIT_LEADER) in s.backed;
    }
  }

  lemma StepKeeps(s: State, a: Action)
    requires Inv(s) && Enabled(s, a)
    ensures Inv(Apply(s, a))
    ensures |Apply(s, a).servers| == |s.servers|
    ensures forall p :: 0 <= p < |s.servers| ==> WordStep(p, s.servers[p].sid, Apply(s, a).servers[p].sid)
  {
    hide Inv, SetL;
    match a
    case TimeoutA(p) => TimeoutKeeps(s, p);
    case CountA(p) => CountKeeps(s, p);
    case PollA(p, end) => PollKeeps(s, p, end);
    case DeliverA(m, got, end) => DeliverKeeps(s, m, got, end);
  }

  lemma {:induction false} InvariantHolds(n: nat, run: seq<State>, k: nat)
    requires n <= 255 && Run(n, run) && k < |run|
    ensures Inv(run[k]) && |run[k].servers| == n
  {
    hide Inv;
    if k == 0 {
      InitHolds(n);
    } else {
      InvariantHolds(n, run, k - 1);
      assert Next(run[k - 1], run[k]);
      var a: Action :| Enabled(run[k - 1], a) && run[k] == Apply(run[k - 1], a);
      StepKeeps(run[k - 1], a);
    }
  }

  // ------------------------------------------------------------------- theorems

  /** Over any stretch of a run the word of a server never decreases, and within
      one term it keeps its index: a server backs one candidate per term. */
  lemma {:induction false} WordsGrow(n: nat, run: seq<State>, k: nat, l: nat, p: nat)
    requires n <= 255 && Run(n, run) && k <= l < |run| && p < n
    ensures |run[k].servers| == |run[l].servers| == n
    ensures var a, b := run[k].servers[p].sid, run[l].servers[p].sid;
            && a <= b && GetTerm(a) <= GetTerm(b)
            && (GetTerm(a) == GetTerm(b) ==> GetIdx(a) == GetIdx(b))
  {
    hide Inv, GetTerm, GetIdx;
    InvariantHolds(n, run, k);
    if k < l {
      WordsGrow(n, run, k, l - 1, p);
      InvariantHolds(n, run, l - 1);
      assert Next(run[l - 1], run[l]);
      var a: Action :| Enabled(run[l - 1], a) && run[l] == Apply(run[l - 1], a);
      StepKeeps(run[l - 1], a);
      WordStepGrows(p, run[l - 1].servers[p].sid, run[l].servers[p].sid);
    }
  }

  /** A step that changes the word of a server makes it strictly larger, and it
      strictly raises the term unless the server flags its own candidacy. */
  lemma WordChange(n: nat, run: seq<State>, k: nat, p: nat)
    requires n <= 255 && Run(n, run) && k + 1 < |run| && p < n
    ensures |run[k].servers| == |run[k + 1].servers| == n
    ensures var a, b := run[k].servers[p].sid, run[k + 1].servers[p].sid;
            a != b ==> a < b && (GetTerm(a) < GetTerm(b) || (GetIdx(a) == p && !GetL(a) && b == SetL(a)))
  {
    hide Inv, GetTerm, GetIdx, GetL, SetL;
    InvariantHolds(n, run, k);
    assert Next(run[k], run[k + 1]);
    var a: Action :| Enabled(run[k], a) && run[k + 1] == Apply(run[k], a);
    StepKeeps(run[k], a);
    assert WordStep(p, run[k].servers[p].sid, run[k + 1].servers[p].sid);
    WordStepGrows(p, run[k].servers[p].sid, run[k + 1].servers[p].sid);
  }

  /** The claimant still leads its term in its own word, or has gone on to a later one. */
  ghost predicate LeadsOn(s: State, c: Claim)
  {
    && c.server < |s.servers|
    && var sid := s.servers[c.server].sid;
       GetTerm(sid) > c.term || (GetTerm(sid) == c.term && GetIdx(sid) == c.server && GetL(sid))
  }

  lemma LeadsStays(s: State, s': State, c: Claim)
    requires LeadsOn(s, c) && |s'.servers| == |s.servers|
    requires WordStep(c.server, s.servers[c.server].sid, s'.servers[c.server].sid)
    ensures LeadsOn(s', c)
  {
    WordStepGrows(c.server, s.servers[c.server].sid, s'.servers[c.server].sid);
    hide GetTerm, GetIdx, GetL, SetL;
  }

  /** Only a count makes claims, and its winner then leads. */
  lemma ClaimLeads(s: State, a: Action, c: Claim)
    requires Enabled(s, a) && c in Apply(s, a).claims && c !in s.claims
    ensures a.CountA? && LeadsOn(Apply(s, a), c)
  {
    hide Decide, Cleared, Candidacy;
    if a.CountA? {
      var sid := s.servers[a.p].sid;
      Setters(sid, 0, 0);
      PackFields(0, false, 0, sid);
      PackFields(GetTerm(sid), true, GetIdx(sid), sid);
    }
  }

  /** In every run, a server that has claimed a term has the word of its leader, with the
      flag up, until it goes on to a later term. */
  lemma {:induction false} WinnersLead(n: nat, run: seq<State>, k: nat, c: Claim)
    requires n <= 255 && Run(n, run) && k < |run| && c in run[k].claims
    ensures LeadsOn(run[k], c)
  {
    if k > 0 {
      var j := k - 1;
      InvariantHolds(n, run, j);
      assert Next(run[j], run[j + 1]);
      var a: Action :| Enabled(run[j], a) && run[k] == Apply(run[j], a);
      hide Inv, Run, Enabled, Apply, LeadsOn;
      StepKeeps(run[j], a);
      if c in run[j].claims {
        WinnersLead(n, run, j, c);
        LeadsServer(run[j], c);
        LeadsStays(run[j], run[k], c);
      } else {
        ClaimLeads(run[j], a, c);
      }
    }
  }

  lemma LeadsServer(s: State, c: Claim)
    requires LeadsOn(s, c)
    ensures c.server < |s.servers|
  {
  }

  /** In every state of every run, a candidate that counts claims its term if and only if it
      and the servers with a reply are a majority.  The claim is new, its word becomes
      that of the leader, and nothing else changes. */
  lemma CountExact(n: nat, run: seq<State>, k: nat, p: nat)
    requires n <= 255 && Run(n, run) && k < |run| && Enabled(run[k], CountA(p))
    ensures var s, s' := run[k], Apply(run[k], CountA(p));
            var sid := s.servers[p].sid;
            if IsMajority(n, Voters(s, p) + {p}) then
              && (exists c ::
                    && s'.claims == s.claims + {c} && c !in s.claims && c.server == p && c.term == GetTerm(sid)
                    && c.voters.Keys == Voters(s, p))
              && |s'.servers| == n && (forall q :: 0 <= q < n && q != p ==> s'.servers[q] == s.servers[q])
              && s'.servers[p] == s.servers[p].(sid := s'.servers[p].sid) && s'.sent == s.sent
              && GetTerm(s'.servers[p].sid) == GetTerm(sid) && GetIdx(s'.servers[p].sid) == p && GetL(s'.servers[p].sid)
            else s' == s
  {
    InvariantHolds(n, run, k);
    var s, s' := run[k], Apply(run[k], CountA(p));
    var sid, v := s.servers[p].sid, Voters(s, p);
    Setters(sid, 0, 0);
    PackFields(GetTerm(sid), true, GetIdx(sid), sid);
    hide Run, Inv, Nodes, GetTerm, GetIdx, GetL, SetL, Voters;
    if IsMajority(n, v + {p}) {
      var c := Claim(p, GetTerm(sid), map i | i in v :: s.servers[p].acks[i].term);
      if c in s.claims { WinnersLead(n, run, k, c); }
      assert s'.claims == s.claims + {c};
    }
  }

  /** Only server `p` differs, and no claim is made. */
  ghost predicate OnlyServer(s: State, s': State, p: nat)
  {
    && p < |s.servers| == |s'.servers| && s'.claims == s.claims
    && forall q :: 0 <= q < |s.servers| && q != p ==> s'.servers[q] == s.servers[q]
  }

  /** Message `m` brings the request of `p` to another server than the initial leader. */
  predicate AsksFor(m: Msg, p: nat, req: VoteReq, n: nat)
  {
    m.RequestMsg? && m.from == p && m.req == req && m.to < n && m.to != p && m.to != INIT_LEADER
  }

  /** In every state of every run, a server that times out becomes a candidate of the next
      term, forgets all replies, and asks everybody but itself and the initial leader for
      a vote, with the same request that it notes in its own slot. */
  lemma TimeoutExact(n: nat, run: seq<State>, k: nat, p: nat)
    requires n <= 255 && Run(n, run) && k < |run| && Enabled(run[k], TimeoutA(p))
    ensures var s, s' := run[k], Apply(run[k], TimeoutA(p));
            && OnlyServer(s, s', p)
            && var v, v' := s.servers[p], s'.servers[p];
               var req := VoteReq(v'.sid, LocalRank(p).index, LocalRank(p).term);
               && |v'.acks| == n == |v'.reqs| == |v.reqs|
               && GetTerm(v'.sid) == GetTerm(v.sid) + 1 && !GetL(v'.sid) && GetIdx(v'.sid) == p
               && (forall i :: 0 <= i < n ==> v'.acks[i].end == NO_REPLY)
               && (forall i :: 0 <= i < n ==> v'.reqs[i] == if i == p then req else v.reqs[i])
               && forall m :: m in s'.sent <==> m in s.sent || AsksFor(m, p, req, n)
  {
    InvariantHolds(n, run, k);
    var sid := run[k].servers[p].sid;
    CandidacyGrows(sid, p);
    PackFields(GetTerm(sid) + 1, false, p, sid);
    hide Run, Inv, Candidacy, GetTerm, GetL, GetIdx;
    var s' := Apply(run[k], TimeoutA(p));
    var req := VoteReq(s'.servers[p].sid, LocalRank(p).index, LocalRank(p).term);
    forall m | AsksFor(m, p, req, n) ensures m in s'.sent {
      assert m == RequestMsg(p, m.to, req) && m.to in Nodes(n);
    }
  }

  /** A message that lands changes the slot or cell of its sender at its receiver to what
      has landed, and nothing else. */
  lemma DeliverExact(s: State, m: Msg, got: VoteReq, end: nat)
    requires Enabled(s, DeliverA(m, got, end))
    ensures var s' := Apply(s, DeliverA(m, got, end));
            && OnlyServer(s, s', m.to) && s'.sent == s.sent && s'.servers[m.to].sid == s.servers[m.to].sid
            && |s'.servers[m.to].reqs| == |s'.servers[m.to].acks| == |s.servers|
            && forall i :: 0 <= i < |s.servers| ==>
                 && s'.servers[m.to].reqs[i] == (if m.RequestMsg? && i == m.from then got else s.servers[m.to].reqs[i])
                 && s'.servers[m.to].acks[i] ==
                      (if m.VoteMsg? && i == m.from then Ack(end, m.ack.term) else s.servers[m.to].acks[i])
  {
  }

  /** In every state of every run, a scan that finds somebody to support takes over its
      word and sends it exactly one vote; one that does not takes its own candidacy to the
      raised term and sends none; one that ignores the requests changes neither. */
  lemma PollExact(n: nat, run: seq<State>, k: nat, p: nat, end: nat)
    requires n <= 255 && Run(n, run) && k < |run| && Enabled(run[k], PollA(p, end))
    ensures var s, s' := run[k], Apply(run[k], PollA(p, end));
            && OnlyServer(s, s', p) && s'.servers[p].acks == s.servers[p].acks
            && s'.servers[p].reqs == Cleared(s.servers[p].reqs, p, s.servers[p].sid)
            && var sid := s'.servers[p].sid;
               match Decide(s.servers[p].reqs, p, s.servers[p].sid)
               case Ignore => sid == s.servers[p].sid && s'.sent == s.sent
               case Raise(t) => GetTerm(sid) == t && GetIdx(sid) == p && !GetL(sid) && s'.sent == s.sent
               case Support(word) =>
                 && sid == word
                 && s'.sent == s.sent + {VoteMsg(p, GetIdx(word), Ack(end, GetTerm(word)))}
  {
    hide Run, Decide, Cleared, GetTerm, GetIdx, GetL, SetTerm, SetIdx;
    InvariantHolds(n, run, k);
    var s := run[k];
    var me := s.servers[p];
    assert SlotsInv(n, s.backed, p, me);
    hide Inv, SlotsInv;
    ScanWord(s, p);
    var v := Decide(me.reqs, p, me.sid);
    if v.Raise? {
      RaisedWord(me.sid, v.term, p);
      PackFields(v.term, false, p, me.sid);
    }
  }

  /** The servers that have backed the claimant in the term it claims. */
  ghost function Supporters(s: State, c: Claim): (q: set<nat>)
    ensures q <= Nodes(|s.servers|)
  {
    set q | q in Nodes(|s.servers|) && Backing(q, c.term, c.server) in s.backed
  }

  /** A claim is rightful if a majority backed it in its own term. */
  ghost predicate Rightful(s: State, c: Claim)
  {
    IsMajority(|s.servers|, Supporters(s, c))
  }

  /** Every vote the winner counted was cast in the term it claims. */
  ghost predicate CountedFreshVotes(c: Claim)
  {
    forall q :: q in c.voters ==> c.voters[q] == c.term && c.term > 0
  }

  lemma FreshVotesSuffice(n: nat, run: seq<State>, k: nat, c: Claim)
    requires n <= 255 && Run(n, run) && k < |run| && c in run[k].claims && CountedFreshVotes(c)
    ensures Rightful(run[k], c)
  {
    InvariantHolds(n, run, k);
    var s := run[k];
    hide BackedInv, SlotsInv, MsgInv, Run;
    assert ClaimInv(n, s.backed, c);
    SubsetSize(c.voters.Keys + {c.server}, Supporters(s, c));
  }

  /** One leader per term: of two rightful claims of a term, made at any time in a
      run, both are by the same server. */
  lemma OneLeaderPerTerm(n: nat, run: seq<State>, k: nat, a: Claim, b: Claim)
    requires n <= 255 && Run(n, run) && k < |run|
    requires a in run[k].claims && b in run[k].claims && a.term == b.term
    requires Rightful(run[k], a) && Rightful(run[k], b)
    ensures a.server == b.server
  {
    InvariantHolds(n, run, k);
    var s := run[k];
    hide SlotsInv, MsgInv, ClaimInv, Run, GetTerm, GetIdx;
    MajoritiesMeet(n, Supporters(s, a), Supporters(s, b));
    var q :| q in Supporters(s, a) && q in Supporters(s, b);
    assert BackedInv(n, s.backed, q, s.servers[q].sid);
    assert Backing(q, a.term, a.server) == Backing(q, b.term, b.server);
  }
}
