/** The group sizes in which stale votes cannot elect a second leader of a term. */
module ElectionGroupSize {
  import opened Sids
  import opened VoteScan
  import opened Quorums
  import opened Election
  import opened ElectionSafety
  import opened ElectionStaleVotes

  const FIRST_WORD := Pack(1, true, INIT_LEADER)

  /** A vote of `from` for `to`: the initial leader does not vote, the fixed leader
      outbids everybody else, and nobody votes for itself. */
  predicate MayVote(from: nat, to: nat)
  {
    from >= 2 && from != to
  }

  /** Once a server has left its first word, its cells hold votes that were cast. */
  ghost predicate CellsInv(p: nat, v: Server)
  {
    v.sid == FIRST_WORD || forall i :: 0 <= i < |v.acks| && v.acks[i].end != NO_REPLY ==> MayVote(i, p)
  }

  ghost predicate VotesInv(s: State)
  {
    && (|s.servers| > 0 ==> GetL(s.servers[INIT_LEADER].sid))
    && (forall p :: 0 <= p < |s.servers| ==> CellsInv(p, s.servers[p]))
    && (forall m :: m in s.sent && m.VoteMsg? ==> MayVote(m.from, m.to))
    && (forall c :: c in s.claims ==> c.server != INIT_LEADER && forall q :: q in c.voters ==> MayVote(q, c.server))
  }

  lemma FirstWordLeads()
    ensures GetL(FIRST_WORD)
  {
    PackFields(1, true, INIT_LEADER, 0);
  }

  /** A scan supports the sender of a request or the initial leader, which is somebody
      else; the fixed leader supports nobody. */
  lemma SupportMayVote(s: State, p: nat)
    requires (p == INIT_LEADER ==> p < |s.servers| && GetL(s.servers[p].sid)) && Shaped(s) && p < |s.servers|
    requires SlotsInv(|s.servers|, s.backed, p, s.servers[p])
    ensures var v := Decide(s.servers[p].reqs, p, s.servers[p].sid);
            v.Support? ==> p != FIXED_LEADER && GetIdx(v.sid) != p
  {
    var me := s.servers[p];
    var mark := SetL(me.sid);
    WinnerIsChoice(me.reqs, p, mark, |me.reqs|);
    var w := Winner(me.reqs, p, mark, |me.reqs|);
    hide BestSid, Winner;
    if w.Some? {
      ChoiceNotMe(me.reqs, p, mark, w.value);
      assert ReqInv(w.value, me.reqs[w.value]);
    }
  }

  lemma TimeoutVotes(s: State, p: nat)
    requires VotesInv(s) && Enabled(s, TimeoutA(p))
    ensures VotesInv(StartElection(s, p))
  {
    hide GetL, GetTerm, GetIdx, Candidacy, Nodes;
  }

  lemma CountVotesInv(s: State, p: nat)
    requires VotesInv(s) && Enabled(s, CountA(p))
    ensures VotesInv(CountVotes(s, p))
  {
    FirstWordLeads();
    hide GetL, GetTerm, GetIdx, SetL, Nodes;
    var s' := CountVotes(s, p);
    assert CellsInv(p, s.servers[p]);
    assert CellsInv(p, s'.servers[p]);
    assert forall i :: i in Voters(s, p) ==> MayVote(i, p);
  }

  lemma PollVotes(s: State, p: nat, end: nat)
    requires VotesInv(s) && Enabled(s, PollA(p, end)) && SlotsInv(|s.servers|, s.backed, p, s.servers[p])
    ensures VotesInv(PollRequests(s, p, end))
  {
    FirstWordLeads();
    SupportMayVote(s, p);
    hide GetL, GetTerm, GetIdx, SetL, SetTerm, SetIdx, BestSid, Winner, Cleared;
    var s' := PollRequests(s, p, end);
    assert CellsInv(p, s.servers[p]);
    assert CellsInv(p, s'.servers[p]);
  }

  lemma DeliverVotes(s: State, m: Msg, got: VoteReq, end: nat)
    requires VotesInv(s) && Enabled(s, DeliverA(m, got, end))
    ensures VotesInv(Deliver(s, m, got, end))
  {
    hide GetL;
    var s' := Deliver(s, m, got, end);
    assert CellsInv(m.to, s.servers[m.to]);
    assert CellsInv(m.to, s'.servers[m.to]);
  }

  lemma SlotsOf(s: State, p: nat)
    requires Inv(s) && p < |s.servers|
    ensures SlotsInv(|s.servers|, s.backed, p, s.servers[p])
  {
  }

  lemma VotesStep(s: State, a: Action)
    requires Inv(s) && VotesInv(s) && Enabled(s, a)
    ensures VotesInv(Apply(s, a))
  {
    hide Inv, VotesInv, SlotsInv, StartElection, CountVotes, PollRequests, Deliver;
    match a
    case TimeoutA(p) => TimeoutVotes(s, p);
    case CountA(p) => CountVotesInv(s, p);
    case PollA(p, end) =>
      SlotsOf(s, p);
      PollVotes(s, p, end);
    case DeliverA(m, got, end) => DeliverVotes(s, m, got, end);
  }

  lemma VotesInit(n: nat)
    requires n <= 255
    ensures VotesInv(Init(n))
  {
    FirstWordLeads();
    hide GetL, Nodes;
  }

  lemma {:induction false} VotesHold(n: nat, run: seq<State>, k: nat)
    requires n <= 255 && Run(n, run) && k < |run|
    ensures VotesInv(run[k]) && |run[k].servers| == n
  {
    hide Inv, VotesInv, Apply, Enabled;
    InvariantHolds(n, run, k);
    if k == 0 {
      VotesInit(n);
    } else {
      var j := k - 1;
      VotesHold(n, run, j);
      InvariantHolds(n, run, j);
      assert Next(run[j], run[j + 1]);
      var a: Action :| Enabled(run[j], a) && run[k] == Apply(run[j], a);
      VotesStep(run[j], a);
    }
  }

  /** Among up to four servers, the possible voters of a server other than the fixed
      leader are too few. */
  lemma TooFewVoters(n: nat, server: nat, voters: set<nat>)
    requires n <= 4 && server >= 2 && forall q :: q in voters ==> MayVote(q, server)
    ensures !IsMajority(n, voters + {server})
  {
    hide Nodes;
    var v := voters + {server};
    if v <= Nodes(n) {
      SubsetSize(v, Nodes(n) - {0, 1});
      SubsetSize({0, 1}, Nodes(n));
    }
  }

  /** In a group of up to four, only the fixed leader is ever elected. */
  lemma OnlyFixedLeader(n: nat, run: seq<State>, k: nat, c: Claim)
    requires n <= 4 && Run(n, run) && k < |run| && c in run[k].claims
    ensures c.server == FIXED_LEADER
  {
    VotesHold(n, run, k);
    InvariantHolds(n, run, k);
    assert ClaimInv(n, run[k].backed, c);
    hide Run, IsMajority, MayVote, Inv, Nodes;
    if c.server != FIXED_LEADER {
      TooFewVoters(n, c.server, c.voters.Keys);
    }
  }

  /** In every run of `n` servers, two claims of one term are by one server. */
  ghost predicate OneLeader(n: nat)
  {
    forall run: seq<State>, k: nat, a: Claim, b: Claim ::
      Run(n, run) && k < |run| && a in run[k].claims && b in run[k].claims && a.term == b.term ==> a.server == b.server
  }

  /** One leader per term, whatever votes are counted, is what the protocol gives to
      groups of up to four servers and to no larger one. */
  lemma OneLeaderExact(n: nat)
    requires n <= 255
    ensures OneLeader(n) <==> n <= 4
  {
    if n <= 4 {
      forall run: seq<State>, k: nat, a: Claim, b: Claim |
        Run(n, run) && k < |run| && a in run[k].claims && b in run[k].claims && a.term == b.term
        ensures a.server == b.server
      {
        OnlyFixedLeader(n, run, k, a);
        OnlyFixedLeader(n, run, k, b);
      }
    } else {
      var run, a, b := TwoLeadersOneTerm(n);
      var k := |run| - 1;
      assert a in run[k].claims && b in run[k].claims;
    }
  }

  /** Somebody is elected in some run of `n` servers. */
  ghost predicate Electable(n: nat)
  {
    exists run: seq<State>, k: nat, c: Claim :: Run(n, run) && k < |run| && c in run[k].claims
  }

  /** Because the initial leader never votes, somebody can be elected in groups of three
      or more servers and in no smaller one. */
  lemma ElectableExact(n: nat)
    requires n <= 255
    ensures Electable(n) <==> n >= 3
  {
    if n >= 3 {
      var run := FixedLeaderWins(n);
      var k := |run| - 1;
      var c :| c in Last(run).claims;
      assert c in run[k].claims;
    } else if Electable(n) {
      var run: seq<State>, k: nat, c: Claim :| Run(n, run) && k < |run| && c in run[k].claims;
      NobodyWins(n, run, k, c);
    }
  }

  lemma NobodyWins(n: nat, run: seq<State>, k: nat, c: Claim)
    requires n <= 255 && Run(n, run) && k < |run| && c in run[k].claims
    ensures n >= 3
  {
    VotesHold(n, run, k);
    InvariantHolds(n, run, k);
    assert ClaimInv(n, run[k].backed, c);
    hide Run, Inv, Nodes;
    WithoutInitial(n, c.server, c.voters.Keys);
  }

  lemma WithoutInitial(n: nat, server: nat, voters: set<nat>)
    requires server != INIT_LEADER && IsMajority(n, voters + {server}) && forall q :: q in voters ==> MayVote(q, server)
    ensures n >= 3
  {
    assert 0 in Nodes(n) <==> n > 0;
    hide Nodes;
    SubsetSize(voters + {server}, Nodes(n) - {0});
  }
}
