/** Leader election as a system of steps over RDMA-written vote slots.  Requests
    and votes may be delayed, reordered, repeated, and cut while they land.

    A vote carries no term.  The model tags each with the term its sender voted in,
    to be able to say which votes a winner should have counted. */
module Election {
  import opened Sids
  import opened VoteScan
  import opened Quorums

  const INIT_LEADER := 0

  /** A vote cell that holds the length of the log means "no reply". */
  const NO_REPLY := 16384 * 4 * 4096

  datatype Ack = Ack(end: nat, term: nat)

  datatype Server = Server(sid: Sid, reqs: seq<VoteReq>, acks: seq<Ack>)

  datatype Msg =
    | RequestMsg(from: nat, to: nat, req: VoteReq)
    | VoteMsg(from: nat, to: nat, ack: Ack)

  /** History: `server` held a word of `term` with index `idx`. */
  datatype Backing = Backing(server: nat, term: nat, idx: nat)

  /** History: `server` declared itself leader of `term`, counting the votes of
      `voters`, each with the tag it carried. */
  datatype Claim = Claim(server: nat, term: nat, voters: map<nat, nat>)

  datatype State = State(servers: seq<Server>, sent: set<Msg>, backed: set<Backing>, claims: set<Claim>)

  /** All servers start with the initial leader of term 1. */
  function Init(n: nat): (s: State)
  {
    State(seq(n, _ => Server(Pack(1, true, INIT_LEADER), seq(n, _ => VoteReq(0, 0, 0)), seq(n, _ => Ack(0, 0)))),
          {}, set q | q in Nodes(n) :: Backing(q, 1, INIT_LEADER), {})
  }

  predicate Shaped(s: State)
  {
    && |s.servers| <= 255
    && forall p :: 0 <= p < |s.servers| ==>
         |s.servers[p].reqs| == |s.servers[p].acks| == |s.servers|
  }

  /** `server_update_sid`, with the history it leaves. */
  function Update(s: State, p: nat, sid: Sid): (s': State)
    requires p < |s.servers|
  {
    s.(servers := s.servers[p := s.servers[p].(sid := sid)],
       backed := s.backed + {Backing(p, GetTerm(sid), GetIdx(sid))})
  }

  /** `start_election`: a new candidacy, cleared votes, a request to every server
      but itself and the initial leader. */
  function StartElection(s: State, p: nat): (s': State)
    requires Shaped(s) && p < |s.servers|
  {
    var n := |s.servers|;
    var sid := Candidacy(s.servers[p].sid, p);
    var req := VoteReq(sid, LocalRank(p).index, LocalRank(p).term);
    var t := Update(s, p, sid);
    var me := t.servers[p].(acks := seq(n, _ => Ack(NO_REPLY, 0)), reqs := t.servers[p].reqs[p := req]);
    t.(servers := t.servers[p := me],
       sent := s.sent + set i | i in Nodes(n) && i != p && i != INIT_LEADER :: RequestMsg(p, i, req))
  }

  predicate IsCandidate(s: State, p: nat)
    requires p < |s.servers|
  {
    GetIdx(s.servers[p].sid) == p && !GetL(s.servers[p].sid)
  }

  /** The servers whose vote cell holds a reply. */
  function Voters(s: State, p: nat): (v: set<nat>)
    requires Shaped(s) && p < |s.servers|
    ensures p !in v && v <= Nodes(|s.servers|)
  {
    set i | i in Nodes(|s.servers|) && i != p && s.servers[p].acks[i].end != NO_REPLY
  }

  /** The loop of `poll_vote_count`: the candidate and the replies are a majority. */
  method TallyVotes(s: State, p: nat) returns (votes: nat, won: bool)
    requires Shaped(s) && p < |s.servers|
    ensures votes == |Voters(s, p) + {p}| <= 255
    ensures won <==> IsMajority(|s.servers|, Voters(s, p) + {p})
  {
    hide Nodes;
    var acks, n := s.servers[p].acks, |s.servers|;
    ghost var seen: set<nat> := {};
    votes := 1;
    var i := 0;
    while i < n
      invariant 0 <= i <= n
      invariant seen == set k | k in Voters(s, p) && k < i
      invariant votes == |seen| + 1
    {
      if i != p && acks[i].end != NO_REPLY {
        votes := votes + 1;
        seen := seen + {i};
      }
      i := i + 1;
    }
    assert seen == Voters(s, p);
    SubsetSize(Voters(s, p) + {p}, Nodes(n));
    won := votes >= n / 2 + 1;
  }

  /** `poll_vote_count` of a candidate. */
  function CountVotes(s: State, p: nat): (s': State)
    requires Shaped(s) && p < |s.servers|
  {
    var v, sid := Voters(s, p), s.servers[p].sid;
    if |v| + 1 < |s.servers| / 2 + 1 then s
    else
      var claim := Claim(p, GetTerm(sid), map i | i in v :: s.servers[p].acks[i].term);
      Update(s, p, SetL(sid)).(claims := s.claims + {claim})
  }

  /** `poll_vote_requests`: clear slots and act on the verdict of the scan; `end` is
      the log offset that a vote carries. */
  function PollRequests(s: State, p: nat, end: nat): (s': State)
    requires Shaped(s) && p < |s.servers|
  {
    var me := s.servers[p];
    var v := Decide(me.reqs, p, me.sid);
    var t := s.(servers := s.servers[p := me.(reqs := Cleared(me.reqs, p, me.sid))]);
    match v
    case Ignore => t
    case Raise(term) => Update(t, p, SetIdx(SetTerm(me.sid, term), p))
    case Support(sid) =>
      Update(t, p, sid).(sent := s.sent + {VoteMsg(p, GetIdx(sid), Ack(end, GetTerm(sid)))})
  }

  /** What a slot may hold while request `req` lands in it byte by byte and scans clear
      it in between: a word that is no larger, of the same candidate or, with its low byte
      cleared, of the initial leader; and a rank that is no better. */
  predicate Landing(got: VoteReq, req: VoteReq)
  {
    && !GetL(got.sid) && GetIdx(got.sid) in {GetIdx(req.sid), INIT_LEADER} && got.sid <= req.sid
    && !Beats(RankOf(got), RankOf(req))
  }

  /** A message lands, in full or in part: a slot then holds `got`, and a vote cell
      holds `end`. */
  function Deliver(s: State, m: Msg, got: VoteReq, end: nat): (s': State)
    requires Shaped(s) && m.from < |s.servers| && m.to < |s.servers|
  {
    var to := s.servers[m.to];
    s.(servers := s.servers[m.to :=
         match m
         case RequestMsg(from, _, req) => to.(reqs := to.reqs[from := got])
         case VoteMsg(from, _, ack) => to.(acks := to.acks[from := Ack(end, ack.term)])])
  }

  // ----------------------------------------------------------------------- runs

  datatype Action =
    | TimeoutA(p: nat)
    | CountA(p: nat)
    | PollA(p: nat, end: nat)
    | DeliverA(m: Msg, got: VoteReq, end: nat)

  /** The initial leader never times out; terms do not run out. */
  predicate Enabled(s: State, a: Action)
  {
    && Shaped(s)
    && match a
       case TimeoutA(p) => p < |s.servers| && p != INIT_LEADER && GetTerm(s.servers[p].sid) < MAX_TERM
       case CountA(p) => p < |s.servers| && IsCandidate(s, p)
       case PollA(p, end) => p < |s.servers|
       case DeliverA(m, got, end) =>
         m in s.sent && m.from < |s.servers| && m.to < |s.servers| && (m.RequestMsg? ==> Landing(got, m.req))
  }

  function Apply(s: State, a: Action): (s': State)
    requires Enabled(s, a)
  {
    match a
    case TimeoutA(p) => StartElection(s, p)
    case CountA(p) => CountVotes(s, p)
    case PollA(p, end) => PollRequests(s, p, end)
    case DeliverA(m, got, end) => Deliver(s, m, got, end)
  }

  ghost predicate Next(s: State, s': State)
  {
    exists a: Action :: Enabled(s, a) && s' == Apply(s, a)
  }

  ghost predicate Run(n: nat, run: seq<State>)
  {
    && |run| > 0
    && run[0] == Init(n)
    && forall k :: 0 <= k < |run| - 1 ==> Next(run[k], run[k + 1])
  }
}
