/** Vote requests landing byte by byte.  A sender's writes to a slot arrive in order,
    each from its first byte to its last, so a slot read in between holds the start
    of the new request and the rest of what was there before; and scans of the
    receiver clear the word at any time. */
module VoteLanding {
  import opened Bytes
  import opened Sids
  import opened VoteScan
  import opened Election
  import opened ElectionStaleVotes

  const REQ_SIZE := 24

  predicate Fits(r: VoteReq)
  {
    r.index < U64 && r.term < U64
  }

  /** A request in memory: three 64-bit fields. */
  function Stored(r: VoteReq): (m: seq<byte>)
    ensures |m| == REQ_SIZE
  {
    ToLE(r.sid, 8) + ToLE(r.index, 8) + ToLE(r.term, 8)
  }

  function Loaded(m: seq<byte>): (r: VoteReq)
    requires |m| == REQ_SIZE
  {
    LEBound(m[..8]);
    Pow256Values();
    VoteReq(FromLE(m[..8]), FromLE(m[8..16]), FromLE(m[16..]))
  }

  /** The slot while `landed` bytes of `req` are written over `was`. */
  function Slot(was: VoteReq, req: VoteReq, landed: nat): (m: seq<byte>)
    requires landed <= REQ_SIZE
    ensures |m| == REQ_SIZE
  {
    Stored(req)[..landed] + Stored(was)[landed..]
  }

  /** How many of the eight bytes from `at` on are among the first `landed`. */
  function Within(landed: nat, at: nat): (b: nat)
    ensures b <= 8
  {
    if landed <= at then 0 else if landed >= at + 8 then 8 else landed - at
  }

  lemma FieldAt(next: seq<byte>, prior: seq<byte>, landed: nat, at: nat, f: seq<byte>, x: seq<byte>, y: seq<byte>)
    requires |next| == |prior| == REQ_SIZE && landed <= REQ_SIZE && at + 8 <= REQ_SIZE
    requires f == (next[..landed] + prior[landed..])[at..at + 8] && x == next[at..at + 8] && y == prior[at..at + 8]
    ensures forall i :: 0 <= i < 8 ==> f[i] == if i < Within(landed, at) then x[i] else y[i]
  {
  }

  lemma FieldRead(was: VoteReq, req: VoteReq, landed: nat)
    requires landed <= REQ_SIZE && Fits(was)
    ensures var m := Slot(was, req, landed);
            && FromLE(m[..8]) == Mixed(req.sid, was.sid, Within(landed, 0))
            && FromLE(m[8..16]) == Mixed(req.index, was.index, Within(landed, 8))
            && FromLE(m[16..]) == Mixed(req.term, was.term, Within(landed, 16))
  {
    hide Stored, ToLE, FromLE, Mixed, Pow256, Within;
    Pow256Values();
    FieldsApart(was);
    FieldsApart(req);
    var m := Slot(was, req, landed);
    FieldAt(Stored(req), Stored(was), landed, 0, m[0..8], ToLE(req.sid, 8), ToLE(was.sid, 8));
    FieldAt(Stored(req), Stored(was), landed, 8, m[8..16], ToLE(req.index, 8), ToLE(was.index, 8));
    FieldAt(Stored(req), Stored(was), landed, 16, m[16..24], ToLE(req.term, 8), ToLE(was.term, 8));
    assert m[0..8] == m[..8] && m[16..24] == m[16..];
    LEMixed(m[0..8], req.sid, was.sid, 8, Within(landed, 0));
    LEMixed(m[8..16], req.index, was.index, 8, Within(landed, 8));
    LEMixed(m[16..24], req.term, was.term, 8, Within(landed, 16));
  }

  /** A request that has landed in full reads as it was sent; before its first byte
      the slot reads as before. */
  lemma StoredLoaded(was: VoteReq, req: VoteReq)
    requires Fits(was) && Fits(req)
    ensures Loaded(Slot(was, req, REQ_SIZE)) == req && Loaded(Slot(was, req, 0)) == was
  {
    hide ToLE, FromLE;
    Pow256Values();
    assert Stored(req)[..24] + Stored(was)[24..] == Stored(req);
    assert Stored(was) == Stored(req)[..0] + Stored(was)[0..];
    LERoundTrip(req.sid, 8); LERoundTrip(req.index, 8); LERoundTrip(req.term, 8);
    LERoundTrip(was.sid, 8); LERoundTrip(was.index, 8); LERoundTrip(was.term, 8);
    FieldsApart(req);
    FieldsApart(was);
  }

  lemma FieldsApart(r: VoteReq)
    ensures Stored(r)[0..8] == ToLE(r.sid, 8) && Stored(r)[8..16] == ToLE(r.index, 8)
    ensures Stored(r)[16..24] == ToLE(r.term, 8)
  {
  }

  // -------------------------------------------------------- what a scan may read

  /** What the same candidate may have left before: no word, or a smaller one, perhaps
      with its low byte cleared.  Its rank is the same, or it had not landed. */
  predicate Earlier(was: VoteReq, req: VoteReq)
  {
    && !GetL(was.sid) && GetIdx(was.sid) in {GetIdx(req.sid), INIT_LEADER} && was.sid <= req.sid
    && (RankOf(was) == RankOf(req) || was.term < req.term)
  }

  lemma LowByte(x: nat, n: nat, r: nat)
    requires x == n % 256 + 256 * r
    ensures x % 256 == n % 256 && x / 256 == r && x % 2 == n % 2
  {
    var k := 128 * (r - n / 256);
    assert x == n + 2 * k;
    SameParity(n, k);
  }

  lemma SameParity(n: nat, k: int)
    requires n + 2 * k >= 0
    ensures (n + 2 * k) % 2 == n % 2
  {
  }

  lemma WordRead(was: Sid, req: Sid, got: Sid, b: nat)
    requires !GetL(req) && !GetL(was) && GetIdx(was) in {GetIdx(req), INIT_LEADER} && was <= req
    requires got == Mixed(req, was, b)
    ensures got <= req && !GetL(got) && GetIdx(got) in {GetIdx(req), INIT_LEADER}
  {
    MixedReads(req, was, b);
    if b >= 1 {
      LowByte(got, req, Mixed(req / 256, was / 256, b - 1));
      if b >= 2 {
        LowByte(got / 256, req / 256, Mixed(req / 256 / 256, was / 256 / 256, b - 2));
      }
    }
  }

  /** The next byte of the request lands, or a scan clears the word. */
  datatype Event = Landed | Clear

  /** How many bytes have landed. */
  function Count(events: seq<Event>): (n: nat)
  {
    if |events| == 0 then 0
    else Count(events[..|events| - 1]) + if events[|events| - 1].Landed? then 1 else 0
  }

  /** What the slot holds then. */
  function Contents(was: VoteReq, req: VoteReq, events: seq<Event>): (m: seq<byte>)
    requires Count(events) <= REQ_SIZE
    ensures |m| == REQ_SIZE
  {
    if |events| == 0 then Stored(was)
    else
      var before := Contents(was, req, events[..|events| - 1]);
      if events[|events| - 1].Landed? then before[Count(events) - 1 := Stored(req)[Count(events) - 1]]
      else ToLE(0, 8) + before[8..]
  }

  /** The word has been overwritten as far as the bytes have landed, or it has been
      cleared and holds some bytes of the new one; nobody clears the rank. */
  ghost predicate SlotOk(m: seq<byte>, was: VoteReq, req: VoteReq, landed: nat)
  {
    && |m| == REQ_SIZE && landed <= REQ_SIZE && m[8..] == Slot(was, req, landed)[8..]
    && (m[..8] == Slot(was, req, landed)[..8] || forall i :: 0 <= i < 8 ==> m[i] == 0 || m[i] == Stored(req)[i])
  }

  lemma {:induction false} ContentsOk(was: VoteReq, req: VoteReq, events: seq<Event>)
    requires Count(events) <= REQ_SIZE
    ensures SlotOk(Contents(was, req, events), was, req, Count(events))
  {
    hide Stored;
    if |events| == 0 {
      assert Slot(was, req, 0) == Stored(was);
    } else {
      var before := events[..|events| - 1];
      ContentsOk(was, req, before);
      if events[|events| - 1].Landed? {
        ByteOk(Contents(was, req, before), was, req, Count(before));
      } else {
        ClearOk(Contents(was, req, before), was, req, Count(before));
      }
    }
  }

  lemma SlotNext(was: VoteReq, req: VoteReq, landed: nat)
    requires landed < REQ_SIZE
    ensures Slot(was, req, landed + 1) == Slot(was, req, landed)[landed := Stored(req)[landed]]
  {
    hide Stored;
  }

  lemma ByteOk(m: seq<byte>, was: VoteReq, req: VoteReq, landed: nat)
    requires SlotOk(m, was, req, landed) && landed < REQ_SIZE
    ensures SlotOk(m[landed := Stored(req)[landed]], was, req, landed + 1)
  {
    hide Stored;
    var m', x, y := m[landed := Stored(req)[landed]], Slot(was, req, landed), Slot(was, req, landed + 1);
    SlotNext(was, req, landed);
    if landed < 8 {
      assert m'[8..] == m[8..] && y[8..] == x[8..];
      if m[..8] == x[..8] { assert m'[..8] == m[..8][landed := Stored(req)[landed]] == y[..8]; }
    } else {
      assert m'[..8] == m[..8] && y[..8] == x[..8];
      assert m'[8..] == m[8..][landed - 8 := Stored(req)[landed]] == y[8..];
    }
  }

  lemma ClearOk(m: seq<byte>, was: VoteReq, req: VoteReq, landed: nat)
    requires SlotOk(m, was, req, landed)
    ensures SlotOk(ToLE(0, 8) + m[8..], was, req, landed)
  {
    hide Stored;
    assert ToLE(0, 8) == [0, 0, 0, 0, 0, 0, 0, 0] by { ZeroBytes(); }
    assert (ToLE(0, 8) + m[8..])[8..] == m[8..];
  }

  lemma ZeroBytes()
    ensures ToLE(0, 8) == [0, 0, 0, 0, 0, 0, 0, 0]
  {
    assert ToLE(0, 4) == [0, 0, 0, 0];
    assert ToLE(0, 6) == [0, 0] + ToLE(0, 4);
    assert ToLE(0, 8) == [0, 0] + ToLE(0, 6);
  }

  /** A word of which some bytes are missing. */
  lemma ClearedWord(m: seq<byte>, req: VoteReq, got: Sid)
    requires |m| == REQ_SIZE && !GetL(req.sid) && got == FromLE(m[..8])
    requires forall i :: 0 <= i < 8 ==> m[i] == 0 || m[i] == Stored(req)[i]
    ensures got <= req.sid && !GetL(got) && GetIdx(got) in {GetIdx(req.sid), INIT_LEADER}
  {
    var w := ToLE(req.sid, 8);
    FieldsApart(req);
    assert forall i :: 0 <= i < 8 ==> w[i] == Stored(req)[i] by { assert Stored(req)[0..8] == w; }
    Pow256Values();
    LERoundTrip(req.sid, 8);
    hide Stored, Pow256;
    LEMonotone(m[..8], w);
    TwoLowBytes(m[..8]);
    TwoLowBytes(w);
  }

  lemma TwoLowBytes(s: seq<byte>)
    requires |s| == 8
    ensures FromLE(s) % 256 == s[0] && (FromLE(s) / 256) % 2 == s[1] % 2
  {
    var t := s[1..];
    var u := t[1..];
    assert t[0] == s[1];
    LowByte(FromLE(s), s[0], FromLE(t));
    LowByte(FromLE(t), s[1], FromLE(u));
  }

  /** Every slot that a request goes through on its way in is one that the steps of
      the election allow, however often scans clear it in between, and so is what a later
      request of the sender then finds. */
  lemma TornRequest(was: VoteReq, req: VoteReq, events: seq<Event>)
    requires Count(events) <= REQ_SIZE && Fits(was) && Fits(req) && !GetL(req.sid) && Earlier(was, req)
    ensures var got := Loaded(Contents(was, req, events));
            && Landing(got, req) && Earlier(got, req) && Fits(got)
            && (RankOf(was) == RankOf(req) || Count(events) == REQ_SIZE ==> RankOf(got) == RankOf(req))
            && (Count(events) == REQ_SIZE && Clear !in events ==> got == req)
  {
    hide Stored, Slot, FromLE, ToLE, Mixed, Pow256, GetL, GetIdx, Contents, Count;
    var m, landed := Contents(was, req, events), Count(events);
    ContentsOk(was, req, events);
    var x := Slot(was, req, landed);
    FieldRead(was, req, landed);
    assert m[8..16] == m[8..][..8] == x[8..][..8] == x[8..16] && m[16..] == m[8..][8..] == x[8..][8..] == x[16..];
    LEBound(m[..8]);
    LEBound(m[8..16]);
    LEBound(m[16..]);
    Pow256Values();
    if m[..8] == x[..8] {
      WordRead(was.sid, req.sid, FromLE(m[..8]), Within(landed, 0));
    } else {
      ClearedWord(m, req, FromLE(m[..8]));
    }
    RankRead(was, req, landed);
    if landed == REQ_SIZE {
      StoredLoaded(was, req);
      if Clear !in events { NeverCleared(was, req, events); }
    }
  }

  lemma SlotUntouched(was: VoteReq, req: VoteReq)
    ensures Slot(was, req, 0) == Stored(was)
  {
  }

  /** A clear takes the word, whatever has landed of it, and leaves the rank. */
  lemma ClearedSlot(was: VoteReq, req: VoteReq, events: seq<Event>)
    requires Count(events) <= REQ_SIZE
    ensures var after := events + [Clear];
            && Count(after) == Count(events)
            && Loaded(Contents(was, req, after)) == Loaded(Contents(was, req, events)).(sid := 0)
  {
    var after := events + [Clear];
    assert after[..|after| - 1] == events;
    var before, m := Contents(was, req, events), Contents(was, req, after);
    assert m[..8] == ToLE(0, 8) && m[8..16] == before[8..16] && m[16..] == before[16..];
    LERoundTrip(0, 8);
  }

  /** Without clears the slot is the start of the new request and the rest of the old. */
  lemma {:induction false} NeverCleared(was: VoteReq, req: VoteReq, events: seq<Event>)
    requires Count(events) <= REQ_SIZE && Clear !in events
    ensures Contents(was, req, events) == Slot(was, req, Count(events))
  {
    hide Stored, Slot;
    if |events| == 0 {
      SlotUntouched(was, req);
    } else {
      var n := |events| - 1;
      assert events[n] in events;
      NeverCleared(was, req, events[..n]);
      SlotNext(was, req, Count(events[..n]));
    }
  }

  lemma RankRead(was: VoteReq, req: VoteReq, landed: nat)
    requires landed <= REQ_SIZE && Fits(was) && Fits(req) && (RankOf(was) == RankOf(req) || was.term < req.term)
    ensures var index := Mixed(req.index, was.index, Within(landed, 8));
            var term := Mixed(req.term, was.term, Within(landed, 16));
            && (RankOf(was) == RankOf(req) ==> term == req.term && index == req.index)
            && (term < req.term || (term == req.term && index == req.index))
  {
    Pow256Values();
    hide Pow256;
    MixedReads(req.index, was.index, Within(landed, 8));
    MixedReads(req.term, was.term, Within(landed, 16));
  }

  // ------------------------------------------------------------ what scans decide

  /** The slots as a scan reads them. */
  function SlotsRead(was: seq<VoteReq>, reqs: seq<VoteReq>, events: seq<seq<Event>>): (s: seq<VoteReq>)
    requires |was| == |reqs| == |events| && forall i :: 0 <= i < |events| ==> Count(events[i]) <= REQ_SIZE
  {
    seq(|was|, i requires 0 <= i < |was| => Loaded(Contents(was[i], reqs[i], events[i])))
  }

  /** A scan decides on requests that are still landing as on requests in full, once
      the rank of every sender has landed, by an earlier request or by this one. */
  lemma TornScan(was: seq<VoteReq>, reqs: seq<VoteReq>, events: seq<seq<Event>>, me: nat, sid: Sid)
    requires me < |was| == |reqs| == |events| && forall i :: 0 <= i < |events| ==> Count(events[i]) <= REQ_SIZE
    requires forall i :: 0 <= i < |was| ==> Fits(was[i]) && Earlier(was[i], reqs[i])
    requires forall i :: 0 <= i < |was| ==> RankOf(reqs[i]) == LocalRank(i) && !GetL(reqs[i].sid)
    requires forall i :: 0 <= i < |was| ==> RankOf(was[i]) == RankOf(reqs[i]) || Count(events[i]) == REQ_SIZE
    requires reqs[me].sid < SetL(sid)
    ensures var s := SlotsRead(was, reqs, events);
            var v := Decide(s, me, sid);
            && (v.Support? ==> exists c ::
                  && 0 <= c < |s| && c != me && s[c].sid == v.sid <= reqs[c].sid && GetTerm(v.sid) > GetTerm(sid)
                  && IsChoice(s, me, SetL(sid), |s|, c) && ParetoBest(s, me, SetL(sid), c))
            && (v.Raise? ==> v.term > GetTerm(sid) && BeatsAll(s, me, SetL(sid)))
            && (v.Ignore? <==> GetL(sid) || forall i: nat :: !Pending(s, me, SetL(sid), i))
  {
    hide Decide, GetL, GetIdx, Contents, Count, Loaded, Beats, SetL, GetTerm, ParetoBest, BeatsAll, IsChoice, Pending;
    var s := SlotsRead(was, reqs, events);
    forall i | 0 <= i < |s| ensures s[i].sid <= reqs[i].sid && RankOf(s[i]) == SentRanks(|s|)[i] && !GetL(s[i].sid) {
      TornRequest(was[i], reqs[i], events[i]);
    }
    ScanVerdict(s, me, sid);
  }

  /** The first request of a sender, into an empty slot: from its last byte of a word
      on it is a request, but its rank reads as sent only once the first byte of the
      term is in. */
  lemma FirstRank(req: VoteReq, landed: nat)
    requires 8 <= landed <= REQ_SIZE && req.index < 256 && 0 < req.term < 256
    ensures var got := Loaded(Slot(VoteReq(0, 0, 0), req, landed));
            && got.sid == req.sid
            && (RankOf(got) == RankOf(req) <==> landed > 16)
            && (landed <= 16 ==> got.term == 0)
  {
    hide Stored, Slot, FromLE, Pow256, ToLE;
    Pow256Values();
    FieldRead(VoteReq(0, 0, 0), req, landed);
    MixedReads(req.sid, 0, 8);
    MixedReads(req.index, 0, 8);
    Byte(req.term, Within(landed, 16));
  }

  lemma Byte(n: nat, b: nat)
    requires n < 256
    ensures Mixed(n, 0, b) == if b == 0 then 0 else n
  {
    if b > 0 { MixedReads(0, 0, b - 1); }
  }

  /** Without that, the scan goes wrong: a server outbids the candidate whose first
      request has not got so far, and supports it when it has. */
  lemma CutRequestOutbid(slots: seq<VoteReq>, me: nat, sid: Sid, c: nat, t: nat, landed: nat)
    requires me < |slots| && c < |slots| <= 255 && c != me && 8 <= landed <= REQ_SIZE && c == FIXED_LEADER
    requires !GetL(sid) && GetTerm(sid) < t <= MAX_TERM
    requires forall i :: 0 <= i < |slots| && i != me ==> slots[i] == VoteReq(0, 0, 0)
    ensures var req := VoteReq(Word(t, c), LocalRank(c).index, LocalRank(c).term);
            Decide(slots[c := Loaded(Slot(slots[c], req, landed))], me, sid) ==
              if landed > 16 then Support(req.sid) else Raise(t)
  {
    var req := VoteReq(Word(t, c), LocalRank(c).index, LocalRank(c).term);
    var got := Loaded(Slot(slots[c], req, landed));
    FirstRank(req, landed);
    WordFields(t, c);
    hide Slot, Loaded, BestSid, Winner;
    Setters(sid, 0, 0);
    PackFields(GetTerm(sid), true, GetIdx(sid), sid);
    PackOrder(SetL(sid), req.sid);
    var s := slots[c := got];
    OnePending(s, me, SetL(sid), c, |s|);
  }

  // ------------------------------------------------------------------------- votes

  /** A vote that lands over a cleared cell: what the cell reads, and that it counts as a
      reply exactly when the landed bytes of its offset differ from those of the mark. */
  lemma TornVote(end: nat, landed: nat, cell: seq<byte>)
    requires end < U64 && landed <= 8 && |cell| == 8
    requires forall i :: 0 <= i < 8 ==> cell[i] == if i < landed then ToLE(end, 8)[i] else ToLE(NO_REPLY, 8)[i]
    ensures FromLE(cell) == Mixed(end, NO_REPLY, landed)
    ensures FromLE(cell) == NO_REPLY <==> ToLE(end, landed) == ToLE(NO_REPLY, landed)
    ensures landed == 8 ==> FromLE(cell) == end
  {
    Pow256Values();
    hide Pow256;
    LEMixed(cell, end, NO_REPLY, 8, landed);
    SameLow(end, NO_REPLY, landed);
    MixedReads(end, NO_REPLY, landed);
  }

  lemma {:induction false} SameLow(n: nat, m: nat, b: nat)
    ensures Mixed(n, m, b) == m <==> ToLE(n, b) == ToLE(m, b)
  {
    if b > 0 {
      SameLow(n / 256, m / 256, b - 1);
      LowByte(Mixed(n, m, b), n, Mixed(n / 256, m / 256, b - 1));
      var x, y := ToLE(n / 256, b - 1), ToLE(m / 256, b - 1);
      assert ToLE(n, b) == ToLE(m, b) <==> n % 256 == m % 256 && x == y by {
        assert ToLE(n, b)[0] == n % 256 && ToLE(m, b)[0] == m % 256 && ToLE(n, b)[1..] == x && ToLE(m, b)[1..] == y;
      }
    }
  }
}
