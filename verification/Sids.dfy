/** State identifiers: a 64-bit word [TERM | L | IDX] of 55, 1 and 8 bits.  Shifts
    and masks are written as division and remainder by powers of two. */
module Sids {
  import opened Bytes

  type Sid = s: int | 0 <= s < U64

  const MAX_TERM := 0x7F_FFFF_FFFF_FFFF

  function GetIdx(s: Sid): (i: nat)
  {
    s % 256
  }

  predicate GetL(s: Sid)
  {
    (s / 256) % 2 == 1
  }

  function GetTerm(s: Sid): (t: nat)
  {
    s / 512
  }

  /** `idx | ((sid >> 8) << 8)` */
  function SetIdx(s: Sid, idx: nat): (s': Sid)
    requires idx < 256
  {
    (s / 256) * 256 + idx
  }

  /** `sid | (1 << 8)` */
  function SetL(s: Sid): (s': Sid)
  {
    if GetL(s) then s else s + 256
  }

  /** `sid & ~(1 << 8)` */
  function UnsetL(s: Sid): (s': Sid)
  {
    if GetL(s) then s - 256 else s
  }

  /** `(term << 9) | (sid & 0x1FF)`; the shift drops what does not fit. */
  function SetTerm(s: Sid, term: nat): (s': Sid)
  {
    (term * 512) % U64 + s % 512
  }

  /** The word with the three given fields. */
  function Pack(term: nat, l: bool, idx: nat): (s: Sid)
    requires term <= MAX_TERM && idx < 256
  {
    term * 512 + (if l then 256 else 0) + idx
  }

  /** Every word is the packing of its fields, and fields read back as packed. */
  lemma PackFields(term: nat, l: bool, idx: nat, s: Sid)
    requires term <= MAX_TERM && idx < 256
    ensures GetTerm(Pack(term, l, idx)) == term && GetL(Pack(term, l, idx)) == l && GetIdx(Pack(term, l, idx)) == idx
    ensures GetTerm(s) <= MAX_TERM && GetIdx(s) < 256 && s == Pack(GetTerm(s), GetL(s), GetIdx(s))
  {
    var p := Pack(term, l, idx);
    assert p / 256 == 2 * term + if l then 1 else 0;
    assert s / 512 == (s / 256) / 2;
  }

  /** Words are ordered by term first, then by the leader flag, then by index. */
  lemma PackOrder(a: Sid, b: Sid)
    ensures GetTerm(a) < GetTerm(b) ==> a < b
    ensures GetTerm(a) == GetTerm(b) && !GetL(a) && GetL(b) ==> a < b
    ensures GetTerm(a) == GetTerm(b) && GetL(a) == GetL(b) ==> (a < b <==> GetIdx(a) < GetIdx(b))
  {
    PackFields(0, false, 0, a);
    PackFields(0, false, 0, b);
  }

  lemma TermMonotone(a: Sid, b: Sid)
    requires a <= b
    ensures GetTerm(a) <= GetTerm(b)
  {
    PackOrder(b, a);
  }

  /** Each setter changes its own field and no other.  A term that does not fit
      in 55 bits is cut. */
  lemma Setters(s: Sid, idx: nat, term: nat)
    requires idx < 256 && term <= MAX_TERM
    ensures SetIdx(s, idx) == Pack(GetTerm(s), GetL(s), idx)
    ensures SetL(s) == Pack(GetTerm(s), true, GetIdx(s))
    ensures UnsetL(s) == Pack(GetTerm(s), false, GetIdx(s))
    ensures SetTerm(s, term) == Pack(term, GetL(s), GetIdx(s))
  {
    PackFields(0, false, 0, s);
    assert term * 512 < U64;
    assert s % 512 == (if GetL(s) then 256 else 0) + GetIdx(s);
  }

  /** The word of a new candidacy, [t+1 | 0 | own], built as the code builds it. */
  function Candidacy(s: Sid, me: nat): (s': Sid)
    requires me < 256
  {
    SetIdx(UnsetL(SetTerm(0, GetTerm(s) + 1)), me)
  }

  /** A new candidacy is a larger word of the next term -- exactly as long as the
      term counter is not exhausted. */
  lemma CandidacyGrows(s: Sid, me: nat)
    requires me < 256
    ensures Candidacy(s, me) > s <==> GetTerm(s) < MAX_TERM
    ensures GetTerm(s) < MAX_TERM ==> Candidacy(s, me) == Pack(GetTerm(s) + 1, false, me)
  {
    PackFields(0, false, 0, s);
    if GetTerm(s) < MAX_TERM {
      var t := GetTerm(s) + 1;
      Setters(0, me, t);
      assert SetTerm(0, t) == Pack(t, false, 0);
      PackFields(t, false, 0, 0);
      Setters(Pack(t, false, 0), me, t);
    } else {
      assert (GetTerm(s) + 1) * 512 == U64;
      assert SetTerm(0, GetTerm(s) + 1) == 0;
      assert UnsetL(0) == 0;
      assert SetIdx(0, me) == me;
    }
  }
}
