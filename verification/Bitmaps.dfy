/** The acknowledgement bitmap of a request and its population count.  A word is
    a natural number read bit by bit, least significant first. */
module Bitmaps {

  predicate HasBit(word: nat, i: nat)
  {
    if i == 0 then word % 2 == 1 else HasBit(word / 2, i - 1)
  }

  /** `word | (1 << i)` */
  function OrBit(word: nat, i: nat): (w: nat)
    decreases i
  {
    if i == 0 then 2 * (word / 2) + 1 else 2 * OrBit(word / 2, i - 1) + word % 2
  }

  lemma Halve(h: nat, b: nat)
    requires b < 2
    ensures (2 * h + b) / 2 == h && (2 * h + b) % 2 == b
  {
  }

  /** Or-ing bit `i` in sets that bit and leaves every other. */
  lemma {:induction false} OrBitSets(word: nat, i: nat, k: nat)
    ensures HasBit(OrBit(word, i), k) <==> HasBit(word, k) || k == i
    decreases i
  {
    if i == 0 {
      Halve(word / 2, 1);
    } else {
      Halve(OrBit(word / 2, i - 1), word % 2);
      if k != 0 {
        OrBitSets(word / 2, i - 1, k - 1);
      }
    }
  }

  /** `__builtin_popcountl` */
  function Popcount(word: nat): (n: nat)
  {
    if word == 0 then 0 else word % 2 + Popcount(word / 2)
  }

  /** Setting a bit counts once, however often it is set. */
  lemma {:induction false} PopcountOr(word: nat, i: nat)
    ensures Popcount(OrBit(word, i)) == Popcount(word) + if HasBit(word, i) then 0 else 1
    decreases i
  {
    if i == 0 {
      Halve(word / 2, 1);
      assert word == 2 * (word / 2) + word % 2;
    } else {
      Halve(OrBit(word / 2, i - 1), word % 2);
      PopcountOr(word / 2, i - 1);
      assert HasBit(word, i) <==> HasBit(word / 2, i - 1);
      assert Popcount(OrBit(word, i)) == word % 2 + Popcount(OrBit(word / 2, i - 1));
      assert Popcount(word) == word % 2 + Popcount(word / 2);
    }
  }

  /** The bit positions below `bound` that are set. */
  ghost function BitsBelow(word: nat, bound: nat): (s: set<nat>)
  {
    set i: nat | i < bound && HasBit(word, i)
  }

  lemma {:induction false} NoBits(i: nat)
    ensures !HasBit(0, i)
  {
    if i != 0 { NoBits(i - 1); }
  }

  lemma {:induction false} SomeBit(word: nat) returns (i: nat)
    requires word != 0
    ensures HasBit(word, i)
  {
    if word % 2 == 1 {
      i := 0;
    } else {
      i := SomeBit(word / 2);
      i := i + 1;
    }
  }

  /** The population count is the number of distinct positions set. */
  lemma {:induction false} PopcountCounts(word: nat, bound: nat)
    requires forall i: nat :: HasBit(word, i) ==> i < bound
    ensures Popcount(word) == |BitsBelow(word, bound)|
    decreases bound
  {
    if word == 0 {
      forall i: nat ensures !HasBit(word, i) { NoBits(i); }
      assert BitsBelow(word, bound) == {};
    } else {
      var i := SomeBit(word);
      forall k: nat | HasBit(word / 2, k) ensures k < bound - 1 {
        assert HasBit(word, k + 1);
      }
      var lower := BitsBelow(word / 2, bound - 1);
      PopcountCounts(word / 2, bound - 1);
      var shifted := Shifted(lower);
      ShiftedSize(lower);
      var low := if word % 2 == 1 then {0} else {};
      forall k: nat | k < bound ensures k in BitsBelow(word, bound) <==> k in shifted + low {
        if k != 0 {
          assert HasBit(word, k) <==> HasBit(word / 2, k - 1);
          assert k - 1 in lower <==> k in shifted;
        }
      }
      assert BitsBelow(word, bound) == shifted + low;
    }
  }

  ghost function Shifted(s: set<nat>): (t: set<nat>)
  {
    set k: nat | k in s :: k + 1
  }

  lemma {:induction false} ShiftedSize(s: set<nat>)
    ensures |Shifted(s)| == |s|
  {
    if s != {} {
      var x :| x in s;
      ShiftedSize(s - {x});
      assert forall k: nat :: k in s ==> k == x || k in s - {x};
      assert Shifted(s) == Shifted(s - {x}) + {x + 1};
    }
  }
}
