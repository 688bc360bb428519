/** The table-driven CRC64 against the bit-at-a-time definition of the reflected
    Jones polynomial, and which differences between streams it cannot miss. */
module Crc64 {
  import opened Crc64Table

  // ----------------------------------------------------------------- bit patterns

  function Xor(a: bv64, b: bv64): (r: bv64) { a ^ b }

  /** `(uint8_t)c`, the rest of `c`, and shifts by a byte. */
  function Low(c: bv64): (r: bv64) { c & 0xFF }

  function High(c: bv64): (r: bv64) { c & 0xFFFF_FFFF_FFFF_FF00 }

  function Down(c: bv64): (r: bv64) { c >> 8 }

  function Up(c: bv64): (r: bv64) { c << 8 }

  function Wide(b: bv8): (r: bv64)
    ensures r < 256
  {
    b as bv64
  }

  // -------------------------------------------------------------- specification

  /** Feed `n` zero bits to the register. */
  function ManyBits(c: bv64, n: nat): (r: bv64)
    decreases n
  {
    if n == 0 then c else ManyBits(OneBit(c), n - 1)
  }

  /** The checksum by definition: add each byte to the register, then feed it out
      bit by bit. */
  function Checksum(crc: bv64, s: seq<bv8>): (r: bv64)
    decreases |s|
  {
    if |s| == 0 then crc else Checksum(ManyBits(Xor(crc, Wide(s[0])), 8), s[1..])
  }

  // -------------------------------------------------------------------- the code

  /** `crc64`: one table lookup per byte. */
  method Crc64(crc: bv64, s: array<bv8>, l: nat) returns (r: bv64)
    requires l <= s.Length
    ensures r == Checksum(crc, s[..l])
  {
    hide Table, ManyBits, Xor, Low, Down, Wide;
    r := crc;
    var j := 0;
    assert s[0..l] == s[..l];
    while j < l
      invariant 0 <= j <= l
      invariant Checksum(r, s[j..l]) == Checksum(crc, s[..l])
    {
      var byte := Wide(s[j]);
      ByteByTable(r, byte);
      assert s[j..l][1..] == s[j + 1..l];
      r := Xor(Table(Xor(Low(r), byte)), Down(r));
      j := j + 1;
    }
  }

  // -------------------------------------------------------------- linear algebra

  lemma XorParts(a: bv64, b: bv64)
    ensures (a ^ b) & 1 == (a & 1) ^ (b & 1)
    ensures (a ^ b) >> 1 == (a >> 1) ^ (b >> 1)
    ensures a & 1 == 0 || a & 1 == 1
  {
  }

  lemma XorPoly(x: bv64, y: bv64)
    ensures (x ^ POLY) ^ y == (x ^ y) ^ POLY
    ensures x ^ (y ^ POLY) == (x ^ y) ^ POLY
    ensures (x ^ POLY) ^ (y ^ POLY) == x ^ y
  {
  }

  lemma XorCancels(a: bv64, b: bv64, x: bv64)
    ensures Xor(a, x) == Xor(b, x) <==> a == b
    ensures Xor(x, a) == Xor(x, b) <==> a == b
  {
  }

  /** Feeding a bit is linear. */
  lemma OneBitLinear(a: bv64, b: bv64)
    ensures OneBit(Xor(a, b)) == Xor(OneBit(a), OneBit(b))
  {
    OneBitXor(a, b);
    hide OneBit;
  }

  lemma OneBitXor(a: bv64, b: bv64)
    ensures OneBit(a ^ b) == OneBit(a) ^ OneBit(b)
  {
    XorParts(a, b);
    XorParts(b, a);
    XorPoly(a >> 1, b >> 1);
    if a & 1 == 1 && b & 1 == 1 {
    } else if a & 1 == 1 {
    } else if b & 1 == 1 {
    } else {
    }
  }

  /** The register before a bit was fed: the top bit tells what fell out. */
  function UndoBit(d: bv64): (c: bv64)
  {
    if d >> 63 == 1 then ((d ^ POLY) << 1) | 1 else d << 1
  }

  /** Feeding a bit loses nothing. */
  lemma OneBitUndone(c: bv64)
    ensures UndoBit(OneBit(c)) == c
  {
  }

  lemma {:induction false} ManyBitsLinear(a: bv64, b: bv64, n: nat)
    ensures ManyBits(Xor(a, b), n) == Xor(ManyBits(a, n), ManyBits(b, n))
    decreases n
  {
    hide OneBit, Xor;
    if n > 0 {
      OneBitLinear(a, b);
      ManyBitsLinear(OneBit(a), OneBit(b), n - 1);
    }
  }

  lemma {:induction false} ManyBitsInjective(a: bv64, b: bv64, n: nat)
    requires a != b
    ensures ManyBits(a, n) != ManyBits(b, n)
    decreases n
  {
    hide OneBit, UndoBit;
    if n > 0 {
      OneBitUndone(a);
      OneBitUndone(b);
      ManyBitsInjective(OneBit(a), OneBit(b), n - 1);
    }
  }

  lemma EightAreEight(c: bv64)
    ensures ManyBits(c, 8) == EightBits(c)
  {
    hide OneBit;
    var c1 := OneBit(c);
    var c2 := OneBit(c1);
    var c3 := OneBit(c2);
    var c4 := OneBit(c3);
    var c5 := OneBit(c4);
    var c6 := OneBit(c5);
    assert ManyBits(c6, 2) == OneBit(OneBit(c6));
    assert ManyBits(c4, 4) == ManyBits(c6, 2);
    assert ManyBits(c2, 6) == ManyBits(c4, 4);
    assert ManyBits(c, 8) == ManyBits(c2, 6);
  }

  /** A register with an empty low byte just shifts. */
  lemma HighBytesShift(c: bv64)
    requires Low(c) == 0
    ensures EightBits(c) == Down(c)
  {
  }

  lemma SplitBits(crc: bv64, b: bv64)
    requires b < 256
    ensures (crc & 0xFF) ^ b < 256
    ensures ((crc & 0xFF) ^ b) ^ (crc & 0xFFFF_FFFF_FFFF_FF00) == crc ^ b
    ensures (crc & 0xFFFF_FFFF_FFFF_FF00) & 0xFF == 0
    ensures (crc & 0xFFFF_FFFF_FFFF_FF00) >> 8 == crc >> 8
  {
  }

  lemma SplitRegister(crc: bv64, b: bv64)
    requires b < 256
    ensures Xor(Low(crc), b) < 256
    ensures Xor(Xor(Low(crc), b), High(crc)) == Xor(crc, b)
    ensures Low(High(crc)) == 0
    ensures Down(High(crc)) == Down(crc)
  {
    var low, high := crc & 0xFF, crc & 0xFFFF_FFFF_FFFF_FF00;
    assert Low(crc) == low && High(crc) == high;
    hide Low, High;
    SplitBits(crc, b);
    HighPart(crc);
  }

  lemma HighPart(crc: bv64)
    ensures Low(High(crc)) == 0
    ensures Down(High(crc)) == Down(crc)
  {
    SplitBits(crc, 0);
  }

  /** One step of the loop is eight bits of the definition. */
  lemma ByteByTable(crc: bv64, b: bv64)
    requires b < 256
    ensures Xor(Low(crc), b) < 256
    ensures Xor(Table(Xor(Low(crc), b)), Down(crc)) == ManyBits(Xor(crc, b), 8)
  {
    hide Table, EightBits, ManyBits, Xor, Low, High, Down;
    SplitRegister(crc, b);
    var low, high := Xor(Low(crc), b), High(crc);
    TableCorrect(low);
    HighBytesShift(high);
    EightAreEight(low);
    EightAreEight(high);
    ManyBitsLinear(low, high, 8);
  }

  /** Streams may be hashed piece by piece. */
  lemma {:induction false} ChecksumConcat(crc: bv64, s: seq<bv8>, t: seq<bv8>)
    ensures Checksum(crc, s + t) == Checksum(Checksum(crc, s), t)
    decreases |s|
  {
    hide ManyBits, Xor, Wide;
    if |s| == 0 {
      assert s + t == t;
    } else {
      assert (s + t)[1..] == s[1..] + t;
      ChecksumConcat(ManyBits(Xor(crc, Wide(s[0])), 8), s[1..], t);
    }
  }

  /** For a given stream, different registers stay different. */
  lemma {:induction false} ChecksumInjective(a: bv64, b: bv64, s: seq<bv8>)
    requires a != b
    ensures Checksum(a, s) != Checksum(b, s)
    decreases |s|
  {
    hide ManyBits, Xor, Wide;
    if |s| > 0 {
      var x := Wide(s[0]);
      XorCancels(a, b, x);
      ManyBitsInjective(Xor(a, x), Xor(b, x), 8);
      ChecksumInjective(ManyBits(Xor(a, x), 8), ManyBits(Xor(b, x), 8), s[1..]);
    }
  }

  // ---------------------------------------------------------------- short windows

  /** Up to eight bytes as one little-endian word. */
  function WordOf(s: seq<bv8>): (w: bv64)
    requires |s| <= 8
  {
    if |s| == 0 then 0 else Xor(Wide(s[0]), Up(WordOf(s[1..])))
  }

  /** The bits above the lowest `n` bytes are zero. */
  predicate FitsBytes(w: bv64, n: nat)
    decreases n
  {
    if n == 0 then w == 0 else FitsBytes(Down(w), n - 1)
  }

  lemma {:induction false} FitsMore(w: bv64, n: nat, m: nat)
    requires n <= m && FitsBytes(w, n)
    ensures FitsBytes(w, m)
    decreases m
  {
    if n == 0 {
      assert Down(0) == 0;
    }
    hide Down;
    if m > 0 {
      if n == 0 { FitsMore(Down(w), 0, m - 1); } else { FitsMore(Down(w), n - 1, m - 1); }
    }
  }

  lemma FitsSeven(w: bv64)
    ensures FitsBytes(w, 7) <==> w >> 56 == 0
  {
    var x := Down(Down(Down(w)));
    assert FitsBytes(w, 7) <==> FitsBytes(x, 4);
    var y := Down(Down(Down(x)));
    assert FitsBytes(x, 4) <==> FitsBytes(y, 1);
    assert FitsBytes(y, 1) <==> Down(y) == 0;
  }

  lemma SmallByte(b: bv64)
    requires b < 256
    ensures b >> 8 == 0 && b & 0xFF == b
  {
  }

  lemma RoundTripBits(w: bv64)
    requires w >> 56 == 0
    ensures (w << 8) & 0xFF == 0 && (w << 8) >> 8 == w
  {
  }

  lemma XorByteParts(a: bv64, b: bv64)
    ensures (a ^ b) >> 8 == (a >> 8) ^ (b >> 8)
    ensures (a ^ b) & 0xFF == (a & 0xFF) ^ (b & 0xFF)
    ensures a ^ 0 == a && 0 ^ a == a
  {
  }

  lemma JoinBits(b: bv64, w: bv64)
    requires b < 256 && w >> 56 == 0
    ensures (b ^ (w << 8)) & 0xFF == b
    ensures (b ^ (w << 8)) >> 8 == w
    ensures (w << 8) & 0xFF == 0 && (w << 8) >> 8 == w
  {
    SmallByte(b);
    RoundTripBits(w);
    XorByteParts(b, w << 8);
    XorByteParts(w, b);
  }

  /** A byte put below seven others can be told from them again. */
  lemma Join(b: bv64, w: bv64)
    requires b < 256 && FitsBytes(w, 7)
    ensures Low(Xor(b, Up(w))) == b && Down(Xor(b, Up(w))) == w
    ensures Low(Up(w)) == 0 && Down(Up(w)) == w
  {
    FitsSeven(w);
    JoinBits(b, w);
  }

  lemma {:induction false} WordFits(s: seq<bv8>)
    requires |s| <= 8
    ensures FitsBytes(WordOf(s), |s|)
    ensures |s| > 0 ==> FitsBytes(WordOf(s[1..]), 7)
  {
    hide Xor, Up, Down, Wide;
    if |s| > 0 {
      WordFits(s[1..]);
      FitsMore(WordOf(s[1..]), |s| - 1, 7);
      Join(Wide(s[0]), WordOf(s[1..]));
    }
  }

  lemma WideInjective(x: bv8, y: bv8)
    requires Wide(x) == Wide(y)
    ensures x == y
  {
  }

  /** Different byte strings of one length are different words. */
  lemma {:induction false} WordInjective(s: seq<bv8>, t: seq<bv8>)
    requires |s| == |t| <= 8 && WordOf(s) == WordOf(t)
    ensures s == t
  {
    hide FitsBytes, Xor, Up, Down, Low, Wide;
    if |s| > 0 {
      WordFits(s);
      WordFits(t);
      Join(Wide(s[0]), WordOf(s[1..]));
      Join(Wide(t[0]), WordOf(t[1..]));
      WideInjective(s[0], t[0]);
      WordInjective(s[1..], t[1..]);
      assert s == [s[0]] + s[1..] && t == [t[0]] + t[1..];
    }
  }

  /** Feeding out the lowest byte of a word moves the rest of it down. */
  lemma LowestByteOut(x: bv64, w: bv64)
    requires FitsBytes(w, 7)
    ensures ManyBits(Xor(x, Up(w)), 8) == Xor(ManyBits(x, 8), w)
  {
    hide EightBits, ManyBits, Xor, Up, Down, Low, FitsBytes;
    Join(0, w);
    HighBytesShift(Up(w));
    EightAreEight(Up(w));
    ManyBitsLinear(x, Up(w), 8);
  }

  lemma {:induction false} ManyBitsAdd(c: bv64, m: nat, n: nat)
    ensures ManyBits(c, m + n) == ManyBits(ManyBits(c, m), n)
    decreases m
  {
    hide OneBit;
    if m > 0 { ManyBitsAdd(OneBit(c), m - 1, n); }
  }

  lemma XorAssoc(a: bv64, b: bv64, c: bv64)
    ensures Xor(Xor(a, b), c) == Xor(a, Xor(b, c))
  {
  }

  lemma XorZero(a: bv64)
    ensures Xor(a, 0) == a
  {
  }

  /** Up to eight bytes can be added to the register at once, as one word. */
  lemma {:induction false} ChecksumWord(crc: bv64, s: seq<bv8>)
    requires |s| <= 8
    ensures Checksum(crc, s) == ManyBits(Xor(crc, WordOf(s)), 8 * |s|)
    decreases |s|
  {
    hide Xor, Up, Wide, FitsBytes, OneBit;
    if |s| == 0 {
      XorZero(crc);
    } else {
      var b, rest := Wide(s[0]), s[1..];
      var c := ManyBits(Xor(crc, b), 8);
      ChecksumWord(c, rest);
      WordFits(s);
      LowestByteOut(Xor(crc, b), WordOf(rest));
      XorAssoc(crc, b, Up(WordOf(rest)));
      ManyBitsAdd(Xor(crc, WordOf(s)), 8, 8 * |rest|);
    }
  }

  /** Two streams of one length that differ only inside a window of at most eight
      bytes never have the same checksum. */
  lemma WindowDetected(crc: bv64, before: seq<bv8>, s: seq<bv8>, t: seq<bv8>, after: seq<bv8>)
    requires |s| == |t| <= 8 && s != t
    ensures Checksum(crc, before + s + after) != Checksum(crc, before + t + after)
  {
    hide Checksum, WordOf, ManyBits, Xor;
    var c := Checksum(crc, before);
    if WordOf(s) == WordOf(t) { WordInjective(s, t); }
    ChecksumWord(c, s);
    ChecksumWord(c, t);
    XorCancels(WordOf(s), WordOf(t), c);
    ManyBitsInjective(Xor(c, WordOf(s)), Xor(c, WordOf(t)), 8 * |s|);
    ChecksumInjective(Checksum(c, s), Checksum(c, t), after);
    ChecksumConcat(crc, before + s, after);
    ChecksumConcat(crc, before + t, after);
    ChecksumConcat(crc, before, s);
    ChecksumConcat(crc, before, t);
  }

  // ---------------------------------------------------------- every value occurs

  lemma RedoHigh(d: bv64)
    requires d >> 63 == 1
    ensures (((d ^ 0x95ac9329ac4bc9b5) << 1) | 1) & 1 == 1
    ensures ((((d ^ 0x95ac9329ac4bc9b5) << 1) | 1) >> 1) ^ 0x95ac9329ac4bc9b5 == d
  {
  }

  lemma RedoLow(d: bv64)
    requires d >> 63 != 1
    ensures (d << 1) & 1 == 0 && (d << 1) >> 1 == d
  {
  }

  /** Every register comes from another one by feeding a bit. */
  lemma UndoneRedone(d: bv64)
    ensures OneBit(UndoBit(d)) == d
  {
    if d >> 63 == 1 { RedoHigh(d); } else { RedoLow(d); }
  }

  lemma {:induction false} UndoBits(d: bv64, n: nat) returns (c: bv64)
    ensures ManyBits(c, n) == d
  {
    hide OneBit, UndoBit;
    if n == 0 {
      c := d;
    } else {
      var c' := UndoBits(d, n - 1);
      c := UndoBit(c');
      UndoneRedone(c');
    }
  }

  /** The bytes of a word, least significant first. */
  function BytesOf(w: bv64, n: nat): (s: seq<bv8>)
    ensures |s| == n
    decreases n
  {
    if n == 0 then [] else [Narrow(Low(w))] + BytesOf(Down(w), n - 1)
  }

  function Narrow(b: bv64): (r: bv8)
  {
    (b & 0xFF) as bv8
  }

  lemma NarrowWide(w: bv64)
    ensures Wide(Narrow(Low(w))) == Low(w)
  {
  }

  lemma SplitLow(w: bv64)
    ensures (w & 0xFF) ^ ((w >> 8) << 8) == w
  {
  }

  lemma {:induction false} WordOfBytes(w: bv64, n: nat)
    requires n <= 8 && FitsBytes(w, n)
    ensures WordOf(BytesOf(w, n)) == w
    decreases n
  {
    if n > 0 {
      WordOfBytes(Down(w), n - 1);
      NarrowWide(w);
      SplitLow(w);
      assert BytesOf(w, n)[1..] == BytesOf(Down(w), n - 1);
    }
  }

  lemma AllFit(w: bv64)
    ensures FitsBytes(w, 8)
  {
    EightDown(w);
    hide Down;
    FitsSeven(Down(w));
  }

  lemma EightDown(w: bv64)
    ensures Down(w) >> 56 == 0
  {
  }

  lemma XorTwice(a: bv64, b: bv64)
    ensures Xor(a, Xor(a, b)) == b
  {
  }

  /** After any stream there are eight bytes that lead to any checksum. */
  lemma EveryChecksum(crc: bv64, s: seq<bv8>, h: bv64) returns (t: seq<bv8>)
    ensures |t| == 8 && Checksum(crc, s + t) == h
  {
    hide Xor, ManyBits, Checksum, WordOf, BytesOf, FitsBytes;
    var x := UndoBits(h, 64);
    var mid := Checksum(crc, s);
    var w := Xor(mid, x);
    t := BytesOf(w, 8);
    AllFit(w);
    WordOfBytes(w, 8);
    ChecksumConcat(crc, s, t);
    ChecksumWord(mid, t);
    XorTwice(mid, x);
  }
}
