/**
 * The page checksum of section 6 of RFC 3533, as the recorder and the HTTP audio sender
 * compute it with a table (rac/rac_record.c, rhd/rhd_audio.c), against long division of
 * polynomials over two elements. A word is its bits, the highest first.
 */
module OggCrc {
  import opened AnnexB
  import Basics

  type Coefficients = seq<bool>

  function Zeros(n: nat): (z: Coefficients)
    ensures |z| == n && forall i | 0 <= i < n :: !z[i]
  {
    seq(n, _ => false)
  }

  type Word = w: Coefficients | |w| == 32 witness Zeros(32)

  function Xor(a: Coefficients, b: Coefficients): (r: Coefficients)
    requires |a| == |b|
    ensures |r| == |a| && forall i | 0 <= i < |a| :: r[i] == (a[i] != b[i])
  {
    if a == [] then [] else [a[0] != b[0]] + Xor(a[1..], b[1..])
  }

  // The w lowest bits of n, and the number some bits spell.
  function ToBits(n: nat, w: nat): (r: Coefficients)
    ensures |r| == w
  {
    if w == 0 then [] else ToBits(n / 2, w - 1) + [n % 2 == 1]
  }

  function ToNumber(c: Coefficients): nat {
    if c == [] then 0 else 2 * ToNumber(c[..|c| - 1]) + (if c[|c| - 1] then 1 else 0)
  }

  lemma {:induction false} ToBitsInverts(c: Coefficients)
    ensures ToBits(ToNumber(c), |c|) == c
  {
    if c != [] { ToBitsInverts(c[..|c| - 1]); }
  }

  lemma {:induction false} NumberFits(c: Coefficients)
    ensures ToNumber(c) < Basics.Pow2(|c|)
  {
    if c != [] { NumberFits(c[..|c| - 1]); }
  }

  lemma ByteFits(c: Coefficients)
    requires |c| == 8
    ensures ToNumber(c) < 256
  {
    NumberFits(c);
    assert Basics.Pow2(8) == 256;
  }

  // ----- steps -------------------------------------------------------------------------

  // Shift left, filling up with zeros.
  function Shift(r: Word, n: nat): Word
    requires n <= 32
  {
    r[n..] + Zeros(n)
  }

  // Shift one place; when a term of degree 32 falls out, subtract the generator g.
  function Step(g: Word, r: Word): Word {
    if r[0] then Xor(Shift(r, 1), g) else Shift(r, 1)
  }

  function Steps(g: Word, r: Word, n: nat): Word
    decreases n, r
  {
    if n == 0 then r else Steps(g, Step(g, r), n - 1)
  }

  lemma StepIsLinear(g: Word, a: Word, b: Word)
    ensures Step(g, Xor(a, b)) == Xor(Step(g, a), Step(g, b))
  {
  }

  lemma {:induction false} StepsAreLinear(g: Word, a: Word, b: Word, n: nat)
    ensures Steps(g, Xor(a, b), n) == Xor(Steps(g, a, n), Steps(g, b, n))
    decreases n
  {
    if n > 0 {
      StepIsLinear(g, a, b);
      StepsAreLinear(g, Step(g, a), Step(g, b), n - 1);
    }
  }

  lemma {:induction false} StepsCompose(g: Word, r: Word, m: nat, n: nat)
    ensures Steps(g, r, m + n) == Steps(g, Steps(g, r, m), n)
    decreases m
  {
    if m > 0 { StepsCompose(g, Step(g, r), m - 1, n); }
  }

  // While nothing falls out, a step only shifts.
  lemma {:induction false} StepsShift(g: Word, r: Word, n: nat)
    requires n <= 32 && forall i | 0 <= i < n :: !r[i]
    ensures Steps(g, r, n) == Shift(r, n)
    decreases n
  {
    if n > 0 {
      var s := Step(g, r);
      assert s == Shift(r, 1);
      StepsShift(g, s, n - 1);
      assert Shift(s, n - 1) == Shift(r, n);
    } else {
      assert Shift(r, 0) == r;
    }
  }

  // ----- the table ---------------------------------------------------------------------

  // A byte at the top of a word.
  function AtTop(c: Coefficients): Word
    requires |c| <= 32
  {
    c + Zeros(32 - |c|)
  }

  ghost predicate IsTable(g: Word, t: seq<Word>) {
    |t| == 256 && forall i | 0 <= i < 256 :: t[i] == Steps(g, AtTop(ToBits(i, 8)), 8)
  }

  method CrcEntry(g: Word, r0: Word) returns (r: Word)
    ensures r == Steps(g, r0, 8)
  {
    r := r0;
    var j := 0;
    while j < 8
      invariant 0 <= j <= 8 && Steps(g, r, 8 - j) == Steps(g, r0, 8)
    {
      r := if r[0] then Xor(Shift(r, 1), g) else Shift(r, 1);
      j := j + 1;
    }
  }

  /** ogg_crc_init. */
  method CrcInit(g: Word) returns (table: array<Word>)
    ensures fresh(table) && IsTable(g, table[..])
  {
    table := new Word[256](_ => Zeros(32));
    var i := 0;
    while i < 256
      invariant 0 <= i <= 256
      invariant forall k | 0 <= k < i :: table[k] == Steps(g, AtTop(ToBits(k, 8)), 8)
    {
      table[i] := CrcEntry(g, AtTop(ToBits(i, 8)));
      i := i + 1;
    }
  }

  // ----- one byte ----------------------------------------------------------------------

  // Eight steps after adding a byte at the top.
  function AddByte(g: Word, crc: Word, b: Byte): Word { Steps(g, Xor(crc, AtTop(ToBits(b, 8))), 8) }

  function Crc(g: Word, crc: Word, d: Bytes): Word
    decreases |d|
  {
    if d == [] then crc else Crc(g, AddByte(g, crc, d[0]), d[1..])
  }

  /** One table look-up does what eight bit-at-a-time steps do. */
  lemma LookupIsEightSteps(g: Word, crc: Word, c: Coefficients)
    requires |c| == 8
    ensures Xor(Shift(crc, 8), Steps(g, AtTop(Xor(crc[..8], c)), 8)) == Steps(g, Xor(crc, AtTop(c)), 8)
  {
    var hi, lo: Word := AtTop(Xor(crc[..8], c)), Zeros(8) + crc[8..];
    assert Xor(crc, AtTop(c)) == Xor(lo, hi);
    StepsAreLinear(g, lo, hi, 8);
    StepsShift(g, lo, 8);
    assert Shift(lo, 8) == Shift(crc, 8);
  }

  /** ogg_crc_update. */
  method CrcUpdate(ghost g: Word, table: array<Word>, crc0: Word, d: Bytes) returns (crc: Word)
    requires IsTable(g, table[..])
    ensures crc == Crc(g, crc0, d)
  {
    crc := crc0;
    var i := 0;
    assert d[0..] == d;
    while i < |d|
      invariant 0 <= i <= |d| && Crc(g, crc, d[i..]) == Crc(g, crc0, d)
    {
      var c := Xor(crc[..8], ToBits(d[i], 8));
      ByteFits(c);
      ToBitsInverts(c);
      LookupIsEightSteps(g, crc, ToBits(d[i], 8));
      assert table[..][ToNumber(c)] == Steps(g, AtTop(c), 8);
      assert d[i..][0] == d[i] && d[i..][1..] == d[i + 1..];
      crc := Xor(Shift(crc, 8), table[ToNumber(c)]);
      i := i + 1;
    }
  }

  /** Folding over the parts of a page in turn is one pass over the whole. */
  lemma {:induction false} CrcSplits(g: Word, crc: Word, a: Bytes, b: Bytes)
    ensures Crc(g, crc, a + b) == Crc(g, Crc(g, crc, a), b)
    decreases |a|
  {
    if a == [] {
      assert a + b == b;
    } else {
      assert (a + b)[0] == a[0] && (a + b)[1..] == a[1..] + b;
      CrcSplits(g, AddByte(g, crc, a[0]), a[1..], b);
    }
  }

  // ----- division of polynomials ---------------------------------------------------------

  // The polynomial a byte string spells, highest degree first.
  function Message(d: Bytes): Coefficients {
    if d == [] then [] else ToBits(d[0], 8) + Message(d[1..])
  }

  // A coefficient at the bottom of a word.
  function AtBottom(b: bool): Word { Zeros(31) + [b] }

  // Long division: bring down one coefficient at a time, and subtract the divisor whenever
  // the part of the dividend in hand reaches its degree.
  function Remainder(g: Word, r: Word, c: Coefficients): Word
    decreases |c|
  {
    if c == [] then r else Remainder(g, Xor(Step(g, r), AtBottom(c[0])), c[1..])
  }

  // A coefficient entering at the top instead, 32 places ahead.
  function AddBits(g: Word, r: Word, c: Coefficients): Word
    decreases |c|
  {
    if c == [] then r else AddBits(g, Step(g, Xor(r, AtTop([c[0]]))), c[1..])
  }

  lemma {:induction false} AddBitsSplits(g: Word, r: Word, a: Coefficients, b: Coefficients)
    ensures AddBits(g, r, a + b) == AddBits(g, AddBits(g, r, a), b)
    decreases |a|
  {
    if a == [] {
      assert a + b == b;
    } else {
      assert (a + b)[0] == a[0] && (a + b)[1..] == a[1..] + b;
      AddBitsSplits(g, Step(g, Xor(r, AtTop([a[0]]))), a[1..], b);
    }
  }

  // Adding coefficients one by one as they reach the top is adding them all at once.
  lemma {:induction false} AddBitsIsSteps(g: Word, r: Word, c: Coefficients)
    requires |c| <= 32
    ensures AddBits(g, r, c) == Steps(g, Xor(r, AtTop(c)), |c|)
    decreases |c|
  {
    if c == [] {
      assert Xor(r, AtTop(c)) == r;
    } else {
      var first, rest: Word := AtTop([c[0]]), [false] + c[1..] + Zeros(32 - |c|);
      assert Xor(r, AtTop(c)) == Xor(Xor(r, first), rest);
      StepIsLinear(g, Xor(r, first), rest);
      assert Step(g, rest) == AtTop(c[1..]);
      AddBitsIsSteps(g, Step(g, Xor(r, first)), c[1..]);
    }
  }

  lemma {:induction false} CrcIsAddBits(g: Word, crc: Word, d: Bytes)
    ensures Crc(g, crc, d) == AddBits(g, crc, Message(d))
    decreases |d|
  {
    if d != [] {
      AddBitsIsSteps(g, crc, ToBits(d[0], 8));
      AddBitsSplits(g, crc, ToBits(d[0], 8), Message(d[1..]));
      CrcIsAddBits(g, AddByte(g, crc, d[0]), d[1..]);
    }
  }

  // A coefficient at the bottom is at the top 31 steps later.
  lemma BottomRises(g: Word, b: bool, n: nat)
    requires n == 31
    ensures Steps(g, AtBottom(b), n + 1) == Step(g, AtTop([b]))
  {
    StepsShift(g, AtBottom(b), n);
    assert Shift(AtBottom(b), n) == AtTop([b]);
    StepsCompose(g, AtBottom(b), n, 1);
  }

  lemma {:induction false} RemainderOfZeros(g: Word, r: Word, n: nat)
    ensures Remainder(g, r, Zeros(n)) == Steps(g, r, n)
    decreases n
  {
    if n > 0 {
      assert Zeros(n)[1..] == Zeros(n - 1);
      assert Xor(Step(g, r), AtBottom(false)) == Step(g, r);
      RemainderOfZeros(g, Step(g, r), n - 1);
    }
  }

  lemma {:induction false} DivisionIsAddBits(g: Word, r: Word, c: Coefficients, n: nat)
    requires n == 32
    ensures Remainder(g, r, c + Zeros(n)) == AddBits(g, Steps(g, r, n), c)
    decreases |c|
  {
    if c == [] {
      assert c + Zeros(n) == Zeros(n);
      RemainderOfZeros(g, r, n);
    } else {
      var s := Xor(Step(g, r), AtBottom(c[0]));
      assert (c + Zeros(n))[0] == c[0] && (c + Zeros(n))[1..] == c[1..] + Zeros(n);
      DivisionIsAddBits(g, s, c[1..], n);
      StepsAreLinear(g, Step(g, r), AtBottom(c[0]), n);
      StepsCompose(g, r, n, 1);
      BottomRises(g, c[0], n - 1);
      StepIsLinear(g, Steps(g, r, n), AtTop([c[0]]));
    }
  }

  /** The checksum of a byte string is the remainder of its polynomial, moved up 32 places, by the generator. */
  lemma CrcIsRemainder(g: Word, d: Bytes)
    ensures Crc(g, Zeros(32), d) == Remainder(g, Zeros(32), Message(d) + Zeros(32))
  {
    StepsShift(g, Zeros(32), 32);
    assert Shift(Zeros(32), 32) == Zeros(32);
    DivisionIsAddBits(g, Zeros(32), Message(d), 32);
    CrcIsAddBits(g, Zeros(32), d);
  }
}
