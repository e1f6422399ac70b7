// The bit reader of the frame indexer: fixed-width fields and the variable-length numbers of
// H.264 and H.265 headers, proved to read back the codes section 9.1 of ITU-T H.264 defines.
module Bits {
  import opened AnnexB
  import opened Basics

  // The left shift, a bit at a time.
  function Shl(x: nat, k: nat): (r: nat)
    ensures x == 0 ==> r == 0
  {
    if k == 0 then x else 2 * Shl(x, k - 1)
  }

  // The bits of a byte string, most significant first.
  function BitsOf(d: Bytes): (b: seq<nat>)
    ensures |b| == 8 * |d|
  {
    if d == [] then [] else ByteBits(d[0], 8) + BitsOf(d[1..])
  }

  function ByteBits(b: nat, w: nat): (r: seq<nat>)
    ensures |r| == w
  {
    if w == 0 then [] else ByteBits(b / 2, w - 1) + [b % 2]
  }

  function Number(b: seq<nat>): nat { if b == [] then 0 else 2 * Number(b[..|b| - 1]) + b[|b| - 1] }

  // The number the n bits from p on spell, one bit at a time.
  function Taken(b: seq<nat>, p: nat, n: nat): nat
    requires n > 0 ==> p + n <= |b|
  {
    if n == 0 then 0 else 2 * Taken(b, p, n - 1) + b[p + n - 1]
  }

  datatype Reader = Reader(pos: nat, overflow: bool)

  // How many of the next n bits are there.
  function There(b: seq<nat>, p: nat, n: nat): (m: nat)
    ensures m <= n && (m > 0 ==> p + m <= |b|)
  {
    if p >= |b| then 0 else if p + n <= |b| then n else |b| - p
  }

  // bits_read: past the end the missing low bits read as zeros, and the reader remembers it.
  function ReadValue(b: seq<nat>, r: Reader, n: nat): nat {
    var m := There(b, r.pos, n);
    Shl(Taken(b, r.pos, m), n - m)
  }

  function AfterRead(b: seq<nat>, r: Reader, n: nat): Reader {
    var m := There(b, r.pos, n);
    Reader(r.pos + m, r.overflow || m < n)
  }

  datatype Leading = Leading(zeros: nat, rest: Reader)

  // bits_ue: the zero bits counted, and the reader behind the one that ends them.
  function Lead(b: seq<nat>, r: Reader, z: nat): (l: Leading)
    decreases if r.overflow then 0 else if r.pos >= |b| then 1 else |b| - r.pos + 1
  {
    if r.overflow then Leading(z, r)
    else if ReadValue(b, r, 1) == 0 && z < 32 then Lead(b, AfterRead(b, r, 1), z + 1)
    else Leading(z, AfterRead(b, r, 1))
  }

  function UeValue(b: seq<nat>, r: Reader): nat {
    var l := Lead(b, r, 0);
    Pow2(l.zeros) - 1 + ReadValue(b, l.rest, l.zeros)
  }

  function AfterUe(b: seq<nat>, r: Reader): Reader {
    var l := Lead(b, r, 0);
    AfterRead(b, l.rest, l.zeros)
  }

  function Signed(v: nat): int { if v % 2 == 1 then (v + 1) / 2 else -(v / 2) }

  lemma {:induction false} ByteBitAt(b: nat, w: nat, k: nat)
    requires k < w
    ensures ByteBits(b, w)[k] == Shr(b, w - 1 - k) % 2
  {
    if k < w - 1 { ByteBitAt(b / 2, w - 1, k); }
  }

  lemma {:induction false} BitAt(d: Bytes, i: nat)
    requires i < 8 * |d|
    ensures BitsOf(d)[i] == Shr(d[i / 8], 7 - i % 8) % 2
  {
    if i < 8 {
      ByteBitAt(d[0], 8, i);
    } else {
      BitAt(d[1..], i - 8);
      assert (i - 8) / 8 == i / 8 - 1 && (i - 8) % 8 == i % 8;
    }
  }

  class BitReader {
    const data: Bytes
    var pos: nat
    var overflow: bool

    function View(): Reader
      reads this
    {
      Reader(pos, overflow)
    }

    constructor (data: Bytes)
      ensures this.data == data && View() == Reader(0, false)
    {
      this.data, pos, overflow := data, 0, false;
    }

    method Read(n: nat) returns (val: nat)
      modifies this
      ensures val == ReadValue(BitsOf(data), old(View()), n) && View() == AfterRead(BitsOf(data), old(View()), n)
    {
      ghost var p, b := pos, BitsOf(data);
      val := 0;
      var i := 0;
      while i < n
        invariant 0 <= i <= n && pos == p + i && overflow == old(overflow)
        invariant (i > 0 ==> pos <= |b|) && val == Taken(b, p, i)
      {
        if pos / 8 >= |data| {
          overflow := true;
          val := Shl(val, n - i);
          return;
        }
        BitAt(data, pos);
        val := val * 2 + Shr(data[pos / 8], 7 - pos % 8) % 2;
        pos := pos + 1;
        i := i + 1;
      }
    }

    method Ue() returns (val: nat)
      modifies this
      ensures val == UeValue(BitsOf(data), old(View())) && View() == AfterUe(BitsOf(data), old(View()))
    {
      var zeros := 0;
      var more := true;
      ghost var b := BitsOf(data);
      while more && !overflow
        invariant 0 <= zeros <= 32
        invariant Lead(b, old(View()), 0) == if more then Lead(b, View(), zeros) else Leading(zeros, View())
        decreases more, 32 - zeros
      {
        var bit := Read(1);
        if bit == 0 && zeros < 32 {
          zeros := zeros + 1;
        } else {
          more := false;
        }
      }
      var rest := Read(zeros);
      val := Pow2(zeros) - 1 + rest;
    }

    method Se() returns (val: int)
      modifies this
      ensures val == Signed(UeValue(BitsOf(data), old(View()))) && View() == AfterUe(BitsOf(data), old(View()))
    {
      var v: int := Ue();
      val := if v % 2 == 1 then (v + 1) / 2 else -(v / 2);
    }
  }

  // ----- the standard's exponential-Golomb codes -----------------------------------------

  function Log2(n: nat): nat
    requires n >= 1
  {
    if n == 1 then 0 else 1 + Log2(n / 2)
  }

  function ZeroBits(k: nat): (b: seq<nat>)
    ensures |b| == k && forall i | 0 <= i < k :: b[i] == 0
  {
    if k == 0 then [] else [0] + ZeroBits(k - 1)
  }

  // Section 9.1: as many zeros as the number one larger has bits behind its first, then that number.
  function UeCode(v: nat): seq<nat> { ZeroBits(Log2(v + 1)) + ByteBits(v + 1, Log2(v + 1) + 1) }

  // Section 9.1.1: positive numbers take the odd codes.
  function SeNumber(x: int): nat { if x > 0 then 2 * x - 1 else -(2 * x) }

  // The code is what comes next.
  predicate Coded(b: seq<nat>, p: nat, code: seq<nat>) { p + |code| <= |b| && b[p..p + |code|] == code }

  lemma {:induction false} Log2Bounds(n: nat)
    requires n >= 1
    ensures Pow2(Log2(n)) <= n < Pow2(Log2(n) + 1)
  {
    if n > 1 { Log2Bounds(n / 2); }
  }

  lemma {:induction false} NumberOfBits(n: nat, w: nat)
    requires n < Pow2(w)
    ensures Number(ByteBits(n, w)) == n
  {
    if w > 0 {
      NumberOfBits(n / 2, w - 1);
      assert ByteBits(n, w)[..w - 1] == ByteBits(n / 2, w - 1);
    }
  }

  // A number with its first bit at k is a one and the k bits of what is left.
  lemma {:induction false} FirstBit(n: nat, k: nat)
    requires Pow2(k) <= n < Pow2(k + 1)
    ensures ByteBits(n, k + 1) == [1] + ByteBits(n - Pow2(k), k)
  {
    if k == 0 {
      assert ByteBits(n / 2, 0) == [] && n == 1;
    } else {
      FirstBit(n / 2, k - 1);
      var m := n - Pow2(k);
      assert m / 2 == n / 2 - Pow2(k - 1) && m % 2 == n % 2;
      assert [1] + ByteBits(m / 2, k - 1) + [n % 2] == [1] + (ByteBits(m / 2, k - 1) + [m % 2]);
    }
  }

  lemma ReadOne(b: seq<nat>, p: nat)
    requires p < |b|
    ensures ReadValue(b, Reader(p, false), 1) == b[p] && AfterRead(b, Reader(p, false), 1) == Reader(p + 1, false)
  {
    assert Taken(b, p, 1) == 2 * Taken(b, p, 0) + b[p];
  }

  lemma {:induction false} TakenIsNumber(b: seq<nat>, p: nat, n: nat)
    requires p + n <= |b|
    ensures Taken(b, p, n) == Number(b[p..p + n])
  {
    if n > 0 {
      TakenIsNumber(b, p, n - 1);
      assert b[p..p + n][..n - 1] == b[p..p + n - 1];
    }
  }

  lemma ReadThere(b: seq<nat>, p: nat, n: nat)
    requires p + n <= |b|
    ensures ReadValue(b, Reader(p, false), n) == Number(b[p..p + n])
    ensures AfterRead(b, Reader(p, false), n) == Reader(p + n, false)
  {
    TakenIsNumber(b, p, n);
  }

  lemma {:induction false} LeadCounts(b: seq<nat>, p: nat, z: nat, k: nat)
    requires z + k <= 31 && p + k < |b|
    requires (forall j | p <= j < p + k :: b[j] == 0) && b[p + k] == 1
    ensures Lead(b, Reader(p, false), z) == Leading(z + k, Reader(p + k + 1, false))
    decreases k
  {
    ReadOne(b, p);
    if k > 0 { LeadCounts(b, p + 1, z + 1, k - 1); }
  }

  lemma CodeIs(v: nat)
    ensures v + 1 >= Pow2(Log2(v + 1))
    ensures UeCode(v) == ZeroBits(Log2(v + 1)) + ([1] + ByteBits(v + 1 - Pow2(Log2(v + 1)), Log2(v + 1)))
    ensures Number(ByteBits(v + 1 - Pow2(Log2(v + 1)), Log2(v + 1))) == v + 1 - Pow2(Log2(v + 1))
  {
    var k := Log2(v + 1);
    Log2Bounds(v + 1);
    FirstBit(v + 1, k);
    NumberOfBits(v + 1 - Pow2(k), k);
  }

  // What stands where when a code with k zeros comes next.
  lemma CodedBits(b: seq<nat>, p: nat, k: nat, zeros: seq<nat>, low: seq<nat>)
    requires |zeros| == |low| == k && (forall i | 0 <= i < k :: zeros[i] == 0)
    requires p + 2 * k + 1 <= |b| && b[p..p + 2 * k + 1] == zeros + ([1] + low)
    ensures b[p + k] == 1 && b[p + k + 1..p + 2 * k + 1] == low
    ensures forall j | p <= j < p + k :: b[j] == 0
  {
    var c := b[p..p + 2 * k + 1];
    assert c[k] == 1 && c[k + 1..] == low;
    forall j | p <= j < p + k ensures b[j] == 0 {
      assert c[j - p] == zeros[j - p];
    }
  }

  lemma UeReads(b: seq<nat>, r: Reader, k: nat, q: nat)
    requires Lead(b, r, 0) == Leading(k, Reader(q, false)) && q + k <= |b|
    ensures UeValue(b, r) == Pow2(k) - 1 + Number(b[q..q + k])
    ensures AfterUe(b, r) == Reader(q + k, false)
  {
    ReadThere(b, q, k);
  }

  lemma {:induction false} UeReadsCode(b: seq<nat>, p: nat, k: nat, code: seq<nat>, low: seq<nat>)
    requires k <= 31 && |low| == k && code == ZeroBits(k) + ([1] + low) && Coded(b, p, code)
    ensures UeValue(b, Reader(p, false)) == Pow2(k) - 1 + Number(low)
    ensures AfterUe(b, Reader(p, false)) == Reader(p + |code|, false)
  {
    CodedBits(b, p, k, ZeroBits(k), low);
    LeadCounts(b, p, 0, k);
    UeReads(b, Reader(p, false), k, p + k + 1);
  }

  /** bits_ue reads back every number up to 2^32 - 2 and stops exactly behind its code. */
  lemma UeInverts(b: seq<nat>, p: nat, v: nat)
    requires Log2(v + 1) <= 31 && Coded(b, p, UeCode(v))
    ensures UeValue(b, Reader(p, false)) == v
    ensures AfterUe(b, Reader(p, false)) == Reader(p + |UeCode(v)|, false)
  {
    var k := Log2(v + 1);
    CodeIs(v);
    UeReadsCode(b, p, k, UeCode(v), ByteBits(v + 1 - Pow2(k), k));
  }

  lemma SignedInverts(x: int)
    ensures Signed(SeNumber(x)) == x
  {
  }

  /** bits_se reads back every signed number its codes reach. */
  lemma SeInverts(b: seq<nat>, p: nat, x: int)
    requires Log2(SeNumber(x) + 1) <= 31 && Coded(b, p, UeCode(SeNumber(x)))
    ensures Signed(UeValue(b, Reader(p, false))) == x
    ensures AfterUe(b, Reader(p, false)) == Reader(p + |UeCode(SeNumber(x))|, false)
  {
    SignedInverts(x);
    UeInverts(b, p, SeNumber(x));
  }
}
