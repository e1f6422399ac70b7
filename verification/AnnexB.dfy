/**
 * NAL framing in rfs: start codes and the units between them (rfs/rfs_annexb.c), and the
 * conversion of length-prefixed MP4 samples to start-code form (rfs/rfs_mp4.c).
 *
 * The byte formats are Annex B of ITU-T H.264 and section 5.3.3 of ISO/IEC 14496-15.
 */
module AnnexB {

  type Byte = b: int | 0 <= b < 256
  type Bytes = seq<Byte>

  const START_CODE: Bytes := [0, 0, 0, 1]

  // ----- start codes -------------------------------------------------------------------

  // The length of the start code at p, or 0 when there is none.
  function CodeAt(d: Bytes, p: nat): (n: nat) {
    if p + 2 < |d| && d[p] == 0 && d[p + 1] == 0 then
      if d[p + 2] == 1 then 3
      else if p + 3 < |d| && d[p + 2] == 0 && d[p + 3] == 1 then 4
      else 0
    else 0
  }

  // The first start code at or after p, or the end of the data.
  function FindCode(d: Bytes, p: nat): (q: nat)
    requires p <= |d|
    ensures p <= q <= |d|
    ensures q < |d| ==> CodeAt(d, q) > 0
    ensures forall j | p <= j < q :: CodeAt(d, j) == 0
    decreases |d| - p
  {
    if p == |d| || CodeAt(d, p) > 0 then p else FindCode(d, p + 1)
  }

  method FindStartCode(d: Bytes, from: nat) returns (found: bool, at: nat, len: nat)
    requires from <= |d|
    ensures found <==> FindCode(d, from) < |d|
    ensures found ==> at == FindCode(d, from) && len == CodeAt(d, at) > 0
  {
    var p := from;
    while p + 2 < |d|
      invariant from <= p <= |d|
      invariant forall j | from <= j < p :: CodeAt(d, j) == 0
    {
      if d[p] == 0 && d[p + 1] == 0 {
        if d[p + 2] == 1 {
          assert CodeAt(d, p) == 3;
          return true, p, 3;
        }
        if p + 3 < |d| && d[p + 2] == 0 && d[p + 3] == 1 {
          assert CodeAt(d, p) == 4;
          return true, p, 4;
        }
      }
      p := p + 1;
    }
    return false, |d|, 0;
  }

  // Trailing zeros are not part of a NAL unit, down to its last byte.
  function Trim(n: Bytes): (r: Bytes)
    ensures r <= n
    ensures r == n <==> |n| <= 1 || n[|n| - 1] != 0
  {
    if |n| > 1 && n[|n| - 1] == 0 then Trim(n[..|n| - 1]) else n
  }

  // The NAL units a scan sees from a start code on. One with nothing after it starts none.
  function ScanFrom(s: Bytes): seq<Bytes>
    requires s == [] || CodeAt(s, 0) > 0
    decreases |s|
  {
    if s == [] then []
    else
      var nal := s[CodeAt(s, 0)..];
      if nal == [] then []
      else
        var e := FindCode(nal, 0);
        [Trim(nal[..e])] + (CodeShift(nal, e, 0); ScanFrom(nal[e..]))
  }

  function Scan(d: Bytes): seq<Bytes> {
    var q := FindCode(d, 0);
    CodeShift(d, q, 0);
    ScanFrom(d[q..])
  }

  // A start code is where it is, however much comes before it.
  lemma CodeShift(d: Bytes, p: nat, i: nat)
    requires p <= |d|
    ensures CodeAt(d[p..], i) == CodeAt(d, p + i)
  {
  }

  // ----- start-code form ---------------------------------------------------------------

  function Framed(nals: seq<Bytes>): Bytes {
    if nals == [] then [] else START_CODE + nals[0] + Framed(nals[1..])
  }

  lemma FramedCons(n: Bytes, tail: seq<Bytes>)
    ensures Framed([n] + tail) == START_CODE + n + Framed(tail)
  {
    assert ([n] + tail)[1..] == tail;
  }

  lemma {:induction false} FramedConcat(a: seq<Bytes>, b: seq<Bytes>)
    ensures Framed(a + b) == Framed(a) + Framed(b)
  {
    if a == [] {
      assert a + b == b;
    } else {
      FramedConcat(a[1..], b);
      assert (a + b)[0] == a[0] && (a + b)[1..] == a[1..] + b;
      assert START_CODE + a[0] + (Framed(a[1..]) + Framed(b)) == START_CODE + a[0] + Framed(a[1..]) + Framed(b);
    }
  }

  // No start code of either length inside.
  predicate NoCode(n: Bytes) { forall i | 0 <= i < |n| - 2 :: !(n[i] == 0 && n[i + 1] == 0 && n[i + 2] == 1) }

  predicate Plain(n: Bytes) { NoCode(n) && (|n| <= 1 || n[|n| - 1] != 0) }

  predicate AllPlain(nals: seq<Bytes>) {
    && (forall n | n in nals :: Plain(n))
    && (nals != [] ==> nals[|nals| - 1] != [])
  }

  // Not even across the seam to the next start code.
  lemma SeamHasNoCode(n: Bytes, rest: Bytes, i: nat)
    requires NoCode(n) && i < |n|
    requires rest == [] || START_CODE <= rest
    ensures CodeAt(n + rest, i) == 0
  {
    var s := n + rest;
    if rest != [] { assert rest[0] == 0 && rest[1] == 0 && rest[2] == 0 && rest[3] == 1; }
    if i + 3 < |n| { assert !(n[i + 1] == 0 && n[i + 1 + 1] == 0 && n[i + 1 + 2] == 1); }
  }

  // Where the scan of a unit ends: behind it exactly when it holds no start code.
  lemma UnitEnd(n: Bytes, rest: Bytes)
    requires rest == [] || START_CODE <= rest
    ensures FindCode(n + rest, 0) <= |n|
    ensures FindCode(n + rest, 0) == |n| <==> NoCode(n)
  {
    var s := n + rest;
    if rest != [] { assert CodeAt(s, |n|) == 4; }
    if NoCode(n) {
      forall i | 0 <= i < |n| ensures CodeAt(s, i) == 0 {
        SeamHasNoCode(n, rest, i);
      }
    } else {
      var i :| 0 <= i < |n| - 2 && n[i] == 0 && n[i + 1] == 0 && n[i + 2] == 1;
      assert CodeAt(s, i) == 3;
    }
  }

  lemma FramedStarts(nals: seq<Bytes>)
    ensures nals == [] <==> Framed(nals) == []
    ensures nals != [] ==> START_CODE <= Framed(nals) && CodeAt(Framed(nals), 0) == 4
  {
  }

  // One unit more: it survives, and the rest of the scan is the scan of the rest, iff it is plain.
  lemma ScanOfHead(n: Bytes, rest: Bytes)
    requires rest == [] || START_CODE <= rest
    requires n + rest != []
    ensures CodeAt(START_CODE + n + rest, 0) == 4 && (rest == [] || CodeAt(rest, 0) > 0)
    ensures Plain(n) ==> ScanFrom(START_CODE + n + rest) == [n] + ScanFrom(rest)
    ensures !Plain(n) ==> ScanFrom(START_CODE + n + rest) != [] && ScanFrom(START_CODE + n + rest)[0] != n
  {
    var s := START_CODE + n + rest;
    assert s[4..] == n + rest;
    UnitEnd(n, rest);
    var e := FindCode(n + rest, 0);
    CodeShift(n + rest, e, 0);
    if e == |n| {
      assert (n + rest)[..e] == n && (n + rest)[e..] == rest;
    }
  }

  lemma AllPlainCons(n: Bytes, tail: seq<Bytes>)
    ensures AllPlain([n] + tail) <==> Plain(n) && AllPlain(tail) && (tail == [] ==> n != [])
  {
    var nals := [n] + tail;
    assert n in nals && forall m | m in tail :: m in nals;
  }

  lemma {:induction false} ScanOfUnits(nals: seq<Bytes>)
    ensures Framed(nals) == [] || CodeAt(Framed(nals), 0) > 0
    ensures ScanFrom(Framed(nals)) == nals <==> AllPlain(nals)
  {
    FramedStarts(nals);
    if nals != [] {
      var n, tail := nals[0], nals[1..];
      FramedStarts(tail);
      assert nals == [n] + tail;
      AllPlainCons(n, tail);
      if n + Framed(tail) != [] {
        ScanOfHead(n, Framed(tail));
        ScanOfUnits(tail);
      }
    }
  }

  /** Start-code form is lossless exactly when no unit holds a start code, none of more than a byte
      ends in a zero, and the last is not empty. */
  lemma ScanOfFramed(nals: seq<Bytes>)
    ensures Scan(Framed(nals)) == nals <==> AllPlain(nals)
  {
    FramedStarts(nals);
    ScanOfUnits(nals);
    assert Framed(nals)[0..] == Framed(nals);
  }
}
