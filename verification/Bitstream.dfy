/**
 * The emulation-prevention stripper of rfs (rfs/rfs_annexb.c), against the encoder of sections
 * 7.3.1 and 7.4.1 of ITU-T H.264.
 */
module Bitstream {
  import opened AnnexB

  // ----- emulation prevention ----------------------------------------------------------

  // What the decoder makes of a payload, given room.
  function Unescape(s: Bytes): Bytes
    decreases |s|
  {
    if s == [] then []
    else if |s| >= 3 && s[0] == 0 && s[1] == 0 && s[2] == 3 then [0, 0] + Unescape(s[3..])
    else [s[0]] + Unescape(s[1..])
  }

  // The standard's encoder after `zeros` zero bytes in a row: two of them are never followed by a
  // byte below four without a three in between.
  function Escape(p: Bytes, zeros: nat): Bytes {
    if p == [] then []
    else if zeros >= 2 && p[0] <= 3 then [3, p[0]] + Escape(p[1..], if p[0] == 0 then 1 else 0)
    else [p[0]] + Escape(p[1..], if p[0] == 0 then zeros + 1 else 0)
  }

  // And at the end of the unit a last three is added if the payload ends in a zero byte.
  function EscapeUnit(p: Bytes): Bytes { Escape(p, 0) + if p != [] && p[|p| - 1] == 0 then [3] else [] }

  function TrailingZeros(p: Bytes): nat {
    if p == [] || p[|p| - 1] != 0 then 0 else 1 + TrailingZeros(p[..|p| - 1])
  }

  predicate Escaped(src: Bytes, i: nat) { i + 2 < |src| && src[i] == 0 && src[i + 1] == 0 && src[i + 2] == 3 }

  lemma UnescapeAt(src: Bytes, i: nat)
    requires i < |src|
    ensures Escaped(src, i) ==> Unescape(src[i..]) == [0, 0] + Unescape(src[i + 3..])
    ensures !Escaped(src, i) ==> Unescape(src[i..]) == [src[i]] + Unescape(src[i + 1..])
  {
    var s := src[i..];
    if Escaped(src, i) { assert s[3..] == src[i + 3..]; } else { assert s[1..] == src[i + 1..]; }
  }

  // What is written and what is still to come make up the payload, while there is room.
  ghost predicate Writing(done: Bytes, room: nat, src: Bytes, i: nat, all: Bytes)
    requires i <= |src|
  {
    done <= all && (room > 0 ==> done + Unescape(src[i..]) == all)
  }

  lemma WroteSome(done: Bytes, room: nat, src: Bytes, i: nat, all: Bytes, n: nat)
    requires i < |src| && room > 0 && Writing(done, room, src, i, all)
    requires 0 < n <= room && n <= (if Escaped(src, i) then 2 else 1)
    requires n == (if Escaped(src, i) then 2 else 1) || n == room
    ensures var next := if Escaped(src, i) then i + 3 else i + 1;
      Writing(done + (if Escaped(src, i) then [0, 0][..n] else [src[i]]), room - n, src, next, all)
  {
    UnescapeAt(src, i);
    if Escaped(src, i) {
      assert done + ([0, 0] + Unescape(src[i + 3..])) == done + [0, 0] + Unescape(src[i + 3..]);
      assert [0, 0][..1] == [0] && [0, 0][..2] == [0, 0];
      assert done + [0] + ([0] + Unescape(src[i + 3..])) == all;
    } else {
      assert done + ([src[i]] + Unescape(src[i + 1..])) == done + [src[i]] + Unescape(src[i + 1..]);
    }
  }

  // Two zeros whose three goes, or the one there is room for.
  method PutZeros(src: Bytes, dst: array<Byte>, out: nat, i: nat, ghost all: Bytes) returns (out': nat)
    requires i < |src| && out < dst.Length && Escaped(src, i) && Writing(dst[..out], dst.Length - out, src, i, all)
    modifies dst
    ensures out' <= dst.Length && Writing(dst[..out'], dst.Length - out', src, i + 3, all)
  {
    ghost var done, room := dst[..out], dst.Length - out;
    dst[out] := 0;
    out' := out + 1;
    if out' < dst.Length {
      dst[out'] := 0;
      out' := out' + 1;
    }
    WroteSome(done, room, src, i, all, out' - |done|);
    assert dst[..out'] == done + [0, 0][..out' - |done|];
  }

  method PutByte(src: Bytes, dst: array<Byte>, out: nat, i: nat, ghost all: Bytes) returns (out': nat)
    requires i < |src| && out < dst.Length && !Escaped(src, i) && Writing(dst[..out], dst.Length - out, src, i, all)
    modifies dst
    ensures out' <= dst.Length && Writing(dst[..out'], dst.Length - out', src, i + 1, all)
  {
    ghost var done, room := dst[..out], dst.Length - out;
    dst[out] := src[i];
    out' := out + 1;
    WroteSome(done, room, src, i, all, 1);
    assert dst[..out'] == done + [src[i]];
  }

  /** rbsp_unescape: as much of the stripped payload as there is room for. */
  method RbspUnescape(src: Bytes, dst: array<Byte>) returns (out: nat)
    modifies dst
    ensures out == if |Unescape(src)| <= dst.Length then |Unescape(src)| else dst.Length
    ensures dst[..out] == Unescape(src)[..out]
  {
    ghost var all := Unescape(src);
    out := 0;
    var i := 0;
    assert src[0..] == src;
    while i < |src| && out < dst.Length
      invariant 0 <= i <= |src| && out <= dst.Length
      invariant Writing(dst[..out], dst.Length - out, src, i, all)
    {
      if i + 2 < |src| && src[i] == 0 && src[i + 1] == 0 && src[i + 2] == 3 {
        out := PutZeros(src, dst, out, i, all);
        i := i + 3;
      } else {
        out := PutByte(src, dst, out, i, all);
        i := i + 1;
      }
    }
  }

  // The same stripper reading one byte at a time: a three behind at least two zeros goes.
  function Strip(s: Bytes, zeros: nat): Bytes {
    if s == [] then []
    else if zeros >= 2 && s[0] == 3 then Strip(s[1..], 0)
    else [s[0]] + Strip(s[1..], if s[0] == 0 then zeros + 1 else 0)
  }

  lemma {:induction false} StripSaturates(s: Bytes, y: nat, z: nat)
    requires y >= 2 && z >= 2
    ensures Strip(s, y) == Strip(s, z)
  {
    if s != [] && s[0] == 0 { StripSaturates(s[1..], y + 1, z + 1); }
  }

  // A single zero before matters only to a zero and a three.
  lemma StripAfterOne(s: Bytes)
    requires |s| < 2 || s[0] != 0 || s[1] != 3
    ensures Strip(s, 1) == Strip(s, 0)
  {
    if s != [] && s[0] == 0 && |s| >= 2 && s[1] == 0 { StripSaturates(s[1..][1..], 3, 2); }
  }

  lemma {:induction false} UnescapeIsStrip(s: Bytes)
    ensures Unescape(s) == Strip(s, 0)
    decreases |s|
  {
    if s == [] {
    } else if |s| >= 3 && s[0] == 0 && s[1] == 0 && s[2] == 3 {
      UnescapeIsStrip(s[3..]);
      assert s[1..][1..][1..] == s[3..];
      assert Strip(s[1..], 1) == [0] + Strip(s[1..][1..], 2);
    } else {
      UnescapeIsStrip(s[1..]);
      if s[0] == 0 { StripAfterOne(s[1..]); }
    }
  }

  // How many zero bytes the encoder has just seen when the payload is done.
  function EndState(p: Bytes, zeros: nat): nat {
    if p == [] then zeros
    else if zeros >= 2 && p[0] <= 3 then EndState(p[1..], if p[0] == 0 then 1 else 0)
    else EndState(p[1..], if p[0] == 0 then zeros + 1 else 0)
  }

  lemma StripCons(b: Byte, t: Bytes, z: nat)
    ensures Strip([b] + t, z) == if z >= 2 && b == 3 then Strip(t, 0) else [b] + Strip(t, if b == 0 then z + 1 else 0)
  {
    assert ([b] + t)[1..] == t;
  }

  lemma EscapeCons(p: Bytes, z: nat, end: Bytes)
    requires p != []
    ensures Escape(p, z) + end ==
      if z >= 2 && p[0] <= 3 then [3] + ([p[0]] + (Escape(p[1..], if p[0] == 0 then 1 else 0) + end))
      else [p[0]] + (Escape(p[1..], if p[0] == 0 then z + 1 else 0) + end)
  {
  }

  // Encoder and stripper count the same zeros; a three at the very end goes only behind two.
  lemma {:induction false} StripOfEscape(p: Bytes, z: nat, end: Bytes)
    requires end == [] || end == [3]
    ensures Strip(Escape(p, z) + end, z) == p + if EndState(p, z) >= 2 then [] else end
    decreases |p|
  {
    if p == [] {
      assert Escape(p, z) + end == end;
      if end == [3] { StripCons(3, [], z); }
    } else {
      var b, rest := p[0], p[1..];
      var z' := if b != 0 then 0 else if z >= 2 then 1 else z + 1;
      var t := Escape(rest, z') + end;
      StripOfEscape(rest, z', end);
      EscapeCons(p, z, end);
      if z >= 2 && b <= 3 {
        StripCons(3, [b] + t, z);
        StripCons(b, t, 0);
      } else {
        StripCons(b, t, z);
      }
      assert p == [b] + rest;
    }
  }

  lemma {:induction false} EndStateOfSnoc(p: Bytes, z: nat)
    requires p != [] && z <= 2
    ensures var e := EndState(p[..|p| - 1], z); var b := p[|p| - 1];
      e <= 2 && EndState(p, z) == if b != 0 then 0 else if e == 2 then 1 else e + 1
    decreases |p|
  {
    if |p| > 1 {
      var z' := if p[0] != 0 then 0 else if z == 2 then 1 else z + 1;
      EndStateOfSnoc(p[1..], z');
      assert p[1..][..|p| - 2] == p[..|p| - 1][1..];
    }
  }

  lemma {:induction false} EndStateIsParity(p: Bytes)
    ensures var n := TrailingZeros(p); EndState(p, 0) == if n == 0 then 0 else if n % 2 == 0 then 2 else 1
  {
    if p != [] {
      EndStateOfSnoc(p, 0);
      EndStateIsParity(p[..|p| - 1]);
    }
  }

  /** Stripping undoes the encoder's insertions for every payload. The three a unit may end with is
      stripped too exactly when the payload's trailing zero bytes come in pairs, as they do in a
      payload padded with whole cabac_zero_words. */
  lemma UnescapeInverts(p: Bytes)
    ensures Unescape(Escape(p, 0)) == p
    ensures Unescape(EscapeUnit(p)) == p <==> TrailingZeros(p) % 2 == 0
  {
    StripOfEscape(p, 0, []);
    StripOfEscape(p, 0, [3]);
    EndStateIsParity(p);
    UnescapeIsStrip(Escape(p, 0));
    UnescapeIsStrip(EscapeUnit(p));
    assert Escape(p, 0) + [] == Escape(p, 0) && p + [] == p;
    assert |p + [3]| != |p|;
  }
}
