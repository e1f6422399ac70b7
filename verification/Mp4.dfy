/**
 * From MP4 to Annex B (rfs/rfs_mp4.c): the decoder configuration of a track and its
 * length-prefixed samples become start-code form.
 */
module Mp4 {
  import opened AnnexB
  import opened Basics

  // ----- samples -----------------------------------------------------------------------

  // A big-endian number.
  function Value(s: Bytes): (v: nat)
    ensures v < Pow256(|s|)
  {
    if s == [] then 0 else 256 * Value(s[..|s| - 1]) + s[|s| - 1]
  }

  // The NAL units of a sample, up to the first length that does not fit what is left.
  function Parse(s: Bytes, lengthSize: nat): seq<Bytes>
    requires lengthSize > 0
    decreases |s|
  {
    if |s| < lengthSize then []
    else
      var n := Value(s[..lengthSize]);
      if n > |s| - lengthSize then []
      else [s[lengthSize..lengthSize + n]] + Parse(s[lengthSize + n..], lengthSize)
  }

  // Unsigned 32-bit arithmetic.
  const WORD: nat := 0x1_0000_0000
  function Wrap32(x: nat): nat { if x < WORD then x else x % WORD }

  // What a 32-bit pattern reads as when it is signed.
  function Int32(x: nat): int { if x < 0x8000_0000 then x else x - WORD }

  // The sums the converter compares, from here on, compare as they would without wrapping. (A size
  // of 0 for the lengths reads every length as 0.)
  predicate Exact(src: Bytes, spos: nat, pos: nat, lengthSize: nat, cap: nat)
    decreases cap - pos
  {
    && spos + lengthSize < WORD
    && (spos + lengthSize <= |src| ==>
          var n := Value(src[spos..spos + lengthSize]);
          && spos + lengthSize + n < WORD
          && (spos + lengthSize + n <= |src| ==>
                && (pos + 4 + n < WORD || Wrap32(pos + 4 + n) > cap)
                && (pos + 4 + n <= cap ==> Exact(src, spos + lengthSize + n, pos + 4 + n, lengthSize, cap))))
  }

  // From here on the converter comes to a unit that passes both its tests although it is not all there or
  // does not fit, or to a length it takes to be there and is not.
  predicate Oversteps(src: Bytes, spos: nat, pos: nat, lengthSize: nat, cap: nat)
    decreases cap - pos
  {
    Wrap32(spos + lengthSize) <= |src| &&
    (spos + lengthSize > |src| ||
      var n := Value(src[spos..spos + lengthSize]);
      && Wrap32(spos + lengthSize + n) <= |src| && Wrap32(pos + 4 + n) <= cap
      && (spos + lengthSize + n > |src| || pos + 4 + n > cap || Oversteps(src, spos + lengthSize + n, pos + 4 + n, lengthSize, cap)))
  }

  /** The test whether a unit is all there decides right exactly when its sum does not wrap. */
  lemma UnitTestDecides(spos: nat, n: nat, size: nat)
    requires spos <= size < WORD && n < WORD
    ensures (Wrap32(spos + n) <= size <==> spos + n <= size) <==> spos + n < WORD
  {
  }

  /** And the test whether it fits the buffer exactly when its sum does not wrap into it. */
  lemma RoomTestDecides(pos: nat, n: nat, cap: nat)
    requires pos <= cap < WORD && n < WORD
    ensures (Wrap32(pos + 4 + n) <= cap <==> pos + 4 + n <= cap) <==> pos + 4 + n < WORD || Wrap32(pos + 4 + n) > cap
  {
  }

  /** Four bytes of ones pass both tests at the start of any sample, whatever is left of it and of
      the buffer: the unit they announce is 4 GB long. */
  lemma AllOnesPass(src: Bytes, pos: nat, cap: nat)
    requires 4 <= |src| < WORD && src[..4] == [255, 255, 255, 255] && pos + 3 <= cap < WORD
    ensures var n := Value(src[..4]);
      n == WORD - 1 && Wrap32(4 + n) <= |src| && Wrap32(pos + 4 + n) <= cap && Oversteps(src, 0, pos, 4, cap)
  {
    var s := src[..4];
    assert s[..3] == [255, 255, 255] && s[..3][..2] == [255, 255] && s[..3][..2][..1] == [255];
    assert Value([255]) == 255 by { assert [255][..0] == []; }
    assert Value([255, 255]) == 65535;
    assert Value([255, 255, 255]) == 0xFF_FFFF;
    assert src[0..4] == s;
  }

  // Appends s to the first pos bytes of the buffer.
  method Put(out: array<Byte>, pos: nat, s: Bytes) returns (next: nat)
    requires pos + |s| <= out.Length
    modifies out
    ensures next == pos + |s| && out[..next] == old(out[..pos]) + s
  {
    forall i | 0 <= i < |s| {
      out[pos + i] := s[i];
    }
    next := pos + |s|;
    assert out[..pos] == old(out[..pos]);
  }

  lemma {:induction false} ValueSnoc(s: Bytes, b: Byte)
    ensures Value(s + [b]) == 256 * Value(s) + b
  {
    assert (s + [b])[..|s|] == s;
  }

  method ReadLength(src: Bytes, at: nat, lengthSize: nat) returns (n: nat)
    requires at + lengthSize <= |src| && lengthSize <= 4
    ensures n == Value(src[at..at + lengthSize])
  {
    n := 0;
    var i := 0;
    while i < lengthSize
      invariant 0 <= i <= lengthSize && n == Value(src[at..at + i])
    {
      ValueSnoc(src[at..at + i], src[at + i]);
      assert src[at..at + (i + 1)] == src[at..at + i] + [src[at + i]];
      n := n * 256 + src[at + i];
      i := i + 1;
    }
  }

  function Prefix(key: bool, config: Bytes): Bytes { if key then config else [] }

  function Converted(config: Bytes, key: bool, src: Bytes, lengthSize: nat): Bytes
    requires lengthSize > 0
  {
    Prefix(key, config) + Framed(Parse(src, lengthSize))
  }

  // The buffer's contents and what is still to come of the sample make up the result.
  ghost predicate OnTheWay(done: Bytes, rest: Bytes, lengthSize: nat, need: Bytes)
    requires lengthSize > 0
  {
    done + Framed(Parse(rest, lengthSize)) == need
  }

  lemma OneUnit(done: Bytes, rest: Bytes, lengthSize: nat, n: nat, need: Bytes)
    requires 0 < lengthSize <= |rest| && n == Value(rest[..lengthSize]) && OnTheWay(done, rest, lengthSize, need)
    ensures n > |rest| - lengthSize ==> done == need
    ensures n <= |rest| - lengthSize ==>
      && |done| + 4 + n <= |need|
      && OnTheWay(done + START_CODE + rest[lengthSize..lengthSize + n], rest[lengthSize + n..], lengthSize, need)
  {
    if n <= |rest| - lengthSize {
      var unit, tail := rest[lengthSize..lengthSize + n], Parse(rest[lengthSize + n..], lengthSize);
      FramedCons(unit, tail);
      assert done + (START_CODE + unit + Framed(tail)) == done + START_CODE + unit + Framed(tail);
    }
  }

  // The same, at a place in the sample.
  lemma OneUnitAt(done: Bytes, src: Bytes, spos: nat, lengthSize: nat, n: nat, need: Bytes)
    requires 0 < lengthSize && spos + lengthSize <= |src| && n == Value(src[spos..spos + lengthSize])
    requires OnTheWay(done, src[spos..], lengthSize, need)
    ensures spos + lengthSize + n > |src| ==> done == need
    ensures spos + lengthSize + n <= |src| ==>
      && |done| + 4 + n <= |need|
      && OnTheWay(done + START_CODE + src[spos + lengthSize..spos + lengthSize + n], src[spos + lengthSize + n..], lengthSize, need)
  {
    var rest := src[spos..];
    assert src[spos..spos + lengthSize] == rest[..lengthSize];
    OneUnit(done, rest, lengthSize, n, need);
    if spos + lengthSize + n <= |src| {
      assert rest[lengthSize..lengthSize + n] == src[spos + lengthSize..spos + lengthSize + n];
      assert rest[lengthSize + n..] == src[spos + lengthSize + n..];
    }
  }

  lemma NoMoreUnits(done: Bytes, rest: Bytes, lengthSize: nat, need: Bytes)
    requires lengthSize > |rest| && OnTheWay(done, rest, lengthSize, need)
    ensures done == need
  {
  }

  // A length of four bytes at most is a 32-bit number.
  lemma LengthIsAWord(s: Bytes)
    requires |s| <= 4
    ensures Value(s) < WORD
  {
    assert Pow256(0) == 1 && Pow256(1) == 256 && Pow256(2) == 0x1_0000 && Pow256(3) == 0x100_0000 && Pow256(4) == WORD;
  }

  method PutUnit(out: array<Byte>, pos: nat, unit: Bytes) returns (next: nat)
    requires pos + 4 + |unit| <= out.Length
    modifies out
    ensures next == pos + 4 + |unit| && out[..next] == old(out[..pos]) + START_CODE + unit
  {
    next := Put(out, pos, START_CODE);
    next := Put(out, next, unit);
  }

  datatype Verdict = Copied | Short | NoRoom | Beyond

  // A test that refuses refuses rightly, whatever wraps.
  lemma RefusedRightly(base: nat, n: nat, limit: nat)
    requires base <= limit < WORD && n < WORD
    ensures Wrap32(base + n) > limit ==> base + n > limit && base + n < WORD
  {
  }

  lemma NoRoomRightly(x: nat, cap: nat)
    requires cap < WORD && Wrap32(x) > cap
    ensures x > cap
  {
  }

  // What is ahead at a place: whether every test will decide right, and whether one will be overstepped.
  ghost predicate Ahead(src: Bytes, spos: nat, pos: nat, lengthSize: nat, cap: nat, exact: bool, over: bool) {
    exact == Exact(src, spos, pos, lengthSize, cap) && over == Oversteps(src, spos, pos, lengthSize, cap)
  }

  // The walk at a unit of n bytes that is not all there, as the test rightly says.
  lemma {:induction false} ShortAt(src: Bytes, spos: nat, pos: nat, lengthSize: nat, n: nat, end: nat, cap: nat, exact: bool, over: bool)
    requires lengthSize <= 4 && |src| < WORD && spos + lengthSize <= |src| && Ahead(src, spos, pos, lengthSize, cap, exact, over)
    requires n == Value(src[spos..spos + lengthSize]) && end == spos + lengthSize + n && Wrap32(end) > |src|
    ensures end > |src| && exact && !over
  {
    LengthIsAWord(src[spos..spos + lengthSize]);
    RefusedRightly(spos + lengthSize, n, |src|);
  }

  // At one there is no room for: the tests decide right unless the first of them has let it pass wrongly.
  lemma {:induction false} NoRoomAt(src: Bytes, spos: nat, pos: nat, lengthSize: nat, n: nat, end: nat, next: nat, cap: nat, exact: bool, over: bool)
    requires lengthSize <= 4 && |src| < WORD && pos <= cap < WORD && spos + lengthSize <= |src|
    requires n == Value(src[spos..spos + lengthSize]) && end == spos + lengthSize + n && next == pos + 4 + n
    requires Wrap32(end) <= |src| && Wrap32(next) > cap && Ahead(src, spos, pos, lengthSize, cap, exact, over)
    ensures next > cap && !over && (exact ==> end <= |src|)
  {
    LengthIsAWord(src[spos..spos + lengthSize]);
    UnitTestDecides(spos + lengthSize, n, |src|);
    NoRoomRightly(next, cap);
  }

  // At one that passes although it should not.
  lemma {:induction false} BeyondAt(src: Bytes, spos: nat, pos: nat, lengthSize: nat, n: nat, end: nat, next: nat, cap: nat, exact: bool, over: bool)
    requires |src| < WORD && spos + lengthSize <= |src| && Ahead(src, spos, pos, lengthSize, cap, exact, over)
    requires n == Value(src[spos..spos + lengthSize]) && end == spos + lengthSize + n && next == pos + 4 + n
    requires Wrap32(end) <= |src| && Wrap32(next) <= cap && (end > |src| || next > cap)
    ensures over
  {
  }

  // And at one that is copied: everything else is ahead.
  lemma {:induction false} CopiedAt(src: Bytes, spos: nat, pos: nat, lengthSize: nat, n: nat, end: nat, next: nat, cap: nat, exact: bool, over: bool)
    requires |src| < WORD && cap < WORD && spos + lengthSize <= |src| && Ahead(src, spos, pos, lengthSize, cap, exact, over)
    requires n == Value(src[spos..spos + lengthSize]) && end == spos + lengthSize + n <= |src| && next == pos + 4 + n <= cap
    ensures Ahead(src, end, next, lengthSize, cap, exact, over)
  {
  }

  // The two tests of one turn.
  method TestUnit(src: Bytes, spos: nat, lengthSize: nat, pos: nat, cap: nat, ghost exact: bool, ghost over: bool)
    returns (v: Verdict, len: nat)
    requires lengthSize <= 4 && |src| < WORD && pos <= cap < WORD && spos + lengthSize <= |src|
    requires Ahead(src, spos, pos, lengthSize, cap, exact, over)
    ensures len == Value(src[spos..spos + lengthSize])
    ensures v.Copied? ==>
      && spos + lengthSize + len <= |src| && pos + 4 + len <= cap
      && Ahead(src, spos + lengthSize + len, pos + 4 + len, lengthSize, cap, exact, over)
    ensures !v.Copied? ==> over == v.Beyond?
    ensures v.Short? ==> spos + lengthSize + len > |src| && exact
    ensures v.NoRoom? && exact ==> spos + lengthSize + len <= |src| && pos + 4 + len > cap
  {
    len := ReadLength(src, spos, lengthSize);
    var end, next := spos + lengthSize + len, pos + 4 + len;
    if Wrap32(end) > |src| {
      ShortAt(src, spos, pos, lengthSize, len, end, cap, exact, over);
      v := Short;
    } else if Wrap32(next) > cap {
      NoRoomAt(src, spos, pos, lengthSize, len, end, next, cap, exact, over);
      v := NoRoom;
    } else if end > |src| || next > cap {
      BeyondAt(src, spos, pos, lengthSize, len, end, next, cap, exact, over);
      v := Beyond; // from here the source reads or writes what is not its own
    } else {
      CopiedAt(src, spos, pos, lengthSize, len, end, next, cap, exact, over);
      v := Copied;
    }
  }

  // A unit goes behind a start code, and the rest of the sample is still to come.
  method CopyUnit(len: nat, src: Bytes, at: nat, lengthSize: nat, out: array<Byte>, pos: nat, ghost need: Bytes) returns (pos': nat)
    requires at + len <= |src| && pos + 4 + len <= out.Length
    requires lengthSize > 0 ==> OnTheWay(out[..pos] + START_CODE + src[at..at + len], src[at + len..], lengthSize, need)
    modifies out
    ensures pos' == pos + 4 + len && (lengthSize > 0 ==> OnTheWay(out[..pos'], src[at + len..], lengthSize, need))
  {
    ghost var done := out[..pos];
    var unit := src[at..at + len];
    pos' := PutUnit(out, pos, unit);
    assert out[..pos'] == done + START_CODE + unit;
  }

  // What a turn makes of the buffer, by what the tests said.
  method FinishTurn(v: Verdict, len: nat, src: Bytes, spos: nat, lengthSize: nat, out: array<Byte>, pos: nat, ghost need: Bytes)
    returns (spos': nat, pos': nat)
    requires spos + lengthSize <= |src| && pos <= out.Length && len == Value(src[spos..spos + lengthSize])
    requires lengthSize > 0 ==> OnTheWay(out[..pos], src[spos..], lengthSize, need)
    requires v.Copied? ==> spos + lengthSize + len <= |src| && pos + 4 + len <= out.Length
    modifies out
    ensures v.Copied? ==> spos' == spos + lengthSize + len && pos' == pos + 4 + len
    ensures v.Copied? && lengthSize > 0 ==> OnTheWay(out[..pos'], src[spos'..], lengthSize, need)
    ensures !v.Copied? ==> pos' == pos && out[..pos] == old(out[..pos])
    ensures lengthSize > 0 && spos + lengthSize + len > |src| ==> old(out[..pos]) == need
    ensures lengthSize > 0 && spos + lengthSize + len <= |src| ==> |need| >= pos + 4 + len
  {
    if lengthSize > 0 { OneUnitAt(out[..pos], src, spos, lengthSize, len, need); }
    spos', pos' := spos + lengthSize, pos;
    if v.Copied? {
      pos' := CopyUnit(len, src, spos', lengthSize, out, pos, need);
      spos' := spos' + len;
    }
  }

  // What the converter returns, unless it oversteps the sample or the buffer, which C leaves undefined.
  datatype Outcome = Returned(n: int) | Overrun

  // The end of the sample is where the loop ends.
  lemma {:induction false} LoopEnds(src: Bytes, spos: nat, pos: nat, lengthSize: nat, cap: nat, exact: bool, over: bool)
    requires lengthSize <= 4 && spos <= |src| < WORD && Wrap32(spos + lengthSize) > |src| && Ahead(src, spos, pos, lengthSize, cap, exact, over)
    ensures spos + lengthSize > |src| && exact && !over
  {
    RefusedRightly(spos, lengthSize, |src|);
  }

  lemma {:induction false} LengthBeyond(src: Bytes, spos: nat, pos: nat, lengthSize: nat, cap: nat, exact: bool, over: bool)
    requires Wrap32(spos + lengthSize) <= |src| < spos + lengthSize && Ahead(src, spos, pos, lengthSize, cap, exact, over)
    ensures over
  {
  }

  // The right outcome, given what was ahead at the start.
  ghost predicate Right(r: Outcome, buf: Bytes, lengthSize: nat, need: Bytes, exact: bool, over: bool) {
    if over then r == Overrun
    else if !exact || lengthSize == 0 || |need| > |buf| then r == Returned(-1)
    else r == Returned(Int32(|need|)) && buf[..|need|] == need
  }

  // One turn of the conversion loop: a length is read, and its unit copied if it is all there.
  method ConvertOne(src: Bytes, spos: nat, lengthSize: nat, out: array<Byte>, pos: nat, ghost need: Bytes, ghost exact: bool, ghost over: bool)
    returns (r: Option<Outcome>, spos': nat, pos': nat)
    requires lengthSize <= 4 && spos <= |src| < WORD && pos <= out.Length < WORD && Wrap32(spos + lengthSize) <= |src|
    requires lengthSize > 0 ==> OnTheWay(out[..pos], src[spos..], lengthSize, need)
    requires Ahead(src, spos, pos, lengthSize, out.Length, exact, over)
    modifies out
    ensures r.Some? ==> Right(r.value, out[..], lengthSize, need, exact, over)
    ensures r.None? ==> spos' <= |src| && pos < pos' <= out.Length && Ahead(src, spos', pos', lengthSize, out.Length, exact, over)
    ensures r.None? && lengthSize > 0 ==> OnTheWay(out[..pos'], src[spos'..], lengthSize, need)
  {
    spos', pos' := spos, pos;
    if spos + lengthSize > |src| {
      LengthBeyond(src, spos, pos, lengthSize, out.Length, exact, over);
      r := Some(Overrun);
    } else {
      var v, len := TestUnit(src, spos, lengthSize, pos, out.Length, exact, over);
      spos', pos' := FinishTurn(v, len, src, spos, lengthSize, out, pos, need);
      match v {
        case Copied => r := None;
        case Short => r := Some(Returned(Int32(pos)));
        case NoRoom => r := Some(Returned(-1));
        case Beyond => r := Some(Overrun);
      }
      assert v.Short? && lengthSize > 0 ==> |need| == pos && out[..][..pos] == out[..pos];
      assert lengthSize == 0 ==> src[spos..spos + lengthSize] == [];
    }
  }

  // The loop over the units, from a start in the buffer on.
  method ConvertUnits(src: Bytes, lengthSize: nat, out: array<Byte>, start: nat, ghost need: Bytes, ghost exact: bool, ghost over: bool)
    returns (r: Outcome)
    requires lengthSize <= 4 && |src| < WORD && start <= out.Length < WORD
    requires Ahead(src, 0, start, lengthSize, out.Length, exact, over) && (lengthSize > 0 ==> OnTheWay(out[..start], src, lengthSize, need))
    modifies out
    ensures Right(r, out[..], lengthSize, need, exact, over)
  {
    var pos: nat, spos: nat := start, 0;
    assert src[0..] == src;
    while Wrap32(spos + lengthSize) <= |src|
      invariant spos <= |src| && pos <= out.Length
      invariant Ahead(src, spos, pos, lengthSize, out.Length, exact, over)
      invariant lengthSize > 0 ==> OnTheWay(out[..pos], src[spos..], lengthSize, need)
      decreases out.Length - pos
    {
      var o;
      o, spos, pos := ConvertOne(src, spos, lengthSize, out, pos, need, exact, over);
      if o.Some? {
        return o.value;
      }
    }
    LoopEnds(src, spos, pos, lengthSize, out.Length, exact, over);
    NoMoreUnits(out[..pos], src[spos..], lengthSize, need);
    assert out[..][..pos] == out[..pos];
    return Returned(Int32(pos));
  }

  /** rfs_mp4_to_annexb, for every sample and buffer. It oversteps exactly the samples `Oversteps` names;
      of the others it refuses those at which a test does not decide right; for all the rest the buffer gets
      the configuration, on key frames, and the sample's units behind start codes, or -1 is returned exactly
      when that does not fit, or when the track never told the size of its lengths. */
  method ToAnnexB(config: Bytes, key: bool, src: Bytes, lengthSize: nat, out: array<Byte>) returns (r: Outcome)
    requires lengthSize <= 4 && |src| < WORD && out.Length < WORD
    modifies out
    ensures var start := |Prefix(key, config)|;
      if start > out.Length then r == Returned(-1)
      else if Oversteps(src, 0, start, lengthSize, out.Length) then r == Overrun
      else if !Exact(src, 0, start, lengthSize, out.Length) || lengthSize == 0 then r == Returned(-1)
      else
        var need := Converted(config, key, src, lengthSize);
        if |need| <= out.Length then r == Returned(Int32(|need|)) && out[..|need|] == need else r == Returned(-1)
  {
    var pos: nat := 0;
    if key && |config| > 0 {
      if |config| > out.Length {
        return Returned(-1);
      }
      pos := Put(out, 0, config);
    }
    assert out[..pos] == Prefix(key, config);
    ghost var exact, over := Exact(src, 0, pos, lengthSize, out.Length), Oversteps(src, 0, pos, lengthSize, out.Length);
    ghost var need := if lengthSize > 0 then Converted(config, key, src, lengthSize) else [];
    r := ConvertUnits(src, lengthSize, out, pos, need, exact, over);
    assert lengthSize > 0 && |need| <= out.Length ==> out[..][..|need|] == out[..|need|];
  }

  // ----- what a track promises ---------------------------------------------------------

  function BigEndian(v: nat, n: nat): (s: Bytes)
    ensures |s| == n
  {
    if n == 0 then [] else BigEndian(v / 256, n - 1) + [v % 256]
  }

  lemma {:induction false} ValueOfBigEndian(v: nat, n: nat)
    requires v < Pow256(n)
    ensures Value(BigEndian(v, n)) == v
  {
    if n > 0 {
      ValueOfBigEndian(v / 256, n - 1);
      var s := BigEndian(v, n);
      assert s[..n - 1] == BigEndian(v / 256, n - 1);
    }
  }

  // A sample as section 5.3.3 of ISO/IEC 14496-15 lays it out.
  function Sample(nals: seq<Bytes>, lengthSize: nat): Bytes {
    if nals == [] then [] else BigEndian(|nals[0]|, lengthSize) + nals[0] + Sample(nals[1..], lengthSize)
  }

  predicate Fit(nals: seq<Bytes>, lengthSize: nat) {
    forall i | 0 <= i < |nals| :: |nals[i]| < Pow256(lengthSize)
  }

  lemma ParseCons(n: Bytes, tail: Bytes, lengthSize: nat)
    requires lengthSize > 0 && |n| < Pow256(lengthSize)
    ensures Parse(BigEndian(|n|, lengthSize) + n + tail, lengthSize) == [n] + Parse(tail, lengthSize)
  {
    var s := BigEndian(|n|, lengthSize) + n + tail;
    ValueOfBigEndian(|n|, lengthSize);
    assert s[..lengthSize] == BigEndian(|n|, lengthSize);
    assert s[lengthSize..lengthSize + |n|] == n && s[lengthSize + |n|..] == tail;
  }

  lemma {:induction false} ParseOfSample(nals: seq<Bytes>, lengthSize: nat)
    requires lengthSize > 0 && Fit(nals, lengthSize)
    ensures Parse(Sample(nals, lengthSize), lengthSize) == nals
  {
    if nals != [] {
      var n, rest := nals[0], nals[1..];
      assert forall i | 0 <= i < |rest| :: rest[i] == nals[i + 1];
      ParseOfSample(rest, lengthSize);
      ParseCons(n, Sample(rest, lengthSize), lengthSize);
      assert nals == [n] + rest;
    }
  }

  lemma {:induction false} OneMoreUnitAhead(before: Bytes, nals: seq<Bytes>, lengthSize: nat) returns (next: Bytes)
    requires nals != [] && Fit(nals, lengthSize)
    ensures var src, spos, n := before + Sample(nals, lengthSize), |before|, |nals[0]|;
      && spos + lengthSize + n <= |src| && Value(src[spos..spos + lengthSize]) == n
      && |next| == spos + lengthSize + n && src == next + Sample(nals[1..], lengthSize)
  {
    var head, rest := BigEndian(|nals[0]|, lengthSize), Sample(nals[1..], lengthSize);
    ValueOfBigEndian(|nals[0]|, lengthSize);
    next := before + head + nals[0];
    assert before + (head + nals[0] + rest) == next + rest;
    assert (next + rest)[|before|..|before| + lengthSize] == head;
  }

  lemma {:induction false} ExactBefore(src: Bytes, spos: nat, pos: nat, lengthSize: nat, cap: nat, n: nat, end: nat, next: nat)
    requires spos + lengthSize <= |src| && n == Value(src[spos..spos + lengthSize])
    requires end == spos + lengthSize + n < WORD && next == pos + 4 + n < WORD && (next <= cap ==> Exact(src, end, next, lengthSize, cap))
    ensures Exact(src, spos, pos, lengthSize, cap)
  {
  }

  lemma RestFits(nals: seq<Bytes>, lengthSize: nat)
    requires nals != [] && Fit(nals, lengthSize)
    ensures Fit(nals[1..], lengthSize)
  {
    assert forall i | 0 <= i < |nals[1..]| :: nals[1..][i] == nals[i + 1];
  }

  lemma {:induction false} NothingAhead(src: Bytes, pos: nat, lengthSize: nat, cap: nat)
    requires 0 < lengthSize <= 4 && |src| + 4 < WORD
    ensures Exact(src, |src|, pos, lengthSize, cap)
  {
  }

  // A sample that is all units, from a place at which one begins.
  lemma {:induction false} SampleIsExact(src: Bytes, at: nat, nals: seq<Bytes>, lengthSize: nat, pos: nat, cap: nat)
    requires 0 < lengthSize <= 4 && Fit(nals, lengthSize) && pos <= cap
    requires at <= |src| && src == src[..at] + Sample(nals, lengthSize) && |src| + cap + 4 < WORD
    ensures Exact(src, at, pos, lengthSize, cap)
    decreases |nals|
  {
    if nals == [] {
      NothingAhead(src, pos, lengthSize, cap);
    } else {
      var n, end := UnitAhead(src, src[..at], nals, lengthSize);
      var next := pos + 4 + n;
      RestFits(nals, lengthSize);
      if next <= cap { SampleIsExact(src, end, nals[1..], lengthSize, next, cap); }
      ExactBefore(src, at, pos, lengthSize, cap, n, end, next);
    }
  }

  lemma {:induction false} UnitAhead(src: Bytes, before: Bytes, nals: seq<Bytes>, lengthSize: nat) returns (n: nat, end: nat)
    requires nals != [] && Fit(nals, lengthSize) && src == before + Sample(nals, lengthSize)
    ensures end == |before| + lengthSize + n <= |src| && Value(src[|before|..|before| + lengthSize]) == n
    ensures src == src[..end] + Sample(nals[1..], lengthSize)
  {
    var next := OneMoreUnitAhead(before, nals, lengthSize);
    n, end := |nals[0]|, |next|;
    assert src[..end] == next;
  }

  /** AVCC to Annex B keeps the NAL list: what a scan of a converted sample sees is the units of the
      configuration, on key frames, and then those of the sample, exactly when all are plain. */
  lemma ConversionKeepsUnits(config: seq<Bytes>, key: bool, nals: seq<Bytes>, lengthSize: nat)
    requires lengthSize > 0 && Fit(nals, lengthSize)
    ensures var all := (if key then config else []) + nals;
      Scan(Converted(Framed(config), key, Sample(nals, lengthSize), lengthSize)) == all <==> AllPlain(all)
  {
    var all := (if key then config else []) + nals;
    ParseOfSample(nals, lengthSize);
    FramedConcat(if key then config else [], nals);
    assert Converted(Framed(config), key, Sample(nals, lengthSize), lengthSize) == Framed(all);
    ScanOfFramed(all);
  }

  // The bytes of all units together, and what a sample has behind its last whole one.
  function Total(nals: seq<Bytes>): nat {
    if nals == [] then 0 else |nals[0]| + Total(nals[1..])
  }

  function Unread(s: Bytes, lengthSize: nat): Bytes
    requires lengthSize > 0
    decreases |s|
  {
    if |s| < lengthSize || Value(s[..lengthSize]) > |s| - lengthSize then s
    else Unread(s[lengthSize + Value(s[..lengthSize])..], lengthSize)
  }

  lemma {:induction false} FramedSize(nals: seq<Bytes>)
    ensures |Framed(nals)| == 4 * |nals| + Total(nals)
  {
    if nals != [] {
      assert nals == [nals[0]] + nals[1..];
      FramedCons(nals[0], nals[1..]);
      FramedSize(nals[1..]);
    }
  }

  lemma {:induction false} SampleSize(src: Bytes, lengthSize: nat)
    requires lengthSize > 0
    ensures |src| == lengthSize * |Parse(src, lengthSize)| + Total(Parse(src, lengthSize)) + |Unread(src, lengthSize)|
    decreases |src|
  {
    if |src| >= lengthSize && Value(src[..lengthSize]) <= |src| - lengthSize {
      var n := Value(src[..lengthSize]);
      var unit, rest := src[lengthSize..lengthSize + n], src[lengthSize + n..];
      var tail := Parse(rest, lengthSize);
      SampleSize(rest, lengthSize);
      assert ([unit] + tail)[1..] == tail;
      assert lengthSize * (1 + |tail|) == lengthSize + lengthSize * |tail|;
    }
  }

  lemma StartCodesFit(n: nat, lengthSize: nat, total: nat, unread: nat, size: nat, maxFrame: nat, spare: nat)
    requires size == lengthSize * n + total + unread && size <= maxFrame
    ensures 4 * n + total <= spare + 2 * maxFrame <==> (4 - 2 * lengthSize) * n <= total + 2 * unread + 2 * (maxFrame - size) + spare
    ensures lengthSize >= 2 ==> 4 * n + total <= 2 * maxFrame
  {
    assert (4 - 2 * lengthSize) * n == 4 * n - 2 * (lengthSize * n);
    if lengthSize >= 2 { assert lengthSize * n >= 2 * n; }
  }

  /** A sample converts within twice its size exactly when its units, and twice what is left over
      behind them, make up for the start codes: always, unless its lengths take one byte. */
  lemma {:induction false} ConversionAtMostDoubles(src: Bytes, lengthSize: nat)
    requires lengthSize > 0
    ensures var nals := Parse(src, lengthSize);
      |Framed(nals)| <= 2 * |src| <==> (4 - 2 * lengthSize) * |nals| <= Total(nals) + 2 * |Unread(src, lengthSize)|
  {
    var nals := Parse(src, lengthSize);
    FramedSize(nals);
    SampleSize(src, lengthSize);
    StartCodesFit(|nals|, lengthSize, Total(nals), |Unread(src, lengthSize)|, |src|, |src|, 0);
  }

  /** The scratch buffer is the configuration plus twice the largest sample. A sample fits it exactly
      when the bytes of its units, twice what is left over behind them, twice what it is smaller than
      the largest and, off key frames, the configuration make up for the start codes. */
  lemma {:induction false} ScratchSuffices(config: Bytes, key: bool, src: Bytes, lengthSize: nat, maxFrame: nat)
    requires lengthSize > 0 && |src| <= maxFrame
    ensures var nals := Parse(src, lengthSize);
      |Converted(config, key, src, lengthSize)| <= |config| + 2 * maxFrame <==>
      (4 - 2 * lengthSize) * |nals| <=
        Total(nals) + 2 * |Unread(src, lengthSize)| + 2 * (maxFrame - |src|) + (if key then 0 else |config|)
    ensures lengthSize >= 2 ==> |Converted(config, key, src, lengthSize)| <= |config| + 2 * maxFrame
  {
    var nals := Parse(src, lengthSize);
    FramedSize(nals);
    SampleSize(src, lengthSize);
    StartCodesFit(|nals|, lengthSize, Total(nals), |Unread(src, lengthSize)|, |src|, maxFrame, if key then 0 else |config|);
  }

  // One-byte lengths of one-byte units more than double.
  lemma TinyUnitsOverflow()
    ensures |Converted([], false, [1, 9], 1)| > 2 * 2
  {
    var s: Bytes := [1, 9];
    assert s[..1] == [1] && s[..1][..0] == [];
    assert Value(s[..1]) == 1;
    FramedCons(s[1..2], Parse(s[2..], 1));
  }

  // ----- the decoder configuration record ----------------------------------------------

  // Parameter sets read from a record, and what is left of it; or a length past its end.
  datatype Listed = Bad | Listed(nals: seq<Bytes>, left: Bytes)

  function ListOf(s: Bytes, count: nat): Listed
    decreases count
  {
    if count == 0 || |s| < 2 then Listed([], s)
    else
      var n: nat := (s[0] as int) * 256 + s[1] as int;
      if 2 + n > |s| then Bad
      else
        match ListOf(s[2 + n..], count - 1)
        case Bad => Bad
        case Listed(ns, left) => Listed([s[2..2 + n]] + ns, left)
  }

  // The picture parameter sets follow the sequence ones, unless the record ends there.
  function PpsOf(s: Bytes): Listed { if s == [] then Listed([], []) else ListOf(s[1..], s[0]) }

  // The sequence and picture parameter sets of an AVCDecoderConfigurationRecord.
  function Avcc(e: Bytes): Listed {
    if |e| < 7 then Bad
    else
      match ListOf(e[6..], e[5] % 32)
      case Bad => Bad
      case Listed(sps, left) =>
        match PpsOf(left)
        case Bad => Bad
        case Listed(pps, rest) => Listed(sps + pps, rest)
  }

  // What was copied and what is left to copy make up the whole list.
  ghost predicate CopiedSoFar(all: Listed, left: Listed, before: Bytes, done: Bytes) {
    && (all.Bad? <==> left.Bad?)
    && (all.Listed? ==> all.left == left.left && done + Framed(left.nals) == before + Framed(all.nals))
  }

  lemma CopiedOneMore(all: Listed, s: Bytes, n: nat, count: nat, before: Bytes, done: Bytes)
    requires |s| >= 2 && n == (s[0] as int) * 256 + s[1] as int && count > 0
    requires CopiedSoFar(all, ListOf(s, count), before, done)
    ensures 2 + n > |s| ==> all.Bad?
    ensures 2 + n <= |s| ==> CopiedSoFar(all, ListOf(s[2 + n..], count - 1), before, done + START_CODE + s[2..2 + n])
    ensures 2 + n <= |s| && all.Listed? ==> |before| + |Framed(all.nals)| >= |done| + 4 + n
  {
    if 2 + n <= |s| && all.Listed? {
      var unit, rest := s[2..2 + n], ListOf(s[2 + n..], count - 1);
      FramedCons(unit, rest.nals);
      assert done + (START_CODE + unit + Framed(rest.nals)) == done + START_CODE + unit + Framed(rest.nals);
    }
  }

  // The same, at a place in the record.
  lemma CopiedOneMoreAt(all: Listed, e: Bytes, at: nat, n: nat, count: nat, before: Bytes, done: Bytes)
    requires at + 2 <= |e| && n == (e[at] as int) * 256 + e[at + 1] as int && count > 0
    requires CopiedSoFar(all, ListOf(e[at..], count), before, done)
    ensures at + 2 + n > |e| ==> all.Bad?
    ensures at + 2 + n <= |e| ==>
      CopiedSoFar(all, ListOf(e[at + 2 + n..], count - 1), before, done + START_CODE + e[at + 2..at + 2 + n])
    ensures at + 2 + n <= |e| && all.Listed? ==> |before| + |Framed(all.nals)| >= |done| + 4 + n
  {
    CopiedOneMore(all, e[at..], n, count, before, done);
    if at + 2 + n <= |e| {
      assert e[at..][2..2 + n] == e[at + 2..at + 2 + n];
      assert e[at..][2 + n..] == e[at + 2 + n..];
    }
  }

  // What is left to copy at a place in the record, of a list that was begun before.
  ghost predicate CopiedTo(all: Listed, e: Bytes, at: nat, count: nat, before: Bytes, done: Bytes) {
    at <= |e| && CopiedSoFar(all, ListOf(e[at..], count), before, done)
  }

  // Copies one parameter set behind a start code, unless its length is wrong or room runs out.
  method CopyOne(e: Bytes, at: nat, out: array<Byte>, pos: nat, ghost all: Listed, ghost count: nat, ghost before: Bytes)
    returns (ok: bool, at': nat, pos': nat)
    requires at + 2 <= |e| && pos <= out.Length && count > 0 && CopiedTo(all, e, at, count, before, out[..pos])
    modifies out
    ensures ok ==> pos' <= out.Length && CopiedTo(all, e, at', count - 1, before, out[..pos'])
    ensures !ok ==> all.Bad? || |before| + |Framed(all.nals)| > out.Length
  {
    var n: nat := (e[at] as int) * 256 + e[at + 1] as int;
    ghost var done := out[..pos];
    CopiedOneMoreAt(all, e, at, n, count, before, done);
    at', pos' := at + 2, pos;
    if at' + n > |e| || pos' + 4 + n > out.Length {
      return false, at', pos';
    }
    var unit := e[at'..at' + n];
    pos' := PutUnit(out, pos', unit);
    assert out[..pos'] == done + START_CODE + unit;
    at' := at' + n;
    ok := true;
  }

  // Copies up to `count` parameter sets, unless a length is wrong or room runs out.
  method CopyList(e: Bytes, at: nat, count: nat, out: array<Byte>, pos: nat) returns (ok: bool, at': nat, pos': nat)
    requires at <= |e| && pos <= out.Length
    modifies out
    ensures var all := ListOf(e[at..], count);
      && (ok <==> all.Listed? && pos + |Framed(all.nals)| <= out.Length)
      && (ok ==> at' <= |e| && e[at'..] == all.left && pos' <= out.Length
                 && out[..pos'] == old(out[..pos]) + Framed(all.nals))
  {
    at', pos' := at, pos;
    var i := 0;
    ghost var all, before := ListOf(e[at..], count), out[..pos];
    while i < count && at' + 2 <= |e|
      invariant 0 <= i <= count && pos' <= out.Length && CopiedTo(all, e, at', count - i, before, out[..pos'])
    {
      ok, at', pos' := CopyOne(e, at', out, pos', all, count - i, before);
      if !ok {
        return false, at', pos';
      }
      i := i + 1;
    }
    ok := true;
  }

  method CopySets(e: Bytes, out: array<Byte>) returns (ok: bool, pos: nat)
    requires |e| >= 7
    modifies out
    ensures ok <==> Avcc(e).Listed? && |Framed(Avcc(e).nals)| <= out.Length
    ensures ok ==> pos <= out.Length && out[..pos] == Framed(Avcc(e).nals)
  {
    ghost var sps := ListOf(e[6..], e[5] % 32);
    if sps.Listed? && PpsOf(sps.left).Listed? { FramedConcat(sps.nals, PpsOf(sps.left).nals); }
    var at;
    ok, at, pos := CopyList(e, 6, e[5] % 32, out, 0);
    if ok {
      assert out[..pos] == Framed(sps.nals);
      if at < |e| {
        assert e[at..][1..] == e[at + 1..];
        ok, at, pos := CopyList(e, at + 1, e[at], out, pos);
      }
    }
  }

  /** parse_avcc_config: the parameter sets in start-code form, or -1 when the record is malformed
      or they do not fit. */
  method ParseAvccConfig(e: Bytes, out: array<Byte>) returns (n: int, lengthSize: nat, profile: Byte, level: Byte)
    modifies out
    ensures n >= 0 <==> Avcc(e).Listed? && |Framed(Avcc(e).nals)| <= out.Length
    ensures n >= 0 ==> n <= out.Length && out[..n] == Framed(Avcc(e).nals)
    ensures n >= 0 ==> 1 <= lengthSize == e[4] % 4 + 1 && profile == e[1] && level == e[3]
  {
    lengthSize, profile, level := 0, 0, 0;
    if |e| < 7 {
      return -1, lengthSize, profile, level;
    }
    lengthSize, profile, level := e[4] % 4 + 1, e[1], e[3];
    var ok, pos := CopySets(e, out);
    n := if ok then pos else -1;
  }

  // ----- records as section 5.3.3 of ISO/IEC 14496-15 lays them out ----------------------

  function Sized(nals: seq<Bytes>): Bytes { Sample(nals, 2) }

  predicate Records(nals: seq<Bytes>) { forall i | 0 <= i < |nals| :: |nals[i]| < 65536 }

  function EncodeAvcc(profile: Byte, compat: Byte, level: Byte, lengthSize: nat, sps: seq<Bytes>, pps: seq<Bytes>): Bytes
    requires 1 <= lengthSize <= 4 && |sps| < 32 && |pps| < 256
  {
    [1, profile, compat, level, 252 + (lengthSize - 1), 224 + |sps|] + (Sized(sps) + ([|pps|] + Sized(pps)))
  }

  lemma TwoBytes(n: Bytes)
    requires |n| < 65536
    ensures BigEndian(|n|, 2) == [|n| / 256, |n| % 256]
  {
    var v := |n|;
    assert BigEndian(v / 256, 1) == BigEndian(v / 256 / 256, 0) + [v / 256 % 256];
    assert v / 256 % 256 == v / 256;
  }

  lemma {:induction false} ListOfCons(n: Bytes, tail: Bytes, s: Bytes, count: nat, ns: seq<Bytes>, left: Bytes)
    requires |n| < 65536 && s == BigEndian(|n|, 2) + n + tail && ListOf(tail, count) == Listed(ns, left)
    ensures ListOf(s, count + 1) == Listed([n] + ns, left)
  {
    TwoBytes(n);
    assert s[0] == |n| / 256 && s[1] == |n| % 256;
    assert s[2..2 + |n|] == n && s[2 + |n|..] == tail;
  }

  lemma SizedCons(nals: seq<Bytes>, post: Bytes)
    requires nals != []
    ensures Sized(nals) + post == BigEndian(|nals[0]|, 2) + nals[0] + (Sized(nals[1..]) + post)
  {
  }

  lemma {:induction false} ListOfSized(nals: seq<Bytes>, post: Bytes)
    requires Records(nals)
    ensures ListOf(Sized(nals) + post, |nals|) == Listed(nals, post)
  {
    if nals == [] {
      assert Sized(nals) + post == post;
    } else {
      var n, rest := nals[0], nals[1..];
      assert forall i | 0 <= i < |rest| :: rest[i] == nals[i + 1];
      ListOfSized(rest, post);
      SizedCons(nals, post);
      ListOfCons(n, Sized(rest) + post, Sized(nals) + post, |rest|, rest, post);
      assert nals == [n] + rest;
    }
  }

  lemma AvccOf(head: Bytes, sps: seq<Bytes>, pps: seq<Bytes>)
    requires |head| == 6 && head[5] % 32 == |sps| && |pps| < 256 && Records(sps) && Records(pps)
    ensures Avcc(head + (Sized(sps) + ([|pps|] + Sized(pps)))) == Listed(sps + pps, [])
  {
    var tail := [|pps|] + Sized(pps);
    var e := head + (Sized(sps) + tail);
    assert e[6..] == Sized(sps) + tail && e[5] == head[5];
    ListOfSized(sps, tail);
    assert tail[1..] == Sized(pps) + [];
    ListOfSized(pps, []);
  }

  /** A well-formed record yields its own parameter sets, in order, and the size of the lengths. */
  lemma AvccOfEncoded(profile: Byte, compat: Byte, level: Byte, lengthSize: nat, sps: seq<Bytes>, pps: seq<Bytes>)
    requires 1 <= lengthSize <= 4 && |sps| < 32 && |pps| < 256 && Records(sps) && Records(pps)
    ensures var e := EncodeAvcc(profile, compat, level, lengthSize, sps, pps);
      && Avcc(e) == Listed(sps + pps, [])
      && |e| >= 7 && e[4] % 4 + 1 == lengthSize && e[1] == profile && e[3] == level
  {
    AvccOf([1, profile, compat, level, 252 + (lengthSize - 1), 224 + |sps|], sps, pps);
  }

  /** End to end: the key frame of a well-formed track, converted, scans as the track's parameter
      sets followed by the sample's units, exactly when all of these are plain. */
  lemma KeyFrameScans(profile: Byte, compat: Byte, level: Byte, lengthSize: nat, sps: seq<Bytes>, pps: seq<Bytes>, nals: seq<Bytes>)
    requires 1 <= lengthSize <= 4 && |sps| < 32 && |pps| < 256 && Records(sps) && Records(pps) && Fit(nals, lengthSize)
    ensures var e := EncodeAvcc(profile, compat, level, lengthSize, sps, pps);
      && Avcc(e).Listed?
      && (Scan(Converted(Framed(Avcc(e).nals), true, Sample(nals, lengthSize), lengthSize)) == sps + pps + nals
          <==> AllPlain(sps + pps + nals))
  {
    AvccOfEncoded(profile, compat, level, lengthSize, sps, pps);
    ConversionKeepsUnits(sps + pps, true, nals, lengthSize);
  }
}
