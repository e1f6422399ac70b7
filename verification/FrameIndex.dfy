/**
 * The frame index of a raw H.264 or H.265 file (rfs/rfs_annexb.c): one pass over the start
 * codes cuts the file into access units, one per coded slice.
 */
module FrameIndex {
  import opened AnnexB
  import opened Bits

  const MAX_FRAMES: nat := 65536

  datatype Codec = H264 | H265

  datatype Frame = Frame(offset: nat, length: int, key: bool, bframe: bool)

  // ----- classifiers -------------------------------------------------------------------

  predicate IsVcl(c: Codec, b: Byte) {
    if c.H264? then 1 <= b % 32 <= 5 else b / 2 % 64 <= 31
  }

  predicate IsIdr(c: Codec, b: Byte) {
    if c.H264? then b % 32 == 5 else 16 <= b / 2 % 64 <= 21
  }

  // The second of two numbers from r on, unless the bits ran out.
  predicate SecondUe(b: seq<nat>, r: Reader, good: nat -> bool) {
    !AfterUe(b, AfterUe(b, r)).overflow && good(UeValue(b, AfterUe(b, r)))
  }

  // h264_slice_type and h265_slice_type: whether the unit is a B slice.
  predicate IsB(c: Codec, n: Bytes) {
    if c.H264? then
      |n| >= 3 && SecondUe(BitsOf(n[1..]), Reader(0, false), st => st % 5 == 1)
    else
      |n| >= 4 && !(16 <= n[0] / 2 % 64 <= 23)
      && ReadValue(BitsOf(n[2..]), Reader(0, false), 1) != 0
      && SecondUe(BitsOf(n[2..]), AfterRead(BitsOf(n[2..]), Reader(0, false), 1), st => st == 0)
  }

  method SliceIsB(c: Codec, n: Bytes) returns (r: bool)
    ensures r == IsB(c, n)
  {
    if c.H264? {
      if |n| < 3 { return false; }
      var b := new BitReader(n[1..]);
      var _ := b.Ue();
      var st := b.Ue();
      return !b.overflow && st % 5 == 1;
    } else {
      if |n| < 4 { return false; }
      if 16 <= n[0] / 2 % 64 <= 23 { return false; }
      var b := new BitReader(n[2..]);
      var first := b.Read(1);
      if first == 0 { return false; }
      var _ := b.Ue();
      var st := b.Ue();
      return !b.overflow && st == 0;
    }
  }

  /** A slice header's first two numbers, coded as the standard says, decide the B flag. */
  lemma SliceTypeIsRead(n: Bytes, mb: nat, st: nat)
    requires |n| >= 3 && Log2(mb + 1) <= 31 && Log2(st + 1) <= 31
    requires Coded(BitsOf(n[1..]), 0, UeCode(mb)) && Coded(BitsOf(n[1..]), |UeCode(mb)|, UeCode(st))
    ensures IsB(H264, n) <==> st % 5 == 1
  {
    UeInverts(BitsOf(n[1..]), 0, mb);
    UeInverts(BitsOf(n[1..]), |UeCode(mb)|, st);
  }

  /** The same for the header of section 7.3.6.1 of ITU-T H.265: the flag of the first slice of a picture,
      the parameter set's number and the slice type, without reserved flags between them. */
  lemma H265SliceTypeIsRead(n: Bytes, pps: nat, st: nat)
    requires |n| >= 4 && Log2(pps + 1) <= 31 && Log2(st + 1) <= 31 && Coded(BitsOf(n[2..]), 0, [1])
    requires Coded(BitsOf(n[2..]), 1, UeCode(pps)) && Coded(BitsOf(n[2..]), 1 + |UeCode(pps)|, UeCode(st))
    ensures IsB(H265, n) <==> st == 0 && !(16 <= n[0] / 2 % 64 <= 23)
  {
    var b := BitsOf(n[2..]);
    FlagIsRead(b, 1);
    UeInverts(b, 1, pps);
    UeInverts(b, 1 + |UeCode(pps)|, st);
  }

  lemma FlagIsRead(b: seq<nat>, v: nat)
    requires v <= 1 && Coded(b, 0, [v])
    ensures ReadValue(b, Reader(0, false), 1) == v && AfterRead(b, Reader(0, false), 1) == Reader(1, false)
  {
    assert b[0] == b[0..1][0] == v;
    assert Taken(b, 0, 0) == 0;
  }

  /** A reserved flag that is set, which that header may have before the slice type, is read as the type
      of a B slice, whatever the type is. */
  lemma ReservedFlagMisleads(n: Bytes, pps: nat)
    requires |n| >= 4 && Log2(pps + 1) <= 31 && Coded(BitsOf(n[2..]), 0, [1]) && !(16 <= n[0] / 2 % 64 <= 23)
    requires Coded(BitsOf(n[2..]), 1, UeCode(pps)) && Coded(BitsOf(n[2..]), 1 + |UeCode(pps)|, [1])
    ensures IsB(H265, n)
  {
    var b := BitsOf(n[2..]);
    FlagIsRead(b, 1);
    UeInverts(b, 1, pps);
    assert UeCode(0) == [1];
    UeInverts(b, 1 + |UeCode(pps)|, 0);
  }

  // ----- the scan ----------------------------------------------------------------------

  // A NAL unit: where its start code, its header and the next start code are.
  datatype Unit = Unit(code: nat, nal: nat, next: nat, header: Byte, body: Bytes)

  predicate CodeOrEnd(d: Bytes, sc: nat) { sc <= |d| && (sc < |d| ==> CodeAt(d, sc) > 0) }

  predicate UnitFollows(d: Bytes, sc: nat) { sc < |d| && CodeAt(d, sc) > 0 && sc + CodeAt(d, sc) < |d| }

  function UnitAt(d: Bytes, sc: nat): (u: Unit)
    requires UnitFollows(d, sc)
    ensures u.code == sc < u.nal <= u.next && u.nal < |d| && CodeOrEnd(d, u.next)
  {
    var nal := sc + CodeAt(d, sc);
    var next := FindCode(d, nal);
    Unit(sc, nal, next, d[nal], d[nal..next])
  }

  function Units(d: Bytes, sc: nat): seq<Unit>
    requires CodeOrEnd(d, sc)
    decreases |d| - sc
  {
    if !UnitFollows(d, sc) then [] else [UnitAt(d, sc)] + Units(d, UnitAt(d, sc).next)
  }

  // A frame from start to the end of the slice.
  datatype Cut = Cut(start: nat, slice: Unit)

  // The frames the units make up, when the one being gathered began at start.
  function Cuts(c: Codec, us: seq<Unit>, start: nat, room: nat): seq<Cut> {
    if us == [] then []
    else if !IsVcl(c, us[0].header) then Cuts(c, us[1..], start, room)
    else if room == 0 then []
    else [Cut(start, us[0])] + Cuts(c, us[1..], us[0].next, room - 1)
  }

  function AllCuts(d: Bytes, c: Codec): seq<Cut> {
    Cuts(c, Units(d, FindCode(d, 0)), FindCode(d, 0), MAX_FRAMES)
  }

  function FrameOf(c: Codec, cut: Cut): Frame {
    Frame(cut.start, cut.slice.next - cut.start, IsIdr(c, cut.slice.header), IsB(c, Trim(cut.slice.body)))
  }

  function FramesOf(c: Codec, cuts: seq<Cut>): (fs: seq<Frame>)
    ensures |fs| == |cuts|
    ensures forall k | 0 <= k < |fs| :: fs[k].offset == cuts[k].start
              && fs[k].offset + fs[k].length == cuts[k].slice.next && fs[k].key == IsIdr(c, cuts[k].slice.header)
  {
    if cuts == [] then [] else FramesOf(c, cuts[..|cuts| - 1]) + [FrameOf(c, cuts[|cuts| - 1])]
  }

  method TrimmedLength(n: Bytes) returns (len: nat)
    ensures len <= |n| && n[..len] == Trim(n)
  {
    len := |n|;
    assert n[..len] == n;
    while len > 1 && n[len - 1] == 0
      invariant len <= |n| && Trim(n) == Trim(n[..len])
    {
      assert n[..len][..len - 1] == n[..len - 1];
      len := len - 1;
    }
  }

  method MakeFrame(c: Codec, cut: Cut) returns (f: Frame)
    ensures f == FrameOf(c, cut)
  {
    var nalLen := TrimmedLength(cut.slice.body);
    var isB := SliceIsB(c, cut.slice.body[..nalLen]);
    f := Frame(cut.start, cut.slice.next - cut.start, IsIdr(c, cut.slice.header), isB);
  }

  lemma FramesOfMore(c: Codec, cuts: seq<Cut>, cut: Cut)
    ensures FramesOf(c, cuts + [cut]) == FramesOf(c, cuts) + [FrameOf(c, cut)]
  {
    assert (cuts + [cut])[..|cuts|] == cuts;
  }

  method AddFrame(c: Codec, frames: seq<Frame>, ghost cuts: seq<Cut>, cut: Cut) returns (more: seq<Frame>)
    requires frames == FramesOf(c, cuts)
    ensures more == FramesOf(c, cuts + [cut])
  {
    FramesOfMore(c, cuts, cut);
    var f := MakeFrame(c, cut);
    more := frames + [f];
  }

  // The unit behind the start code at sc, and where the next one is.
  method ReadUnit(d: Bytes, sc: nat, len: nat) returns (u: Unit, more: bool, nextLen: nat)
    requires UnitFollows(d, sc) && len == CodeAt(d, sc)
    ensures u == UnitAt(d, sc) && (more <==> u.next < |d|) && (more ==> nextLen == CodeAt(d, u.next))
  {
    var nal := sc + len;
    var next;
    more, next, nextLen := FindStartCode(d, nal);
    if !more { next := |d|; }
    u := Unit(sc, nal, next, d[nal], d[nal..next]);
  }

  lemma CutsCons(c: Codec, u: Unit, us: seq<Unit>, start: nat, room: nat)
    ensures Cuts(c, [u] + us, start, room)
         == if !IsVcl(c, u.header) then Cuts(c, us, start, room)
            else if room == 0 then [] else [Cut(start, u)] + Cuts(c, us, u.next, room - 1)
  {
    assert ([u] + us)[1..] == us;
  }

  // The cuts made so far and those still to come are all of them.
  ghost predicate Scanning(c: Codec, cuts: seq<Cut>, us: seq<Unit>, start: nat, all: seq<Cut>) {
    |cuts| <= MAX_FRAMES && cuts + Cuts(c, us, start, MAX_FRAMES - |cuts|) == all
  }

  lemma Gathered(c: Codec, cuts: seq<Cut>, u: Unit, rest: seq<Unit>, start: nat, all: seq<Cut>)
    requires Scanning(c, cuts, [u] + rest, start, all)
    ensures if !IsVcl(c, u.header) then Scanning(c, cuts, rest, start, all)
            else if |cuts| == MAX_FRAMES then cuts == all
            else Scanning(c, cuts + [Cut(start, u)], rest, u.next, all)
  {
    var room := MAX_FRAMES - |cuts|;
    CutsCons(c, u, rest, start, room);
    if IsVcl(c, u.header) {
      if room == 0 {
        assert cuts + [] == cuts;
      } else {
        var more := Cuts(c, rest, u.next, room - 1);
        assert cuts + ([Cut(start, u)] + more) == cuts + [Cut(start, u)] + more;
      }
    }
  }

  /** The main loop of rfs_annexb_scan; no frames is its error return. */
  method ScanFrames(d: Bytes, c: Codec) returns (frames: seq<Frame>)
    ensures frames == FramesOf(c, AllCuts(d, c))
  {
    frames := [];
    ghost var cuts: seq<Cut>, all := [], AllCuts(d, c);
    var found, sc, len := FindStartCode(d, 0);
    if !found { sc := |d|; }
    var start: nat := sc;
    assert sc == FindCode(d, 0) && cuts + all == all;
    while found
      invariant CodeOrEnd(d, sc) && Scanning(c, cuts, Units(d, sc), start, all) && frames == FramesOf(c, cuts)
      invariant (found <==> sc < |d|) && (found ==> len == CodeAt(d, sc))
      decreases |d| - sc
    {
      if sc + len >= |d| {
        break;
      }
      var u, more, nextLen := ReadUnit(d, sc, len);
      Gathered(c, cuts, u, Units(d, u.next), start, all);
      if IsVcl(c, u.header) {
        if |frames| >= MAX_FRAMES {
          return;
        }
        frames := AddFrame(c, frames, cuts, Cut(start, u));
        cuts, start := cuts + [Cut(start, u)], u.next;
      }
      found, sc, len := more, u.next, nextLen;
    }
    assert Units(d, sc) == [] && cuts + [] == cuts;
  }

  // ----- what the index is ---------------------------------------------------------------

  // A NAL unit begins behind every 00 00 01 that is not the end of the file.
  predicate NalAt(d: Bytes, p: nat) {
    3 <= p < |d| && d[p - 3] == 0 && d[p - 2] == 0 && d[p - 1] == 1
  }

  // Its start code lies in [lo, hi).
  predicate NalIn(d: Bytes, p: nat, lo: nat, hi: nat) { NalAt(d, p) && lo + 3 <= p <= hi }

  ghost predicate NoSlice(d: Bytes, c: Codec, lo: nat, hi: nat) {
    forall q: nat | NalIn(d, q, lo, hi) :: !IsVcl(c, d[q])
  }

  // The unit at p is the only slice between lo and hi, and nothing comes behind it.
  ghost predicate OnlySlice(d: Bytes, c: Codec, lo: nat, hi: nat, p: nat) {
    NalIn(d, p, lo, hi) && IsVcl(c, d[p])
    && forall q: nat | NalIn(d, q, lo, hi) && q != p :: q < p && !IsVcl(c, d[q])
  }

  ghost predicate HasSlice(d: Bytes, c: Codec, cut: Cut) {
    OnlySlice(d, c, cut.start, cut.slice.next, cut.slice.nal) && cut.slice.header == d[cut.slice.nal]
  }

  // The frames lie end to end from lo on.
  predicate EndToEnd(cuts: seq<Cut>, lo: nat) {
    cuts == [] || (cuts[0].start == lo < cuts[0].slice.next && EndToEnd(cuts[1..], cuts[0].slice.next))
  }

  function EndOf(cuts: seq<Cut>, lo: nat): nat {
    if cuts == [] then lo else EndOf(cuts[1..], cuts[0].slice.next)
  }

  lemma CutsBegin(cut: Cut, rest: seq<Cut>, lo: nat)
    ensures EndOf([cut] + rest, lo) == EndOf(rest, cut.slice.next)
    ensures EndToEnd([cut] + rest, lo) <==> cut.start == lo < cut.slice.next && EndToEnd(rest, cut.slice.next)
  {
    assert ([cut] + rest)[1..] == rest;
  }

  // The units lie end to end from lo to hi.
  predicate Chain(us: seq<Unit>, lo: nat, hi: nat) {
    if us == [] then lo <= hi
    else us[0].code == lo < us[0].nal <= us[0].next && Chain(us[1..], us[0].next, hi)
  }

  lemma {:induction false} UnitsChain(d: Bytes, sc: nat)
    requires CodeOrEnd(d, sc)
    ensures Chain(Units(d, sc), sc, |d|)
    decreases |d| - sc
  {
    if UnitFollows(d, sc) {
      UnitsChain(d, UnitAt(d, sc).next);
      assert Units(d, sc)[1..] == Units(d, UnitAt(d, sc).next);
    }
  }

  // A unit begins before the code at sc, right behind it, or past the next one.
  lemma BeforeOrBehind(d: Bytes, sc: nat, q: nat)
    requires UnitFollows(d, sc) && NalAt(d, q)
    ensures NalAt(d, UnitAt(d, sc).nal)
    ensures q <= sc + 2 || q == UnitAt(d, sc).nal || q >= UnitAt(d, sc).next + 3
  {
    assert CodeAt(d, q - 3) == 3;
  }

  // The scan sees every unit.
  lemma {:induction false} EveryNalIsSeen(d: Bytes, sc: nat, p: nat) returns (u: Unit)
    requires CodeOrEnd(d, sc) && NalAt(d, p) && p >= sc + 3
    ensures u in Units(d, sc) && u.nal == p && u.header == d[p]
    decreases |d| - sc
  {
    assert CodeAt(d, sc) <= 4;
    BeforeOrBehind(d, sc, p);
    u := UnitAt(d, sc);
    if p != u.nal { u := EveryNalIsSeen(d, u.next, p); }
  }

  lemma {:induction false} CutsAreEndToEnd(c: Codec, us: seq<Unit>, lo: nat, hi: nat, start: nat, room: nat)
    requires Chain(us, lo, hi) && start <= lo
    ensures EndToEnd(Cuts(c, us, start, room), start) && |Cuts(c, us, start, room)| <= room
    ensures start <= EndOf(Cuts(c, us, start, room), start) <= hi
    decreases |us|
  {
    if us != [] {
      var u := us[0];
      if !IsVcl(c, u.header) {
        CutsAreEndToEnd(c, us[1..], u.next, hi, start, room);
      } else if room > 0 {
        CutsAreEndToEnd(c, us[1..], u.next, hi, u.next, room - 1);
        CutsBegin(Cut(start, u), Cuts(c, us[1..], u.next, room - 1), start);
      } else {
        ChainEnds(us, lo, hi);
      }
    }
  }

  lemma {:induction false} ChainEnds(us: seq<Unit>, lo: nat, hi: nat)
    requires Chain(us, lo, hi)
    ensures lo <= hi
    decreases |us|
  {
    if us != [] { ChainEnds(us[1..], us[0].next, hi); }
  }

  lemma {:induction false} NoSliceIsLost(c: Codec, us: seq<Unit>, lo: nat, hi: nat, start: nat, room: nat, u: Unit)
    requires Chain(us, lo, hi) && start <= lo
    requires u in us && IsVcl(c, u.header) && |Cuts(c, us, start, room)| < room
    ensures u.nal <= EndOf(Cuts(c, us, start, room), start)
    decreases |us|
  {
    var f := us[0];
    if !IsVcl(c, f.header) {
      NoSliceIsLost(c, us[1..], f.next, hi, start, room, u);
    } else {
      CutsAreEndToEnd(c, us[1..], f.next, hi, f.next, room - 1);
      CutsBegin(Cut(start, f), Cuts(c, us[1..], f.next, room - 1), start);
      if u != f { NoSliceIsLost(c, us[1..], f.next, hi, f.next, room - 1, u); }
    }
  }

  lemma FirstCut(d: Bytes, c: Codec, sc: nat, start: nat)
    requires UnitFollows(d, sc) && start <= sc && NoSlice(d, c, start, sc) && IsVcl(c, UnitAt(d, sc).header)
    ensures HasSlice(d, c, Cut(start, UnitAt(d, sc)))
  {
    var u := UnitAt(d, sc);
    assert CodeAt(d, u.nal - 3) == 3;
    forall q: nat | NalIn(d, q, start, u.next) && q != u.nal ensures q < u.nal && !IsVcl(c, d[q]) {
      BeforeOrBehind(d, sc, q);
      assert q <= sc ==> NalIn(d, q, start, sc);
    }
  }

  lemma StillNoSlice(d: Bytes, c: Codec, sc: nat, start: nat)
    requires UnitFollows(d, sc) && start <= sc && NoSlice(d, c, start, sc) && !IsVcl(c, UnitAt(d, sc).header)
    ensures NoSlice(d, c, start, UnitAt(d, sc).next)
  {
    forall q: nat | NalIn(d, q, start, UnitAt(d, sc).next) ensures !IsVcl(c, d[q]) {
      BeforeOrBehind(d, sc, q);
      assert q <= sc ==> NalIn(d, q, start, sc);
    }
  }

  lemma {:induction false} EveryCutHasItsSlice(d: Bytes, c: Codec, sc: nat, start: nat, room: nat, cut: Cut)
    requires CodeOrEnd(d, sc) && start <= sc && NoSlice(d, c, start, sc) && cut in Cuts(c, Units(d, sc), start, room)
    ensures HasSlice(d, c, cut)
    decreases |d| - sc
  {
    var u := UnitAt(d, sc);
    CutsCons(c, u, Units(d, u.next), start, room);
    if !IsVcl(c, u.header) {
      StillNoSlice(d, c, sc, start);
      EveryCutHasItsSlice(d, c, u.next, start, room, cut);
    } else if cut == Cut(start, u) {
      FirstCut(d, c, sc, start);
    } else {
      EveryCutHasItsSlice(d, c, u.next, u.next, room - 1, cut);
    }
  }

  /** The index cuts the file, from its first start code on, into non-empty frames that lie end to end. */
  lemma FramesPartition(d: Bytes, c: Codec)
    ensures EndToEnd(AllCuts(d, c), FindCode(d, 0)) && |AllCuts(d, c)| <= MAX_FRAMES
    ensures EndOf(AllCuts(d, c), FindCode(d, 0)) <= |d|
  {
    var q := FindCode(d, 0);
    UnitsChain(d, q);
    CutsAreEndToEnd(c, Units(d, q), q, |d|, q, MAX_FRAMES);
  }

  /** Each frame holds exactly one slice, and it comes last. */
  lemma OneSliceEach(d: Bytes, c: Codec, k: nat)
    requires k < |AllCuts(d, c)|
    ensures HasSlice(d, c, AllCuts(d, c)[k])
  {
    EveryCutHasItsSlice(d, c, FindCode(d, 0), FindCode(d, 0), MAX_FRAMES, AllCuts(d, c)[k]);
  }

  /** Below the limit every slice of the file lies in one of the frames. */
  lemma EverySliceIsIndexed(d: Bytes, c: Codec, p: nat)
    requires NalAt(d, p) && IsVcl(c, d[p]) && |AllCuts(d, c)| < MAX_FRAMES
    ensures FindCode(d, 0) + 3 <= p <= EndOf(AllCuts(d, c), FindCode(d, 0))
  {
    var q := FindCode(d, 0);
    assert CodeAt(d, p - 3) == 3;
    var u := EveryNalIsSeen(d, q, p);
    UnitsChain(d, q);
    NoSliceIsLost(c, Units(d, q), q, |d|, q, MAX_FRAMES, u);
  }

  // ----- the same units, seen from the front ----------------------------------------------

  function Payloads(us: seq<Unit>): seq<Bytes> {
    if us == [] then [] else [Trim(us[0].body)] + Payloads(us[1..])
  }

  lemma {:induction false} FindShift(d: Bytes, p: nat, i: nat)
    requires p + i <= |d|
    ensures p + FindCode(d[p..], i) == FindCode(d, p + i)
    decreases |d| - i
  {
    CodeShift(d, p, i);
    if p + i < |d| && CodeAt(d, p + i) == 0 { FindShift(d, p, i + 1); }
  }

  lemma UnitInSuffix(d: Bytes, sc: nat)
    requires UnitFollows(d, sc)
    ensures CodeAt(d[sc..], 0) == CodeAt(d, sc) && d[sc..][CodeAt(d, sc)..] == d[UnitAt(d, sc).nal..]
    ensures UnitAt(d, sc).nal + FindCode(d[UnitAt(d, sc).nal..], 0) == UnitAt(d, sc).next
  {
    CodeShift(d, sc, 0);
    FindShift(d, UnitAt(d, sc).nal, 0);
  }

  lemma ScanFromCons(s: Bytes, nal: Bytes, e: nat)
    requires s != [] && CodeAt(s, 0) > 0 && nal == s[CodeAt(s, 0)..] && nal != [] && e == FindCode(nal, 0)
    ensures nal[e..] == [] || CodeAt(nal[e..], 0) > 0
    ensures ScanFrom(s) == [Trim(nal[..e])] + ScanFrom(nal[e..])
  {
    CodeShift(nal, e, 0);
  }

  /** The units the index is made of are the ones a scan of the file lists. */
  lemma {:induction false} PayloadsAreScanned(d: Bytes, sc: nat)
    requires CodeOrEnd(d, sc)
    ensures d[sc..] == [] || CodeAt(d[sc..], 0) > 0
    ensures Payloads(Units(d, sc)) == ScanFrom(d[sc..])
    decreases |d| - sc
  {
    CodeShift(d, sc, 0);
    if UnitFollows(d, sc) {
      var u := UnitAt(d, sc);
      var nal, e := d[u.nal..], u.next - u.nal;
      UnitInSuffix(d, sc);
      ScanFromCons(d[sc..], nal, e);
      assert nal[..e] == u.body && nal[e..] == d[u.next..];
      PayloadsAreScanned(d, u.next);
      assert Units(d, sc)[1..] == Units(d, u.next);
    } else if sc < |d| {
      assert d[sc..][CodeAt(d[sc..], 0)..] == [];
    }
  }
}
