/**
 * The H.265 decoder configuration record (rfs/rfs_mp4.c): arrays of parameter sets instead of
 * the two lists of the H.264 record in module Mp4.
 */
module Hvcc {
  import opened AnnexB
  import opened Mp4

  // How many sets the array at the front of s announces.
  function Announced(s: Bytes): nat
    requires |s| >= 3
  {
    (s[1] as int) * 256 + s[2] as int
  }

  // One array's sets in front of those of the arrays behind it.
  function Glued(ns: seq<Bytes>, more: Listed): Listed {
    match more
    case Bad => Bad
    case Listed(ms, rest) => Listed(ns + ms, rest)
  }

  function Arrays(s: Bytes, count: nat): Listed
    decreases count
  {
    if count == 0 || |s| < 3 then Listed([], s)
    else
      match ListOf(s[3..], Announced(s))
      case Bad => Bad
      case Listed(ns, left) => Glued(ns, Arrays(left, count - 1))
  }

  // The parameter sets of an HEVCDecoderConfigurationRecord.
  function Hvcc(e: Bytes): Listed { if |e| < 23 then Bad else Arrays(e[23..], e[22]) }

  lemma GluedMore(all: Listed, ns: seq<Bytes>, more: Listed, before: Bytes, done: Bytes)
    requires CopiedSoFar(all, Glued(ns, more), before, done)
    ensures CopiedSoFar(all, more, before, done + Framed(ns))
    ensures all.Listed? ==> |before| + |Framed(all.nals)| >= |done| + |Framed(ns)|
  {
    if more.Listed? {
      FramedConcat(ns, more.nals);
      assert done + (Framed(ns) + Framed(more.nals)) == done + Framed(ns) + Framed(more.nals);
    }
  }

  // Copies the sets of the array at the given place.
  method CopyArray(e: Bytes, at: nat, ghost count: nat, out: array<Byte>, pos: nat, ghost all: Listed)
    returns (ok: bool, at': nat, pos': nat)
    requires at + 3 <= |e| && pos <= out.Length && count > 0
    requires CopiedSoFar(all, Arrays(e[at..], count), [], out[..pos])
    modifies out
    ensures ok ==> at' <= |e| && pos' <= out.Length && CopiedSoFar(all, Arrays(e[at'..], count - 1), [], out[..pos'])
    ensures !ok ==> all.Bad? || |Framed(all.nals)| > out.Length
  {
    ghost var s := e[at..];
    ghost var first := ListOf(s[3..], Announced(s));
    if first.Listed? { GluedMore(all, first.nals, Arrays(first.left, count - 1), [], out[..pos]); }
    assert s[3..] == e[at + 3..];
    ok, at', pos' := CopyList(e, at + 3, (e[at + 1] as int) * 256 + e[at + 2] as int, out, pos);
  }

  method CopyArrays(e: Bytes, out: array<Byte>) returns (ok: bool, pos: nat)
    requires |e| >= 23
    modifies out
    ensures ok <==> Hvcc(e).Listed? && |Framed(Hvcc(e).nals)| <= out.Length
    ensures ok ==> pos <= out.Length && out[..pos] == Framed(Hvcc(e).nals)
  {
    var count: nat, at: nat := e[22], 23;
    pos := 0;
    var a := 0;
    ghost var all := Hvcc(e);
    assert out[..0] == [];
    while a < count && at + 3 <= |e|
      invariant 0 <= a <= count && at <= |e| && pos <= out.Length
      invariant CopiedSoFar(all, Arrays(e[at..], count - a), [], out[..pos])
    {
      ok, at, pos := CopyArray(e, at, count - a, out, pos, all);
      if !ok {
        return;
      }
      a := a + 1;
    }
    ok := true;
    AllCopied(all, out[..pos], e[at..]);
  }

  lemma AllCopied(all: Listed, done: Bytes, left: Bytes)
    requires CopiedSoFar(all, Listed([], left), [], done)
    ensures all.Listed? && done == Framed(all.nals)
  {
    assert done + Framed([]) == done && [] + Framed(all.nals) == Framed(all.nals);
  }

  /** parse_hvcc_config: the parameter sets in start-code form, or -1 when the record is malformed
      or they do not fit. */
  method ParseHvccConfig(e: Bytes, out: array<Byte>) returns (n: int, lengthSize: nat, profile: Byte, level: Byte)
    modifies out
    ensures n >= 0 <==> Hvcc(e).Listed? && |Framed(Hvcc(e).nals)| <= out.Length
    ensures n >= 0 ==> n <= out.Length && out[..n] == Framed(Hvcc(e).nals)
    ensures n >= 0 ==> 1 <= lengthSize == e[21] % 4 + 1 && profile == e[1] % 32 && level == e[12]
  {
    lengthSize, profile, level := 0, 0, 0;
    if |e| < 23 {
      return -1, lengthSize, profile, level;
    }
    lengthSize, profile, level := e[21] % 4 + 1, e[1] % 32, e[12];
    var ok, pos := CopyArrays(e, out);
    n := if ok then pos else -1;
  }

  // ----- records as section 8.3.3 of ISO/IEC 14496-15 lays them out ----------------------

  datatype SetArray = SetArray(kind: Byte, nals: seq<Bytes>)

  predicate Encodable(a: SetArray) { |a.nals| < 65536 && Records(a.nals) }

  function EncodeArray(a: SetArray): Bytes
    requires Encodable(a)
  {
    [a.kind, |a.nals| / 256, |a.nals| % 256] + Sized(a.nals)
  }

  function EncodeArrays(arrays: seq<SetArray>): Bytes
    requires forall i | 0 <= i < |arrays| :: Encodable(arrays[i])
  {
    if arrays == [] then [] else EncodeArray(arrays[0]) + EncodeArrays(arrays[1..])
  }

  function AllSets(arrays: seq<SetArray>): seq<Bytes> {
    if arrays == [] then [] else arrays[0].nals + AllSets(arrays[1..])
  }

  lemma OneArrayReads(a: SetArray, post: Bytes, count: nat)
    requires Encodable(a)
    ensures Arrays(EncodeArray(a) + post, count + 1) == Glued(a.nals, Arrays(post, count))
  {
    var s := EncodeArray(a) + post;
    assert s[3..] == Sized(a.nals) + post && s[1] == |a.nals| / 256 && s[2] == |a.nals| % 256;
    ListOfSized(a.nals, post);
  }

  lemma {:induction false} ArraysOfEncoded(arrays: seq<SetArray>)
    requires forall i | 0 <= i < |arrays| :: Encodable(arrays[i])
    ensures Arrays(EncodeArrays(arrays), |arrays|) == Listed(AllSets(arrays), [])
    decreases |arrays|
  {
    if arrays != [] {
      ArraysOfEncoded(arrays[1..]);
      OneArrayReads(arrays[0], EncodeArrays(arrays[1..]), |arrays| - 1);
    }
  }

  // The fixed part before the arrays, with the size of the lengths in the low bits of its last byte.
  predicate Front(front: Bytes, lengthSize: nat) { |front| == 22 && front[21] % 4 + 1 == lengthSize }

  function EncodeHvcc(front: Bytes, arrays: seq<SetArray>): Bytes
    requires |arrays| < 256 && forall i | 0 <= i < |arrays| :: Encodable(arrays[i])
  {
    front + [|arrays|] + EncodeArrays(arrays)
  }

  /** A well-formed record yields the sets of all its arrays, in order, and the size of the lengths. */
  lemma HvccOfEncoded(front: Bytes, lengthSize: nat, arrays: seq<SetArray>)
    requires Front(front, lengthSize) && |arrays| < 256 && forall i | 0 <= i < |arrays| :: Encodable(arrays[i])
    ensures Hvcc(EncodeHvcc(front, arrays)) == Listed(AllSets(arrays), [])
    ensures |EncodeHvcc(front, arrays)| >= 23 && EncodeHvcc(front, arrays)[21] % 4 + 1 == lengthSize
  {
    var e := EncodeHvcc(front, arrays);
    assert e[23..] == EncodeArrays(arrays) && e[22] == |arrays| && e[21] == front[21];
    ArraysOfEncoded(arrays);
  }

  /** End to end: the key frame of a well-formed H.265 track, converted, scans as the parameter
      sets of its arrays followed by the sample's units, exactly when all of these are plain. */
  lemma KeyFrameScans(front: Bytes, lengthSize: nat, arrays: seq<SetArray>, nals: seq<Bytes>)
    requires Front(front, lengthSize) && |arrays| < 256 && forall i | 0 <= i < |arrays| :: Encodable(arrays[i])
    requires Fit(nals, lengthSize)
    ensures Hvcc(EncodeHvcc(front, arrays)).Listed?
    ensures Scan(Converted(Framed(Hvcc(EncodeHvcc(front, arrays)).nals), true, Sample(nals, lengthSize), lengthSize))
              == AllSets(arrays) + nals
            <==> AllPlain(AllSets(arrays) + nals)
  {
    HvccOfEncoded(front, lengthSize, arrays);
    ConversionKeepsUnits(AllSets(arrays), true, nals, lengthSize);
  }
}
