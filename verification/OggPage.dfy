/**
 * Ogg pages (section 6 of RFC 3533): the page the recorder writes to a file in three pieces
 * (rac/rac_record.c) and the one the HTTP sender builds in a buffer (rhd/rhd_audio.c).
 */
module OggPage {
  import opened AnnexB
  import opened Basics
  import opened OggCrc

  const MAGIC: Bytes := [0x4F, 0x67, 0x67, 0x53]

  // ----- integers ----------------------------------------------------------------------

  // The n lowest bytes of a number, lowest first: how a little-endian machine stores it.
  function Le(v: int, n: nat): (r: Bytes)
    ensures |r| == n
    decreases n, v
  {
    if n == 0 then [] else [v % 256] + Le(v / 256, n - 1)
  }

  lemma {:induction false} ShrCompose(v: int, j: nat, k: nat)
    ensures Shr(v, j + k) == Shr(Shr(v, j), k)
    decreases j
  {
    if j > 0 { ShrCompose(v / 2, j - 1, k); }
  }

  lemma ShrNibble(v: int)
    ensures Shr(v, 4) == v / 16
  {
    assert Shr(v, 4) == Shr(v / 2, 3) == Shr(v / 2 / 2, 2) == Shr(v / 2 / 2 / 2, 1);
  }

  lemma ShrByte(v: int)
    ensures Shr(v, 8) == v / 256
  {
    ShrNibble(v);
    ShrNibble(v / 16);
    ShrCompose(v, 4, 4);
  }

  lemma {:induction false} LeAt(v: int, n: nat, i: nat)
    requires i < n
    ensures Le(v, n)[i] == Shr(v, 8 * i) % 256
    decreases i
  {
    if i > 0 {
      LeAt(v / 256, n - 1, i - 1);
      ShrByte(v);
      ShrCompose(v, 8, 8 * (i - 1));
    }
  }

  /** put_le16, put_le32 and put_le64 write what a little-endian copy of the integer would. */
  method PutLe(v: int, n: nat) returns (p: Bytes)
    ensures p == Le(v, n)
  {
    p := [];
    var i := 0;
    while i < n
      invariant 0 <= i <= n && p == Le(v, n)[..i]
    {
      LeAt(v, n, i);
      p := p + [Shr(v, i * 8) % 256];
      i := i + 1;
    }
  }

  /** A signed number and the unsigned one it wraps to have the same bytes. */
  lemma {:induction false} LeWraps(v: int, k: int, n: nat)
    ensures Le(v + k * Pow256(n), n) == Le(v, n)
    decreases n
  {
    if n > 0 {
      var m := k * Pow256(n - 1);
      assert k * Pow256(n) == 256 * m;
      LeWraps(v / 256, k, n - 1);
    }
  }

  function WordBytes(w: Word): (r: Bytes)
    ensures |r| == 4
  {
    ByteFits(w[24..]); ByteFits(w[16..24]); ByteFits(w[8..16]); ByteFits(w[..8]);
    [ToNumber(w[24..]), ToNumber(w[16..24]), ToNumber(w[8..16]), ToNumber(w[..8])]
  }

  // ----- a page ------------------------------------------------------------------------

  // The segment table of one packet: full segments and one that is not.
  function Lacing(n: nat): (l: Bytes)
    ensures |l| == n / 255 + 1
  {
    if n < 255 then [n] else [255] + Lacing(n - 255)
  }

  datatype Head = Head(flags: Byte, granule: int, serial: int, sequence: int)

  function Header(h: Head, crc: Bytes, n: nat): Bytes {
    MAGIC + [0, h.flags] + Le(h.granule, 8) + Le(h.serial, 4) + Le(h.sequence, 4) + crc + [(n / 255 + 1) % 256]
  }

  function Checksum(g: Word, h: Head, data: Bytes): Word {
    Crc(g, Zeros(32), Header(h, [0, 0, 0, 0], |data|) + Lacing(|data|) + data)
  }

  function Page(g: Word, h: Head, data: Bytes): Bytes {
    Header(h, WordBytes(Checksum(g, h, data)), |data|) + Lacing(|data|) + data
  }

  /** A packet's segment table fits the 255 entries a page has if and only if it is below 65025 bytes. */
  lemma SegmentsFit(n: nat)
    ensures |Lacing(n)| <= 255 <==> n < 65025
  {
  }

  // The segment loop: what the first i segments hold.
  lemma {:induction false} LacingAt(n: nat, i: nat)
    requires i <= n / 255
    ensures Lacing(n)[i] == if n - 255 * i >= 255 then 255 else n - 255 * i
    decreases i
  {
    if i > 0 {
      assert (n - 255) / 255 == n / 255 - 1;
      LacingAt(n - 255, i - 1);
    }
  }

  // ----- the recorder's page -------------------------------------------------------------

  method FillSegments(n: nat, segments: array<Byte>)
    requires n / 255 + 1 <= segments.Length
    modifies segments
    ensures segments[..n / 255 + 1] == Lacing(n)
  {
    var count := n / 255 + 1;
    var remaining: int := n;
    var i := 0;
    while i < count
      invariant 0 <= i <= count
      invariant 0 <= remaining == if i == count then 0 else n - 255 * i
      invariant segments[..i] == Lacing(n)[..i]
    {
      LacingAt(n, i);
      segments[i] := if remaining >= 255 then 255 else remaining;
      remaining := remaining - segments[i];
      i := i + 1;
    }
  }

  method FillHeader(h: Head, crc: Bytes, n: nat) returns (hdr: Bytes)
    ensures hdr == Header(h, crc, n)
  {
    var granule := PutLe(h.granule, 8);
    var serial := PutLe(h.serial, 4);
    var sequence := PutLe(h.sequence, 4);
    hdr := MAGIC + [0, h.flags] + granule + serial + sequence + crc + [(n / 255 + 1) % 256];
  }

  method FoldCrc(ghost g: Word, table: array<Word>, hdr: Bytes, segments: Bytes, data: Bytes) returns (crc: Word)
    requires IsTable(g, table[..])
    ensures crc == Crc(g, Zeros(32), hdr + segments + data)
  {
    crc := CrcUpdate(g, table, Zeros(32), hdr);
    crc := CrcUpdate(g, table, crc, segments);
    crc := CrcUpdate(g, table, crc, data);
    CrcSplits(g, Zeros(32), hdr, segments);
    CrcSplits(g, Zeros(32), hdr + segments, data);
  }

  lemma Regroup(a: Bytes, b: Bytes, c: Bytes, d: Bytes)
    ensures a + b + c + d == a + (b + c + d)
  {
  }

  /** write_ogg_page: the page, appended to the file; nothing for data whose segment table the source's
      array of 255 does not hold, past which it would write. */
  method WritePage(ghost g: Word, table: array<Word>, out: Bytes, h: Head, data: Bytes) returns (file: Option<Bytes>)
    requires IsTable(g, table[..])
    ensures file == if |data| < 65025 then Some(out + Page(g, h, data)) else None
  {
    var count := |data| / 255 + 1;
    var segments := new Byte[255];
    if count > segments.Length {
      return None;
    }
    FillSegments(|data|, segments);
    var hdr := FillHeader(h, [0, 0, 0, 0], |data|);
    var crc := FoldCrc(g, table, hdr, segments[..count], data);
    hdr := FillHeader(h, WordBytes(crc), |data|);
    Regroup(out, hdr, segments[..count], data);
    return Some(out + hdr + segments[..count] + data);
  }

  // ----- the sender's page ---------------------------------------------------------------

  // memcpy of some bytes to the place behind what is there already.
  method Append(buf: array<Byte>, at: nat, d: Bytes) returns (end: nat)
    requires at + |d| <= buf.Length
    modifies buf
    ensures end == at + |d| && buf[..end] == old(buf[..at]) + d
  {
    forall k | 0 <= k < |d| {
      buf[at + k] := d[k];
    }
    end := at + |d|;
  }

  method Patch(buf: array<Byte>, size: nat, at: nat, d: Bytes)
    requires at + |d| <= size <= buf.Length
    modifies buf
    ensures buf[..size] == old(buf[..size])[..at] + d + old(buf[..size])[at + |d|..]
  {
    forall k | 0 <= k < |d| {
      buf[at + k] := d[k];
    }
  }

  method AppendSegments(buf: array<Byte>, at: nat, n: nat) returns (end: nat)
    requires at + n / 255 + 1 <= buf.Length
    modifies buf
    ensures end == at + n / 255 + 1 && buf[..end] == old(buf[..at]) + Lacing(n)
  {
    var count := n / 255 + 1;
    var remaining: int := n;
    ghost var was := buf[..at];
    var i := 0;
    while i < count
      invariant 0 <= i <= count
      invariant 0 <= remaining == if i == count then 0 else n - 255 * i
      invariant buf[..at + i] == was + Lacing(n)[..i]
    {
      LacingAt(n, i);
      ghost var before := buf[..at + i];
      if remaining >= 255 {
        buf[at + i] := 255;
        remaining := remaining - 255;
      } else {
        buf[at + i] := remaining;
        remaining := 0;
      }
      assert buf[..at + i] == before && Lacing(n)[..i + 1] == Lacing(n)[..i] + [Lacing(n)[i]];
      i := i + 1;
    }
    end := at + count;
    assert Lacing(n)[..count] == Lacing(n);
  }

  method AppendHeader(buf: array<Byte>, h: Head, n: nat) returns (end: nat)
    requires 27 <= buf.Length
    modifies buf
    ensures end == 27 && buf[..27] == Header(h, [0, 0, 0, 0], n)
  {
    end := Append(buf, 0, MAGIC + [0, h.flags]);
    end := Append(buf, end, Le(h.granule, 8));
    end := Append(buf, end, Le(h.serial, 4));
    end := Append(buf, end, Le(h.sequence, 4));
    end := Append(buf, end, [0, 0, 0, 0]);
    end := Append(buf, end, [(n / 255 + 1) % 256]);
  }

  lemma Patched(h: Head, crc: Bytes, n: nat, tail: Bytes)
    requires |crc| == 4
    ensures var p := Header(h, [0, 0, 0, 0], n) + tail; |p| >= 26 && p[..22] + crc + p[26..] == Header(h, crc, n) + tail
  {
    PatchMiddle(MAGIC + [0, h.flags] + Le(h.granule, 8) + Le(h.serial, 4) + Le(h.sequence, 4), crc,
                [(n / 255 + 1) % 256], tail);
  }

  lemma PatchMiddle(front: Bytes, crc: Bytes, back: Bytes, tail: Bytes)
    requires |front| == 22 && |crc| == 4
    ensures var p := front + [0, 0, 0, 0] + back + tail; p[..22] + crc + p[26..] == front + crc + back + tail
  {
  }

  // The page with its checksum still blank.
  function Blank(h: Head, data: Bytes): (p: Bytes)
    ensures |p| == 28 + |data| / 255 + |data|
  {
    Header(h, [0, 0, 0, 0], |data|) + Lacing(|data|) + data
  }

  lemma BlankPatched(g: Word, h: Head, data: Bytes)
    ensures Checksum(g, h, data) == Crc(g, Zeros(32), Blank(h, data)) && |Page(g, h, data)| == |Blank(h, data)|
    ensures Blank(h, data)[..22] + WordBytes(Checksum(g, h, data)) + Blank(h, data)[26..] == Page(g, h, data)
  {
    var n, crc := |data|, WordBytes(Checksum(g, h, data));
    assert Blank(h, data) == Header(h, [0, 0, 0, 0], n) + (Lacing(n) + data);
    Patched(h, crc, n, Lacing(n) + data);
    assert Header(h, crc, n) + (Lacing(n) + data) == Header(h, crc, n) + Lacing(n) + data;
  }

  method FillBlank(buf: array<Byte>, h: Head, data: Bytes) returns (end: nat)
    requires |Blank(h, data)| <= buf.Length
    modifies buf
    ensures end == |Blank(h, data)| && buf[..end] == Blank(h, data)
  {
    end := AppendHeader(buf, h, |data|);
    end := AppendSegments(buf, end, |data|);
    end := Append(buf, end, data);
  }

  /** ogg_build_page: the page in the caller's buffer, or -1 when it does not fit. */
  method BuildPage(ghost g: Word, table: array<Word>, buf: array<Byte>, h: Head, data: Bytes) returns (size: int)
    requires IsTable(g, table[..])
    modifies buf
    ensures size == if |Page(g, h, data)| <= buf.Length then |Page(g, h, data)| else -1
    ensures size < 0 ==> buf[..] == old(buf[..])
    ensures size >= 0 ==> buf[..size] == Page(g, h, data)
  {
    BlankPatched(g, h, data);
    if 27 + |data| / 255 + 1 + |data| > buf.Length {
      return -1;
    }
    var end := FillBlank(buf, h, data);
    var crc := CrcUpdate(g, table, Zeros(32), buf[..end]);
    Patch(buf, end, 22, WordBytes(crc));
    return end;
  }

  lemma HeaderWraps(h: Head, k: int, crc: Bytes, n: nat)
    ensures Header(h.(granule := h.granule + k * Pow256(8)), crc, n) == Header(h, crc, n)
  {
    LeWraps(h.granule, k, 8);
  }

  /** Both builders emit the same bytes for the same page. */
  lemma BuildersAgree(g: Word, h: Head, k: int, data: Bytes)
    ensures Page(g, h.(granule := h.granule + k * Pow256(8)), data) == Page(g, h, data)
  {
    HeaderWraps(h, k, [0, 0, 0, 0], |data|);
    HeaderWraps(h, k, WordBytes(Checksum(g, h, data)), |data|);
  }

  lemma WrappedPage(g: Word, h: Head, k: int, data: Bytes, d: Head)
    requires d == h.(granule := h.granule + k * Pow256(8))
    ensures Page(g, d, data) == Page(g, h, data)
  {
    BuildersAgree(g, h, k, data);
  }

  /** The two builders side by side, the one with a signed granule position and the other with the
      number it wraps to: the same bytes, unless the data is too much for the one's segment table or the
      page for the other's buffer. */
  method BuildBoth(ghost g: Word, table: array<Word>, buf: array<Byte>, h: Head, k: int, data: Bytes)
    returns (file: Option<Bytes>, size: int)
    requires IsTable(g, table[..])
    modifies buf
    ensures file.Some? <==> |data| < 65025
    ensures file.Some? ==> size == if |file.value| <= buf.Length then |file.value| else -1
    ensures file.Some? && size >= 0 ==> buf[..size] == file.value
  {
    var d := h.(granule := h.granule + k * Pow256(8));
    WrappedPage(g, h, k, data, d);
    ghost var page := Page(g, h, data);
    file := WritePage(g, table, [], h, data);
    assert [] + page == page;
    size := BuildPage(g, table, buf, d, data);
  }
}
