/**
 * The Opus branch of rac record (rac/rac_record.c): every frame waits for the next one, so
 * that the last page can carry the end-of-stream flag. What it writes is what the player of
 * module OggPlay reads.
 */
module OggRecord {
  import opened AnnexB
  import opened OggCrc
  import OggPage
  import OggPlay

  const SAMPLES: nat := 960

  // ----- the header packets (sections 5.1 and 5.2 of RFC 7845) -------------------------------

  const OPUS_HEAD: Bytes := [0x4F, 0x70, 0x75, 0x73, 0x48, 0x65, 0x61, 0x64]
  const OPUS_TAGS: Bytes := [0x4F, 0x70, 0x75, 0x73, 0x54, 0x61, 0x67, 0x73]
  const VENDOR: Bytes := [0x72, 0x61, 0x70, 0x74, 0x6F, 0x72]

  function HeadPacket(rate: int): (p: Bytes)
    ensures |p| == 19
  {
    OPUS_HEAD + [1, 1] + OggPage.Le(312, 2) + OggPage.Le(rate, 4) + OggPage.Le(0, 2) + [0]
  }

  function TagsPacket(): (p: Bytes)
    ensures |p| == 22
  {
    OPUS_TAGS + OggPage.Le(6, 4) + VENDOR + OggPage.Le(0, 4)
  }

  // ----- the pages -----------------------------------------------------------------------

  datatype Sheet = Sheet(head: OggPage.Head, data: Bytes)

  predicate Fits(f: Bytes) { |f| < 65025 }

  // One piece of the file after the other.
  function Joined(pieces: seq<Bytes>): Bytes {
    if pieces == [] then [] else Joined(pieces[..|pieces| - 1]) + pieces[|pieces| - 1]
  }

  ghost predicate PrintedAt(g: Word, pieces: seq<Bytes>, ss: seq<Sheet>, k: nat) {
    k < |pieces| && k < |ss| && Fits(ss[k].data) && pieces[k] == OggPage.Page(g, ss[k].head, ss[k].data)
  }

  // The pieces are the pages.
  ghost predicate Printed(g: Word, pieces: seq<Bytes>, ss: seq<Sheet>) {
    |pieces| == |ss| && forall k: nat {:trigger PrintedAt(g, pieces, ss, k)} | k < |ss| :: PrintedAt(g, pieces, ss, k)
  }

  function HeaderSheets(serial: int, rate: int): seq<Sheet> {
    [Sheet(OggPage.Head(2, 0, serial, 0), HeadPacket(rate)), Sheet(OggPage.Head(0, 0, serial, 1), TagsPacket())]
  }

  // The page of a frame, the i-th of the recording.
  function FrameSheet(serial: int, f: Bytes, i: nat, number: nat, last: bool): Sheet {
    Sheet(OggPage.Head(if last then 4 else 0, SAMPLES * i, serial, number), f)
  }

  // What the frames of a recording become, when i frames and the pages up to number came before.
  function Sheets(serial: int, frames: seq<Bytes>, i: nat, number: nat): seq<Sheet> {
    if frames == [] then []
    else if frames[0] == [] then Sheets(serial, frames[1..], i + 1, number)
    else [FrameSheet(serial, frames[0], i + 1, number, |frames| == 1)] + Sheets(serial, frames[1..], i + 1, number + 1)
  }

  function Recording(serial: int, rate: int, frames: seq<Bytes>): seq<Sheet> {
    HeaderSheets(serial, rate) + Sheets(serial, frames, 0, 2)
  }

  // The page of the frame that waits, unless it is empty.
  function Waiting(serial: int, pending: Bytes, i: nat, number: nat, last: bool): (w: seq<Sheet>)
    ensures |w| <= 1
  {
    if pending == [] then [] else [FrameSheet(serial, pending, i, number, last)]
  }

  // The pages still to come.
  function Ahead(serial: int, pending: Bytes, number: nat, frames: seq<Bytes>, i: nat): seq<Sheet> {
    var w := Waiting(serial, pending, i, number, frames == []);
    w + Sheets(serial, frames, i, number + |w|)
  }

  lemma NextFrame(done: seq<Sheet>, serial: int, pending: Bytes, number: nat, f: Bytes, rest: seq<Bytes>, i: nat)
    ensures var w := Waiting(serial, pending, i, number, false);
            done + Ahead(serial, pending, number, [f] + rest, i) == done + w + Ahead(serial, f, number + |w|, rest, i + 1)
  {
    var w := Waiting(serial, pending, i, number, false);
    var b := Ahead(serial, f, number + |w|, rest, i + 1);
    assert ([f] + rest)[1..] == rest;
    assert Sheets(serial, [f] + rest, i, number + |w|) == b;
    assert done + (w + b) == done + w + b;
  }

  lemma PrintedOneMore(g: Word, pieces: seq<Bytes>, ss: seq<Sheet>, page: Bytes, s: Sheet)
    requires Printed(g, pieces, ss) && Fits(s.data) && page == OggPage.Page(g, s.head, s.data)
    ensures Printed(g, pieces + [page], ss + [s]) && Joined(pieces + [page]) == Joined(pieces) + page
  {
    forall k: nat | k < |ss + [s]| ensures PrintedAt(g, pieces + [page], ss + [s], k) {
      assert k < |ss| ==> PrintedAt(g, pieces, ss, k);
    }
    assert (pieces + [page])[..|pieces|] == pieces;
  }

  // ----- the recorder --------------------------------------------------------------------

  class Recorder {
    ghost const g: Word
    const table: array<Word>
    const serial: int
    var out: Bytes
    var number: nat
    var granule: nat
    var pending: Bytes
    var pendingGranule: nat
    ghost var pieces: seq<Bytes>
    ghost var sheets: seq<Sheet>

    ghost predicate Valid()
      reads this, table
    {
      IsTable(g, table[..]) && Fits(pending) && out == Joined(pieces) && Printed(g, pieces, sheets)
    }

    // i frames have come so far.
    ghost predicate Counted(i: nat)
      reads this
    {
      granule == SAMPLES * i && (pending != [] ==> pendingGranule == granule)
    }

    // The pages the file will hold if the recording goes on with the given frames.
    ghost function Final(frames: seq<Bytes>, i: nat): seq<Sheet>
      reads this
    {
      sheets + Ahead(serial, pending, number, frames, i)
    }

    constructor (g: Word, serial: int)
      ensures this.g == g && this.serial == serial && Valid() && Counted(0)
      ensures out == [] && number == 0 && pending == [] && sheets == []
    {
      this.g, this.serial := g, serial;
      out, number, granule, pending, pendingGranule, pieces, sheets := [], 0, 0, [], 0, [], [];
      var table := CrcInit(g);
      this.table := table;
    }

    /** A page, appended to the file under the next number. */
    method Put(flags: Byte, position: nat, data: Bytes)
      requires Valid() && Fits(data)
      modifies this`out, this`number, this`pieces, this`sheets
      ensures Valid() && number == old(number) + 1
      ensures sheets == old(sheets) + [Sheet(OggPage.Head(flags, position, serial, old(number)), data)]
    {
      ghost var sheet := Sheet(OggPage.Head(flags, position, serial, number), data);
      ghost var page := OggPage.Page(g, sheet.head, data);
      var file := OggPage.WritePage(g, table, out, OggPage.Head(flags, position, serial, number), data);
      out := file.value;
      PrintedOneMore(g, pieces, sheets, page, sheet);
      number, pieces, sheets := number + 1, pieces + [page], sheets + [sheet];
    }

    /** write_opus_headers. */
    method Begin(rate: int)
      requires Valid() && Counted(0) && number == 0 && pending == [] && sheets == []
      modifies this
      ensures Valid() && Counted(0)
      ensures pending == [] && number == 2 && sheets == HeaderSheets(serial, rate)
    {
      Put(2, 0, HeadPacket(rate));
      Put(0, 0, TagsPacket());
    }

    method Flush(last: bool, ghost i: nat)
      requires Valid() && Counted(i)
      modifies this`out, this`number, this`pieces, this`sheets
      ensures Valid() && sheets == old(sheets) + Waiting(serial, pending, i, old(number), last)
      ensures number == old(number) + |Waiting(serial, pending, i, old(number), last)|
    {
      if pending != [] { Put(if last then 4 else 0, pendingGranule, pending); }
    }

    /** One frame from the ring. */
    method Frame(f: Bytes, ghost i: nat, ghost rest: seq<Bytes>)
      requires Valid() && Counted(i) && Fits(f)
      modifies this
      ensures Valid() && Counted(i + 1) && pending == f
      ensures Final(rest, i + 1) == old(Final([f] + rest, i))
    {
      NextFrame(sheets, serial, pending, number, f, rest, i);
      Flush(false, i);
      HoldBack(f, i);
    }

    // The frame waits for the next, so that the last can be told.
    method HoldBack(f: Bytes, ghost i: nat)
      requires Valid() && Counted(i) && Fits(f)
      modifies this`granule, this`pendingGranule, this`pending
      ensures Valid() && Counted(i + 1) && pending == f
    {
      granule := granule + SAMPLES;
      pendingGranule := granule;
      pending := f;
    }

    /** The end of the recording. */
    method Finish(ghost i: nat)
      requires Valid() && Counted(i)
      modifies this
      ensures Valid() && sheets == old(Final([], i))
    {
      Flush(true, i);
    }

    /** A whole recording. */
    method Record(rate: int, frames: seq<Bytes>)
      requires Valid() && Counted(0) && number == 0 && pending == [] && sheets == []
      requires forall k | 0 <= k < |frames| :: Fits(frames[k])
      modifies this
      ensures out == Joined(pieces) && Printed(g, pieces, Recording(serial, rate, frames))
    {
      Begin(rate);
      ghost var all := Recording(serial, rate, frames);
      var k := 0;
      assert frames[0..] == frames;
      while k < |frames|
        invariant 0 <= k <= |frames| && Valid() && Counted(k)
        invariant Final(frames[k..], k) == all
      {
        assert frames[k..] == [frames[k]] + frames[k + 1..];
        Frame(frames[k], k, frames[k + 1..]);
        k := k + 1;
      }
      assert frames[k..] == [];
      Finish(k);
    }
  }

  // ----- recording and playing -------------------------------------------------------------

  lemma {:induction false} LacingSum(n: nat)
    ensures OggPlay.Sum(OggPage.Lacing(n)) == n
  {
    if n >= 255 {
      LacingSum(n - 255);
      assert OggPage.Lacing(n)[1..] == OggPage.Lacing(n - 255);
    }
  }

  // The walk over the segment table of one packet finds that packet.
  lemma {:induction false} LacingWalk(n: nat, body: Bytes, acc: nat)
    requires acc + n == |body|
    ensures OggPlay.Sum(OggPage.Lacing(n)) == n
    ensures OggPlay.Packets(OggPage.Lacing(n), body, acc) == OggPlay.Packet(body)
    decreases n
  {
    LacingSum(n);
    if n >= 255 {
      LacingWalk(n - 255, body, acc + 255);
      assert OggPage.Lacing(n)[1..] == OggPage.Lacing(n - 255);
    } else {
      LastSegment(n, body, acc);
    }
  }

  lemma {:induction false} LastSegment(n: nat, body: Bytes, acc: nat)
    requires acc + n == |body| && n < 255
    ensures OggPlay.Sum([n]) == n && OggPlay.Packets([n], body, acc) == OggPlay.Packet(body)
  {
    assert [n][1..] == [] && body[..acc + n] == body && body[acc + n..] == [];
    assert OggPlay.Packets([], [], 0) == [];
  }

  predicate IsHeader(b: Bytes, n: nat) {
    |b| == 27 && b[0] == 0x4F && b[1] == 0x67 && b[2] == 0x67 && b[3] == 0x53 && b[26] == n / 255 + 1
  }

  // A header is 27 bytes, begins with the magic and ends with the segment count.
  lemma HeaderIs(h: OggPage.Head, crc: Bytes, n: nat)
    requires |crc| == 4 && n < 65025
    ensures IsHeader(OggPage.Header(h, crc, n), n)
  {
    var front := [0, h.flags] + OggPage.Le(h.granule, 8) + OggPage.Le(h.serial, 4) + OggPage.Le(h.sequence, 4) + crc;
    assert OggPage.Header(h, crc, n) == OggPage.MAGIC + front + [n / 255 + 1];
  }

  lemma PageIsWhole(b: Bytes, data: Bytes)
    requires IsHeader(b, |data|)
    ensures var p := b + OggPage.Lacing(|data|) + data;
            OggPlay.Whole(p) && OggPlay.SizeOf(p) == |p| && OggPlay.FrontPage(p) == OggPlay.Page(b, OggPage.Lacing(|data|), data)
  {
    var l := OggPage.Lacing(|data|);
    var p := b + l + data;
    LacingSum(|data|);
    assert p[26] == b[26] && p[..27] == b && p[27..27 + |l|] == l && p[27 + |l|..] == data;
  }

  // A page the writer made, in front of anything, is a page the player cuts off.
  lemma PageIsRead(g: Word, h: OggPage.Head, data: Bytes, rest: Bytes)
    requires Fits(data)
    ensures var ps := OggPlay.Pages(OggPage.Page(g, h, data) + rest);
            |ps| > 0 && ps[0].segments == OggPage.Lacing(|data|) && ps[0].body == data && ps[1..] == OggPlay.Pages(rest)
  {
    var crc := OggPage.WordBytes(OggPage.Checksum(g, h, data));
    var b := OggPage.Header(h, crc, |data|);
    HeaderIs(h, crc, |data|);
    PageIsWhole(b, data);
    FrontIsRead(OggPage.Page(g, h, data), b, data, rest);
  }

  lemma FrontIsRead(p: Bytes, b: Bytes, data: Bytes, rest: Bytes)
    requires OggPlay.Whole(p) && OggPlay.SizeOf(p) == |p|
    requires OggPlay.FrontPage(p) == OggPlay.Page(b, OggPage.Lacing(|data|), data)
    ensures OggPlay.Pages(p + rest) == [OggPlay.Page(b, OggPage.Lacing(|data|), data)] + OggPlay.Pages(rest)
  {
    OggPlay.FrontIsEnough(p, rest);
    assert p[|p|..] + rest == rest;
  }

  lemma {:induction false} JoinedFront(p: Bytes, ps: seq<Bytes>)
    ensures Joined([p] + ps) == p + Joined(ps)
    decreases |ps|
  {
    if ps == [] {
      assert ([p] + ps)[..0] == [];
    } else {
      var n := |ps| - 1;
      assert ([p] + ps)[..n + 1] == [p] + ps[..n] && ([p] + ps)[n + 1] == ps[n];
      JoinedFront(p, ps[..n]);
      assert p + Joined(ps[..n]) + ps[n] == p + (Joined(ps[..n]) + ps[n]);
    }
  }

  // The packets a listener hears, when k pages came before.
  function Heard(ss: seq<Sheet>, k: nat): seq<Bytes> {
    if ss == [] then [] else (if k >= 2 then OggPlay.Packet(ss[0].data) else []) + Heard(ss[1..], k + 1)
  }

  lemma {:induction false} PrintedPlays(g: Word, pieces: seq<Bytes>, ss: seq<Sheet>, k: nat)
    requires Printed(g, pieces, ss)
    ensures OggPlay.Delivered(OggPlay.Pages(Joined(pieces)), k) == Heard(ss, k)
    decreases |ss|
  {
    if ss != [] {
      var rest := Joined(pieces[1..]);
      assert PrintedAt(g, pieces, ss, 0);
      assert pieces == [pieces[0]] + pieces[1..];
      JoinedFront(pieces[0], pieces[1..]);
      PageIsRead(g, ss[0].head, ss[0].data, rest);
      PrintedTail(g, pieces, ss);
      PrintedPlays(g, pieces[1..], ss[1..], k + 1);
      LacingWalk(|ss[0].data|, ss[0].data, 0);
    }
  }

  lemma PrintedTail(g: Word, pieces: seq<Bytes>, ss: seq<Sheet>)
    requires Printed(g, pieces, ss) && ss != []
    ensures Printed(g, pieces[1..], ss[1..])
  {
    forall k: nat | k < |ss[1..]| ensures PrintedAt(g, pieces[1..], ss[1..], k) {
      assert PrintedAt(g, pieces, ss, k + 1);
    }
  }

  function NonEmpty(frames: seq<Bytes>): seq<Bytes> {
    if frames == [] then [] else OggPlay.Packet(frames[0]) + NonEmpty(frames[1..])
  }

  lemma {:induction false} SheetsAreHeard(serial: int, frames: seq<Bytes>, i: nat, number: nat, k: nat)
    requires k >= 2
    ensures Heard(Sheets(serial, frames, i, number), k) == NonEmpty(frames)
    decreases |frames|
  {
    if frames != [] {
      if frames[0] == [] {
        SheetsAreHeard(serial, frames[1..], i + 1, number, k);
      } else {
        SheetsAreHeard(serial, frames[1..], i + 1, number + 1, k + 1);
        assert Sheets(serial, frames, i, number)[1..] == Sheets(serial, frames[1..], i + 1, number + 1);
      }
    }
  }

  /** Playing what was recorded gives back exactly the non-empty frames, in order. */
  lemma PlayUndoesRecord(g: Word, serial: int, rate: int, frames: seq<Bytes>, pieces: seq<Bytes>)
    requires Printed(g, pieces, Recording(serial, rate, frames))
    ensures OggPlay.Delivered(OggPlay.Pages(Joined(pieces)), 0) == NonEmpty(frames)
  {
    var body := Sheets(serial, frames, 0, 2);
    PrintedPlays(g, pieces, Recording(serial, rate, frames), 0);
    HeadersAreSilent(HeaderSheets(serial, rate), body);
    SheetsAreHeard(serial, frames, 0, 2, 2);
  }

  lemma HeadersAreSilent(headers: seq<Sheet>, body: seq<Sheet>)
    requires |headers| == 2
    ensures Heard(headers + body, 0) == Heard(body, 2)
  {
    var all := headers + body;
    assert all[1..][1..] == body;
    assert Heard(all, 0) == [] + Heard(all[1..], 1) && Heard(all[1..], 1) == [] + Heard(body, 2);
  }

  lemma {:induction false} HeardSplits(a: seq<Sheet>, b: seq<Sheet>, k: nat)
    ensures Heard(a + b, k) == Heard(a, k) + Heard(b, k + |a|)
    decreases |a|
  {
    if a == [] {
      assert a + b == b;
    } else {
      assert (a + b)[1..] == a[1..] + b;
      HeardSplits(a[1..], b, k + 1);
    }
  }

  lemma PrintedPrefix(g: Word, pieces: seq<Bytes>, ss: seq<Sheet>, k: nat)
    requires Printed(g, pieces, ss) && k <= |ss|
    ensures Printed(g, pieces[..k], ss[..k])
  {
    forall n: nat | n < k ensures PrintedAt(g, pieces[..k], ss[..k], n) {
      assert PrintedAt(g, pieces, ss, n);
    }
  }

  /** A player that stops where a page ends hears everything if and only if nothing audible follows. */
  lemma StoppingAtAPage(g: Word, pieces: seq<Bytes>, ss: seq<Sheet>, k: nat)
    requires Printed(g, pieces, ss) && k <= |ss|
    ensures OggPlay.Delivered(OggPlay.Pages(Joined(pieces[..k])), 0) == OggPlay.Delivered(OggPlay.Pages(Joined(pieces)), 0)
            <==> Heard(ss[k..], k) == []
  {
    PrintedPrefix(g, pieces, ss, k);
    PrintedPlays(g, pieces[..k], ss[..k], 0);
    PrintedPlays(g, pieces, ss, 0);
    assert ss == ss[..k] + ss[k..];
    HeardSplits(ss[..k], ss[k..], 0);
  }

  // The player on a whole file, of which some was peeked at first.
  method PlayWhole(file: Bytes, peek: nat) returns (packets: seq<Bytes>)
    ensures packets == OggPlay.Delivered(OggPlay.Pages(file), 0)
  {
    var n := if peek <= |file| && peek <= OggPlay.BUFFER then peek else 0;
    assert file[..n] + file[n..] == file;
    var inp := new OggPlay.Input(file[n..], true);
    var pages;
    packets, pages := OggPlay.Play(inp, file[..n]);
    assert OggPlay.Pages([]) == [] && packets + [] == packets;
  }

  /** Recording and playing in turn, with any part of the file peeked at first. */
  method RecordAndPlay(g: Word, serial: int, rate: int, frames: seq<Bytes>, peek: nat) returns (packets: seq<Bytes>)
    requires forall k | 0 <= k < |frames| :: Fits(frames[k])
    ensures packets == NonEmpty(frames)
  {
    var recorder := new Recorder(g, serial);
    recorder.Record(rate, frames);
    PlayUndoesRecord(g, serial, rate, frames, recorder.pieces);
    packets := PlayWhole(recorder.out, peek);
  }

  /** Pages are numbered without gaps, and only the last can carry the end-of-stream flag: it does unless the last frame is empty. */
  lemma {:induction false} PagesAreNumbered(serial: int, frames: seq<Bytes>, i: nat, number: nat, j: nat)
    requires j < |Sheets(serial, frames, i, number)|
    ensures var h := Sheets(serial, frames, i, number)[j].head;
            h.sequence == number + j && h.serial == serial
            && h.flags == if j == |Sheets(serial, frames, i, number)| - 1 && frames[|frames| - 1] != [] then 4 else 0
    decreases |frames|
  {
    var rest := frames[1..];
    if frames[0] == [] {
      PagesAreNumbered(serial, rest, i + 1, number, j);
    } else {
      LastIsLast(serial, rest, i + 1, number + 1);
      if j > 0 { PagesAreNumbered(serial, rest, i + 1, number + 1, j - 1); }
    }
  }

  lemma {:induction false} LastIsLast(serial: int, frames: seq<Bytes>, i: nat, number: nat)
    ensures frames != [] && frames[|frames| - 1] != [] ==> Sheets(serial, frames, i, number) != []
    decreases |frames|
  {
    if frames != [] {
      if frames[0] == [] { LastIsLast(serial, frames[1..], i + 1, number); }
    }
  }

  /** With no frame empty, page k of the audio ends at sample 960 k. */
  lemma {:induction false} GranulesCount(serial: int, frames: seq<Bytes>, i: nat, number: nat, j: nat)
    requires j < |frames| && forall k | 0 <= k < |frames| :: frames[k] != []
    ensures |Sheets(serial, frames, i, number)| == |frames|
    ensures Sheets(serial, frames, i, number)[j].head.granule == SAMPLES * (i + j + 1)
    ensures Sheets(serial, frames, i, number)[j].data == frames[j]
    decreases |frames|
  {
    if |frames| > 1 {
      GranulesCount(serial, frames[1..], i + 1, number + 1, if j == 0 then 0 else j - 1);
    }
  }
}
