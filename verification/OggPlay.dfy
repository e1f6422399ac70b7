/**
 * The Ogg/Opus reader of rac play (rac/rac_play.c): a buffer refilled from a stream, pages cut
 * off its front, and each page's packets found by walking its segment table.
 */
module OggPlay {
  import opened AnnexB

  const BUFFER: nat := 98304
  const REFILL: nat := 66560

  // ----- what a stream holds -------------------------------------------------------------

  function Sum(segments: Bytes): nat { if segments == [] then 0 else segments[0] + Sum(segments[1..]) }

  lemma {:induction false} SumBound(segments: Bytes)
    ensures Sum(segments) <= 255 * |segments|
  {
    if segments != [] { SumBound(segments[1..]); }
  }

  predicate Magic(s: Bytes) { |s| >= 27 && s[0] == 0x4F && s[1] == 0x67 && s[2] == 0x67 && s[3] == 0x53 }

  // Where the body of the page at the front of s begins, and where it ends.
  function BodyAt(s: Bytes): (n: nat)
    requires |s| >= 27
    ensures 27 <= n <= 282
  {
    var count: nat := s[26];
    27 + count
  }

  function SizeOf(s: Bytes): (n: nat)
    requires |s| >= 27 && |s| >= BodyAt(s)
    ensures BodyAt(s) <= n <= 65307
  {
    SumBound(s[27..BodyAt(s)]);
    BodyAt(s) + Sum(s[27..BodyAt(s)])
  }

  predicate Whole(s: Bytes) { Magic(s) && |s| >= BodyAt(s) && |s| >= SizeOf(s) }

  datatype Page = Page(head: Bytes, segments: Bytes, body: Bytes)

  predicate Sound(p: Page) { Sum(p.segments) == |p.body| }

  function FrontPage(s: Bytes): (p: Page)
    requires Whole(s)
    ensures Sound(p)
  {
    Page(s[..27], s[27..BodyAt(s)], s[BodyAt(s)..SizeOf(s)])
  }

  // The pages of a stream: junk is skipped a byte at a time, a torn page at the end is dropped.
  function Pages(s: Bytes): (ps: seq<Page>)
    ensures forall i | 0 <= i < |ps| :: Sound(ps[i])
  {
    if |s| < 27 then []
    else if !Magic(s) then Pages(s[1..])
    else if !Whole(s) then []
    else [FrontPage(s)] + Pages(s[SizeOf(s)..])
  }

  function Packet(p: Bytes): seq<Bytes> { if p == [] then [] else [p] }

  // The packets of a page, the first of which has acc bytes in segments already passed.
  function Packets(segments: Bytes, body: Bytes, acc: nat): seq<Bytes>
    requires acc + Sum(segments) <= |body|
    decreases |segments|
  {
    if segments == [] then Packet(body[..acc])
    else if segments[0] == 255 then Packets(segments[1..], body, acc + 255)
    else
      var len := acc + segments[0];
      Packet(body[..len]) + Packets(segments[1..], body[len..], 0)
  }

  // What a run over some pages delivers, when k came before: the first two are headers.
  function Delivered(ps: seq<Page>, k: nat): seq<Bytes>
    requires forall i | 0 <= i < |ps| :: Sound(ps[i])
    decreases |ps|
  {
    if ps == [] then [] else PagePackets(ps[0], k) + Delivered(ps[1..], k + 1)
  }

  function PagePackets(p: Page, k: nat): seq<Bytes>
    requires Sound(p)
  {
    if k >= 2 then Packets(p.segments, p.body, 0) else []
  }

  // ----- the player ----------------------------------------------------------------------

  // The packets found and those still to come are all of them.
  ghost predicate Walking(packets: seq<Bytes>, segments: Bytes, body: Bytes, acc: nat, all: seq<Bytes>) {
    acc + Sum(segments) <= |body| && packets + Packets(segments, body, acc) == all
  }

  lemma WalkOne(packets: seq<Bytes>, seg: Byte, segments: Bytes, body: Bytes, acc: nat, all: seq<Bytes>)
    requires Walking(packets, [seg] + segments, body, acc, all)
    ensures acc + seg <= |body|
    ensures if seg == 255 then Walking(packets, segments, body, acc + 255, all)
            else Walking(packets + Packet(body[..acc + seg]), segments, body[acc + seg..], 0, all)
  {
    assert ([seg] + segments)[1..] == segments;
    if seg != 255 {
      var p, rest := Packet(body[..acc + seg]), Packets(segments, body[acc + seg..], 0);
      assert packets + (p + rest) == packets + p + rest;
    }
  }

  /** The walk over a segment table. */
  method Walk(segments: Bytes, body: Bytes) returns (packets: seq<Bytes>)
    requires Sum(segments) <= |body|
    ensures packets == Packets(segments, body, 0)
  {
    packets := [];
    var pkt, len: nat := body, 0;
    var i := 0;
    ghost var all := Packets(segments, body, 0);
    assert segments[0..] == segments;
    while i < |segments|
      invariant 0 <= i <= |segments|
      invariant Walking(packets, segments[i..], pkt, len, all)
    {
      assert segments[i..] == [segments[i]] + segments[i + 1..];
      WalkOne(packets, segments[i], segments[i + 1..], pkt, len, all);
      len := len + segments[i];
      if segments[i] < 255 {
        packets := packets + Packet(pkt[..len]);
        pkt := pkt[len..];
        len := 0;
      }
      i := i + 1;
    }
    packets := packets + Packet(pkt[..len]);
  }

  /** A stream to read from. C promises a short count only at its end. */
  class Input {
    var rest: Bytes
    const full: bool

    constructor (rest: Bytes, full: bool)
      ensures this.rest == rest && this.full == full
    {
      this.rest, this.full := rest, full;
    }

    method Read(space: nat) returns (d: Bytes)
      modifies this
      ensures d + rest == old(rest) && |d| <= space
      ensures d == [] <==> space == 0 || old(rest) == []
      ensures full ==> rest == [] || |d| == space
    {
      var m := if space <= |rest| then space else |rest|;
      var n: nat := m;
      if !full {
        assert m <= m && (m == 0 <==> m == 0);
        n :| n <= m && (n == 0 <==> m == 0);
      }
      d, rest := rest[..n], rest[n..];
    }
  }

  // What is decided on the buffer holds of the whole stream.
  lemma FrontIsEnough(buf: Bytes, rest: Bytes)
    ensures |buf| >= 27 && !Magic(buf) ==> Pages(buf + rest) == Pages(buf[1..] + rest)
    ensures Whole(buf) ==> Pages(buf + rest) == [FrontPage(buf)] + Pages(buf[SizeOf(buf)..] + rest)
  {
    var s := buf + rest;
    if |buf| >= 27 {
      if !Magic(buf) {
        assert s[1..] == buf[1..] + rest;
      } else if Whole(buf) {
        assert BodyAt(s) == BodyAt(buf) && s[27..BodyAt(s)] == buf[27..BodyAt(s)];
        assert s[..27] == buf[..27] && s[BodyAt(s)..SizeOf(s)] == buf[BodyAt(s)..SizeOf(s)];
        assert s[SizeOf(s)..] == buf[SizeOf(s)..] + rest;
      }
    }
  }

  // A buffer past the refill mark holds any page.
  lemma MarkIsEnough(buf: Bytes)
    requires |buf| >= REFILL && Magic(buf)
    ensures Whole(buf) && SizeOf(buf) < |buf|
  {
  }

  lemma DeliveredCons(p: Page, ps: seq<Page>, k: nat)
    requires Sound(p) && forall i | 0 <= i < |ps| :: Sound(ps[i])
    ensures Delivered([p] + ps, k) == PagePackets(p, k) + Delivered(ps, k + 1)
  {
    assert ([p] + ps)[1..] == ps;
  }

  // What has been delivered and what the stream still holds are all of it.
  ghost predicate Playing(packets: seq<Bytes>, stream: Bytes, k: nat, all: seq<Bytes>) {
    packets + Delivered(Pages(stream), k) == all
  }

  lemma PlayedPage(packets: seq<Bytes>, buf: Bytes, rest: Bytes, k: nat, all: seq<Bytes>)
    requires Playing(packets, buf + rest, k, all) && Whole(buf)
    ensures Playing(packets + PagePackets(FrontPage(buf), k), buf[SizeOf(buf)..] + rest, k + 1, all)
  {
    FrontIsEnough(buf, rest);
    var p, ps := FrontPage(buf), Pages(buf[SizeOf(buf)..] + rest);
    DeliveredCons(p, ps, k);
    assert packets + (PagePackets(p, k) + Delivered(ps, k + 1)) == packets + PagePackets(p, k) + Delivered(ps, k + 1);
  }

  lemma PlayedJunk(packets: seq<Bytes>, buf: Bytes, rest: Bytes, k: nat, all: seq<Bytes>)
    requires Playing(packets, buf + rest, k, all) && |buf| >= 27 && !Magic(buf)
    ensures Playing(packets, buf[1..] + rest, k, all)
  {
    FrontIsEnough(buf, rest);
  }

  lemma TornEnd(packets: seq<Bytes>, buf: Bytes, k: nat, all: seq<Bytes>)
    requires Playing(packets, buf + [], k, all) && Torn(buf)
    ensures Playing(packets, [], k, all)
  {
    assert buf + [] == buf;
  }

  method PageSize(buf: Bytes) returns (size: nat)
    requires |buf| >= 27 && |buf| >= BodyAt(buf)
    ensures size == SizeOf(buf)
  {
    var segments: nat := buf[26];
    var table := buf[27..27 + segments];
    var body := 0;
    var i := 0;
    while i < segments
      invariant 0 <= i <= segments && body + Sum(table[i..]) == Sum(table)
    {
      assert table[i..][0] == table[i] && table[i..][1..] == table[i + 1..];
      body := body + table[i];
      i := i + 1;
    }
    size := 27 + segments + body;
  }

  // Too little for a page, or for its header.
  predicate Torn(buf: Bytes) { |buf| < 27 || (Magic(buf) && !Whole(buf)) }

  /** One pass over the front of the buffer: a page, or a byte of junk, unless there is too little. */
  method TakeFront(buf: Bytes, packets: seq<Bytes>, pages: nat, ghost rest: Bytes, ghost all: seq<Bytes>)
    returns (took: bool, left: Bytes, found: seq<Bytes>, count: nat)
    requires Playing(packets, buf + rest, pages, all)
    ensures Playing(found, left + rest, count, all)
    ensures took ==> |left| < |buf| && (|buf| >= REFILL ==> left != [])
    ensures !took ==> left == buf && found == packets && Torn(buf) && |buf| < REFILL
  {
    took, left, found, count := false, buf, packets, pages;
    if |buf| < 27 {
      return;
    }
    if !Magic(buf) {
      PlayedJunk(packets, buf, rest, pages, all);
      return true, buf[1..], packets, pages;
    }
    if |buf| < BodyAt(buf) {
      return;
    }
    var size := PageSize(buf);
    if |buf| < size {
      return;
    }
    PlayedPage(packets, buf, rest, pages, all);
    if pages >= 2 {
      var more := Walk(buf[27..BodyAt(buf)], buf[BodyAt(buf)..size]);
      found := packets + more;
    }
    took, left, count := true, buf[size..], pages + 1;
  }

  /** The page loop: everything the stream holds is delivered, except what is left unread. */
  method Play(inp: Input, peek: Bytes) returns (packets: seq<Bytes>, pages: nat)
    requires |peek| <= BUFFER
    modifies inp
    ensures packets + Delivered(Pages(inp.rest), pages) == Delivered(Pages(peek + old(inp.rest)), 0)
    ensures inp.full ==> inp.rest == []
  {
    ghost var all := Delivered(Pages(peek + inp.rest), 0);
    packets, pages := [], 0;
    var buf := Refill(inp, peek);
    assert Playing(packets, buf + inp.rest, pages, all);
    var eof := false;
    while buf != []
      invariant |buf| <= BUFFER && (eof ==> inp.rest == []) && (inp.full ==> inp.rest == [] || buf != [])
      invariant Playing(packets, buf + inp.rest, pages, all)
      decreases |buf| + |inp.rest|, |inp.rest|, if eof then 0 else 1
    {
      if !eof && |buf| < REFILL {
        var n := |buf|;
        buf := Refill(inp, buf);
        if |buf| == n { eof := true; }
      }
      var took;
      took, buf, packets, pages := TakeFront(buf, packets, pages, inp.rest, all);
      if !took && eof {
        TornEnd(packets, buf, pages, all);
        return;
      }
    }
    assert buf + inp.rest == inp.rest;
  }

  method Refill(inp: Input, buf: Bytes) returns (more: Bytes)
    requires |buf| <= BUFFER
    modifies inp
    ensures more + inp.rest == buf + old(inp.rest) && |buf| <= |more| <= BUFFER
    ensures |more| == |buf| <==> |buf| == BUFFER || old(inp.rest) == []
    ensures inp.full ==> inp.rest == [] || |more| == BUFFER
  {
    var d := inp.Read(BUFFER - |buf|);
    more := buf + d;
    assert more + inp.rest == buf + (d + inp.rest);
  }
}
