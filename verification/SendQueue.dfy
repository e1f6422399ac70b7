/**
 * The per-client send queue of rhd (rhd/rhd_main.c): a four-slot ring in which a waiting picture
 * is replaced by a newer one and a sequence of audio that backs up is emptied whole.
 */
module SendQueue {

  const SLOTS := 4

  // A frame is known by its number; 0 is the null pointer.
  type FrameId = nat
  const NULL: FrameId := 0

  datatype Kind = Mjpeg | Audio
  datatype Entry = Entry(kind: Kind, frame: FrameId, codec: int, rate: int)

  // What a push makes of the queue, and the frames it lets go of.
  datatype Pushing = Pushing(queue: seq<Entry>, dropped: seq<FrameId>)

  function FirstPicture(q: seq<Entry>): (k: nat)
    ensures k <= |q|
    ensures k < |q| ==> q[k].kind.Mjpeg?
    ensures forall i | 0 <= i < k :: !q[i].kind.Mjpeg?
  {
    if q == [] || q[0].kind.Mjpeg? then 0 else 1 + FirstPicture(q[1..])
  }

  function Frames(q: seq<Entry>): (fs: seq<FrameId>)
    ensures |fs| == |q| && forall i | 0 <= i < |q| :: fs[i] == q[i].frame
  {
    seq(|q|, i requires 0 <= i < |q| => q[i].frame)
  }

  function Pushed(q: seq<Entry>, e: Entry): Pushing {
    var k := FirstPicture(q);
    if e.kind.Mjpeg? && k < |q| then Pushing(q[k := q[k].(frame := e.frame)], [q[k].frame])
    else if |q| >= SLOTS then Pushing([e], Frames(q))
    else Pushing(q + [e], [])
  }

  // ----- four slots read as a sequence -------------------------------------------------

  function Slot(tail: nat, i: nat): (k: nat)
    requires tail < SLOTS && i <= SLOTS
    ensures k < SLOTS && k == (tail + i) % SLOTS
  {
    if tail + i < SLOTS then tail + i else tail + i - SLOTS
  }

  function Queued(a: seq<Entry>, tail: nat, count: nat): (q: seq<Entry>)
    requires |a| == SLOTS && tail < SLOTS && count <= SLOTS
    ensures |q| == count && forall i | 0 <= i < count :: q[i] == a[Slot(tail, i)]
  {
    seq(count, i requires 0 <= i < count => a[Slot(tail, i)])
  }

  // The slot at the tail leaves, whatever is written over it.
  lemma QueuedPop(a: seq<Entry>, tail: nat, count: nat, e: Entry)
    requires |a| == SLOTS && tail < SLOTS && 0 < count <= SLOTS
    ensures Queued(a, tail, count)[0] == a[tail]
    ensures Queued(a[tail := e], Slot(tail, 1), count - 1) == Queued(a, tail, count)[1..]
  {
    forall i | 0 <= i < count - 1 ensures Slot(Slot(tail, 1), i) == Slot(tail, i + 1) != tail {
    }
  }

  lemma QueuedPut(a: seq<Entry>, tail: nat, count: nat, i: nat, e: Entry)
    requires |a| == SLOTS && tail < SLOTS && i < count <= SLOTS
    ensures Queued(a[Slot(tail, i) := e], tail, count) == Queued(a, tail, count)[i := e]
  {
  }

  lemma QueuedAppend(a: seq<Entry>, tail: nat, count: nat, e: Entry)
    requires |a| == SLOTS && tail < SLOTS && count < SLOTS
    ensures Queued(a[Slot(tail, count) := e], tail, count + 1) == Queued(a, tail, count) + [e]
  {
  }

  lemma FramesPop(q: seq<Entry>, before: seq<FrameId>)
    requires q != []
    ensures before + Frames(q) == before + [q[0].frame] + Frames(q[1..])
  {
  }

  class Ring {
    const entries: array<Entry>
    var head: nat
    var tail: nat
    var count: nat
    var shutdown: bool

    // The queue's own discipline: the head is always `count` past the tail.
    ghost predicate Valid()
      reads this, entries
    {
      entries.Length == SLOTS && tail < SLOTS && count <= SLOTS && head == Slot(tail, count)
    }

    ghost function Contents(): (q: seq<Entry>)
      requires Valid()
      reads this, entries
    {
      Queued(entries[..], tail, count)
    }

    constructor ()
      ensures Valid() && fresh(entries) && Contents() == [] && !shutdown
    {
      entries := new Entry[SLOTS](_ => Entry(Mjpeg, NULL, 0, 0));
      head, tail, count, shutdown := 0, 0, 0, false;
    }

    method Drop() returns (was: FrameId)
      requires Valid() && count > 0
      modifies this`tail, this`count
      ensures Valid() && count == old(count) - 1
      ensures was == old(Contents())[0].frame && Contents() == old(Contents())[1..]
    {
      QueuedPop(entries[..], tail, count, entries[tail]);
      assert entries[..][tail := entries[tail]] == entries[..];
      was := entries[tail].frame;
      tail := (tail + 1) % SLOTS;
      count := count - 1;
    }

    // Also what destroying the queue does to its frames.
    method Flush() returns (dropped: seq<FrameId>)
      requires Valid()
      modifies this`head, this`tail, this`count
      ensures Valid() && Contents() == [] && head == tail == 0
      ensures dropped == Frames(old(Contents()))
    {
      dropped := [];
      while count > 0
        invariant Valid()
        invariant dropped + Frames(Contents()) == Frames(old(Contents()))
        decreases count
      {
        FramesPop(Contents(), dropped);
        var was := Drop();
        dropped := dropped + [was];
      }
      head := 0;
      tail := 0;
    }

    // The picture already waiting, if there is one, gives way to the new one.
    method Replace(frame: FrameId) returns (found: bool, was: FrameId)
      requires Valid()
      modifies entries
      ensures Valid()
      ensures var q := old(Contents()); var k := FirstPicture(q);
        && (found <==> k < |q|)
        && (found ==> was == q[k].frame && Contents() == q[k := q[k].(frame := frame)])
        && (!found ==> Contents() == q)
    {
      ghost var a, q := entries[..], Contents();
      var i, k := 0, tail;
      while i < count
        invariant 0 <= i <= count && k == Slot(tail, i)
        invariant entries[..] == a
        invariant forall j | 0 <= j < i :: !q[j].kind.Mjpeg?
      {
        if entries[k].kind.Mjpeg? {
          assert q[i] == entries[k];
          was := entries[k].frame;
          QueuedPut(a, tail, count, i, q[i].(frame := frame));
          entries[k] := entries[k].(frame := frame);
          assert entries[..] == a[k := q[i].(frame := frame)];
          return true, was;
        }
        i, k := i + 1, (k + 1) % SLOTS;
      }
      return false, NULL;
    }

    method Append(e: Entry)
      requires Valid() && count < SLOTS
      modifies this`head, this`count, entries
      ensures Valid() && Contents() == old(Contents()) + [e]
    {
      QueuedAppend(entries[..], tail, count, e);
      entries[head] := e;
      assert entries[..] == old(entries[..])[Slot(tail, count) := e];
      head := (head + 1) % SLOTS;
      count := count + 1;
    }

    method Push(kind: Kind, frame: FrameId, codec: int, rate: int) returns (ok: bool, dropped: seq<FrameId>)
      requires Valid()
      modifies this`head, this`tail, this`count, entries
      ensures Valid()
      ensures ok <==> !shutdown
      ensures !ok ==> Contents() == old(Contents()) && dropped == []
      ensures ok ==> Pushing(Contents(), dropped) == Pushed(old(Contents()), Entry(kind, frame, codec, rate))
    {
      dropped := [];
      if shutdown {
        return false, dropped;
      }
      if kind.Mjpeg? {
        var found, was := Replace(frame);
        if found {
          return true, [was];
        }
      }
      if count >= SLOTS {
        dropped := Flush();
      }
      Append(Entry(kind, frame, codec, rate));
      return true, dropped;
    }

    // The locked half of the send thread: the oldest entry leaves the queue.
    method Take() returns (e: Entry)
      requires Valid() && count > 0
      modifies this`tail, this`count, entries
      ensures Valid() && e == old(Contents())[0] && Contents() == old(Contents())[1..]
    {
      ghost var a := entries[..];
      QueuedPop(a, tail, count, a[tail].(frame := NULL));
      e := entries[tail];
      entries[tail] := e.(frame := NULL);
      assert entries[..] == a[tail := e.(frame := NULL)];
      tail := (tail + 1) % SLOTS;
      count := count - 1;
    }
  }

  // ----- whole lives of one queue --------------------------------------------------------

  // A push, a take by whatever thread, or a request handled again: the queue is wiped as it stands.
  datatype Op = Push(kind: Kind) | Take | Wipe

  // The nth push carries frame n. What has been taken, what waits, what each push that let frames go
  // let go of, and what was wiped.
  datatype History = History(pushed: nat, taken: seq<FrameId>, waiting: seq<Entry>, lost: seq<seq<FrameId>>, wiped: seq<FrameId>)

  const START := History(0, [], [], [], [])

  function Became(h: History, p: Pushing): History {
    History(h.pushed + 1, h.taken, p.queue, if p.dropped == [] then h.lost else h.lost + [p.dropped], h.wiped)
  }

  function Next(h: History, op: Op): History {
    match op
    case Push(kind) =>
      Became(h, Pushed(h.waiting, Entry(kind, h.pushed + 1, 0, 0)))
    case Take =>
      if h.waiting == [] then h
      else h.(taken := h.taken + [h.waiting[0].frame], waiting := h.waiting[1..])
    case Wipe => h.(waiting := [], wiped := h.wiped + Frames(h.waiting))
  }

  function Live(ops: seq<Op>): History {
    if ops == [] then START else Next(Live(ops[..|ops| - 1]), ops[|ops| - 1])
  }

  function Flat(batches: seq<seq<FrameId>>): seq<FrameId> {
    if batches == [] then [] else Flat(batches[..|batches| - 1]) + batches[|batches| - 1]
  }

  lemma PushConserves(q: seq<Entry>, e: Entry)
    ensures var p := Pushed(q, e);
      multiset(Frames(p.queue)) + multiset(p.dropped) == multiset(Frames(q)) + multiset{e.frame}
  {
    var k := FirstPicture(q);
    if e.kind.Mjpeg? && k < |q| {
      assert Frames(Pushed(q, e).queue) == Frames(q)[k := e.frame];
    } else if |q| >= SLOTS {
      assert Frames([e]) == [e.frame];
    } else {
      assert Frames(q + [e]) == Frames(q) + [e.frame];
    }
  }

  // How often a frame was taken, waits, was let go and was wiped, taken together.
  ghost function Copies(h: History, f: FrameId): nat {
    multiset(h.taken)[f] + multiset(Frames(h.waiting))[f] + multiset(Flat(h.lost))[f] + multiset(h.wiped)[f]
  }

  lemma FlatAppend(batches: seq<seq<FrameId>>, b: seq<FrameId>, f: FrameId)
    ensures multiset(Flat(batches + [b]))[f] == multiset(Flat(batches))[f] + multiset(b)[f]
  {
    assert (batches + [b])[..|batches|] == batches;
  }

  lemma PushAddsOne(h: History, p: Pushing, e: FrameId, f: FrameId)
    requires multiset(Frames(p.queue)) + multiset(p.dropped) == multiset(Frames(h.waiting)) + multiset{e}
    ensures Copies(Became(h, p), f) == Copies(h, f) + if f == e then 1 else 0
  {
    FlatAppend(h.lost, p.dropped, f);
    assert (multiset(Frames(p.queue)) + multiset(p.dropped))[f] == (multiset(Frames(h.waiting)) + multiset{e})[f];
  }

  lemma TakeAddsNone(h: History, f: FrameId)
    ensures Copies(Next(h, Take), f) == Copies(h, f)
  {
    if h.waiting != [] {
      assert Frames(h.waiting) == [h.waiting[0].frame] + Frames(h.waiting[1..]);
    }
  }

  lemma WipeAddsNone(h: History, f: FrameId)
    ensures Copies(Next(h, Wipe), f) == Copies(h, f)
  {
    assert multiset(h.wiped + Frames(h.waiting))[f] == multiset(h.wiped)[f] + multiset(Frames(h.waiting))[f];
    assert Frames([]) == [];
  }

  lemma PushedAddsOne(h: History, kind: Kind, f: FrameId)
    ensures Copies(Next(h, Push(kind)), f) == Copies(h, f) + if f == h.pushed + 1 then 1 else 0
  {
    var e := Entry(kind, h.pushed + 1, 0, 0);
    PushConserves(h.waiting, e);
    PushAddsOne(h, Pushed(h.waiting, e), e.frame, f);
  }

  /** Every frame ever pushed was taken, or waits, or was let go, or was wiped, and exactly one of the
      four, whatever the mix of pushes, takes and wipes. */
  lemma {:induction false} EveryFrameOnce(ops: seq<Op>, f: FrameId)
    ensures Copies(Live(ops), f) == if 1 <= f <= Live(ops).pushed then 1 else 0
  {
    if ops == [] {
      assert Flat([]) == [];
    } else {
      var g := Live(ops[..|ops| - 1]);
      EveryFrameOnce(ops[..|ops| - 1], f);
      match ops[|ops| - 1]
      case Push(kind) => PushedAddsOne(g, kind, f);
      case Take => TakeAddsNone(g, f);
      case Wipe => WipeAddsNone(g, f);
    }
  }

  predicate Ascending(s: seq<FrameId>) { forall i, j | 0 <= i < j < |s| :: s[i] < s[j] }

  // The order frames leave the queue in: what was taken, then what waits.
  function Line(h: History): seq<FrameId> { h.taken + Frames(h.waiting) }

  predicate AtMost(s: seq<FrameId>, n: nat) { forall i | 0 <= i < |s| :: s[i] <= n }

  predicate InOrder(h: History) { Ascending(Line(h)) && AtMost(Line(h), h.pushed) }

  lemma NewestInPlace(s: seq<FrameId>, k: nat, n: nat)
    requires Ascending(s) && AtMost(s, n) && k < |s|
    ensures Ascending(s[k := n + 1]) <==> k == |s| - 1
  {
    if k < |s| - 1 { assert s[k := n + 1][k] > s[k := n + 1][k + 1]; }
  }

  lemma NewestLast(s: seq<FrameId>, t: nat, n: nat)
    requires Ascending(s) && AtMost(s, n) && t <= |s|
    ensures Ascending(s[..t] + [n + 1]) && AtMost(s[..t] + [n + 1], n + 1)
  {
  }

  // A push replaces one place in the line, or joins its end once what waited is gone or not.
  lemma PushedLine(h: History, kind: Kind)
    ensures var k, q, t, line := FirstPicture(h.waiting), h.waiting, |h.taken|, Line(h);
      Line(Next(h, Push(kind))) ==
        if kind.Mjpeg? && k < |q| then line[t + k := h.pushed + 1]
        else line[..if |q| >= SLOTS then t else |line|] + [h.pushed + 1]
  {
    var k, q, t, n := FirstPicture(h.waiting), h.waiting, |h.taken|, Next(h, Push(kind));
    if kind.Mjpeg? && k < |q| {
      assert Frames(n.waiting) == Frames(q)[k := h.pushed + 1];
    } else if |q| >= SLOTS {
      assert Frames(n.waiting) == [h.pushed + 1];
    } else {
      assert Frames(n.waiting) == Frames(q) + [h.pushed + 1];
    }
  }

  // Nothing waits ahead of a picture that gives way, unless it is the last in line.
  lemma FirstIsLast(q: seq<Entry>, k: nat)
    requires k == FirstPicture(q) < |q|
    ensures k == |q| - 1 <==> forall i | 0 <= i < |q| - 1 :: !q[i].kind.Mjpeg?
  {
    if k < |q| - 1 { assert q[k].kind.Mjpeg?; }
  }

  lemma AllAtMost(s: seq<FrameId>, k: nat, n: nat)
    requires AtMost(s, n) && k < |s|
    ensures AtMost(s[k := n + 1], n + 1)
  {
  }

  lemma PlacedInOrder(h: History, k: nat)
    requires InOrder(h) && k == FirstPicture(h.waiting) < |h.waiting|
    ensures InOrder(Next(h, Push(Mjpeg))) <==> k == |h.waiting| - 1
  {
    var t := |h.taken|;
    PushedLine(h, Mjpeg);
    NewestInPlace(Line(h), t + k, h.pushed);
    AllAtMost(Line(h), t + k, h.pushed);
  }

  lemma JoinedInOrder(h: History, kind: Kind)
    requires InOrder(h) && (kind.Audio? || FirstPicture(h.waiting) == |h.waiting|)
    ensures InOrder(Next(h, Push(kind)))
  {
    PushedLine(h, kind);
    NewestLast(Line(h), if |h.waiting| >= SLOTS then |h.taken| else |Line(h)|, h.pushed);
  }

  /** A push keeps the line in order exactly when it does not put a new picture ahead of
      something older, that is, when no picture waits except perhaps the last in line. */
  lemma PushKeepsOrder(h: History, kind: Kind)
    requires InOrder(h)
    ensures InOrder(Next(h, Push(kind))) <==>
      (kind.Audio? || forall i | 0 <= i < |h.waiting| - 1 :: !h.waiting[i].kind.Mjpeg?)
  {
    var k := FirstPicture(h.waiting);
    if kind.Mjpeg? && k < |h.waiting| {
      PlacedInOrder(h, k);
      FirstIsLast(h.waiting, k);
    } else {
      JoinedInOrder(h, kind);
    }
  }

  lemma TakeKeepsOrder(h: History)
    requires InOrder(h)
    ensures InOrder(Next(h, Take))
  {
    if h.waiting != [] {
      FramesPop(h.waiting, h.taken);
      assert Line(Next(h, Take)) == Line(h);
    }
  }

  // A wipe leaves what was taken, and nothing behind it.
  lemma WipeKeepsOrder(h: History)
    requires InOrder(h)
    ensures InOrder(Next(h, Wipe))
  {
    assert Line(Next(h, Wipe)) == Line(h)[..|h.taken|];
  }

  predicate Only(kind: Kind, ops: seq<Op>) { forall op | op in ops :: op.Push? ==> op.kind == kind }

  lemma {:induction false} WaitingKind(kind: Kind, ops: seq<Op>)
    requires Only(kind, ops)
    ensures forall e | e in Live(ops).waiting :: e.kind == kind
  {
    if ops != [] { WaitingKind(kind, ops[..|ops| - 1]); }
  }

  /** A picture client: at most one frame waits and it is the newest there is. */
  lemma {:induction false} PicturesStayFresh(ops: seq<Op>)
    requires Only(Mjpeg, ops)
    ensures var h := Live(ops); h.waiting == [] || Frames(h.waiting) == [h.pushed]
  {
    if ops != [] {
      var init := ops[..|ops| - 1];
      PicturesStayFresh(init);
      WaitingKind(Mjpeg, init);
      var w := Live(init).waiting;
      if w != [] { assert Frames(w)[0] == w[0].frame && |w| == 1; }
    }
  }

  // The last n of the frames up to `to`.
  function Latest(to: nat, n: nat): seq<FrameId>
    requires n <= to
  {
    seq(n, i requires 0 <= i < n => to - n + 1 + i)
  }

  ghost predicate LostInFours(h: History) {
    && |h.waiting| <= SLOTS && |h.waiting| <= h.pushed
    && Frames(h.waiting) == Latest(h.pushed, |h.waiting|)
    && forall b | b in h.lost :: exists to: nat :: SLOTS <= to <= h.pushed && b == Latest(to, SLOTS)
  }

  lemma AudioPush(h: History)
    requires LostInFours(h) && forall e | e in h.waiting :: e.kind.Audio?
    ensures LostInFours(Next(h, Push(Audio)))
  {
    var q, n := h.waiting, Next(h, Push(Audio));
    assert FirstPicture(q) == |q|;
    forall b | b in n.lost ensures exists to: nat :: SLOTS <= to <= n.pushed && b == Latest(to, SLOTS) {
      if b in h.lost {
      } else {
        assert b == Latest(h.pushed, SLOTS);
      }
    }
  }

  lemma AudioTake(h: History)
    requires LostInFours(h)
    ensures LostInFours(Next(h, Take))
  {
    if h.waiting != [] {
      assert Frames(h.waiting[1..]) == Frames(h.waiting)[1..];
    }
  }

  /** An audio client: what waits is the unbroken run of the newest frames, and what was let go
      went in runs of exactly four. */
  lemma {:induction false} AudioIsLostInFours(ops: seq<Op>)
    requires Only(Audio, ops)
    ensures LostInFours(Live(ops))
  {
    if ops != [] {
      var init := ops[..|ops| - 1];
      AudioIsLostInFours(init);
      match ops[|ops| - 1]
      case Push(_) =>
        WaitingKind(Audio, init);
        AudioPush(Live(init));
      case Take => AudioTake(Live(init));
      case Wipe => assert Frames([]) == Latest(Live(ops).pushed, 0);
    }
  }

  /** Frames of one kind leave the queue in the order they were pushed, none of them twice, wiped or
      not in between. (What order they are sent in is the threads' affair: module FrameOrder.) */
  lemma {:induction false} OneKindStaysInOrder(kind: Kind, ops: seq<Op>)
    requires Only(kind, ops)
    ensures InOrder(Live(ops))
  {
    if ops != [] {
      var init := ops[..|ops| - 1];
      OneKindStaysInOrder(kind, init);
      match ops[|ops| - 1]
      case Push(_) =>
        if kind.Mjpeg? { PicturesStayFresh(init); } else { WaitingKind(kind, init); }
        PushKeepsOrder(Live(init), kind);
      case Take => TakeKeepsOrder(Live(init));
      case Wipe => WipeKeepsOrder(Live(init));
    }
  }

  // Both kinds on one queue: the second picture is sent before the audio pushed ahead of it.
  lemma MixedKindsOvertake()
    ensures var h := Next(Next(START, Push(Mjpeg)), Push(Audio));
      InOrder(h) && !InOrder(Next(h, Push(Mjpeg)))
  {
    var g := Next(START, Push(Mjpeg));
    PushKeepsOrder(START, Mjpeg);
    PushKeepsOrder(g, Audio);
    PushKeepsOrder(Next(g, Push(Audio)), Mjpeg);
    assert g.waiting[0].kind.Mjpeg?;
    assert Next(g, Push(Audio)).waiting[0].kind.Mjpeg?;
  }
}
