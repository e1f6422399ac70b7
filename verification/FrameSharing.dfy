/**
 * Frames shared between the main loop of rhd and its send threads (rhd/rhd_main.c).
 *
 * One copy of a frame goes to every client. The main loop, each client's queue and each send
 * thread hold counted references to it. The model is the interleaving of their atomic steps:
 * a step is what runs under one queue's lock, or one atomic operation on a reference count.
 */
module FrameSharing {
  import opened SendQueue

  // ----- the heap ----------------------------------------------------------------------

  // Reference counts, what has been freed (how often), the next address, and whether anything
  // touched a frame that is not there.
  datatype Heap = Heap(refs: multiset<FrameId>, freed: multiset<FrameId>, next: FrameId, fault: bool)

  function Alloc(h: Heap): Heap { h.(refs := h.refs + multiset{h.next}, next := h.next + 1) }

  function Ref(h: Heap, f: FrameId): Heap {
    if f in h.refs then h.(refs := h.refs + multiset{f}) else h.(fault := true)
  }

  function Touch(h: Heap, f: FrameId): Heap { if f in h.refs then h else h.(fault := true) }

  // Dropping the null pointer does nothing; dropping the last reference frees.
  function Unref(h: Heap, f: FrameId): Heap {
    if f == NULL then h
    else if f !in h.refs then h.(fault := true)
    else h.(refs := h.refs - multiset{f},
            freed := if h.refs[f] == 1 then h.freed + multiset{f} else h.freed)
  }

  function UnrefAll(h: Heap, fs: seq<FrameId>): Heap
    decreases |fs|
  {
    if fs == [] then h else UnrefAll(Unref(h, fs[0]), fs[1..])
  }

  // Every frame ever allocated is live or has been freed exactly once.
  ghost predicate HeapOk(h: Heap) {
    && !h.fault && h.next > NULL
    && forall f: FrameId ::
         if NULL < f < h.next then h.freed[f] == (if h.refs[f] == 0 then 1 else 0)
         else h.refs[f] == 0 && h.freed[f] == 0
  }

  lemma AllocOk(h: Heap)
    requires HeapOk(h)
    ensures HeapOk(Alloc(h)) && h.refs[h.next] == 0
    ensures forall g: FrameId :: Alloc(h).refs[g] == h.refs[g] + if g == h.next then 1 else 0
  {
  }

  lemma UnrefOk(h: Heap, f: FrameId)
    requires HeapOk(h) && (f == NULL || h.refs[f] > 0)
    ensures HeapOk(Unref(h, f)) && Unref(h, f).next == h.next
    ensures forall g: FrameId :: Unref(h, f).refs[g] + (if g == f != NULL then 1 else 0) == h.refs[g]
  {
  }

  lemma {:induction false} UnrefAllOk(h: Heap, fs: seq<FrameId>)
    requires HeapOk(h) && forall f: FrameId :: multiset(fs)[f] <= h.refs[f]
    ensures HeapOk(UnrefAll(h, fs)) && UnrefAll(h, fs).next == h.next
    ensures forall f: FrameId :: UnrefAll(h, fs).refs[f] + multiset(fs)[f] == h.refs[f]
    decreases |fs|
  {
    if fs != [] {
      assert fs == [fs[0]] + fs[1..];
      assert multiset(fs)[fs[0]] > 0;
      UnrefOk(h, fs[0]);
      UnrefAllOk(Unref(h, fs[0]), fs[1..]);
    }
  }

  // ----- the machine -------------------------------------------------------------------

  datatype Thread = Waiting | Sending(frame: FrameId) | Failing | Exited

  // A streaming client. A request normally starts one thread; only the one started last is joined.
  datatype Client = Client(queue: seq<Entry>, shutdown: bool, threads: seq<Thread>)

  // Where the main loop stands with the shared frame: elsewhere, about to give up a shared one,
  // or writing into it.
  datatype Main = Idle | Swapping | Writing

  // Beside what the program keeps: the threads whose client is gone, and the references wiped
  // with a queue without being dropped.
  datatype State = State(heap: Heap, shared: FrameId, audio: FrameId, clients: seq<Client>, main: Main,
                         strays: seq<Thread>, lost: multiset<FrameId>)

  const BOOT := State(Heap(multiset{}, multiset{}, 1, false), NULL, NULL, [], Idle, [], multiset{})

  datatype Action =
    | Grow(ok: bool)                               // a ring with larger frames opens
    | SeeShared | Swap(ok: bool) | SeeOwn | Wrote  // frame_for_writing and what follows
    | NewAudio(ok: bool) | DropAudio
    | PushPicture(i: nat) | PushAudio(i: nat, codec: int, rate: int)
    | Connect(ok: bool)                            // a streaming request
    | Again(i: nat, ok: bool)                      // more from such a client: its request is handled again
    | Shut(i: nat) | Reap(i: nat)
    | Take(i: nat, k: nat) | Sent(i: nat, k: nat, ok: bool) | Fail(i: nat, k: nat) | Quit(i: nat, k: nat)
    | StraySent(k: nat)                            // a thread without a client finishes its frame

  predicate OfClient(a: Action) { a.PushPicture? || a.PushAudio? || a.Again? || a.Shut? || a.Reap? || OfThread(a) }

  predicate OfThread(a: Action) { a.Take? || a.Sent? || a.Fail? || a.Quit? }

  predicate Enabled(s: State, a: Action) {
    && (OfClient(a) ==> a.i < |s.clients|)
    && (OfThread(a) ==> a.k < |s.clients[a.i].threads|)
    && match a
       case Grow(_) => s.main.Idle?
       case SeeShared => s.main.Idle? && s.shared != NULL && s.heap.refs[s.shared] > 1
       case Swap(_) => s.main.Swapping?
       case SeeOwn => s.main.Idle? && s.shared != NULL && s.heap.refs[s.shared] <= 1
       case Wrote => s.main.Writing?
       case NewAudio(_) => s.main.Idle? && s.audio == NULL
       case DropAudio => s.main.Idle?
       case PushPicture(i) => s.main.Idle? && s.shared != NULL && s.clients[i].threads != []
       case PushAudio(i, _, _) => s.main.Idle? && s.audio != NULL && s.clients[i].threads != []
       case Connect(_) => s.main.Idle?
       case Again(_, _) => s.main.Idle?
       case Shut(i) => s.main.Idle? && s.clients[i].threads != []
       case Reap(i) => s.main.Idle? && (s.clients[i].threads == [] || s.clients[i].threads[|s.clients[i].threads| - 1].Exited?)
       case Take(i, k) => s.clients[i].threads[k].Waiting? && !s.clients[i].shutdown && s.clients[i].queue != []
       case Sent(i, k, _) => s.clients[i].threads[k].Sending?
       case Fail(i, k) => s.clients[i].threads[k].Failing?
       case Quit(i, k) => s.clients[i].threads[k].Waiting? && s.clients[i].shutdown
       case StraySent(k) => k < |s.strays| && s.strays[k].Sending?
  }

  // The frame to write into next: a fresh one if there is memory for it.
  function Fresh(s: State, ok: bool): State {
    var h := Unref(s.heap, s.shared);
    if ok then s.(heap := Alloc(h), shared := h.next) else s.(heap := h, shared := NULL)
  }

  // rhd_sendq_push: the queue takes its own reference and drops what it lets go of.
  function Queue(s: State, i: nat, e: Entry): State
    requires i < |s.clients|
  {
    var c := s.clients[i];
    if c.shutdown then s
    else
      var p := Pushed(c.queue, e);
      s.(heap := UnrefAll(Ref(s.heap, e.frame), p.dropped), clients := s.clients[i := c.(queue := p.queue)])
  }

  // rhd_start_send_thread over a queue in use: wiped, not emptied.
  function Restarted(c: Client, ok: bool): Client {
    Client([], false, if ok then c.threads + [Waiting] else c.threads)
  }

  // The last client takes the place of the one removed.
  function Removed<T>(cs: seq<T>, i: nat): seq<T>
    requires i < |cs|
  {
    if i == |cs| - 1 then cs[..i] else cs[i := cs[|cs| - 1]][..|cs| - 1]
  }

  function Moved(c: Client, k: nat, th: Thread): Client
    requires k < |c.threads|
  {
    c.(threads := c.threads[k := th])
  }

  function Next(s: State, a: Action): State
    requires Enabled(s, a)
  {
    match a
    case Grow(ok) => Fresh(s, ok)
    case SeeShared => s.(main := Swapping)
    case Swap(ok) => Fresh(s, ok).(main := if ok then Writing else Idle)
    case SeeOwn => s.(main := Writing)
    case Wrote => s.(heap := Touch(s.heap, s.shared), main := Idle)
    case NewAudio(ok) => if ok then s.(heap := Alloc(s.heap), audio := s.heap.next) else s
    case DropAudio => s.(heap := Unref(s.heap, s.audio), audio := NULL)
    case PushPicture(i) => Queue(s, i, Entry(Mjpeg, s.shared, 0, 0))
    case PushAudio(i, codec, rate) => Queue(s, i, Entry(Audio, s.audio, codec, rate))
    case Connect(ok) => s.(clients := s.clients + [Client([], false, if ok then [Waiting] else [])])
    case Again(i, ok) =>
      s.(clients := s.clients[i := Restarted(s.clients[i], ok)], lost := s.lost + multiset(Frames(s.clients[i].queue)))
    case Shut(i) => s.(clients := s.clients[i := s.clients[i].(shutdown := true)])
    case Reap(i) =>
      s.(heap := UnrefAll(s.heap, Frames(s.clients[i].queue)), clients := Removed(s.clients, i),
         strays := s.strays + s.clients[i].threads)
    case Take(i, k) =>
      var c := s.clients[i];
      s.(clients := s.clients[i := Moved(c, k, Sending(c.queue[0].frame)).(queue := c.queue[1..])])
    case Sent(i, k, ok) =>
      var c := s.clients[i];
      s.(heap := Unref(Touch(s.heap, c.threads[k].frame), c.threads[k].frame),
         clients := s.clients[i := Moved(c, k, if ok then Waiting else Failing)])
    case Fail(i, k) => s.(clients := s.clients[i := Moved(s.clients[i], k, Exited).(shutdown := true)])
    case Quit(i, k) => s.(clients := s.clients[i := Moved(s.clients[i], k, Exited)])
    case StraySent(k) =>
      s.(heap := Unref(Touch(s.heap, s.strays[k].frame), s.strays[k].frame), strays := s.strays[k := Exited])
  }

  // ----- who holds what ----------------------------------------------------------------

  function Is(f: FrameId, g: FrameId): nat { if f == g != NULL then 1 else 0 }

  function ThreadHolds(th: Thread, f: FrameId): nat { if th.Sending? then Is(th.frame, f) else 0 }

  function ThreadsHold(ths: seq<Thread>, f: FrameId): nat {
    if ths == [] then 0 else ThreadsHold(ths[..|ths| - 1], f) + ThreadHolds(ths[|ths| - 1], f)
  }

  function Holds(c: Client, f: FrameId): nat { multiset(Frames(c.queue))[f] + ThreadsHold(c.threads, f) }

  function AllHold(cs: seq<Client>, f: FrameId): nat {
    if cs == [] then 0 else AllHold(cs[..|cs| - 1], f) + Holds(cs[|cs| - 1], f)
  }

  // The server's two handles, the queues and the threads, those without a client included.
  function Holders(s: State, f: FrameId): nat {
    Is(s.shared, f) + Is(s.audio, f) + AllHold(s.clients, f) + ThreadsHold(s.strays, f)
  }

  lemma {:induction false} ThreadsHoldSet(ths: seq<Thread>, k: nat, th: Thread, f: FrameId)
    requires k < |ths|
    ensures ThreadsHold(ths[k := th], f) == ThreadsHold(ths, f) - ThreadHolds(ths[k], f) + ThreadHolds(th, f)
    ensures ThreadsHold(ths, f) >= ThreadHolds(ths[k], f)
  {
    var n := |ths| - 1;
    if k == n {
      assert ths[k := th][..n] == ths[..n];
    } else {
      ThreadsHoldSet(ths[..n], k, th, f);
      assert ths[k := th][..n] == ths[..n][k := th];
    }
  }

  lemma {:induction false} ThreadsHoldConcat(a: seq<Thread>, b: seq<Thread>, f: FrameId)
    ensures ThreadsHold(a + b, f) == ThreadsHold(a, f) + ThreadsHold(b, f)
    decreases |b|
  {
    if b == [] {
      assert a + b == a;
    } else {
      var n := |b| - 1;
      assert (a + b)[..|a| + n] == a + b[..n];
      ThreadsHoldConcat(a, b[..n], f);
    }
  }

  lemma {:induction false} AllHoldSet(cs: seq<Client>, i: nat, c: Client, f: FrameId)
    requires i < |cs|
    ensures AllHold(cs[i := c], f) == AllHold(cs, f) - Holds(cs[i], f) + Holds(c, f)
    ensures AllHold(cs, f) >= Holds(cs[i], f)
  {
    var n := |cs| - 1;
    if i == n {
      assert cs[i := c][..n] == cs[..n];
    } else {
      AllHoldSet(cs[..n], i, c, f);
      assert cs[i := c][..n] == cs[..n][i := c];
    }
  }

  lemma AllHoldRemoved(cs: seq<Client>, i: nat, f: FrameId)
    requires i < |cs|
    ensures AllHold(Removed(cs, i), f) == AllHold(cs, f) - Holds(cs[i], f)
  {
    var n := |cs| - 1;
    if i < n {
      AllHoldSet(cs[..n], i, cs[n], f);
      assert Removed(cs, i) == cs[..n][i := cs[n]];
    }
  }

  lemma AllHoldAppend(cs: seq<Client>, c: Client, f: FrameId)
    ensures AllHold(cs + [c], f) == AllHold(cs, f) + Holds(c, f)
  {
    assert (cs + [c])[..|cs|] == cs;
  }

  ghost predicate Busy(ths: seq<Thread>) { forall th | th in ths :: th.Sending? ==> th.frame != NULL }

  /** What every step keeps: a count is the holders and the references lost, everything live is
      held or lost, and the main loop only writes into a frame nobody else holds. */
  ghost predicate Good(s: State) {
    && HeapOk(s.heap)
    && (forall f: FrameId :: s.heap.refs[f] == Holders(s, f) + s.lost[f])
    && (s.main.Writing? ==> s.shared != NULL && s.heap.refs[s.shared] == 1)
    && (forall c | c in s.clients :: Busy(c.threads)) && Busy(s.strays)
  }

  // ----- every step keeps it -----------------------------------------------------------

  lemma SetShared(s: State, h: Heap, x: FrameId, m: Main)
    requires Good(s) && HeapOk(h)
    requires forall f: FrameId :: h.refs[f] + Is(s.shared, f) == s.heap.refs[f] + Is(x, f)
    requires m.Writing? ==> x != NULL && h.refs[x] == 1
    ensures Good(s.(heap := h, shared := x, main := m))
  {
  }

  lemma FreshKeeps(s: State, ok: bool)
    requires Good(s)
    ensures Good(Fresh(s, ok).(main := if ok && s.main.Swapping? then Writing else Idle))
  {
    var h := Unref(s.heap, s.shared);
    SharedIsGivenUp(s, h);
    if ok {
      AllocOk(h);
      SetShared(s, Alloc(h), h.next, if s.main.Swapping? then Writing else Idle);
    } else {
      SetShared(s, h, NULL, Idle);
    }
  }

  lemma SharedIsGivenUp(s: State, h: Heap)
    requires Good(s) && h == Unref(s.heap, s.shared)
    ensures HeapOk(h) && forall f: FrameId :: h.refs[f] + Is(s.shared, f) == s.heap.refs[f]
  {
    assert Holders(s, s.shared) >= Is(s.shared, s.shared);
    UnrefOk(s.heap, s.shared);
  }

  lemma SetClient(s: State, h: Heap, i: nat, c: Client)
    requires Good(s) && i < |s.clients| && HeapOk(h) && Busy(c.threads)
    requires forall f: FrameId :: h.refs[f] == s.heap.refs[f] + Holds(c, f) - Holds(s.clients[i], f)
    requires s.main.Writing? ==> h.refs[s.shared] == 1
    ensures Good(s.(heap := h, clients := s.clients[i := c]))
  {
    var n := s.(heap := h, clients := s.clients[i := c]);
    forall f: FrameId ensures h.refs[f] == Holders(n, f) + s.lost[f] {
      AllHoldSet(s.clients, i, c, f);
    }
  }

  // A client's references are among those counted, beside the main loop's own.
  lemma ClientIsCounted(s: State, i: nat, f: FrameId)
    requires Good(s) && i < |s.clients|
    ensures Is(s.shared, f) + Is(s.audio, f) + Holds(s.clients[i], f) <= s.heap.refs[f]
  {
    AllHoldSet(s.clients, i, s.clients[i], f);
    assert Holders(s, f) <= s.heap.refs[f];
  }

  lemma PushCounts(q: seq<Entry>, e: Entry, f: FrameId)
    ensures var p := Pushed(q, e);
      multiset(Frames(p.queue))[f] + multiset(p.dropped)[f] == multiset(Frames(q))[f] + if f == e.frame then 1 else 0
  {
    PushConserves(q, e);
    var p := Pushed(q, e);
    assert (multiset(Frames(p.queue)) + multiset(p.dropped))[f] == (multiset(Frames(q)) + multiset{e.frame})[f];
  }

  lemma QueueDrops(s: State, i: nat, e: Entry)
    requires Good(s) && i < |s.clients| && e.frame in s.heap.refs
    ensures var h, p := Ref(s.heap, e.frame), Pushed(s.clients[i].queue, e);
      && HeapOk(UnrefAll(h, p.dropped))
      && forall f: FrameId :: UnrefAll(h, p.dropped).refs[f] + multiset(p.dropped)[f] == h.refs[f]
  {
    var h, p := Ref(s.heap, e.frame), Pushed(s.clients[i].queue, e);
    forall f: FrameId ensures multiset(p.dropped)[f] <= h.refs[f] {
      PushCounts(s.clients[i].queue, e, f);
      ClientIsCounted(s, i, f);
    }
    UnrefAllOk(h, p.dropped);
  }

  lemma QueueKeeps(s: State, i: nat, e: Entry)
    requires Good(s) && i < |s.clients| && s.main.Idle? && e.frame != NULL
    requires e.frame == s.shared || e.frame == s.audio
    ensures Good(Queue(s, i, e))
  {
    var c := s.clients[i];
    if !c.shutdown {
      ClientIsCounted(s, i, e.frame);
      QueueDrops(s, i, e);
      var p := Pushed(c.queue, e);
      var h := UnrefAll(Ref(s.heap, e.frame), p.dropped);
      var d := c.(queue := p.queue);
      forall f: FrameId ensures h.refs[f] == s.heap.refs[f] + Holds(d, f) - Holds(c, f) {
        PushCounts(c.queue, e, f);
      }
      assert c in s.clients;
      SetClient(s, h, i, d);
    }
  }

  lemma ReapKeeps(s: State, i: nat)
    requires Good(s) && Enabled(s, Reap(i))
    ensures Good(Next(s, Reap(i)))
  {
    var c, n := s.clients[i], Next(s, Reap(i));
    var fs: seq<FrameId> := Frames(c.queue);
    forall f: FrameId ensures multiset(fs)[f] <= s.heap.refs[f] {
      ClientIsCounted(s, i, f);
    }
    UnrefAllOk(s.heap, fs);
    forall f: FrameId ensures n.heap.refs[f] == Holders(n, f) + n.lost[f] {
      AllHoldRemoved(s.clients, i, f);
      ThreadsHoldConcat(s.strays, c.threads, f);
    }
    assert c in s.clients;
  }

  lemma TakeKeeps(s: State, i: nat, k: nat)
    requires Good(s) && Enabled(s, Action.Take(i, k))
    ensures Good(Next(s, Action.Take(i, k)))
  {
    var c := s.clients[i];
    var x := c.queue[0].frame;
    var d := Moved(c, k, Sending(x)).(queue := c.queue[1..]);
    assert Frames(c.queue) == [x] + Frames(c.queue[1..]);
    ClientIsCounted(s, i, NULL);
    forall f: FrameId ensures Holds(d, f) == Holds(c, f) {
      ThreadsHoldSet(c.threads, k, Sending(x), f);
    }
    assert c in s.clients;
    SetClient(s, s.heap, i, d);
  }

  // A thread that has sent its frame.
  lemma OneThreadLess(ths: seq<Thread>, k: nat, th: Thread)
    requires k < |ths| && ths[k].Sending? && !th.Sending?
    ensures forall f: FrameId :: ThreadsHold(ths[k := th], f) + Is(ths[k].frame, f) == ThreadsHold(ths, f)
  {
    forall f: FrameId ensures ThreadsHold(ths[k := th], f) + Is(ths[k].frame, f) == ThreadsHold(ths, f) {
      ThreadsHoldSet(ths, k, th, f);
    }
  }

  lemma SentCounts(s: State, i: nat, k: nat, th: Thread)
    requires Good(s) && i < |s.clients| && k < |s.clients[i].threads| && s.clients[i].threads[k].Sending? && !th.Sending?
    ensures var x, c := s.clients[i].threads[k].frame, s.clients[i];
      && x != NULL && HeapOk(Unref(s.heap, x)) && x in s.heap.refs
      && (forall f: FrameId :: Unref(s.heap, x).refs[f] == s.heap.refs[f] + Holds(Moved(c, k, th), f) - Holds(c, f))
      && (s.main.Writing? ==> x != s.shared)
  {
    var c := s.clients[i];
    var x := c.threads[k].frame;
    assert c in s.clients && c.threads[k] in c.threads;
    OneThreadLess(c.threads, k, th);
    ClientIsCounted(s, i, x);
    UnrefOk(s.heap, x);
  }

  lemma SentKeeps(s: State, i: nat, k: nat, ok: bool)
    requires Good(s) && Enabled(s, Sent(i, k, ok))
    ensures Good(Next(s, Sent(i, k, ok)))
  {
    var c, th := s.clients[i], if ok then Waiting else Failing;
    assert c in s.clients;
    SentCounts(s, i, k, th);
    SetClient(s, Unref(s.heap, c.threads[k].frame), i, Moved(c, k, th));
  }

  // The thread's frame is counted, beside the main loop's own.
  lemma StrayIsCounted(s: State, k: nat)
    requires Good(s) && k < |s.strays| && s.strays[k].Sending?
    ensures var x := s.strays[k].frame;
      x != NULL && s.heap.refs[x] >= 1 + Is(s.shared, x) && x in s.heap.refs
  {
    var x := s.strays[k].frame;
    assert s.strays[k] in s.strays;
    ThreadsHoldSet(s.strays, k, Exited, x);
    assert s.heap.refs[x] == Holders(s, x) + s.lost[x];
  }

  lemma StrayKeeps(s: State, k: nat)
    requires Good(s) && Enabled(s, StraySent(k))
    ensures Good(Next(s, StraySent(k)))
  {
    var x, ths := s.strays[k].frame, s.strays[k := Exited];
    StrayIsCounted(s, k);
    OneThreadLess(s.strays, k, Exited);
    UnrefOk(s.heap, x);
    SetStrays(s, Unref(s.heap, x), ths);
  }

  lemma SetStrays(s: State, h: Heap, ths: seq<Thread>)
    requires Good(s) && HeapOk(h) && Busy(ths)
    requires forall f: FrameId :: h.refs[f] + ThreadsHold(s.strays, f) == s.heap.refs[f] + ThreadsHold(ths, f)
    requires s.main.Writing? ==> h.refs[s.shared] == 1
    ensures Good(s.(heap := h, strays := ths))
  {
  }

  lemma StartHoldsNothing(f: FrameId)
    ensures ThreadsHold([Waiting], f) == 0
  {
    assert [Waiting][..0] == [];
  }

  lemma ConnectKeeps(s: State, ok: bool)
    requires Good(s)
    ensures Good(s.(clients := s.clients + [Client([], false, if ok then [Waiting] else [])]))
  {
    var c := Client([], false, if ok then [Waiting] else []);
    forall f: FrameId ensures AllHold(s.clients + [c], f) == AllHold(s.clients, f) {
      AllHoldAppend(s.clients, c, f);
      StartHoldsNothing(f);
    }
  }

  lemma AgainKeeps(s: State, i: nat, ok: bool)
    requires Good(s) && Enabled(s, Again(i, ok))
    ensures Good(Next(s, Again(i, ok)))
  {
    var c, n := s.clients[i], Next(s, Again(i, ok));
    forall f: FrameId ensures n.heap.refs[f] == Holders(n, f) + n.lost[f] {
      AllHoldSet(s.clients, i, Restarted(c, ok), f);
      ThreadsHoldConcat(c.threads, [Waiting], f);
      StartHoldsNothing(f);
      assert (s.lost + multiset(Frames(c.queue)))[f] == s.lost[f] + multiset(Frames(c.queue))[f];
    }
    assert c in s.clients;
  }

  lemma SetAudio(s: State, h: Heap, x: FrameId)
    requires Good(s) && s.main.Idle? && HeapOk(h)
    requires forall f: FrameId :: h.refs[f] + Is(s.audio, f) == s.heap.refs[f] + Is(x, f)
    ensures Good(s.(heap := h, audio := x))
  {
  }

  lemma AudioKeeps(s: State, a: Action)
    requires Good(s) && Enabled(s, a) && (a.NewAudio? || a.DropAudio?)
    ensures Good(Next(s, a))
  {
    if a.DropAudio? {
      assert Holders(s, s.audio) >= Is(s.audio, s.audio);
      UnrefOk(s.heap, s.audio);
      SetAudio(s, Unref(s.heap, s.audio), NULL);
    } else if a.ok {
      AllocOk(s.heap);
      SetAudio(s, Alloc(s.heap), s.heap.next);
    }
  }

  // A thread that holds nothing changes to another state in which it holds nothing.
  lemma ThreadMoves(s: State, i: nat, k: nat, th: Thread, shut: bool)
    requires Good(s) && i < |s.clients| && k < |s.clients[i].threads|
    requires !th.Sending? && !s.clients[i].threads[k].Sending?
    ensures Good(s.(clients := s.clients[i := Moved(s.clients[i], k, th).(shutdown := shut)]))
  {
    var c := s.clients[i];
    forall f: FrameId ensures ThreadsHold(c.threads[k := th], f) == ThreadsHold(c.threads, f) {
      ThreadsHoldSet(c.threads, k, th, f);
    }
    assert c in s.clients;
    SetClient(s, s.heap, i, Moved(c, k, th).(shutdown := shut));
  }

  lemma ShutKeeps(s: State, i: nat)
    requires Good(s) && i < |s.clients|
    ensures Good(s.(clients := s.clients[i := s.clients[i].(shutdown := true)]))
  {
    assert s.clients[i] in s.clients;
    SetClient(s, s.heap, i, s.clients[i].(shutdown := true));
  }

  lemma MainKeeps(s: State, a: Action, d: State)
    requires Good(s) && Enabled(s, a) && !OfClient(a) && d == Next(s, a)
    ensures Good(d)
  {
    match a
    case Grow(ok) => FreshKeeps(s, ok);
    case Swap(ok) => FreshKeeps(s, ok);
    case SeeShared =>
    case SeeOwn => assert Holders(s, s.shared) >= 1;
    case Wrote =>
    case NewAudio(_) => AudioKeeps(s, a);
    case DropAudio => AudioKeeps(s, a);
    case Connect(ok) => ConnectKeeps(s, ok);
    case StraySent(k) => StrayKeeps(s, k);
  }

  lemma ThreadKeeps(s: State, a: Action, d: State)
    requires Good(s) && Enabled(s, a) && OfThread(a) && d == Next(s, a)
    ensures Good(d)
  {
    match a
    case Take(i, k) => TakeKeeps(s, i, k);
    case Sent(i, k, ok) => SentKeeps(s, i, k, ok);
    case Fail(i, k) => ThreadMoves(s, i, k, Exited, true);
    case Quit(i, k) => ThreadMoves(s, i, k, Exited, s.clients[i].shutdown);
  }

  lemma ClientKeeps(s: State, a: Action, d: State)
    requires Good(s) && Enabled(s, a) && OfClient(a) && !OfThread(a) && d == Next(s, a)
    ensures Good(d)
  {
    match a
    case PushPicture(i) => QueueKeeps(s, i, Entry(Mjpeg, s.shared, 0, 0));
    case PushAudio(i, codec, rate) => QueueKeeps(s, i, Entry(Audio, s.audio, codec, rate));
    case Again(i, ok) => AgainKeeps(s, i, ok);
    case Reap(i) => ReapKeeps(s, i);
    case Shut(i) => ShutKeeps(s, i);
  }

  /** Any step of the main loop or of any thread, taken anywhere, keeps the counts right. */
  lemma StepKeepsGood(s: State, a: Action)
    requires Good(s) && Enabled(s, a)
    ensures Good(Next(s, a))
  {
    var d := Next(s, a);
    if !OfClient(a) {
      MainKeeps(s, a, d);
    } else if OfThread(a) {
      ThreadKeeps(s, a, d);
    } else {
      ClientKeeps(s, a, d);
    }
  }

  // ----- whole runs ----------------------------------------------------------------------

  ghost predicate Happened(ss: seq<State>, acts: seq<Action>, n: nat)
    requires n < |acts| && |ss| == |acts| + 1
  {
    Enabled(ss[n], acts[n]) && ss[n + 1] == Next(ss[n], acts[n])
  }

  ghost predicate Run(ss: seq<State>, acts: seq<Action>) {
    && |ss| == |acts| + 1 && ss[0] == BOOT
    && forall n {:trigger Happened(ss, acts, n)} | 0 <= n < |acts| :: Happened(ss, acts, n)
  }

  lemma {:induction false} RunsAreGood(ss: seq<State>, acts: seq<Action>, n: nat)
    requires Run(ss, acts) && n <= |acts|
    ensures Good(ss[n])
  {
    if n > 0 {
      RunsAreGood(ss, acts, n - 1);
      assert Happened(ss, acts, n - 1);
      StepKeepsGood(ss[n - 1], acts[n - 1]);
    } else {
      assert forall f: FrameId :: Holders(BOOT, f) == 0;
    }
  }

  ghost predicate InUse(s: State, f: FrameId) {
    (exists c | c in s.clients :: f in Frames(c.queue) || Sending(f) in c.threads) || Sending(f) in s.strays
  }

  lemma SendingIsCounted(ths: seq<Thread>, f: FrameId)
    requires f != NULL && Sending(f) in ths
    ensures ThreadsHold(ths, f) >= 1
  {
    var k :| 0 <= k < |ths| && ths[k] == Sending(f);
    ThreadsHoldSet(ths, k, ths[k], f);
  }

  lemma UsedIsHeld(s: State, f: FrameId)
    requires f != NULL && InUse(s, f)
    ensures AllHold(s.clients, f) + ThreadsHold(s.strays, f) >= 1
  {
    if Sending(f) in s.strays {
      SendingIsCounted(s.strays, f);
    } else {
      var i :| 0 <= i < |s.clients| && (f in Frames(s.clients[i].queue) || Sending(f) in s.clients[i].threads);
      var c := s.clients[i];
      AllHoldSet(s.clients, i, c, f);
      if f in Frames(c.queue) {
        assert multiset(Frames(c.queue))[f] >= 1;
      } else {
        SendingIsCounted(c.threads, f);
      }
    }
  }

  /** In every interleaving: nothing touches a frame that is not there; every frame is freed at
      most once, and exactly when nobody holds it and no reference to it was lost; and while the
      main loop writes into the shared frame no queue holds it and no thread is sending it. */
  lemma FramesAreSafe(ss: seq<State>, acts: seq<Action>, n: nat, f: FrameId)
    requires Run(ss, acts) && n <= |acts|
    ensures !ss[n].heap.fault
    ensures ss[n].heap.freed[f] <= 1
    ensures NULL < f < ss[n].heap.next ==> (ss[n].heap.freed[f] == 1 <==> Holders(ss[n], f) == 0 && f !in ss[n].lost)
    ensures ss[n].heap.refs[f] == Holders(ss[n], f) + ss[n].lost[f]
    ensures ss[n].main.Writing? ==> ss[n].shared != NULL && !InUse(ss[n], ss[n].shared)
  {
    var s := ss[n];
    RunsAreGood(ss, acts, n);
    if s.main.Writing? && InUse(s, s.shared) {
      UsedIsHeld(s, s.shared);
    }
  }

  // ----- requests handled again ----------------------------------------------------------

  // A client with frames waiting sends more after its request.
  predicate Wipes(s: State, a: Action) { a.Again? && a.i < |s.clients| && s.clients[a.i].queue != [] }

  /** Counts are right, and every frame nobody holds is freed, exactly in the runs in which no
      client with frames waiting sends more after its request. */
  lemma {:induction false} NothingIsLostIff(ss: seq<State>, acts: seq<Action>, n: nat)
    requires Run(ss, acts) && n <= |acts|
    ensures (forall f: FrameId :: ss[n].heap.refs[f] == Holders(ss[n], f)) <==> (forall m | 0 <= m < n :: !Wipes(ss[m], acts[m]))
    ensures ss[n].lost == multiset{} <==> (forall m | 0 <= m < n :: !Wipes(ss[m], acts[m]))
  {
    RunsAreGood(ss, acts, n);
    LostIff(ss, acts, n);
    if ss[n].lost != multiset{} {
      var f :| f in ss[n].lost;
      assert ss[n].heap.refs[f] != Holders(ss[n], f);
    }
  }

  lemma {:induction false} LostIff(ss: seq<State>, acts: seq<Action>, n: nat)
    requires Run(ss, acts) && n <= |acts|
    ensures ss[n].lost == multiset{} <==> (forall m | 0 <= m < n :: !Wipes(ss[m], acts[m]))
  {
    if n > 0 {
      LostIff(ss, acts, n - 1);
      var s, a := ss[n - 1], acts[n - 1];
      assert Happened(ss, acts, n - 1);
      OnlyWipesLose(s, a, ss[n]);
    }
  }

  lemma OnlyWipesLose(s: State, a: Action, d: State)
    requires Enabled(s, a) && d == Next(s, a)
    ensures s.lost <= d.lost && (d.lost == s.lost <==> !Wipes(s, a))
  {
    if a.Again? {
      var q: seq<FrameId> := Frames(s.clients[a.i].queue);
      if Wipes(s, a) {
        assert q[0] in multiset(q);
        assert d.lost[q[0]] > s.lost[q[0]];
      } else {
        assert q == [];
      }
    }
  }

  // A second thread is started for a client that has one.
  predicate Doubles(s: State, a: Action) { a.Again? && a.ok && a.i < |s.clients| && s.clients[a.i].threads != [] }

  ghost predicate OneEach(s: State) { forall c | c in s.clients :: |c.threads| <= 1 }

  // What a client's action does to the threads of that client, and of nobody else.
  lemma ClientsStay(s: State, a: Action, c: Client)
    requires Enabled(s, a) && c in Next(s, a).clients
    ensures c in s.clients || a.Connect? || (OfClient(a) && !a.Reap? && c == Next(s, a).clients[a.i])
    ensures a.Connect? && c !in s.clients ==> |c.threads| <= 1
  {
  }

  lemma ThreadsOf(s: State, a: Action)
    requires Enabled(s, a) && OfClient(a) && !a.Reap?
    ensures |Next(s, a).clients[a.i].threads| == |s.clients[a.i].threads| + if a.Again? && a.ok then 1 else 0
  {
  }

  lemma StepKeepsOneEach(s: State, a: Action, d: State)
    requires OneEach(s) && Enabled(s, a) && d == Next(s, a)
    ensures OneEach(d) <==> !Doubles(s, a)
  {
    if OfClient(a) && !a.Reap? {
      ThreadsOf(s, a);
      assert s.clients[a.i] in s.clients;
    }
    if Doubles(s, a) {
      assert d.clients[a.i] in d.clients;
    } else {
      forall c | c in d.clients ensures |c.threads| <= 1 { ClientsStay(s, a, c); }
    }
  }

  ghost predicate NoDouble(ss: seq<State>, acts: seq<Action>, n: nat) {
    forall m | 0 <= m < n && m < |acts| && m < |ss| :: !Doubles(ss[m], acts[m])
  }

  ghost predicate AlwaysOneEach(ss: seq<State>, n: nat) { forall m | 0 <= m <= n && m < |ss| :: OneEach(ss[m]) }

  /** Every client has one thread at most, at every moment up to the nth, if and only if no request is
      handled again for a client that has a thread. */
  lemma {:induction false} OneThreadIff(ss: seq<State>, acts: seq<Action>, n: nat)
    requires Run(ss, acts) && n <= |acts|
    ensures AlwaysOneEach(ss, n) <==> NoDouble(ss, acts, n)
  {
    if n > 0 {
      var s, a := ss[n - 1], acts[n - 1];
      OneThreadIff(ss, acts, n - 1);
      assert Happened(ss, acts, n - 1);
      assert NoDouble(ss, acts, n) <==> NoDouble(ss, acts, n - 1) && !Doubles(s, a);
      assert AlwaysOneEach(ss, n) <==> AlwaysOneEach(ss, n - 1) && OneEach(ss[n]);
      if OneEach(s) { StepKeepsOneEach(s, a, ss[n]); }
    }
  }

  ghost predicate AllEnded(ths: seq<Thread>) { forall th | th in ths :: th.Exited? }

  lemma StepLeavesNone(s: State, a: Action, d: State)
    requires OneEach(s) && AllEnded(s.strays) && Enabled(s, a) && d == Next(s, a)
    ensures AllEnded(d.strays)
  {
    if a.Reap? {
      var c := s.clients[a.i];
      assert c in s.clients;
      forall th | th in d.strays ensures th.Exited? { assert th in s.strays || th in c.threads; }
    }
  }

  /** And in such a run no thread outlives its client. */
  lemma {:induction false} ThreadsEndWithTheirClient(ss: seq<State>, acts: seq<Action>, n: nat)
    requires Run(ss, acts) && n <= |acts| && NoDouble(ss, acts, n)
    ensures AllEnded(ss[n].strays)
  {
    if n > 0 {
      ThreadsEndWithTheirClient(ss, acts, n - 1);
      OneThreadIff(ss, acts, n - 1);
      assert Happened(ss, acts, n - 1);
      StepLeavesNone(ss[n - 1], acts[n - 1], ss[n]);
    }
  }

  // ----- the walk over the clients -------------------------------------------------------

  // A client as stream_mjpeg_frame sees it: whether it watches this stream, and whether its
  // thread is gone or its queue refuses the frame.
  datatype Viewer = Viewer(id: nat, watching: bool, gone: bool)

  function Staying(vs: seq<Viewer>): seq<Viewer> {
    if vs == [] then []
    else (if vs[0].watching && vs[0].gone then [] else [vs[0]]) + Staying(vs[1..])
  }

  // Taking the last client's place leaves those before alone, and the rest in some order.
  lemma RemovedAt<T>(s: seq<T>, i: nat)
    requires i < |s|
    ensures Removed(s, i)[..i] == s[..i]
    ensures multiset(Removed(s, i)[i..]) == multiset(s[i + 1..])
  {
    var n := |s| - 1;
    if i < n { LastMovesUp(s, i, n, s[i + 1..n], s[n]); }
  }

  lemma LastMovesUp<T>(s: seq<T>, i: nat, n: nat, mid: seq<T>, last: T)
    requires i < n == |s| - 1 && mid == s[i + 1..n] && last == s[n]
    ensures Removed(s, i)[..i] == s[..i]
    ensures multiset(Removed(s, i)[i..]) == multiset(s[i + 1..])
  {
    assert Removed(s, i)[i..] == [last] + mid;
    assert s[i + 1..] == mid + [last];
    assert multiset([last] + mid) == multiset(mid + [last]);
  }

  method RemoveClient(clients: array<Viewer>, count: nat, i: nat) returns (left: nat)
    requires i < count <= clients.Length
    modifies clients
    ensures left == count - 1 && clients[..left] == Removed(old(clients[..count]), i)
  {
    left := count - 1;
    clients[i] := clients[left];
  }

  // The clients from i on have been seen, and those of them that stay are still there.
  ghost predicate Seen(now: seq<Viewer>, was: seq<Viewer>, i: nat) {
    i <= |now| <= |was| && now[..i] == was[..i] && multiset(now[i..]) == multiset(Staying(was[i..]))
  }

  lemma SeenOneMore(now: seq<Viewer>, was: seq<Viewer>, i: nat)
    requires Seen(now, was, i + 1)
    ensures now[i] == was[i]
    ensures Seen(if was[i].watching && was[i].gone then Removed(now, i) else now, was, i)
  {
    assert now[i] == now[..i + 1][i] == was[..i + 1][i] == was[i];
    assert now[..i] == now[..i + 1][..i] && was[..i] == was[..i + 1][..i];
    assert was[i..] == [was[i]] + was[i + 1..];
    RemovedAt(now, i);
    assert now[i..] == [now[i]] + now[i + 1..];
  }

  /** Removing clients on the way down does not make the walk miss one or see one twice: it sees
      them all, last to first, and exactly those that are gone are no longer there. */
  method StreamFrame(clients: array<Viewer>, count: nat) returns (left: nat, visited: seq<Viewer>)
    requires count <= clients.Length
    modifies clients
    ensures left <= count
    ensures |visited| == count && forall k | 0 <= k < count :: visited[k] == old(clients[..count])[count - 1 - k]
    ensures multiset(clients[..left]) == multiset(Staying(old(clients[..count])))
  {
    ghost var was := clients[..count];
    left, visited := count, [];
    var i := count;
    while i > 0
      invariant 0 <= i <= left <= count
      invariant Seen(clients[..left], was, i)
      invariant |visited| == count - i && forall k | 0 <= k < count - i :: visited[k] == was[count - 1 - k]
    {
      i := i - 1;
      SeenOneMore(clients[..left], was, i);
      var c := clients[i];
      visited := visited + [c];
      if c.watching && c.gone {
        left := RemoveClient(clients, left, i);
      }
    }
    assert was[0..] == was && clients[..left][0..] == clients[..left];
  }
}
