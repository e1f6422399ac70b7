/**
 * The order a client of rhd is sent its frames in (rhd/rhd_main.c), over the runs of module
 * FrameSharing. A connection is followed from its request on through the changes of its place among
 * the clients; its frames are numbered as they are pushed, because the same buffer can be pushed
 * more than once.
 */
module FrameOrder {
  import SendQueue
  import opened FrameSharing

  type FrameId = SendQueue.FrameId
  const NULL := SendQueue.NULL

  // The life of one connection: what was done to its queue, the buffers pushed to it, the number of
  // the frame each of its threads has in hand (0 for none), and the numbers that went out.
  datatype Trip = Trip(ops: seq<SendQueue.Op>, pushed: seq<FrameId>, hands: seq<nat>, sent: seq<nat>)

  // Where a connection is among the clients.
  datatype Spot = Gone | Spot(place: nat, trip: Trip)

  function Past(t: Trip): SendQueue.History { SendQueue.Live(t.ops) }

  function First(ok: bool): Trip { Trip([], [], if ok then [0] else [], []) }

  function Pushes(t: Trip, kind: SendQueue.Kind, f: FrameId): Trip {
    t.(ops := t.ops + [SendQueue.Push(kind)], pushed := t.pushed + [f])
  }

  // What an action on the connection's own client adds.
  function Did(t: Trip, s: State, c: Client, a: Action): Trip {
    match a
    case PushPicture(_) => if c.shutdown then t else Pushes(t, SendQueue.Mjpeg, s.shared)
    case PushAudio(_, _, _) => if c.shutdown then t else Pushes(t, SendQueue.Audio, s.audio)
    case Take(_, k) =>
      if k >= |t.hands| || Past(t).waiting == [] then t
      else t.(ops := t.ops + [SendQueue.Op.Take], hands := t.hands[k := Past(t).waiting[0].frame])
    case Sent(_, k, _) => if k >= |t.hands| then t else t.(hands := t.hands[k := 0], sent := t.sent + [t.hands[k]])
    case Again(_, ok) => t.(ops := t.ops + [SendQueue.Wipe], hands := if ok then t.hands + [0] else t.hands)
    case _ => t
  }

  function After(s: State, a: Action, p: Spot): Spot {
    if p.Gone? || p.place >= |s.clients| then Gone
    else if a.Reap? then
      if a.i == p.place then Gone else if p.place == |s.clients| - 1 then p.(place := a.i) else p
    else if OfClient(a) && a.i == p.place then p.(trip := Did(p.trip, s, s.clients[p.place], a))
    else p
  }

  // The connection made by the mth action, n actions into the run.
  ghost function Track(ss: seq<State>, acts: seq<Action>, m: nat, n: nat): Spot
    requires Run(ss, acts) && m < n <= |acts| && acts[m].Connect?
    decreases n
  {
    if n == m + 1 then Spot(|ss[m].clients|, First(acts[m].ok)) else After(ss[n - 1], acts[n - 1], Track(ss, acts, m, n - 1))
  }

  // ----- the numbers are those of the frames ---------------------------------------------

  // The queue of the client holds the buffers of the numbers waiting.
  ghost predicate SameQueue(w: seq<SendQueue.Entry>, q: seq<SendQueue.Entry>, pushed: seq<FrameId>) {
    |w| == |q| && forall x | 0 <= x < |w| :: w[x].kind == q[x].kind && 1 <= w[x].frame <= |pushed| && q[x].frame == pushed[w[x].frame - 1]
  }

  // A thread is sending exactly when it has a number in hand, and it is sending that number's buffer.
  predicate SameHand(h: nat, th: Thread, pushed: seq<FrameId>) {
    if h == 0 then !th.Sending? else h <= |pushed| && th == Sending(pushed[h - 1])
  }

  ghost predicate SameHands(hs: seq<nat>, ths: seq<Thread>, pushed: seq<FrameId>) {
    |hs| == |ths| && forall k | 0 <= k < |hs| :: SameHand(hs[k], ths[k], pushed)
  }

  ghost predicate Matches(t: Trip, c: Client) {
    && |t.pushed| == Past(t).pushed
    && SameQueue(Past(t).waiting, c.queue, t.pushed)
    && SameHands(t.hands, c.threads, t.pushed)
  }

  ghost predicate Tied(s: State, p: Spot) { p.Spot? ==> p.place < |s.clients| && Matches(p.trip, s.clients[p.place]) }

  lemma OneMore(ops: seq<SendQueue.Op>, op: SendQueue.Op)
    ensures SendQueue.Live(ops + [op]) == SendQueue.Next(SendQueue.Live(ops), op)
  {
    assert (ops + [op])[..|ops|] == ops;
  }

  lemma {:induction false} SameFirst(w: seq<SendQueue.Entry>, q: seq<SendQueue.Entry>)
    requires |w| == |q| && forall x | 0 <= x < |w| :: w[x].kind == q[x].kind
    ensures SendQueue.FirstPicture(w) == SendQueue.FirstPicture(q)
  {
  }

  lemma {:induction false} SamePush(w: seq<SendQueue.Entry>, q: seq<SendQueue.Entry>, pushed: seq<FrameId>, e: SendQueue.Entry, d: SendQueue.Entry)
    requires SameQueue(w, q, pushed) && d.kind == e.kind && e.frame == |pushed| + 1
    ensures SameQueue(SendQueue.Pushed(w, e).queue, SendQueue.Pushed(q, d).queue, pushed + [d.frame])
  {
    SameFirst(w, q);
  }

  lemma {:induction false} PushTied(t: Trip, c: Client, kind: SendQueue.Kind, d: SendQueue.Entry)
    requires Matches(t, c) && d.kind == kind
    ensures Matches(Pushes(t, kind, d.frame), c.(queue := SendQueue.Pushed(c.queue, d).queue))
  {
    OneMore(t.ops, SendQueue.Push(kind));
    SamePush(Past(t).waiting, c.queue, t.pushed, SendQueue.Entry(kind, Past(t).pushed + 1, 0, 0), d);
    forall k | 0 <= k < |t.hands| ensures SameHand(t.hands[k], c.threads[k], t.pushed + [d.frame]) {
      assert SameHand(t.hands[k], c.threads[k], t.pushed);
    }
  }

  // One thread gets another frame, or none, and another state.
  lemma HandsMove(hs: seq<nat>, ths: seq<Thread>, pushed: seq<FrameId>, k: nat, h: nat, th: Thread)
    requires SameHands(hs, ths, pushed) && k < |ths| && SameHand(h, th, pushed)
    ensures SameHands(hs[k := h], ths[k := th], pushed)
  {
  }

  lemma {:induction false} TakeTied(t: Trip, s: State, c: Client, i: nat, k: nat)
    requires Matches(t, c) && k < |c.threads| && c.queue != []
    ensures Matches(Did(t, s, c, Action.Take(i, k)), Moved(c, k, Sending(c.queue[0].frame)).(queue := c.queue[1..]))
  {
    OneMore(t.ops, SendQueue.Op.Take);
    HandsMove(t.hands, c.threads, t.pushed, k, Past(t).waiting[0].frame, Sending(c.queue[0].frame));
  }

  lemma {:induction false} MoveTied(t: Trip, c: Client, k: nat, th: Thread, sent: seq<nat>, shut: bool)
    requires Matches(t, c) && k < |c.threads| && !th.Sending?
    ensures Matches(t.(hands := t.hands[k := 0], sent := sent), Moved(c, k, th).(shutdown := shut))
  {
    HandsMove(t.hands, c.threads, t.pushed, k, 0, th);
  }

  lemma {:induction false} AgainTied(t: Trip, s: State, c: Client, i: nat, ok: bool)
    requires Matches(t, c)
    ensures Matches(Did(t, s, c, Again(i, ok)), Restarted(c, ok))
  {
    OneMore(t.ops, SendQueue.Wipe);
    HandsGrow(t.hands, c.threads, t.pushed);
  }

  lemma HandsGrow(hs: seq<nat>, ths: seq<Thread>, pushed: seq<FrameId>)
    requires SameHands(hs, ths, pushed)
    ensures SameHands(hs + [0], ths + [Waiting], pushed)
  {
  }

  lemma {:induction false} PushesTied(s: State, a: Action, t: Trip)
    requires Enabled(s, a) && (a.PushPicture? || a.PushAudio?) && Matches(t, s.clients[a.i])
    ensures Matches(Did(t, s, s.clients[a.i], a), Next(s, a).clients[a.i])
  {
    var c := s.clients[a.i];
    if a.PushPicture? {
      PushTied(t, c, SendQueue.Mjpeg, SendQueue.Entry(SendQueue.Mjpeg, s.shared, 0, 0));
    } else {
      PushTied(t, c, SendQueue.Audio, SendQueue.Entry(SendQueue.Audio, s.audio, a.codec, a.rate));
    }
  }

  lemma {:induction false} ThreadTied(s: State, a: Action, t: Trip)
    requires Enabled(s, a) && OfThread(a) && Matches(t, s.clients[a.i])
    ensures Matches(Did(t, s, s.clients[a.i], a), Next(s, a).clients[a.i])
  {
    var c := s.clients[a.i];
    match a
    case Take(i, k) => TakeTied(t, s, c, i, k);
    case Sent(_, k, ok) => MoveTied(t, c, k, if ok then Waiting else Failing, t.sent + [t.hands[k]], c.shutdown);
    case Fail(_, k) => Unmoved(t, c, k); MoveTied(t, c, k, Exited, t.sent, true);
    case Quit(_, k) => Unmoved(t, c, k); MoveTied(t, c, k, Exited, t.sent, c.shutdown);
  }

  lemma {:induction false} OwnTied(s: State, a: Action, t: Trip)
    requires Enabled(s, a) && OfClient(a) && !a.Reap? && Matches(t, s.clients[a.i])
    ensures Matches(Did(t, s, s.clients[a.i], a), Next(s, a).clients[a.i])
  {
    if a.PushPicture? || a.PushAudio? {
      PushesTied(s, a, t);
    } else if a.Again? {
      AgainTied(t, s, s.clients[a.i], a.i, a.ok);
    } else if OfThread(a) {
      ThreadTied(s, a, t);
    }
  }

  lemma Unmoved(t: Trip, c: Client, k: nat)
    requires Matches(t, c) && k < |c.threads| && !c.threads[k].Sending?
    ensures t.(hands := t.hands[k := 0], sent := t.sent) == t
  {
    assert SameHand(t.hands[k], c.threads[k], t.pushed);
    assert t.hands[k := 0] == t.hands;
  }

  // A client that is not acted on keeps everything but perhaps its place.
  lemma OtherStays(s: State, a: Action, i: nat)
    requires Enabled(s, a) && i < |s.clients| && !(OfClient(a) && a.i == i)
    ensures var j := if a.Reap? && i == |s.clients| - 1 then a.i else i;
      j < |Next(s, a).clients| && Next(s, a).clients[j] == s.clients[i]
  {
  }

  lemma {:induction false} StepTied(s: State, a: Action, d: State, p: Spot, q: Spot)
    requires Enabled(s, a) && d == Next(s, a) && Tied(s, p) && q == After(s, a, p)
    ensures Tied(d, q)
  {
    if p.Spot? {
      if OfClient(a) && a.i == p.place {
        if !a.Reap? { OwnTied(s, a, p.trip); }
      } else {
        OtherStays(s, a, p.place);
      }
    }
  }

  lemma FirstTied(s: State, ok: bool, d: State)
    requires Enabled(s, Connect(ok)) && d == Next(s, Connect(ok))
    ensures Tied(d, Spot(|s.clients|, First(ok)))
  {
    assert SameHand(0, Waiting, []);
  }

  /** The numbers of a connection are those of its frames, at every moment of every run. */
  lemma {:induction false} TrackTied(ss: seq<State>, acts: seq<Action>, m: nat, n: nat)
    requires Run(ss, acts) && m < n <= |acts| && acts[m].Connect?
    ensures Tied(ss[n], Track(ss, acts, m, n))
    decreases n
  {
    assert Happened(ss, acts, n - 1);
    if n == m + 1 {
      FirstTied(ss[m], acts[m].ok, ss[n]);
    } else {
      TrackTied(ss, acts, m, n - 1);
      StepTied(ss[n - 1], acts[n - 1], ss[n], Track(ss, acts, m, n - 1), Track(ss, acts, m, n));
    }
  }

  // ----- one thread sends in order -------------------------------------------------------

  // A thread that is sending, or may yet take a frame.
  predicate Able(th: Thread) { th.Waiting? || th.Sending? }

  ghost predicate OneAble(ths: seq<Thread>) { forall j, k | 0 <= j < k < |ths| :: !(Able(ths[j]) && Able(ths[k])) }

  // A request is handled again while a thread of its client is able, and starts another.
  predicate Overlaps(s: State, a: Action) {
    a.Again? && a.ok && a.i < |s.clients| && exists th | th in s.clients[a.i].threads :: Able(th)
  }

  lemma AbleMoves(ths: seq<Thread>, k: nat, th: Thread)
    requires OneAble(ths) && k < |ths| && (Able(th) ==> Able(ths[k]))
    ensures OneAble(ths[k := th])
  {
  }

  lemma AbleGrows(ths: seq<Thread>)
    requires OneAble(ths)
    ensures OneAble(ths + [Waiting]) <==> forall th | th in ths :: !Able(th)
  {
    var more := ths + [Waiting];
    if k :| 0 <= k < |ths| && Able(ths[k]) { assert Able(more[k]) && Able(more[|ths|]); }
  }

  lemma OwnAble(s: State, a: Action)
    requires Enabled(s, a) && OfClient(a) && !a.Reap? && OneAble(s.clients[a.i].threads)
    ensures OneAble(Next(s, a).clients[a.i].threads) <==> !Overlaps(s, a)
  {
    var ths := s.clients[a.i].threads;
    match a
    case Again(_, ok) => AbleGrows(ths);
    case Take(i, k) => AbleMoves(ths, k, Sending(s.clients[i].queue[0].frame));
    case Sent(_, k, ok) => AbleMoves(ths, k, if ok then Waiting else Failing);
    case Fail(_, k) => AbleMoves(ths, k, Exited);
    case Quit(_, k) => AbleMoves(ths, k, Exited);
    case _ =>
  }

  ghost predicate OneAbleEach(s: State) { forall c | c in s.clients :: OneAble(c.threads) }

  lemma StepKeepsOneAble(s: State, a: Action, d: State)
    requires OneAbleEach(s) && Enabled(s, a) && d == Next(s, a)
    ensures OneAbleEach(d) <==> !Overlaps(s, a)
  {
    if OfClient(a) && !a.Reap? {
      assert s.clients[a.i] in s.clients;
      OwnAble(s, a);
      if Overlaps(s, a) { assert d.clients[a.i] in d.clients; }
    }
    if !Overlaps(s, a) {
      forall c | c in d.clients ensures OneAble(c.threads) { ClientsStay(s, a, c); }
    }
  }

  ghost predicate NoOverlap(ss: seq<State>, acts: seq<Action>, n: nat) {
    forall m | 0 <= m < n && m < |acts| && m < |ss| :: !Overlaps(ss[m], acts[m])
  }

  ghost predicate AlwaysOneAble(ss: seq<State>, n: nat) { forall m | 0 <= m <= n && m < |ss| :: OneAbleEach(ss[m]) }

  /** No client has two able threads, at any moment up to the nth, if and only if no request is handled
      again while a thread of its client is able. */
  lemma {:induction false} OneAbleIff(ss: seq<State>, acts: seq<Action>, n: nat)
    requires Run(ss, acts) && n <= |acts|
    ensures AlwaysOneAble(ss, n) <==> NoOverlap(ss, acts, n)
  {
    if n > 0 {
      var s, a := ss[n - 1], acts[n - 1];
      OneAbleIff(ss, acts, n - 1);
      assert Happened(ss, acts, n - 1);
      assert NoOverlap(ss, acts, n) <==> NoOverlap(ss, acts, n - 1) && !Overlaps(s, a);
      assert AlwaysOneAble(ss, n) <==> AlwaysOneAble(ss, n - 1) && OneAbleEach(ss[n]);
      if OneAbleEach(s) { StepKeepsOneAble(s, a, ss[n]); }
    }
  }

  // With one able thread, what was taken has been sent, or is in that thread's hand.
  ghost predicate InTurn(t: Trip) {
    && (forall k | 0 <= k < |t.hands| && t.hands[k] != 0 :: Past(t).taken == t.sent + [t.hands[k]])
    && ((forall k | 0 <= k < |t.hands| :: t.hands[k] == 0) ==> Past(t).taken == t.sent)
  }

  // While one thread is able, the others have nothing in hand.
  lemma OthersAreEmpty(t: Trip, c: Client, k: nat)
    requires Matches(t, c) && OneAble(c.threads) && k < |c.threads| && Able(c.threads[k])
    ensures forall j | 0 <= j < |t.hands| && j != k :: t.hands[j] == 0
    ensures t.hands[k] != 0 <==> c.threads[k].Sending?
  {
    assert SameHand(t.hands[k], c.threads[k], t.pushed);
    forall j | 0 <= j < |t.hands| && j != k ensures t.hands[j] == 0 {
      assert SameHand(t.hands[j], c.threads[j], t.pushed) && !Able(c.threads[j]);
    }
  }

  lemma {:induction false} TakeInTurn(t: Trip, s: State, c: Client, i: nat, k: nat)
    requires Matches(t, c) && InTurn(t) && OneAble(c.threads) && k < |c.threads| && c.threads[k].Waiting? && c.queue != []
    ensures InTurn(Did(t, s, c, Action.Take(i, k)))
  {
    OneMore(t.ops, SendQueue.Op.Take);
    OthersAreEmpty(t, c, k);
    var d := Did(t, s, c, Action.Take(i, k));
    assert d.hands[k] == Past(t).waiting[0].frame >= 1 && Past(d).taken == t.sent + [d.hands[k]];
  }

  lemma {:induction false} SentInTurn(t: Trip, s: State, c: Client, i: nat, k: nat, ok: bool)
    requires Matches(t, c) && InTurn(t) && OneAble(c.threads) && k < |c.threads| && c.threads[k].Sending?
    ensures InTurn(Did(t, s, c, Sent(i, k, ok)))
  {
    OthersAreEmpty(t, c, k);
  }

  lemma {:induction false} DidInTurn(t: Trip, s: State, a: Action)
    requires Enabled(s, a) && OfClient(a) && Matches(t, s.clients[a.i]) && InTurn(t) && OneAble(s.clients[a.i].threads)
    ensures InTurn(Did(t, s, s.clients[a.i], a))
  {
    var c := s.clients[a.i];
    match a
    case PushPicture(_) => OneMore(t.ops, SendQueue.Push(SendQueue.Mjpeg));
    case PushAudio(_, _, _) => OneMore(t.ops, SendQueue.Push(SendQueue.Audio));
    case Take(i, k) => TakeInTurn(t, s, c, i, k);
    case Sent(i, k, ok) => SentInTurn(t, s, c, i, k, ok);
    case Again(_, ok) => AgainInTurn(t, ok);
    case _ =>
  }

  lemma {:induction false} AgainInTurn(t: Trip, ok: bool)
    requires InTurn(t)
    ensures InTurn(t.(ops := t.ops + [SendQueue.Wipe], hands := if ok then t.hands + [0] else t.hands))
  {
    OneMore(t.ops, SendQueue.Wipe);
    if forall k | 0 <= k < |t.hands + [0]| :: (t.hands + [0])[k] == 0 {
      forall k | 0 <= k < |t.hands| ensures t.hands[k] == 0 { assert (t.hands + [0])[k] == t.hands[k]; }
    }
  }

  lemma {:induction false} StepInTurn(s: State, a: Action, p: Spot, q: Spot)
    requires Enabled(s, a) && OneAbleEach(s) && Tied(s, p) && q == After(s, a, p)
    requires p.Spot? ==> InTurn(p.trip)
    ensures q.Spot? ==> InTurn(q.trip)
  {
    if p.Spot? && OfClient(a) && !a.Reap? && a.i == p.place {
      assert s.clients[a.i] in s.clients;
      DidInTurn(p.trip, s, a);
    }
  }

  lemma {:induction false} TrackInTurn(ss: seq<State>, acts: seq<Action>, m: nat, n: nat)
    requires Run(ss, acts) && m < n <= |acts| && acts[m].Connect? && NoOverlap(ss, acts, n)
    ensures Track(ss, acts, m, n).Spot? ==> InTurn(Track(ss, acts, m, n).trip)
    decreases n
  {
    if n > m + 1 {
      TrackInTurn(ss, acts, m, n - 1);
      TrackTied(ss, acts, m, n - 1);
      OneAbleIff(ss, acts, n - 1);
      assert Happened(ss, acts, n - 1) && AlwaysOneAble(ss, n - 1);
      StepInTurn(ss[n - 1], acts[n - 1], Track(ss, acts, m, n - 1), Track(ss, acts, m, n));
    }
  }

  /** Over every run in which no request is handled again while a thread of its client is able: a
      connection is sent exactly what was taken from its queue, in that order, but for the one frame in
      hand; and if it is of one kind, in the order of the pushes, no frame twice. */
  lemma {:induction false} OneThreadSendsInOrder(ss: seq<State>, acts: seq<Action>, m: nat, n: nat, kind: SendQueue.Kind)
    requires Run(ss, acts) && m < n <= |acts| && acts[m].Connect? && NoOverlap(ss, acts, n)
    requires Track(ss, acts, m, n).Spot?
    ensures var t := Track(ss, acts, m, n).trip;
      && t.sent <= Past(t).taken && |Past(t).taken| <= |t.sent| + 1
      && (SendQueue.Only(kind, t.ops) ==> SendQueue.Ascending(t.sent))
  {
    TrackInTurn(ss, acts, m, n);
    SentIsPrefix(Track(ss, acts, m, n).trip, kind);
  }

  lemma {:induction false} SentIsPrefix(t: Trip, kind: SendQueue.Kind)
    requires InTurn(t)
    ensures t.sent <= Past(t).taken && |Past(t).taken| <= |t.sent| + 1
    ensures SendQueue.Only(kind, t.ops) ==> SendQueue.Ascending(t.sent)
  {
    var taken := Past(t).taken;
    if k :| 0 <= k < |t.hands| && t.hands[k] != 0 { assert taken == t.sent + [t.hands[k]]; }
    if SendQueue.Only(kind, t.ops) {
      SendQueue.OneKindStaysInOrder(kind, t.ops);
      assert t.sent + taken[|t.sent|..] == taken;
      Prefix(t.sent, taken[|t.sent|..], SendQueue.Frames(Past(t).waiting));
    }
  }

  lemma Prefix(a: seq<nat>, b: seq<nat>, c: seq<nat>)
    requires SendQueue.Ascending(a + b + c)
    ensures SendQueue.Ascending(a)
  {
    forall i, j | 0 <= i < j < |a| ensures a[i] < a[j] {
      assert (a + b + c)[i] == a[i] && (a + b + c)[j] == a[j];
    }
  }

  // ----- two threads need not ------------------------------------------------------------

  // No two threads have the same number in hand, and what they have in hand was taken.
  ghost predicate OwnHands(t: Trip) {
    && (forall k | 0 <= k < |t.hands| :: t.hands[k] == 0 || t.hands[k] in Past(t).taken)
    && (forall j, k | 0 <= j < k < |t.hands| :: t.hands[j] == t.hands[k] ==> t.hands[j] == 0)
  }

  lemma {:induction false} NextIsNew(ops: seq<SendQueue.Op>)
    requires SendQueue.Live(ops).waiting != []
    ensures SendQueue.Live(ops).waiting[0].frame !in SendQueue.Live(ops).taken
  {
    var h := SendQueue.Live(ops);
    SendQueue.EveryFrameOnce(ops, h.waiting[0].frame);
    assert SendQueue.Frames(h.waiting)[0] in multiset(SendQueue.Frames(h.waiting));
  }

  lemma TakenGrows(t: Trip, ops: seq<SendQueue.Op>, x: nat, k: nat)
    requires OwnHands(t) && k < |t.hands| && x !in Past(t).taken && SendQueue.Live(ops).taken == Past(t).taken + [x]
    ensures OwnHands(t.(ops := ops, hands := t.hands[k := x]))
  {
    assert forall y | y in Past(t).taken :: y in Past(t).taken + [x];
    assert x in Past(t).taken + [x];
  }

  lemma SameOwnHands(t: Trip, d: Trip)
    requires OwnHands(t) && d.hands == t.hands && Past(d).taken == Past(t).taken
    ensures OwnHands(d)
  {
  }

  lemma {:induction false} TakeOwnHands(t: Trip, k: nat)
    requires OwnHands(t) && k < |t.hands| && Past(t).waiting != []
    ensures OwnHands(t.(ops := t.ops + [SendQueue.Op.Take], hands := t.hands[k := Past(t).waiting[0].frame]))
  {
    OneMore(t.ops, SendQueue.Op.Take);
    NextIsNew(t.ops);
    TakenGrows(t, t.ops + [SendQueue.Op.Take], Past(t).waiting[0].frame, k);
  }

  lemma {:induction false} AgainOwnHands(t: Trip, hands: seq<nat>)
    requires OwnHands(t) && (hands == t.hands || hands == t.hands + [0])
    ensures OwnHands(t.(ops := t.ops + [SendQueue.Wipe], hands := hands))
  {
    OneMore(t.ops, SendQueue.Wipe);
  }

  lemma {:induction false} PushOwnHands(t: Trip, kind: SendQueue.Kind, f: FrameId)
    requires OwnHands(t)
    ensures OwnHands(Pushes(t, kind, f))
  {
    OneMore(t.ops, SendQueue.Push(kind));
    SameOwnHands(t, Pushes(t, kind, f));
  }

  lemma {:induction false} DidOwnHands(t: Trip, s: State, c: Client, a: Action)
    requires OwnHands(t)
    ensures OwnHands(Did(t, s, c, a))
  {
    match a
    case PushPicture(_) => PushOwnHands(t, SendQueue.Mjpeg, s.shared);
    case PushAudio(_, _, _) => PushOwnHands(t, SendQueue.Audio, s.audio);
    case Take(_, k) => if k < |t.hands| && Past(t).waiting != [] { TakeOwnHands(t, k); }
    case Again(_, ok) => AgainOwnHands(t, if ok then t.hands + [0] else t.hands);
    case _ =>
  }

  lemma {:induction false} TrackOwnHands(ss: seq<State>, acts: seq<Action>, m: nat, n: nat)
    requires Run(ss, acts) && m < n <= |acts| && acts[m].Connect?
    ensures Track(ss, acts, m, n).Spot? ==> OwnHands(Track(ss, acts, m, n).trip)
    decreases n
  {
    if n > m + 1 {
      TrackOwnHands(ss, acts, m, n - 1);
      StepOwnHands(ss[n - 1], acts[n - 1], Track(ss, acts, m, n - 1), Track(ss, acts, m, n));
    }
  }

  lemma {:induction false} StepOwnHands(s: State, a: Action, p: Spot, q: Spot)
    requires q == After(s, a, p) && (p.Spot? ==> OwnHands(p.trip))
    ensures q.Spot? ==> OwnHands(q.trip)
  {
    if p.Spot? && p.place < |s.clients| { DidOwnHands(p.trip, s, s.clients[p.place], a); }
  }

  // A run goes on, and the connection with it.
  lemma {:induction false} Go(ss: seq<State>, acts: seq<Action>, m: nat, a: Action) returns (ss': seq<State>, acts': seq<Action>)
    requires Run(ss, acts) && m < |acts| && acts[m].Connect? && Enabled(ss[|acts|], a)
    ensures acts' == acts + [a] && ss' == ss + [Next(ss[|acts|], a)] && Run(ss', acts')
    ensures Track(ss', acts', m, |acts'|) == After(ss[|acts|], a, Track(ss, acts, m, |acts|))
  {
    ss', acts' := ss + [Next(ss[|acts|], a)], acts + [a];
    forall n | 0 <= n < |acts'| ensures Happened(ss', acts', n) {
      assert n < |acts| ==> Happened(ss, acts, n);
    }
    TrackStays(ss, acts, ss', acts', m, |acts|);
  }

  lemma {:induction false} TrackStays(ss: seq<State>, acts: seq<Action>, ss': seq<State>, acts': seq<Action>, m: nat, n: nat)
    requires Run(ss, acts) && Run(ss', acts') && ss <= ss' && acts <= acts' && m < n <= |acts| && acts[m].Connect?
    ensures Track(ss', acts', m, n) == Track(ss, acts, m, n)
    decreases n
  {
    if n > m + 1 { TrackStays(ss, acts, ss', acts', m, n - 1); }
  }

  // The connection can be pushed to: there is a picture, and it has not been shut.
  predicate Open(s: State, p: Spot) {
    p.Spot? && p.place < |s.clients| && s.main.Idle? && s.shared != NULL && !s.clients[p.place].shutdown
  }

  lemma PushFills(s: State, i: nat, d: State)
    requires Enabled(s, PushPicture(i)) && !s.clients[i].shutdown && d == Next(s, PushPicture(i))
    ensures |d.clients| == |s.clients| && d.clients[i].queue != [] && d.clients[i].threads == s.clients[i].threads
    ensures !d.clients[i].shutdown && d.main == s.main && d.shared == s.shared
  {
  }

  lemma TakeFills(s: State, i: nat, k: nat, d: State)
    requires Enabled(s, Action.Take(i, k)) && d == Next(s, Action.Take(i, k))
    ensures |d.clients| == |s.clients| && d.main == s.main && d.shared == s.shared && d.clients[i].shutdown == s.clients[i].shutdown
    ensures |d.clients[i].threads| == |s.clients[i].threads| && d.clients[i].threads[k].Sending?
    ensures forall j | 0 <= j < |s.clients[i].threads| && j != k :: d.clients[i].threads[j] == s.clients[i].threads[j]
  {
  }

  // The thread k of the connection gets a frame to send, if it has none.
  lemma {:induction false} GiveFrame(ss: seq<State>, acts: seq<Action>, m: nat, k: nat) returns (ss': seq<State>, acts': seq<Action>)
    requires Run(ss, acts) && m < |acts| && acts[m].Connect? && Open(ss[|acts|], Track(ss, acts, m, |acts|))
    requires var c := ss[|acts|].clients[Track(ss, acts, m, |acts|).place]; k < |c.threads| && Able(c.threads[k])
    ensures Run(ss', acts') && acts <= acts' && Open(ss'[|acts'|], Track(ss', acts', m, |acts'|))
    ensures var c, d := ss[|acts|].clients[Track(ss, acts, m, |acts|).place], ss'[|acts'|].clients[Track(ss', acts', m, |acts'|).place];
      && |d.threads| == |c.threads| && d.threads[k].Sending?
      && forall j | 0 <= j < |c.threads| && j != k :: d.threads[j] == c.threads[j]
  {
    var s, i := ss[|acts|], Track(ss, acts, m, |acts|).place;
    ss', acts' := ss, acts;
    if !s.clients[i].threads[k].Sending? {
      ss', acts' := Go(ss', acts', m, PushPicture(i));
      PushFills(s, i, ss'[|acts'|]);
      var d := ss'[|acts'|];
      ss', acts' := Go(ss', acts', m, Action.Take(i, k));
      TakeFills(d, i, k, ss'[|acts'|]);
    }
  }

  /** With two threads that order is not kept. From any moment of any run at which a connection can be
      pushed to and has two threads that wait or are sending, the run can go on so that a frame goes
      out before one that was taken earlier. */
  lemma {:induction false} TwoThreadsOvertake(ss: seq<State>, acts: seq<Action>, m: nat, j: nat, k: nat) returns (ss': seq<State>, acts': seq<Action>)
    requires Run(ss, acts) && m < |acts| && acts[m].Connect? && Open(ss[|acts|], Track(ss, acts, m, |acts|))
    requires var c := ss[|acts|].clients[Track(ss, acts, m, |acts|).place];
      j < |c.threads| && k < |c.threads| && j != k && Able(c.threads[j]) && Able(c.threads[k])
    ensures Run(ss', acts') && acts <= acts' && Track(ss', acts', m, |acts'|).Spot?
    ensures var t := Track(ss', acts', m, |acts'|).trip; !(t.sent <= Past(t).taken)
  {
    ss', acts' := GiveFrame(ss, acts, m, j);
    ss', acts' := GiveFrame(ss', acts', m, k);
    ss', acts' := SendLater(ss', acts', m, j, k);
  }

  lemma {:induction false} SendLater(ss: seq<State>, acts: seq<Action>, m: nat, j: nat, k: nat) returns (ss': seq<State>, acts': seq<Action>)
    requires Run(ss, acts) && m < |acts| && acts[m].Connect? && Open(ss[|acts|], Track(ss, acts, m, |acts|))
    requires var c := ss[|acts|].clients[Track(ss, acts, m, |acts|).place];
      j < |c.threads| && k < |c.threads| && j != k && c.threads[j].Sending? && c.threads[k].Sending?
    ensures Run(ss', acts') && acts <= acts' && Track(ss', acts', m, |acts'|).Spot?
    ensures var t := Track(ss', acts', m, |acts'|).trip; !(t.sent <= Past(t).taken)
  {
    var s, p := ss[|acts|], Track(ss, acts, m, |acts|);
    TrackTied(ss, acts, m, |acts|);
    TrackOwnHands(ss, acts, m, |acts|);
    var x := Later(p.trip, s.clients[p.place], j, k);
    ss', acts' := Go(ss, acts, m, Sent(p.place, x, true));
  }

  lemma NextOne(sent: seq<nat>, x: nat, taken: seq<nat>)
    ensures sent + [x] <= taken ==> |sent| < |taken| && taken[|sent|] == x
  {
    assert (sent + [x])[|sent|] == x;
  }

  // Of two threads with a frame in hand, one has not the frame that is next.
  lemma Later(t: Trip, c: Client, j: nat, k: nat) returns (x: nat)
    requires Matches(t, c) && OwnHands(t) && j < |c.threads| && k < |c.threads| && j != k
    requires c.threads[j].Sending? && c.threads[k].Sending?
    ensures (x == j || x == k) && !(t.sent + [t.hands[x]] <= Past(t).taken)
  {
    assert SameHand(t.hands[j], c.threads[j], t.pushed) && SameHand(t.hands[k], c.threads[k], t.pushed);
    assert t.hands[j] != t.hands[k];
    NextOne(t.sent, t.hands[j], Past(t).taken);
    NextOne(t.sent, t.hands[k], Past(t).taken);
    x := if t.sent + [t.hands[j]] <= Past(t).taken then k else j;
  }

  lemma {:induction false} TwoStarted() returns (ss: seq<State>, acts: seq<Action>)
    ensures acts == [Connect(true)] + [Grow(true)] + [Again(0, true)] && Run(ss, acts)
    ensures Open(ss[3], Track(ss, acts, 0, 3)) && Track(ss, acts, 0, 3).place == 0 && ss[3].clients[0].threads == [Waiting] + [Waiting]
  {
    ss, acts := [BOOT, Next(BOOT, Connect(true))], [Connect(true)];
    assert Happened(ss, acts, 0);
    ss, acts := Go(ss, acts, 0, Grow(true));
    ss, acts := Go(ss, acts, 0, Again(0, true));
  }

  /** A run from the start: a client that has just connected sends one byte more, and is sent a frame
      before one that was taken earlier. */
  lemma OvertakingRun() returns (ss: seq<State>, acts: seq<Action>)
    ensures Run(ss, acts) && [Connect(true)] + [Grow(true)] + [Again(0, true)] <= acts && Track(ss, acts, 0, |acts|).Spot?
    ensures var t := Track(ss, acts, 0, |acts|).trip; !(t.sent <= Past(t).taken)
  {
    ss, acts := TwoStarted();
    ss, acts := TwoThreadsOvertake(ss, acts, 0, 0, 1);
  }
}
