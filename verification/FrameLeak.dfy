/**
 * Two runs of the machine of module FrameSharing in which a streaming client sends more after
 * its request, so that the request is handled again (rhd/rhd_main.c): a frame that is never
 * freed, and a thread that outlives its client.
 */
module FrameLeak {
  import SendQueue
  import opened FrameSharing

  type FrameId = SendQueue.FrameId
  const NULL := SendQueue.NULL

  lemma RunGrows(ss: seq<State>, acts: seq<Action>, a: Action)
    requires Run(ss, acts) && Enabled(ss[|acts|], a)
    ensures Run(ss + [Next(ss[|acts|], a)], acts + [a])
  {
    var t := Next(ss[|acts|], a);
    forall n | 0 <= n < |acts + [a]| ensures Happened(ss + [t], acts + [a], n) {
      assert n < |acts| ==> Happened(ss, acts, n);
    }
  }

  const PICTURE: SendQueue.Entry := SendQueue.Entry(SendQueue.Mjpeg, 1, 0, 0)

  // One client, with the given queue and threads, and the given heap and shared frame.
  function One(heap: Heap, shared: FrameId, queue: seq<SendQueue.Entry>, threads: seq<Thread>, lost: multiset<FrameId>): State {
    State(heap, shared, NULL, [Client(queue, false, threads)], Idle, [], lost)
  }

  function H(refs: multiset<FrameId>, next: FrameId): Heap { Heap(refs, multiset{}, next, false) }

  // The states of the first run: a client, a frame, the frame queued, the queue wiped, another frame.
  const S1: State := One(H(multiset{}, 1), NULL, [], [Waiting], multiset{})
  const S2: State := One(H(multiset{1}, 2), 1, [], [Waiting], multiset{})
  const S3: State := One(H(multiset{1, 1}, 2), 1, [PICTURE], [Waiting], multiset{})
  const S4: State := One(H(multiset{1, 1}, 2), 1, [], [Waiting, Waiting], multiset{1})
  const S5: State := One(H(multiset{1, 2}, 3), 2, [], [Waiting, Waiting], multiset{1})

  lemma Connected()
    ensures Run([BOOT, S1], [Connect(true)])
  {
    RunGrows([BOOT], [], Connect(true));
  }

  lemma Opened()
    ensures Run([BOOT, S1, S2], [Connect(true), Grow(true)])
  {
    Connected();
    assert Next(S1, Grow(true)) == S2;
    RunGrows([BOOT, S1], [Connect(true)], Grow(true));
    assert [BOOT, S1] + [S2] == [BOOT, S1, S2] && [Connect(true)] + [Grow(true)] == [Connect(true), Grow(true)];
  }

  lemma PushQueues()
    ensures Next(S2, PushPicture(0)) == S3
  {
    assert SendQueue.Pushed([], PICTURE) == SendQueue.Pushing([PICTURE], []) by { assert [] + [PICTURE] == [PICTURE]; }
    assert multiset{1} + multiset{1 as FrameId} == multiset{1, 1};
    assert S2.clients[0 := Client([PICTURE], false, [Waiting])] == [Client([PICTURE], false, [Waiting])];
  }

  lemma Queued()
    ensures Run([BOOT, S1, S2, S3], [Connect(true), Grow(true), PushPicture(0)])
  {
    Opened();
    PushQueues();
    var ss, acts := [BOOT, S1, S2], [Connect(true), Grow(true)];
    RunGrows(ss, acts, PushPicture(0));
    assert ss + [S3] == [BOOT, S1, S2, S3] && acts + [PushPicture(0)] == [Connect(true), Grow(true), PushPicture(0)];
  }

  lemma MoreWipes()
    ensures Next(S3, Again(0, true)) == S4
  {
    var fs: seq<FrameId> := SendQueue.Frames([PICTURE]);
    assert fs == [1] && multiset(fs) == multiset{1};
    assert [Waiting] + [Waiting] == [Waiting, Waiting];
    var c := Client([], false, [Waiting, Waiting]);
    assert S3.clients[0 := c] == [c];
  }

  lemma Wiped()
    ensures Run([BOOT, S1, S2, S3, S4], [Connect(true), Grow(true), PushPicture(0), Again(0, true)])
  {
    Queued();
    MoreWipes();
    var ss, acts := [BOOT, S1, S2, S3], [Connect(true), Grow(true), PushPicture(0)];
    RunGrows(ss, acts, Again(0, true));
    assert ss + [S4] == [BOOT, S1, S2, S3, S4];
    assert acts + [Again(0, true)] == [Connect(true), Grow(true), PushPicture(0), Again(0, true)];
  }

  lemma NobodyHolds()
    ensures Holders(S5, 1) == 0
  {
    var c := Client([], false, [Waiting, Waiting]);
    assert c.threads == [Waiting] + [Waiting];
    ThreadsHoldConcat([Waiting], [Waiting], 1);
    StartHoldsNothing(1);
    AllHoldAppend([], c, 1);
    assert [] + [c] == [c];
  }

  lemma GrowMovesOn()
    ensures Next(S4, Grow(true)) == S5
  {
    assert multiset{1, 1} - multiset{1 as FrameId} + multiset{2} == multiset{1, 2};
  }

  lemma RunToLeak() returns (ss: seq<State>, acts: seq<Action>)
    ensures acts == [Connect(true), Grow(true), PushPicture(0), Again(0, true)] + [Grow(true)]
    ensures Run(ss, acts) && |ss| == 6 && ss[5] == S5
  {
    Wiped();
    ss, acts := [BOOT, S1, S2, S3, S4], [Connect(true), Grow(true), PushPicture(0), Again(0, true)];
    RunGrows(ss, acts, Grow(true));
    GrowMovesOn();
    ss, acts := ss + [S5], acts + [Grow(true)];
  }

  /** The shared frame waits for a client that sends a byte more, and then the server moves on to
      another: nobody holds the first one, and it is never freed. */
  lemma WipedQueueLeaks() returns (ss: seq<State>, acts: seq<Action>)
    ensures acts == [Connect(true), Grow(true), PushPicture(0), Again(0, true)] + [Grow(true)]
    ensures Run(ss, acts) && |ss| == 6
    ensures Holders(ss[5], 1) == 0 && ss[5].heap.refs[1] == 1 && ss[5].heap.freed[1] == 0
  {
    ss, acts := RunToLeak();
    NobodyHolds();
  }

  /** A request handled twice starts two threads. Only the second is waited for when the client is
      removed, and the first goes on without one. */
  lemma SecondThreadOutlives() returns (ss: seq<State>, acts: seq<Action>)
    ensures acts == [Connect(true), Again(0, true), Shut(0)] + [Quit(0, 1)] + [Reap(0)]
    ensures Run(ss, acts) && |ss| == 6 && ss[5].clients == [] && Waiting in ss[5].strays
  {
    ss := TwoThreads();
    acts := [Connect(true), Again(0, true), Shut(0)];
    var s4, s5 := Pair(true, Exited), Pair(true, Exited).(clients := [], strays := [Waiting, Exited]);
    assert ss[3].clients[0].threads[1 := Exited] == [Waiting, Exited];
    assert Next(ss[3], Quit(0, 1)) == s4;
    RunGrows(ss, acts, Quit(0, 1));
    ss, acts := ss + [s4], acts + [Quit(0, 1)];
    assert [] + [Waiting, Exited] == [Waiting, Exited];
    assert Next(s4, Reap(0)) == s5;
    RunGrows(ss, acts, Reap(0));
    ss, acts := ss + [s5], acts + [Reap(0)];
    assert s5.strays[0] == Waiting;
  }

  function Pair(shut: bool, second: Thread): State {
    State(H(multiset{}, 1), NULL, NULL, [Client([], shut, [Waiting, second])], Idle, [], multiset{})
  }

  lemma TwoThreads() returns (ss: seq<State>)
    ensures Run(ss, [Connect(true), Again(0, true), Shut(0)]) && |ss| == 4 && ss[3] == Pair(true, Waiting)
  {
    Connected();
    ss := [BOOT, S1];
    assert [Waiting] + [Waiting] == [Waiting, Waiting];
    assert Next(S1, Again(0, true)) == Pair(false, Waiting);
    RunGrows(ss, [Connect(true)], Again(0, true));
    ss := ss + [Pair(false, Waiting)];
    assert Next(Pair(false, Waiting), Shut(0)) == Pair(true, Waiting);
    RunGrows(ss, [Connect(true)] + [Again(0, true)], Shut(0));
    ss := ss + [Pair(true, Waiting)];
    assert [Connect(true)] + [Again(0, true)] + [Shut(0)] == [Connect(true), Again(0, true), Shut(0)];
  }

  // The client is told to stop and its last thread ends.
  lemma {:induction false} LastEnds(ss: seq<State>, acts: seq<Action>, i: nat, k: nat) returns (ss': seq<State>, acts': seq<Action>)
    requires Run(ss, acts) && ss[|acts|].main.Idle? && i < |ss[|acts|].clients|
    requires var ths := ss[|acts|].clients[i].threads; k + 1 < |ths| && ths[|ths| - 1].Waiting?
    ensures acts <= acts' && Run(ss', acts') && ss'[|acts'|].main.Idle? && i < |ss'[|acts'|].clients|
    ensures var ths, ths' := ss[|acts|].clients[i].threads, ss'[|acts'|].clients[i].threads;
      |ths'| == |ths| && ths'[|ths| - 1].Exited? && ths'[k] == ths[k]
  {
    var last := |ss[|acts|].clients[i].threads| - 1;
    RunGrows(ss, acts, Shut(i));
    ss', acts' := ss + [Next(ss[|acts|], Shut(i))], acts + [Shut(i)];
    RunGrows(ss', acts', Quit(i, last));
    ss', acts' := ss' + [Next(ss'[|acts'|], Quit(i, last))], acts' + [Quit(i, last)];
  }

  /** Why a second thread matters: from any moment of any run at which a client has a thread that has not
      ended besides the one started last, which waits, the run can go on so that the client is removed
      and that thread is left running. */
  lemma {:induction false} CanOutlive(ss: seq<State>, acts: seq<Action>, i: nat, k: nat) returns (ss': seq<State>, acts': seq<Action>)
    requires Run(ss, acts) && ss[|acts|].main.Idle? && i < |ss[|acts|].clients|
    requires var ths := ss[|acts|].clients[i].threads; k + 1 < |ths| && ths[|ths| - 1].Waiting? && !ths[k].Exited?
    ensures acts <= acts' && Run(ss', acts') && !AllEnded(ss'[|acts'|].strays)
  {
    ss', acts' := LastEnds(ss, acts, i, k);
    var s := ss'[|acts'|];
    RunGrows(ss', acts', Reap(i));
    ss', acts' := ss' + [Next(s, Reap(i))], acts' + [Reap(i)];
    assert s.clients[i].threads[k] in s.strays + s.clients[i].threads;
  }
}
