/**
 * Display order of an indexed stream (rfs/rfs_annexb.c): frames lie in coded order, and a
 * reference frame is shown behind the B-frames that follow it in the file.
 */
module DisplayOrder {

  // The first reference at or after i, or the end.
  function NextRef(b: seq<bool>, i: nat): (r: nat)
    requires i <= |b|
    ensures i <= r <= |b| && (r < |b| ==> !b[r])
    ensures forall j | i <= j < r :: b[j]
    decreases |b| - i
  {
    if i == |b| || !b[i] then i else NextRef(b, i + 1)
  }

  // Where frame i is shown; b says which frames are B-frames.
  function Position(b: seq<bool>, i: nat): nat
    requires i < |b|
  {
    if !b[i] then NextRef(b, i + 1) - 1 else if NextRef(b, 0) < i then i - 1 else i
  }

  /** compute_display_order. */
  method ComputeDisplayOrder(b: seq<bool>, pos: array<nat>)
    requires pos.Length == |b|
    modifies pos
    ensures forall i | 0 <= i < |b| :: pos[i] == Position(b, i)
  {
    var hasB := false;
    var i := 0;
    while i < |b| && !hasB
      invariant 0 <= i <= |b|
      invariant !hasB ==> forall j | 0 <= j < i :: !b[j]
    {
      if b[i] { hasB := true; }
      i := i + 1;
    }
    if !hasB {
      i := 0;
      while i < |b|
        invariant 0 <= i <= |b| && forall j | 0 <= j < i :: pos[j] == j
      {
        pos[i] := i;
        i := i + 1;
      }
      return;
    }
    var display := 0;
    var pending := -1;
    i := 0;
    while i < |b|
      invariant 0 <= i <= |b| && -1 <= pending < i
      invariant display == if pending >= 0 then i - 1 else i
      invariant pending < 0 ==> NextRef(b, 0) >= i
      invariant pending >= 0 ==> !b[pending] && NextRef(b, 0) <= pending && NextRef(b, pending + 1) >= i
      invariant forall k | 0 <= k < i && k != pending :: pos[k] == Position(b, k)
    {
      if b[i] {
        pos[i] := display;
        display := display + 1;
      } else {
        if pending >= 0 {
          pos[pending] := display;
          display := display + 1;
        }
        pending := i;
      }
      i := i + 1;
    }
    if pending >= 0 { pos[pending] := display; }
  }

  // Which frame is shown at place t.
  function ShownAt(b: seq<bool>, t: nat): (i: nat)
    requires t < |b|
    ensures i < |b|
  {
    if t < NextRef(b, 0) then t else if t + 1 < |b| && b[t + 1] then t + 1 else LastRef(b, t)
  }

  function LastRef(b: seq<bool>, t: nat): (r: nat)
    requires t < |b| && NextRef(b, 0) <= t
    ensures r <= t && !b[r] && forall j | r < j <= t :: b[j]
  {
    if !b[t] then t else LastRef(b, t - 1)
  }

  lemma {:induction false} NextRefPast(b: seq<bool>, i: nat, r: nat)
    requires i <= r <= |b| && forall j | i <= j < r :: b[j]
    ensures NextRef(b, i) >= r && (r < |b| && !b[r] ==> NextRef(b, i) == r)
    decreases r - i
  {
    if i < r { NextRefPast(b, i + 1, r); }
  }

  lemma {:induction false} LastRefIs(b: seq<bool>, t: nat, r: nat)
    requires r <= t < |b| && !b[r] && NextRef(b, 0) <= t && forall j | r < j <= t :: b[j]
    ensures LastRef(b, t) == r
    decreases t
  {
    if r < t { LastRefIs(b, t - 1, r); }
  }

  /** Every frame has a place of its own and every place a frame. */
  lemma DisplayIsPermutation(b: seq<bool>)
    ensures forall i | 0 <= i < |b| :: Position(b, i) < |b| && ShownAt(b, Position(b, i)) == i
    ensures forall t | 0 <= t < |b| :: Position(b, ShownAt(b, t)) == t
  {
    forall i | 0 <= i < |b| ensures Position(b, i) < |b| && ShownAt(b, Position(b, i)) == i {
      ShownWhereItIs(b, i);
    }
    forall t | 0 <= t < |b| ensures Position(b, ShownAt(b, t)) == t {
      PlaceIsTaken(b, t);
    }
  }

  lemma ShownWhereItIs(b: seq<bool>, i: nat)
    requires i < |b|
    ensures Position(b, i) < |b| && ShownAt(b, Position(b, i)) == i
  {
    var t := Position(b, i);
    if !b[i] {
      assert NextRef(b, 0) <= i <= t;
      LastRefIs(b, t, i);
    }
  }

  lemma PlaceIsTaken(b: seq<bool>, t: nat)
    requires t < |b|
    ensures Position(b, ShownAt(b, t)) == t
  {
    if t >= NextRef(b, 0) && !(t + 1 < |b| && b[t + 1]) {
      NextRefPast(b, LastRef(b, t) + 1, t + 1);
    }
  }

  /** References are shown in the order they are coded. */
  lemma ReferencesKeepOrder(b: seq<bool>, i: nat, j: nat)
    requires i < j < |b| && !b[i] && !b[j]
    ensures Position(b, i) < Position(b, j)
  {
    assert NextRef(b, i + 1) <= j;
  }

  /** A B-frame is shown before the reference coded last before it and after every earlier one. */
  lemma BFramesComeBetween(b: seq<bool>, ref: nat, i: nat)
    requires ref < i < |b| && !b[ref] && forall j | ref < j <= i :: b[j]
    ensures Position(b, i) < Position(b, ref)
    ensures forall early | 0 <= early < ref && !b[early] :: Position(b, early) < Position(b, i)
  {
    assert NextRef(b, 0) <= ref;
    NextRefPast(b, ref + 1, i + 1);
    forall early | 0 <= early < ref && !b[early] ensures Position(b, early) < Position(b, i) {
      assert NextRef(b, early + 1) <= ref;
    }
  }
}
