/**
 * The checksum of module OggCrc as algebra: polynomials over two elements, given by their
 * coefficients with the highest first, and the division theorem that makes the checksum of a
 * message the one remainder it has.
 */
module OggDivision {
  import opened AnnexB
  import opened OggCrc

  // The generator with its leading term of degree 32, which a word leaves out.
  function Generator(g: Word): Coefficients { [true] + g }

  // p, or nothing, n places to the right of the top.
  function Times(b: bool, n: nat, p: Coefficients): (r: Coefficients)
    ensures |r| == n + |p|
  {
    Zeros(n) + if b then p else Zeros(|p|)
  }

  // The product, one coefficient of q after the other.
  function Product(q: Coefficients, p: Coefficients): (r: Coefficients)
    requires p != []
    ensures |r| == |q| + |p| - 1
  {
    if q == [] then Zeros(|p| - 1)
    else
      var n := |q| - 1;
      Xor(Product(q[..n], p) + [false], Times(q[n], n, p))
  }

  // q times the generator, plus r.
  function Sum(g: Word, q: Coefficients, r: Word): (s: Coefficients)
    ensures |s| == |q| + 32
  {
    Xor(Product(q, Generator(g)), Zeros(|q|) + r)
  }

  lemma ProductSnoc(q: Coefficients, b: bool, p: Coefficients)
    requires p != []
    ensures Product(q + [b], p) == Xor(Product(q, p) + [false], Times(b, |q|, p))
  {
    assert (q + [b])[..|q|] == q;
  }

  lemma {:induction false} RemainderSnoc(g: Word, r: Word, c: Coefficients, b: bool)
    ensures Remainder(g, r, c + [b]) == Xor(Step(g, Remainder(g, r, c)), AtBottom(b))
    decreases |c|
  {
    if c == [] {
      assert [] + [b] == [b] && [b][1..] == [];
    } else {
      assert (c + [b])[0] == c[0] && (c + [b])[1..] == c[1..] + [b];
      RemainderSnoc(g, Xor(Step(g, r), AtBottom(c[0])), c[1..], b);
    }
  }

  // A step with one coefficient brought down, place by place.
  lemma StepAt(g: Word, r: Word, b: bool, i: nat)
    requires i < 32
    ensures Xor(Step(g, r), AtBottom(b))[i] == ((r + [b])[i + 1] != (r[0] && g[i]))
  {
    assert Shift(r, 1)[i] == if i < 31 then r[i + 1] else false;
    assert Step(g, r)[i] == (Shift(r, 1)[i] != (r[0] && g[i]));
    assert AtBottom(b)[i] == (i == 31 && b);
  }

  lemma BringDownOne(g: Word, r: Word, b: bool, s: Word, term: Coefficients)
    requires s == Xor(Step(g, r), AtBottom(b)) && term == if r[0] then Generator(g) else Zeros(33)
    ensures r + [b] == Xor(term, [false] + s)
  {
    forall j | 0 <= j < 33 ensures (r + [b])[j] == Xor(term, [false] + s)[j] {
      if j > 0 { StepAt(g, r, b, j - 1); }
    }
  }

  lemma XorAfterZeros(n: nat, a: Coefficients, b: Coefficients)
    requires |a| == |b|
    ensures Xor(Zeros(n) + a, Zeros(n) + b) == Zeros(n) + Xor(a, b)
  {
    var l, r := Xor(Zeros(n) + a, Zeros(n) + b), Zeros(n) + Xor(a, b);
    forall i | 0 <= i < n + |a| ensures l[i] == r[i] { }
  }

  // One coefficient brought down: what is subtracted is the generator times the term that fell out.
  lemma BringDown(g: Word, r: Word, b: bool, n: nat, s: Word, term: Coefficients)
    requires s == Xor(Step(g, r), AtBottom(b)) && term == if r[0] then Generator(g) else Zeros(33)
    ensures Zeros(n) + r + [b] == Xor(Zeros(n) + term, Zeros(n + 1) + s)
  {
    BringDownOne(g, r, b, s, term);
    XorAfterZeros(n, term, [false] + s);
    OneZeroMore(n, s);
    assert Zeros(n) + r + [b] == Zeros(n) + (r + [b]);
  }

  lemma OneZeroMore(n: nat, s: Coefficients)
    ensures Zeros(n + 1) + s == Zeros(n) + ([false] + s)
  {
    assert Zeros(n + 1) == Zeros(n) + [false];
  }

  lemma XorTail(a: Coefficients, b: Coefficients, x: bool)
    requires |a| == |b|
    ensures Xor(a, b) + [x] == Xor(a + [false], b + [x])
  {
  }

  lemma XorMoves(a: Coefficients, b: Coefficients, c: Coefficients)
    requires |a| == |b| == |c|
    ensures Xor(a, Xor(b, c)) == Xor(Xor(a, b), c)
  {
  }

  // Long division keeps the account: dividend so far = quotient so far * generator + remainder so far.
  lemma {:induction false} DivisionAccount(g: Word, c: Coefficients) returns (q: Coefficients)
    ensures |q| == |c| && Zeros(32) + c == Sum(g, q, Remainder(g, Zeros(32), c))
    decreases |c|
  {
    if c == [] {
      q := [];
      assert Zeros(32) + c == Zeros(32) && Zeros(0) + Zeros(32) == Zeros(32);
    } else {
      var n := |c| - 1;
      var front, b := c[..n], c[n];
      assert c == front + [b];
      var q' := DivisionAccount(g, front);
      var r := Remainder(g, Zeros(32), front);
      q := q' + [r[0]];
      DivisionStep(g, front, b, q', r);
      RemainderSnoc(g, Zeros(32), front, b);
    }
  }

  lemma Rearranged(p: Coefficients, zr: Coefficients, b: bool, term: Coefficients, zs: Coefficients)
    requires |p| == |zr| && |term| == |zs| == |p| + 1 && zr + [b] == Xor(term, zs)
    ensures Xor(p, zr) + [b] == Xor(Xor(p + [false], term), zs)
  {
    XorTail(p, zr, b);
    XorMoves(p + [false], term, zs);
  }

  lemma DivisionStep(g: Word, front: Coefficients, b: bool, q: Coefficients, r: Word)
    requires |q| == |front| && Zeros(32) + front == Sum(g, q, r)
    ensures Zeros(32) + (front + [b]) == Sum(g, q + [r[0]], Xor(Step(g, r), AtBottom(b)))
  {
    var n, s := |q|, Xor(Step(g, r), AtBottom(b));
    var term := if r[0] then Generator(g) else Zeros(33);
    BringDown(g, r, b, n, s, term);
    Rearranged(Product(q, Generator(g)), Zeros(n) + r, b, Zeros(n) + term, Zeros(n + 1) + s);
    ProductSnoc(q, r[0], Generator(g));
    assert Zeros(32) + (front + [b]) == (Zeros(32) + front) + [b];
  }

  // ----- there is only one ---------------------------------------------------------------

  lemma {:induction false} ProductOfZeros(n: nat, p: Coefficients)
    requires p != []
    ensures Product(Zeros(n), p) == Zeros(n + |p| - 1)
  {
    if n > 0 {
      assert Zeros(n)[..n - 1] == Zeros(n - 1);
      ProductOfZeros(n - 1, p);
    }
  }

  // A product that begins with as many zeros as q is long is that of nothing.
  lemma {:induction false} LeadingZeros(q: Coefficients, p: Coefficients)
    requires p != [] && p[0] && forall i | 0 <= i < |q| :: !Product(q, p)[i]
    ensures q == Zeros(|q|)
    decreases |q|
  {
    if q != [] {
      var n := |q| - 1;
      LeadingZerosShort(q, p, n, q[..n]);
      LeadingZeros(q[..n], p);
      ProductOfZeros(n, p);
      assert Product(q, p)[n] == ((Zeros(n + |p| - 1) + [false])[n] != Times(q[n], n, p)[n]);
      assert q == q[..n] + [q[n]];
    }
  }

  lemma LeadingZerosShort(q: Coefficients, p: Coefficients, n: nat, short: Coefficients)
    requires p != [] && |q| == n + 1 && short == q[..n] && forall i | 0 <= i < |q| :: !Product(q, p)[i]
    ensures forall i | 0 <= i < n :: !Product(short, p)[i]
  {
    var term := Times(q[n], n, p);
    forall i | 0 <= i < n ensures !Product(short, p)[i] {
      assert Product(q, p)[i] == ((Product(short, p) + [false])[i] != term[i]);
    }
  }

  lemma {:induction false} ProductIsLinear(a: Coefficients, b: Coefficients, p: Coefficients)
    requires p != [] && |a| == |b|
    ensures Product(Xor(a, b), p) == Xor(Product(a, p), Product(b, p))
    decreases |a|
  {
    if a == [] {
      NothingIsLinear(p);
    } else {
      var n := |a| - 1;
      ProductIsLinear(a[..n], b[..n], p);
      Snoc(a, n);
      Snoc(b, n);
      LinearOnce(a, a[..n], a[n], b, b[..n], b[n], p, n);
    }
  }

  lemma Snoc(a: Coefficients, n: nat)
    requires |a| == n + 1
    ensures a == a[..n] + [a[n]]
  {
  }

  lemma NothingIsLinear(p: Coefficients)
    requires p != []
    ensures Product(Xor([], []), p) == Xor(Product([], p), Product([], p))
  {
    assert Xor(Zeros(|p| - 1), Zeros(|p| - 1)) == Zeros(|p| - 1);
  }

  lemma {:induction false} LinearOnce(a': Coefficients, a: Coefficients, x: bool, b': Coefficients, b: Coefficients, y: bool, p: Coefficients, n: nat)
    requires p != [] && |a| == |b| == n && Product(Xor(a, b), p) == Xor(Product(a, p), Product(b, p))
    requires a' == a + [x] && b' == b + [y]
    ensures Product(Xor(a', b'), p) == Xor(Product(a', p), Product(b', p))
  {
    XorSnoc(a, x, b, y);
    ProductSnoc(Xor(a, b), x != y, p);
    ProductSnoc(a, x, p);
    ProductSnoc(b, y, p);
    TimesIsLinear(x, y, n, p);
    Interleave(Product(a, p), Product(b, p), Times(x, n, p), Times(y, n, p));
  }

  lemma {:induction false} XorSnoc(a: Coefficients, x: bool, b: Coefficients, y: bool)
    requires |a| == |b|
    ensures Xor(a + [x], b + [y]) == Xor(a, b) + [x != y]
    decreases |a|
  {
    if a == [] {
      assert a + [x] == [x] && b + [y] == [y] && [x][1..] == [] && [y][1..] == [];
    } else {
      assert (a + [x])[1..] == a[1..] + [x] && (b + [y])[1..] == b[1..] + [y];
      XorSnoc(a[1..], x, b[1..], y);
    }
  }

  lemma TimesIsLinear(a: bool, b: bool, n: nat, p: Coefficients)
    ensures Times(a != b, n, p) == Xor(Times(a, n, p), Times(b, n, p))
  {
    var x, y := if a then p else Zeros(|p|), if b then p else Zeros(|p|);
    assert Xor(x, y) == if a != b then p else Zeros(|p|);
    XorAfterZeros(n, x, y);
  }

  lemma Interleave(a: Coefficients, b: Coefficients, c: Coefficients, d: Coefficients)
    requires |a| == |b| && |c| == |d| == |a| + 1
    ensures Xor(Xor(a, b) + [false], Xor(c, d)) == Xor(Xor(a + [false], c), Xor(b + [false], d))
  {
  }

  lemma SumAt(g: Word, q: Coefficients, r: Word, i: nat)
    requires i < |q| + 32
    ensures Sum(g, q, r)[i] == (Product(q, Generator(g))[i] != (i >= |q| && r[i - |q|]))
  {
    assert (Zeros(|q|) + r)[i] == (i >= |q| && r[i - |q|]);
  }

  lemma QuotientsAgree(g: Word, q: Coefficients, r: Word, q': Coefficients, r': Word)
    requires |q| == |q'| && Sum(g, q, r) == Sum(g, q', r')
    ensures q == q'
  {
    var p := Generator(g);
    ProductIsLinear(q, q', p);
    forall i | 0 <= i < |q| ensures !Product(Xor(q, q'), p)[i] {
      SumAt(g, q, r, i);
      SumAt(g, q', r', i);
    }
    LeadingZeros(Xor(q, q'), p);
    forall i | 0 <= i < |q| ensures q[i] == q'[i] { assert !Xor(q, q')[i]; }
  }

  lemma XorCancels(p: Coefficients, a: Coefficients, b: Coefficients)
    requires |p| == |a| == |b| && Xor(p, a) == Xor(p, b)
    ensures a == b
  {
    forall i | 0 <= i < |p| ensures a[i] == b[i] {
      assert Xor(p, a)[i] == (p[i] != a[i]) && Xor(p, b)[i] == (p[i] != b[i]);
    }
  }

  lemma RemaindersAgree(g: Word, q: Coefficients, r: Word, r': Word)
    requires Sum(g, q, r) == Sum(g, q, r')
    ensures r == r'
  {
    XorCancels(Product(q, Generator(g)), Zeros(|q|) + r, Zeros(|q|) + r');
    assert (Zeros(|q|) + r)[|q|..] == r && (Zeros(|q|) + r')[|q|..] == r';
  }

  /** The division theorem. A message moved up 32 places is a multiple of the generator plus its
      checksum, and plus no other word. */
  lemma CrcDivides(g: Word, d: Bytes) returns (q: Coefficients)
    ensures |q| == |Message(d)| + 32
    ensures Zeros(32) + (Message(d) + Zeros(32)) == Sum(g, q, Crc(g, Zeros(32), d))
    ensures forall q', r': Word | |q'| == |q| && Zeros(32) + (Message(d) + Zeros(32)) == Sum(g, q', r') ::
              q' == q && r' == Crc(g, Zeros(32), d)
  {
    var c := Message(d) + Zeros(32);
    q := DivisionAccount(g, c);
    CrcIsRemainder(g, d);
    forall q', r': Word | |q'| == |q| && Zeros(32) + c == Sum(g, q', r') ensures q' == q && r' == Crc(g, Zeros(32), d) {
      QuotientsAgree(g, q', r', q, Crc(g, Zeros(32), d));
      RemaindersAgree(g, q, r', Crc(g, Zeros(32), d));
    }
  }
}
