/**
 * Reading the interface stanza (rcd/rcd_network.c): the file comes in lines of 511 characters at
 * most, and a longer one comes in pieces, each of which is read as a line.
 */
module StanzaReader {
  import opened Basics
  import opened Stanza

  const LINE_MAX: nat := 511

  // The text with every longer line broken.
  function Broken(t: string): string
    decreases |t|
  {
    var e := LineLen(t);
    if e > LINE_MAX then t[..LINE_MAX] + "\n" + Broken(t[LINE_MAX..])
    else if e < |t| then t[..e] + "\n" + Broken(t[e + 1..])
    else t
  }

  predicate NoLongLine(t: string) { forall i | 0 <= i < |Tokens(t)| :: |Tokens(t)[i]| <= LINE_MAX }

  // A line of a text, and what is behind it.
  lemma TokensOfLine(l: string, u: string)
    requires forall i | 0 <= i < |l| :: l[i] != '\n'
    ensures Tokens(l + "\n" + u) == (if l == "" then [] else [l]) + Tokens(u)
    ensures LineLen(l + "\n" + u) == |l|
  {
    var tail := "\n" + u;
    LineLenIs(l, tail);
    assert l + "\n" + u == l + tail;
    assert (l + tail)[|l|..] == tail && (l + tail)[..|l|] == l && tail[1..] == u;
    if l == "" { assert l + tail == tail; }
  }

  lemma TokensOfLast(l: string)
    requires l != "" && forall i | 0 <= i < |l| :: l[i] != '\n'
    ensures Tokens(l) == [l]
  {
    LineLenIs(l, "");
    assert l + "" == l && l[|l|..] == "" && l[..|l|] == l;
  }

  lemma LineAndRest(t: string, e: nat)
    requires e < |t| && t[e] == '\n'
    ensures t == t[..e] + "\n" + t[e + 1..]
  {
    assert t == t[..e] + [t[e]] + t[e + 1..];
  }

  // The next piece, and where the one after it begins.
  function Piece(t: string): (n: nat)
    ensures n <= |t|
  {
    if LineLen(t) < LINE_MAX then LineLen(t) else LINE_MAX
  }

  function Next(t: string): (n: nat)
    ensures Piece(t) <= n <= |t| && (t != "" ==> n > 0)
  {
    if Piece(t) < LINE_MAX && Piece(t) < |t| then Piece(t) + 1 else Piece(t)
  }

  lemma {:induction false} LongLine(t: string)
    requires LineLen(t) > LINE_MAX
    ensures Tokens(Broken(t)) == [t[..LINE_MAX]] + Tokens(Broken(t[LINE_MAX..]))
  {
    TokensOfLine(t[..LINE_MAX], Broken(t[LINE_MAX..]));
  }

  lemma {:induction false} EndedLine(t: string, e: nat)
    requires e == LineLen(t) < |t| && e <= LINE_MAX
    ensures Tokens(Broken(t)) == (if e == 0 then [] else [t[..e]]) + Tokens(Broken(t[e + 1..]))
  {
    TokensOfLine(t[..e], Broken(t[e + 1..]));
  }

  lemma {:induction false} LastLine(t: string)
    requires t != "" && LineLen(t) == |t| <= LINE_MAX
    ensures Tokens(Broken(t)) == [t] && Tokens(Broken("")) == []
  {
    TokensOfLast(t);
  }

  /** What is read of a text is the lines of the broken text. */
  lemma {:induction false} PieceIsLine(t: string)
    requires t != ""
    ensures Tokens(Broken(t)) == (if Piece(t) == 0 then [] else [t[..Piece(t)]]) + Tokens(Broken(t[Next(t)..]))
  {
    var e := LineLen(t);
    if e > LINE_MAX {
      LongLine(t);
    } else if e == |t| {
      LastLine(t);
      assert t[..e] == t && t[e..] == "";
    } else {
      EndedLine(t, e);
      if e == LINE_MAX { FullPiece(t); }
    }
  }

  // A line that fills a piece leaves its end for the next, which is empty.
  lemma {:induction false} FullPiece(t: string)
    requires LineLen(t) == LINE_MAX < |t|
    ensures Tokens(Broken(t[LINE_MAX..])) == Tokens(Broken(t[LINE_MAX + 1..]))
  {
    var rest := t[LINE_MAX..];
    assert rest[0] == '\n' && rest[0 + 1..] == t[LINE_MAX + 1..] && rest[..0] == "";
    assert LineLen(rest) == 0;
    TokensOfLine("", Broken(t[LINE_MAX + 1..]));
  }

  /** Nothing is broken if and only if no line is longer than a piece. */
  lemma {:induction false} BrokenIff(t: string)
    ensures Broken(t) == t <==> NoLongLine(t)
    decreases |t|
  {
    var e := LineLen(t);
    if e > LINE_MAX {
      assert Broken(t)[LINE_MAX] == '\n' && t[LINE_MAX] != '\n';
      assert |Tokens(t)[0]| > LINE_MAX;
    } else if e < |t| {
      var l, u := t[..e], t[e + 1..];
      LineAndRest(t, e);
      BrokenIff(u);
      TokensOfLine(l, u);
      assert l + "\n" + Broken(u) == l + "\n" + u <==> Broken(u) == u by {
        assert (l + "\n" + Broken(u))[e + 1..] == Broken(u) && (l + "\n" + u)[e + 1..] == u;
      }
      NoLongLineCons(t, l, u);
    } else if t != "" {
      TokensOfLast(t);
    }
  }

  lemma NoLongLineCons(t: string, l: string, u: string)
    requires Tokens(t) == (if l == "" then [] else [l]) + Tokens(u) && |l| <= LINE_MAX
    ensures NoLongLine(t) <==> NoLongLine(u)
  {
    if l == "" {
      assert Tokens(t) == Tokens(u);
    } else {
      assert Tokens(t) == [l] + Tokens(u);
      assert forall i | 0 <= i < |Tokens(u)| :: Tokens(t)[i + 1] == Tokens(u)[i];
    }
  }

  // How the reader goes on from where it is.
  function Reading(inStanza: bool, ls: seq<string>, want: string, found: Option<string>): Option<string> {
    if inStanza then GetInside(ls, want, found) else GetBefore(ls, want)
  }

  lemma ReadLine(inStanza: bool, l: string, ls: seq<string>, want: string, found: Option<string>)
    requires !inStanza ==> found == None
    ensures Reading(inStanza, [l] + ls, want, found)
         == if IsIface(l) then
              if inStanza then found else GetInside(ls, want, if want == "method" then Method(l) else found)
            else Reading(inStanza, ls, want, if inStanza && Word(l) == want then Some(Value(l)) else found)
  {
    assert ([l] + ls)[1..] == ls;
  }

  // fgets: up to the end of the line, or as much as the buffer takes.
  method ReadPiece(t: string, pos: nat) returns (e: nat, next: nat)
    requires pos < |t|
    ensures pos <= e <= next <= |t| && pos < next && e - pos == Piece(t[pos..]) && next - pos == Next(t[pos..])
  {
    e := pos;
    while e < |t| && t[e] != '\n' && e - pos < LINE_MAX
      invariant pos <= e <= |t| && e - pos <= LINE_MAX && e - pos + LineLen(t[e..]) == LineLen(t[pos..])
    {
      assert t[e..][1..] == t[e + 1..];
      e := e + 1;
    }
    next := if e - pos < LINE_MAX && e < |t| then e + 1 else e;
  }

  lemma {:induction false} PieceOf(s: string, n: nat, m: nat, piece: string, u: string)
    requires s != "" && n == Piece(s) && m == Next(s) && piece == s[..n] && u == s[m..]
    ensures Tokens(Broken(s)) == (if n == 0 then [] else [piece]) + Tokens(Broken(u))
  {
    PieceIsLine(s);
  }

  lemma {:induction false} PieceAt(t: string, pos: nat, e: nat, next: nat) returns (rest: seq<string>)
    requires pos < |t| && pos <= e <= next <= |t| && e - pos == Piece(t[pos..]) && next - pos == Next(t[pos..])
    ensures rest == Tokens(Broken(t[next..]))
    ensures e == pos ==> Tokens(Broken(t[pos..])) == rest
    ensures e > pos ==> Tokens(Broken(t[pos..])) == [t[pos..e]] + rest
  {
    rest := Tokens(Broken(t[next..]));
    var s := t[pos..];
    assert s[..e - pos] == t[pos..e] && s[next - pos..] == t[next..];
    PieceOf(s, e - pos, next - pos, t[pos..e], t[next..]);
  }

  /** stanza_get, on a file that could be opened. */
  method StanzaGet(t: string, want: string) returns (r: Option<string>)
    requires want != ""
    ensures r == GetText(Broken(t), want)
  {
    r := None;
    var inStanza := false;
    var pos := 0;
    assert t[0..] == t;
    while pos < |t|
      invariant 0 <= pos <= |t| && (!inStanza ==> r == None)
      invariant Reading(inStanza, Tokens(Broken(t[pos..])), want, r) == GetText(Broken(t), want)
    {
      var e, next := ReadPiece(t, pos);
      var line := t[pos..e];
      ghost var rest := PieceAt(t, pos, e, next);
      var word, _ := FirstWord(line);
      if e > pos { ReadLine(inStanza, line, rest, want, r); }
      if word == "iface" {
        if inStanza {
          return;
        }
        inStanza := true;
        if want == "method" { r := Method(line); }
      } else if inStanza && word == want {
        r := Some(Value(line));
      }
      pos := next;
    }
  }

  // ----- reading what was written --------------------------------------------------------

  predicate Shorts(ls: seq<string>) { forall i | 0 <= i < |ls| :: |ls[i]| <= LINE_MAX }

  lemma ShortsConcat(a: seq<string>, b: seq<string>)
    requires Shorts(a) && Shorts(b)
    ensures Shorts(a + b)
  {
  }

  lemma {:induction false} WithoutShorts(ls: seq<string>, n: string)
    requires Shorts(ls)
    ensures Shorts(Without(ls, n))
    decreases |ls|
  {
    if ls != [] && !IsIface(ls[0]) {
      WithoutShorts(ls[1..], n);
      ShortsConcat([ls[0]], Without(ls[1..], n));
    }
  }

  lemma {:induction false} SetInsideShorts(ls: seq<string>, n: string, v: string)
    requires Shorts(ls) && Shorts(Directive(n, v))
    ensures Shorts(SetInside(ls, n, v))
    decreases |ls|
  {
    if ls == [] || IsIface(ls[0]) {
      ShortsConcat(Directive(n, v), ls);
    } else if Word(ls[0]) == n {
      WithoutShorts(ls[1..], n);
      ShortsConcat(Directive(n, v), Without(ls[1..], n));
    } else {
      SetInsideShorts(ls[1..], n, v);
      ShortsConcat([ls[0]], SetInside(ls[1..], n, v));
    }
  }

  lemma {:induction false} SetShorts(ls: seq<string>, n: string, v: string)
    requires Shorts(ls) && Shorts(Directive(n, v))
    ensures Shorts(SetBefore(ls, n, v))
    decreases |ls|
  {
    if ls != [] {
      if IsIface(ls[0]) {
        SetInsideShorts(ls[1..], n, v);
        ShortsConcat([ls[0]], SetInside(ls[1..], n, v));
      } else {
        SetShorts(ls[1..], n, v);
        ShortsConcat([ls[0]], SetBefore(ls[1..], n, v));
      }
    }
  }

  /** The lens laws as the reader and the writer have them: in a file without a longer line, what was
      written is what the reader finds, and it finds everything else as before. */
  lemma ReaderLaws(t: string, n: string, v: string, m: string)
    requires NameOk(n) && m != n && |v| < VAL_MAX && (forall i | 0 <= i < |v| :: v[i] != '\n') && NoLongLine(t)
    ensures GetText(Broken(SetText(t, n, v)), n) == if !HasIface(Tokens(t)) || v == "" then None else Some(Clean(v))
    ensures GetText(Broken(SetText(t, n, v)), m) == GetText(Broken(t), m)
  {
    LensLaws(t, n, v, m);
    TokensOfSet(t, n, v);
    SetShorts(Tokens(t), n, v);
    BrokenIff(t);
    BrokenIff(SetText(t, n, v));
  }
}
