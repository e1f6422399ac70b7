/**
 * The interface stanza as a store (rcd/rcd_network.c): reading one directive of it, and
 * rewriting one directive while everything else in the file stays what it was.
 */
module Stanza {
  import opened Basics

  const STANZA_MAX: nat := 4096
  const VAL_MAX: nat := 128

  // ----- words -------------------------------------------------------------------------

  predicate Blank(c: char) { c == ' ' || c == '\t' }

  function SkipBlanks(s: string): (r: string)
    ensures |r| <= |s|
  {
    if s != "" && Blank(s[0]) then SkipBlanks(s[1..]) else s
  }

  function TakeWord(s: string, room: nat): (w: string)
    ensures |w| <= |s| && |w| <= room && w == s[..|w|]
  {
    if s == "" || Blank(s[0]) || s[0] == '\n' || room == 0 then "" else [s[0]] + TakeWord(s[1..], room - 1)
  }

  function Word(line: string): string { TakeWord(SkipBlanks(line), 31) }

  function Rest(line: string): string { SkipBlanks(line)[|Word(line)|..] }

  function UpToEnd(s: string): string {
    if s == "" || s[0] == '\r' || s[0] == '\n' then "" else [s[0]] + UpToEnd(s[1..])
  }

  // What a directive's line says: the rest of it, cut to the caller's buffer.
  function Value(line: string): string {
    var v := UpToEnd(SkipBlanks(Rest(line)));
    if |v| < VAL_MAX then v else v[..VAL_MAX - 1]
  }

  /** first_word. */
  method FirstWord(line: string) returns (word: string, rest: string)
    ensures word == Word(line) && rest == Rest(line)
  {
    var i := 0;
    while i < |line| && Blank(line[i])
      invariant 0 <= i <= |line| && SkipBlanks(line[i..]) == SkipBlanks(line)
    {
      assert line[i..][1..] == line[i + 1..];
      i := i + 1;
    }
    var s := line[i..];
    var n := WordLength(s);
    return s[..n], s[n..];
  }

  method WordLength(s: string) returns (n: nat)
    ensures n <= |s| && s[..n] == TakeWord(s, 31)
  {
    n := 0;
    ghost var room: nat := 31;
    assert s[0..] == s;
    while n < |s| && !Blank(s[n]) && s[n] != '\n' && n + 1 < 32
      invariant n <= |s| && n + room == 31 && n + |TakeWord(s[n..], room)| == |TakeWord(s, 31)|
    {
      assert s[n..][1..] == s[n + 1..];
      n, room := n + 1, room - 1;
    }
  }

  // ----- the stanza --------------------------------------------------------------------

  predicate IsIface(line: string) { Word(line) == "iface" }

  predicate Owned(name: string) { name in ["address", "netmask", "gateway", "dns-nameserver"] }

  predicate HasIface(ls: seq<string>) { ls != [] && (IsIface(ls[0]) || HasIface(ls[1..])) }

  // The directive's own line, if it has a value at all.
  function Directive(name: string, v: string): seq<string> { if v == "" then [] else ["    " + name + " " + v] }

  // The file before the stanza, in it, and in it once the directive has been written.
  function SetBefore(ls: seq<string>, name: string, v: string): seq<string> {
    if ls == [] then []
    else if IsIface(ls[0]) then [ls[0]] + SetInside(ls[1..], name, v)
    else [ls[0]] + SetBefore(ls[1..], name, v)
  }

  function SetInside(ls: seq<string>, name: string, v: string): seq<string> {
    if ls == [] || IsIface(ls[0]) then Directive(name, v) + ls
    else if Word(ls[0]) == name then Directive(name, v) + Without(ls[1..], name)
    else [ls[0]] + SetInside(ls[1..], name, v)
  }

  function Without(ls: seq<string>, name: string): seq<string> {
    if ls == [] || IsIface(ls[0]) then ls
    else if Word(ls[0]) == name then Without(ls[1..], name)
    else [ls[0]] + Without(ls[1..], name)
  }

  // The last word on it in the stanza counts.
  function GetInside(ls: seq<string>, name: string, found: Option<string>): Option<string>
    decreases |ls|
  {
    if ls == [] || IsIface(ls[0]) then found
    else GetInside(ls[1..], name, if Word(ls[0]) == name then Some(Value(ls[0])) else found)
  }

  function GetBefore(ls: seq<string>, name: string): Option<string> {
    if ls == [] then None
    else if IsIface(ls[0]) then GetInside(ls[1..], name, if name == "method" then Method(ls[0]) else None)
    else GetBefore(ls[1..], name)
  }

  // ----- the iface line ----------------------------------------------------------------

  predicate Space(c: char) { c == ' ' || '\t' <= c <= '\r' }

  function SkipSpace(s: string): (r: string)
    ensures |r| <= |s|
  {
    if s != "" && Space(s[0]) then SkipSpace(s[1..]) else s
  }

  function TakeField(s: string, room: nat): (w: string)
    ensures |w| <= |s| && |w| <= room && w == s[..|w|]
  {
    if s == "" || Space(s[0]) || room == 0 then "" else [s[0]] + TakeField(s[1..], room - 1)
  }

  datatype Fields = Fields(name: string, family: string, how: string)

  // sscanf with three bounded words; fewer is None.
  function Scan(rest: string): Option<Fields> {
    var s1 := SkipSpace(rest);
    var name := TakeField(s1, 31);
    var s2 := SkipSpace(s1[|name|..]);
    var family := TakeField(s2, 15);
    var s3 := SkipSpace(s2[|family|..]);
    var how := TakeField(s3, 31);
    if name == "" || family == "" || how == "" then None else Some(Fields(name, family, how))
  }

  function Method(line: string): Option<string> {
    match Scan(Rest(line)) case None => None case Some(f) => Some(f.how)
  }

  // ----- lines of a text -----------------------------------------------------------------

  function LineLen(t: string): (e: nat)
    ensures e <= |t| && (forall i | 0 <= i < e :: t[i] != '\n') && (e < |t| ==> t[e] == '\n')
  {
    if t == "" || t[0] == '\n' then 0 else 1 + LineLen(t[1..])
  }

  // Its lines, without the empty ones.
  function Tokens(t: string): seq<string> {
    if t == "" then []
    else if t[0] == '\n' then Tokens(t[1..])
    else
      var e := LineLen(t);
      [t[..e]] + Tokens(t[e..])
  }

  function Join(ls: seq<string>): string { if ls == [] then "" else ls[0] + "\n" + Join(ls[1..]) }

  predicate Line(l: string) { l != "" && forall i | 0 <= i < |l| :: l[i] != '\n' }

  lemma {:induction false} JoinConcat(a: seq<string>, b: seq<string>)
    ensures Join(a + b) == Join(a) + Join(b)
    decreases |a|
  {
    if a == [] {
      assert a + b == b;
    } else {
      assert (a + b)[1..] == a[1..] + b;
      JoinConcat(a[1..], b);
    }
  }

  lemma {:induction false} LineLenIs(l: string, t: string)
    requires forall i | 0 <= i < |l| :: l[i] != '\n'
    requires t == "" || t[0] == '\n'
    ensures LineLen(l + t) == |l|
    decreases |l|
  {
    if l == "" {
      assert l + t == t;
    } else {
      assert (l + t)[1..] == l[1..] + t;
      LineLenIs(l[1..], t);
    }
  }

  lemma {:induction false} TokensOfJoin(ls: seq<string>)
    requires forall i | 0 <= i < |ls| :: Line(ls[i])
    ensures Tokens(Join(ls)) == ls
    decreases |ls|
  {
    if ls != [] {
      var t := "\n" + Join(ls[1..]);
      LineLenIs(ls[0], t);
      assert Join(ls) == ls[0] + t;
      assert Join(ls)[|ls[0]|..] == t && Join(ls)[..|ls[0]|] == ls[0] && t[1..] == Join(ls[1..]);
      TokensOfJoin(ls[1..]);
    }
  }

  lemma {:induction false} TokensAreLines(t: string)
    ensures forall i | 0 <= i < |Tokens(t)| :: Line(Tokens(t)[i])
    ensures |Join(Tokens(t))| <= |t| + 1 && (t != "" && t[0] == '\n' ==> |Join(Tokens(t))| <= |t|)
    decreases |t|
  {
    if t != "" {
      if t[0] == '\n' {
        TokensAreLines(t[1..]);
      } else {
        var e := LineLen(t);
        TokensAreLines(t[e..]);
        assert Tokens(t)[1..] == Tokens(t[e..]);
        if e == |t| { assert t[e..] == ""; }
      }
    }
  }

  // ----- laws of the lines ---------------------------------------------------------------

  predicate NameOk(n: string) {
    0 < |n| <= 31 && n != "iface" && n != "method" && forall i | 0 <= i < |n| :: !Blank(n[i]) && n[i] != '\n'
  }

  lemma OwnedIsOk(n: string)
    requires Owned(n)
    ensures NameOk(n) && |n| <= 14
  {
  }

  // What a value reads back as.
  function Clean(v: string): string {
    var c := UpToEnd(SkipBlanks(v));
    if |c| < VAL_MAX then c else c[..VAL_MAX - 1]
  }

  predicate Plain(v: string) {
    |v| < VAL_MAX && (v != "" ==> !Blank(v[0])) && forall i | 0 <= i < |v| :: v[i] != '\r' && v[i] != '\n'
  }

  lemma {:induction false} UpToEndIs(s: string)
    ensures |UpToEnd(s)| <= |s| && (forall i | 0 <= i < |UpToEnd(s)| :: UpToEnd(s)[i] != '\r' && UpToEnd(s)[i] != '\n')
    ensures (forall i | 0 <= i < |s| :: s[i] != '\r' && s[i] != '\n') ==> UpToEnd(s) == s
  {
    if s != "" && s[0] != '\r' && s[0] != '\n' { UpToEndIs(s[1..]); }
  }

  lemma {:induction false} SkipBlanksIs(s: string)
    ensures SkipBlanks(s) != "" ==> !Blank(SkipBlanks(s)[0])
    ensures SkipBlanks(s) == s <==> s == "" || !Blank(s[0])
    decreases |s|
  {
    if s != "" && Blank(s[0]) { SkipBlanksIs(s[1..]); }
  }

  /** A value reads back as itself exactly when it is plain. */
  lemma CleanIffPlain(v: string)
    ensures Clean(v) == v <==> Plain(v)
  {
    SkipBlanksIs(v);
    UpToEndIs(SkipBlanks(v));
  }

  lemma {:induction false} TakeWordIs(n: string, t: string, room: nat)
    requires |n| <= room && (forall i | 0 <= i < |n| :: !Blank(n[i]) && n[i] != '\n') && t != "" && Blank(t[0])
    ensures TakeWord(n + t, room) == n
    decreases |n|
  {
    if n == "" {
      assert n + t == t;
    } else {
      assert (n + t)[1..] == n[1..] + t;
      TakeWordIs(n[1..], t, room - 1);
    }
  }

  lemma SkipOne(s: string)
    ensures SkipBlanks(" " + s) == SkipBlanks(s)
  {
    assert (" " + s)[1..] == s;
  }

  // A directive's line names it and holds its value.
  lemma DirectiveReads(n: string, v: string)
    requires NameOk(n)
    ensures var l := "    " + n + " " + v; Word(l) == n && Value(l) == Clean(v)
  {
    var l, t := "    " + n + " " + v, " " + v;
    assert l == " " + (" " + (" " + (" " + (n + t))));
    SkipOne(" " + (" " + (" " + (n + t)))); SkipOne(" " + (" " + (n + t))); SkipOne(" " + (n + t)); SkipOne(n + t);
    SkipBlanksIs(n + t);
    TakeWordIs(n, t, 31);
    assert Rest(l) == (n + t)[|n|..] == t;
    SkipOne(v);
  }

  lemma GetCons(l: string, ls: seq<string>, m: string, found: Option<string>)
    requires !IsIface(l)
    ensures GetInside([l] + ls, m, found) == GetInside(ls, m, if Word(l) == m then Some(Value(l)) else found)
  {
    assert ([l] + ls)[1..] == ls;
  }

  // Putting the directive in front of the rest of the stanza.
  lemma GetDirective(n: string, v: string, ls: seq<string>, m: string, found: Option<string>)
    requires NameOk(n)
    ensures GetInside(Directive(n, v) + ls, m, found)
         == GetInside(ls, m, if v != "" && m == n then Some(Clean(v)) else found)
  {
    if v == "" {
      assert Directive(n, v) + ls == ls;
    } else {
      DirectiveReads(n, v);
      GetCons("    " + n + " " + v, ls, m, found);
    }
  }

  lemma {:induction false} GetWithout(ls: seq<string>, n: string, m: string, found: Option<string>)
    ensures m == n ==> GetInside(Without(ls, n), m, found) == found
    ensures m != n ==> GetInside(Without(ls, n), m, found) == GetInside(ls, m, found)
    decreases |ls|
  {
    if ls != [] && !IsIface(ls[0]) {
      if Word(ls[0]) == n {
        GetWithout(ls[1..], n, m, found);
      } else {
        GetWithout(ls[1..], n, m, if Word(ls[0]) == m then Some(Value(ls[0])) else found);
        GetCons(ls[0], Without(ls[1..], n), m, found);
      }
    }
  }

  lemma {:induction false} GetSetInside(ls: seq<string>, n: string, v: string, m: string, found: Option<string>)
    requires NameOk(n)
    ensures m == n ==> GetInside(SetInside(ls, n, v), m, found) == if v == "" then found else Some(Clean(v))
    ensures m != n ==> GetInside(SetInside(ls, n, v), m, found) == GetInside(ls, m, found)
    decreases |ls|
  {
    if ls == [] || IsIface(ls[0]) {
      GetDirective(n, v, ls, m, found);
    } else if Word(ls[0]) == n {
      GetDirective(n, v, Without(ls[1..], n), m, found);
      GetWithout(ls[1..], n, m, if v != "" && m == n then Some(Clean(v)) else found);
    } else {
      GetSetInside(ls[1..], n, v, m, if Word(ls[0]) == m then Some(Value(ls[0])) else found);
      GetCons(ls[0], SetInside(ls[1..], n, v), m, found);
    }
  }

  /** Reading after writing: the directive written reads as its value, exactly when there is a stanza. */
  lemma {:induction false} GetSet(ls: seq<string>, n: string, v: string)
    requires NameOk(n)
    ensures GetBefore(SetBefore(ls, n, v), n) == if !HasIface(ls) || v == "" then None else Some(Clean(v))
    decreases |ls|
  {
    if ls != [] {
      if IsIface(ls[0]) {
        GetSetInside(ls[1..], n, v, n, None);
        assert SetBefore(ls, n, v)[1..] == SetInside(ls[1..], n, v);
      } else {
        GetSet(ls[1..], n, v);
        assert SetBefore(ls, n, v)[1..] == SetBefore(ls[1..], n, v);
      }
    }
  }

  /** Every other directive, and the method, read as before. */
  lemma {:induction false} GetOther(ls: seq<string>, n: string, v: string, m: string)
    requires NameOk(n) && m != n
    ensures GetBefore(SetBefore(ls, n, v), m) == GetBefore(ls, m)
    decreases |ls|
  {
    if ls != [] {
      if IsIface(ls[0]) {
        GetSetInside(ls[1..], n, v, m, if m == "method" then Method(ls[0]) else None);
        assert SetBefore(ls, n, v)[1..] == SetInside(ls[1..], n, v);
      } else {
        GetOther(ls[1..], n, v, m);
        assert SetBefore(ls, n, v)[1..] == SetBefore(ls[1..], n, v);
      }
    }
  }

  // ----- what stays ----------------------------------------------------------------------

  // The file without the directive in its stanza, and the stanzas behind the first.
  function Others(ls: seq<string>, n: string): seq<string> {
    if ls == [] then [] else if IsIface(ls[0]) then [ls[0]] + Without(ls[1..], n) else [ls[0]] + Others(ls[1..], n)
  }

  function LaterInside(ls: seq<string>): seq<string> { if ls == [] || IsIface(ls[0]) then ls else LaterInside(ls[1..]) }

  function Later(ls: seq<string>): seq<string> {
    if ls == [] then [] else if IsIface(ls[0]) then LaterInside(ls[1..]) else Later(ls[1..])
  }

  lemma {:induction false} WithoutTwice(ls: seq<string>, n: string)
    ensures Without(Without(ls, n), n) == Without(ls, n) && LaterInside(Without(ls, n)) == LaterInside(ls)
    decreases |ls|
  {
    if ls != [] && !IsIface(ls[0]) {
      WithoutTwice(ls[1..], n);
      if Word(ls[0]) != n { assert Without(ls, n)[1..] == Without(ls[1..], n); }
    }
  }

  lemma WithoutDirective(n: string, v: string, ls: seq<string>)
    requires NameOk(n)
    ensures Without(Directive(n, v) + ls, n) == Without(ls, n) && LaterInside(Directive(n, v) + ls) == LaterInside(ls)
    ensures v != "" ==> forall w :: SetInside(Directive(n, v) + ls, n, w) == Directive(n, w) + Without(ls, n)
  {
    if v == "" {
      assert Directive(n, v) + ls == ls;
    } else {
      DirectiveReads(n, v);
      assert (Directive(n, v) + ls)[1..] == ls;
    }
  }

  lemma {:induction false} WithoutSetInside(ls: seq<string>, n: string, v: string)
    requires NameOk(n)
    ensures Without(SetInside(ls, n, v), n) == Without(ls, n) && LaterInside(SetInside(ls, n, v)) == LaterInside(ls)
    decreases |ls|
  {
    if ls == [] || IsIface(ls[0]) {
      WithoutDirective(n, v, ls);
    } else if Word(ls[0]) == n {
      WithoutDirective(n, v, Without(ls[1..], n));
      WithoutTwice(ls[1..], n);
    } else {
      WithoutSetInside(ls[1..], n, v);
      assert SetInside(ls, n, v)[1..] == SetInside(ls[1..], n, v);
    }
  }

  /** All other lines keep their order, and later stanzas are not touched. */
  lemma {:induction false} OthersStay(ls: seq<string>, n: string, v: string)
    requires NameOk(n)
    ensures Others(SetBefore(ls, n, v), n) == Others(ls, n) && Later(SetBefore(ls, n, v)) == Later(ls)
    decreases |ls|
  {
    if ls != [] {
      if IsIface(ls[0]) {
        WithoutSetInside(ls[1..], n, v);
        assert SetBefore(ls, n, v)[1..] == SetInside(ls[1..], n, v);
      } else {
        OthersStay(ls[1..], n, v);
        assert SetBefore(ls, n, v)[1..] == SetBefore(ls[1..], n, v);
      }
    }
  }

  lemma {:induction false} SetNothing(ls: seq<string>, n: string)
    ensures SetInside(ls, n, "") == Without(ls, n)
    decreases |ls|
  {
    if ls != [] && !IsIface(ls[0]) { SetNothing(ls[1..], n); }
  }

  lemma {:induction false} SetInsideTwice(ls: seq<string>, n: string, v: string, w: string)
    requires NameOk(n) && (v != "" || w == "")
    ensures SetInside(SetInside(ls, n, v), n, w) == SetInside(ls, n, w)
    decreases |ls|
  {
    if v == "" {
      SetNothing(ls, n);
      SetNothing(Without(ls, n), n);
      WithoutTwice(ls, n);
    } else if ls == [] || IsIface(ls[0]) {
      WithoutDirective(n, v, ls);
    } else if Word(ls[0]) == n {
      WithoutDirective(n, v, Without(ls[1..], n));
      WithoutTwice(ls[1..], n);
    } else {
      SetInsideTwice(ls[1..], n, v, w);
      assert SetInside(ls, n, v)[1..] == SetInside(ls[1..], n, v);
    }
  }

  /** The last of two writes wins; in particular a second identical one changes nothing. */
  lemma {:induction false} SetTwice(ls: seq<string>, n: string, v: string, w: string)
    requires NameOk(n) && (v != "" || w == "")
    ensures SetBefore(SetBefore(ls, n, v), n, w) == SetBefore(ls, n, w)
    decreases |ls|
  {
    if ls != [] {
      if IsIface(ls[0]) {
        SetInsideTwice(ls[1..], n, v, w);
        assert SetBefore(ls, n, v)[1..] == SetInside(ls[1..], n, v);
      } else {
        SetTwice(ls[1..], n, v, w);
        assert SetBefore(ls, n, v)[1..] == SetBefore(ls[1..], n, v);
      }
    }
  }

  // ----- the text ------------------------------------------------------------------------

  function SetText(t: string, n: string, v: string): string { Join(SetBefore(Tokens(t), n, v)) }

  function GetText(t: string, m: string): Option<string> { GetBefore(Tokens(t), m) }

  predicate AllLines(ls: seq<string>) { forall i | 0 <= i < |ls| :: Line(ls[i]) }

  lemma LinesConcat(a: seq<string>, b: seq<string>)
    requires AllLines(a) && AllLines(b)
    ensures AllLines(a + b)
  {
  }

  lemma DirectiveIsLine(n: string, v: string)
    requires NameOk(n) && forall i | 0 <= i < |v| :: v[i] != '\n'
    ensures AllLines(Directive(n, v))
  {
  }

  lemma {:induction false} WithoutLines(ls: seq<string>, n: string)
    requires AllLines(ls)
    ensures AllLines(Without(ls, n)) && |Join(Without(ls, n))| <= |Join(ls)|
    decreases |ls|
  {
    if ls != [] && !IsIface(ls[0]) {
      WithoutLines(ls[1..], n);
      if Word(ls[0]) != n {
        LinesConcat([ls[0]], Without(ls[1..], n));
        JoinCons(ls[0], Without(ls[1..], n));
      }
    }
  }

  lemma JoinCons(l: string, ls: seq<string>)
    ensures Join([l] + ls) == l + "\n" + Join(ls)
  {
    assert ([l] + ls)[1..] == ls;
  }

  lemma DirectiveSize(n: string, v: string)
    ensures |Join(Directive(n, v))| <= |n| + |v| + 6
  {
    if v != "" { JoinCons("    " + n + " " + v, []); }
  }

  lemma {:induction false} SetInsideLines(ls: seq<string>, n: string, v: string)
    requires NameOk(n) && (forall i | 0 <= i < |v| :: v[i] != '\n') && AllLines(ls)
    ensures AllLines(SetInside(ls, n, v)) && |Join(SetInside(ls, n, v))| <= |Join(ls)| + |n| + |v| + 6
    decreases |ls|
  {
    DirectiveIsLine(n, v);
    DirectiveSize(n, v);
    if ls == [] || IsIface(ls[0]) {
      LinesConcat(Directive(n, v), ls);
      JoinConcat(Directive(n, v), ls);
    } else if Word(ls[0]) == n {
      WithoutLines(ls[1..], n);
      LinesConcat(Directive(n, v), Without(ls[1..], n));
      JoinConcat(Directive(n, v), Without(ls[1..], n));
    } else {
      SetInsideLines(ls[1..], n, v);
      LinesConcat([ls[0]], SetInside(ls[1..], n, v));
      JoinCons(ls[0], SetInside(ls[1..], n, v));
    }
  }

  lemma {:induction false} SetLines(ls: seq<string>, n: string, v: string)
    requires NameOk(n) && (forall i | 0 <= i < |v| :: v[i] != '\n') && AllLines(ls)
    ensures AllLines(SetBefore(ls, n, v)) && |Join(SetBefore(ls, n, v))| <= |Join(ls)| + |n| + |v| + 6
    decreases |ls|
  {
    if ls != [] {
      if IsIface(ls[0]) {
        SetInsideLines(ls[1..], n, v);
        LinesConcat([ls[0]], SetInside(ls[1..], n, v));
        JoinCons(ls[0], SetInside(ls[1..], n, v));
      } else {
        SetLines(ls[1..], n, v);
        LinesConcat([ls[0]], SetBefore(ls[1..], n, v));
        JoinCons(ls[0], SetBefore(ls[1..], n, v));
      }
    }
  }

  // The lines of a rewritten text are the rewritten lines of the text.
  lemma TokensOfSet(t: string, n: string, v: string)
    requires NameOk(n) && forall i | 0 <= i < |v| :: v[i] != '\n'
    ensures Tokens(SetText(t, n, v)) == SetBefore(Tokens(t), n, v)
  {
    TokensAreLines(t);
    SetLines(Tokens(t), n, v);
    TokensOfJoin(SetBefore(Tokens(t), n, v));
  }

  /** The lens laws of the file: what was written reads back, and everything else reads as before. */
  lemma LensLaws(t: string, n: string, v: string, m: string)
    requires NameOk(n) && m != n && forall i | 0 <= i < |v| :: v[i] != '\n'
    ensures GetText(SetText(t, n, v), n) == if !HasIface(Tokens(t)) || v == "" then None else Some(Clean(v))
    ensures GetText(SetText(t, n, v), m) == GetText(t, m)
  {
    TokensOfSet(t, n, v);
    GetSet(Tokens(t), n, v);
    GetOther(Tokens(t), n, v, m);
  }

  /** Writing the same value again changes nothing. */
  lemma SetTextTwice(t: string, n: string, v: string)
    requires NameOk(n) && forall i | 0 <= i < |v| :: v[i] != '\n'
    ensures SetText(SetText(t, n, v), n, v) == SetText(t, n, v)
  {
    TokensOfSet(t, n, v);
    SetTwice(Tokens(t), n, v, v);
  }

  /** The output, with its terminator, fits the input's length and 256 more. */
  lemma OutputFits(t: string, n: string, v: string)
    requires NameOk(n) && |n| <= 14 && |v| < VAL_MAX && forall i | 0 <= i < |v| :: v[i] != '\n'
    ensures |SetText(t, n, v)| + 1 <= |t| + 256
  {
    TokensAreLines(t);
    SetLines(Tokens(t), n, v);
  }

  // ----- the passes over the file ----------------------------------------------------------

  method LineEnd(t: string, pos: nat) returns (e: nat)
    requires pos <= |t|
    ensures pos <= e <= |t| && e - pos == LineLen(t[pos..])
  {
    e := pos;
    while e < |t| && t[e] != '\n'
      invariant pos <= e <= |t| && e - pos + LineLen(t[e..]) == LineLen(t[pos..])
    {
      assert t[e..][1..] == t[e + 1..];
      e := e + 1;
    }
  }

  // A line cut off the front: nothing if it is empty.
  lemma TokensCut(t: string, pos: nat, e: nat)
    requires pos < |t| && pos <= e <= |t| && e - pos == LineLen(t[pos..])
    ensures e == pos ==> e < |t| && Tokens(t[pos..]) == Tokens(t[e + 1..])
    ensures pos < e < |t| ==> Tokens(t[pos..]) == [t[pos..e]] + Tokens(t[e + 1..])
    ensures pos < e == |t| ==> Tokens(t[pos..]) == [t[pos..e]]
  {
    var s := t[pos..];
    assert s[e - pos..] == t[e..] && s[..e - pos] == t[pos..e];
    if e < |t| { assert t[e..][1..] == t[e + 1..] && s[e - pos] == t[e]; }
  }

  // What the writer has still to write: before the stanza, in it, in it with the directive
  // written, or behind it.
  datatype Phase = Ahead | Inside | Written | Behind

  function Writing(ph: Phase, ls: seq<string>, n: string, v: string): seq<string> {
    match ph
    case Ahead => SetBefore(ls, n, v)
    case Inside => SetInside(ls, n, v)
    case Written => Without(ls, n)
    case Behind => ls
  }

  function PhaseOf(inStanza: bool, written: bool, past: bool): Phase {
    if past then Behind else if !inStanza then Ahead else if written then Written else Inside
  }

  lemma WriteLine(ph: Phase, l: string, ls: seq<string>, n: string, v: string)
    ensures Writing(ph, [l] + ls, n, v)
         == if IsIface(l) then
              (if ph == Inside then Directive(n, v) else []) + [l]
              + (if ph == Ahead then SetInside(ls, n, v) else ls)
            else if (ph == Inside || ph == Written) && Word(l) == n then
              (if ph == Inside then Directive(n, v) else []) + Without(ls, n)
            else [l] + Writing(ph, ls, n, v)
  {
    assert ([l] + ls)[1..] == ls;
    assert [] + [l] == [l] && [l] + ls == [] + [l] + ls && [] + Without(ls, n) == Without(ls, n);
    assert Directive(n, v) + [l] + ls == Directive(n, v) + ([l] + ls);
  }

  // What one line adds to the output, and how it goes on.
  lemma PlainLine(out: string, ph: Phase, l: string, ls: seq<string>, n: string, v: string)
    requires !IsIface(l) && !((ph == Inside || ph == Written) && Word(l) == n)
    ensures out + Join(Writing(ph, [l] + ls, n, v)) == out + (l + "\n") + Join(Writing(ph, ls, n, v))
  {
    WriteLine(ph, l, ls, n, v);
    JoinCons(l, Writing(ph, ls, n, v));
  }

  lemma OwnLine(out: string, ph: Phase, l: string, ls: seq<string>, n: string, v: string)
    requires !IsIface(l) && (ph == Inside || ph == Written) && Word(l) == n
    ensures out + Join(Writing(ph, [l] + ls, n, v))
         == (if ph == Inside then out + Join(Directive(n, v)) else out) + Join(Without(ls, n))
  {
    WriteLine(ph, l, ls, n, v);
    JoinConcat(Directive(n, v), Without(ls, n));
    assert [] + Without(ls, n) == Without(ls, n);
  }

  lemma IfaceLine(out: string, ph: Phase, l: string, ls: seq<string>, n: string, v: string)
    requires IsIface(l)
    ensures out + Join(Writing(ph, [l] + ls, n, v))
         == (if ph == Inside then out + Join(Directive(n, v)) else out) + (l + "\n")
            + Join(if ph == Ahead then SetInside(ls, n, v) else ls)
  {
    WriteLine(ph, l, ls, n, v);
    JoinThree(out, if ph == Inside then Directive(n, v) else [], l, if ph == Ahead then SetInside(ls, n, v) else ls);
  }

  lemma JoinThree(out: string, a: seq<string>, l: string, b: seq<string>)
    ensures out + Join(a + [l] + b) == out + Join(a) + (l + "\n") + Join(b)
    ensures a == [] ==> out + Join(a) == out
  {
    assert a + [l] + b == a + ([l] + b);
    JoinConcat(a, [l] + b);
    JoinCons(l, b);
  }

  lemma Closing(out: string, ph: Phase, n: string, v: string)
    ensures out + Join(Writing(ph, [], n, v)) == if ph == Inside then out + Join(Directive(n, v)) else out
  {
    assert Directive(n, v) + [] == Directive(n, v);
  }

  method PutDirective(out: string, n: string, v: string) returns (more: string)
    ensures more == out + Join(Directive(n, v))
  {
    more := out;
    if v != "" {
      JoinCons("    " + n + " " + v, []);
      more := out + ("    " + n + " " + v + "\n");
    }
  }

  /** stanza_set, up to the replacement of the file: refused, or the new text. */
  method StanzaSet(t: string, n: string, v: string) returns (r: Option<string>)
    ensures r == if Owned(n) && |t| <= STANZA_MAX then Some(SetText(t, n, v)) else None
  {
    if !Owned(n) {
      return None;
    }
    if |t| > STANZA_MAX {
      return None;
    }
    OwnedIsOk(n);
    var out := "";
    var written, inStanza, past := false, false, false;
    var pos := 0;
    assert t[0..] == t;
    while pos < |t|
      invariant 0 <= pos <= |t| && !(past && inStanza) && (written ==> inStanza || past)
      invariant out + Join(Writing(PhaseOf(inStanza, written, past), Tokens(t[pos..]), n, v)) == SetText(t, n, v)
    {
      var e := LineEnd(t, pos);
      TokensCut(t, pos, e);
      if e > pos {
        var line := t[pos..e];
        ghost var rest := if e < |t| then Tokens(t[e + 1..]) else [];
        out, written, inStanza, past := CopyLine(out, line, rest, n, v, written, inStanza, past);
      }
      pos := if e < |t| then e + 1 else e;
    }
    assert t[pos..] == "";
    Closing(out, PhaseOf(inStanza, written, past), n, v);
    if inStanza && !written { out := PutDirective(out, n, v); }
    return Some(out);
  }

  method CopyLine(out: string, line: string, ghost rest: seq<string>, n: string, v: string,
                  written: bool, inStanza: bool, past: bool)
    returns (out': string, written': bool, inStanza': bool, past': bool)
    requires n != "iface" && !(past && inStanza) && (written ==> inStanza || past)
    ensures !(past' && inStanza') && (written' ==> inStanza' || past')
    ensures out' + Join(Writing(PhaseOf(inStanza', written', past'), rest, n, v))
         == out + Join(Writing(PhaseOf(inStanza, written, past), [line] + rest, n, v))
  {
    out', written', inStanza', past' := out, written, inStanza, past;
    ghost var ph := PhaseOf(inStanza, written, past);
    var word, _ := FirstWord(line);
    if word == "iface" {
      IfaceLine(out, ph, line, rest, n, v);
      if inStanza {
        if !written { out' := PutDirective(out', n, v); }
        written', inStanza', past' := true, false, true;
      } else if !past {
        inStanza' := true;
      }
    } else if inStanza && word == n {
      OwnLine(out, ph, line, rest, n, v);
      SetNothing(rest, n);
      if !written {
        out' := PutDirective(out', n, v);
        written' := v != "";
      }
      return;
    } else {
      PlainLine(out, ph, line, rest, n, v);
    }
    out' := out' + (line + "\n");
  }

  // ----- the method ----------------------------------------------------------------------

  predicate Scans(l: string) { IsIface(l) && Scan(Rest(l)).Some? }

  function IfaceOf(f: Fields): string { "iface " + f.name + " " + f.family + " " + f.how }

  // The first iface line with three words gets the method.
  function MethodLines(ls: seq<string>, how: string): seq<string> {
    if ls == [] then []
    else if Scans(ls[0]) then [IfaceOf(Scan(Rest(ls[0])).value.(how := how))] + ls[1..]
    else [ls[0]] + MethodLines(ls[1..], how)
  }

  predicate CanSetMethod(ls: seq<string>) { ls != [] && (Scans(ls[0]) || CanSetMethod(ls[1..])) }

  // The line the pass writes for l, and what it still has to write.
  function MethodLine(done: bool, l: string, how: string): string {
    if !done && Scans(l) then IfaceOf(Scan(Rest(l)).value.(how := how)) else l
  }

  function MethodRest(done: bool, ls: seq<string>, how: string): seq<string> {
    if done then ls else MethodLines(ls, how)
  }

  lemma MethodStep(out: string, done: bool, l: string, ls: seq<string>, how: string)
    ensures out + Join(MethodRest(done, [l] + ls, how))
         == out + (MethodLine(done, l, how) + "\n") + Join(MethodRest(done || Scans(l), ls, how))
    ensures CanSetMethod([l] + ls) <==> Scans(l) || CanSetMethod(ls)
  {
    assert ([l] + ls)[1..] == ls;
    JoinCons(MethodLine(done, l, how), MethodRest(done || Scans(l), ls, how));
  }

  /** method_set, up to the replacement of the file. */
  method MethodSet(t: string, how: string) returns (r: Option<string>)
    ensures r == if |t| <= STANZA_MAX && CanSetMethod(Tokens(t)) then Some(Join(MethodLines(Tokens(t), how))) else None
  {
    if |t| > STANZA_MAX {
      return None;
    }
    var out, done := "", false;
    var pos := 0;
    assert t[0..] == t;
    while pos < |t|
      invariant 0 <= pos <= |t|
      invariant CanSetMethod(Tokens(t)) <==> done || CanSetMethod(Tokens(t[pos..]))
      invariant out + Join(MethodRest(done, Tokens(t[pos..]), how)) == Join(MethodLines(Tokens(t), how))
    {
      var e := LineEnd(t, pos);
      TokensCut(t, pos, e);
      if e > pos {
        var line := t[pos..e];
        MethodStep(out, done, line, if e < |t| then Tokens(t[e + 1..]) else [], how);
        var word, after := FirstWord(line);
        if !done && word == "iface" && Scan(after).Some? {
          out := out + (IfaceOf(Scan(after).value.(how := how)) + "\n");
          done := true;
        } else {
          out := out + (line + "\n");
        }
      }
      pos := if e < |t| then e + 1 else e;
    }
    assert t[pos..] == "" && out + "" == out;
    return if done then Some(out) else None;
  }

  lemma {:induction false} ScanSize(rest: string)
    requires Scan(rest).Some?
    ensures var f := Scan(rest).value; |rest| >= |f.name| + |f.family| + |f.how| && |f.how| >= 1
  {
    var s1 := SkipSpace(rest);
    var s2 := SkipSpace(s1[|TakeField(s1, 31)|..]);
    assert |s2| <= |s1| - |TakeField(s1, 31)|;
  }

  // The rewritten line is longer than the old one by the method and two blanks at most.
  lemma {:induction false} IfaceSize(l: string, how: string)
    requires Scans(l)
    ensures |IfaceOf(Scan(Rest(l)).value.(how := how))| <= |l| + |how| + 2
  {
    ScanSize(Rest(l));
    assert |Word(l)| == |"iface"| == 5;
  }

  lemma {:induction false} MethodSize(ls: seq<string>, how: string)
    ensures |Join(MethodLines(ls, how))| <= |Join(ls)| + |how| + 2
    decreases |ls|
  {
    if ls != [] {
      JoinCons(ls[0], ls[1..]);
      assert [ls[0]] + ls[1..] == ls;
      if Scans(ls[0]) {
        IfaceSize(ls[0], how);
        JoinCons(IfaceOf(Scan(Rest(ls[0])).value.(how := how)), ls[1..]);
      } else {
        MethodSize(ls[1..], how);
        JoinCons(ls[0], MethodLines(ls[1..], how));
      }
    }
  }

  /** The output of method_set, with its terminator, fits the input's length and 64 more, for any method of
      sixty characters and so for the two there are. */
  lemma MethodFits(t: string, how: string)
    requires |how| <= 60
    ensures |Join(MethodLines(Tokens(t), how))| + 1 <= |t| + 64
  {
    TokensAreLines(t);
    MethodSize(Tokens(t), how);
  }

  predicate FieldOk(w: string, room: nat) { 0 < |w| <= room && forall i | 0 <= i < |w| :: !Space(w[i]) }

  lemma {:induction false} TakeFieldIs(w: string, t: string, room: nat)
    requires |w| <= room && (forall i | 0 <= i < |w| :: !Space(w[i])) && (t == "" || Space(t[0]))
    ensures TakeField(w + t, room) == w
    decreases |w|
  {
    if w == "" {
      assert w + t == t;
    } else {
      assert (w + t)[1..] == w[1..] + t;
      TakeFieldIs(w[1..], t, room - 1);
    }
  }

  lemma {:induction false} FieldsAreOk(s: string, room: nat)
    ensures forall i | 0 <= i < |TakeField(s, room)| :: !Space(TakeField(s, room)[i])
    decreases |s|
  {
    if s != "" && !Space(s[0]) && room > 0 { FieldsAreOk(s[1..], room - 1); }
  }

  // One field off the front.
  lemma FieldFirst(w: string, t: string, room: nat)
    requires FieldOk(w, room) && (t == "" || Space(t[0]))
    ensures SkipSpace(" " + w + t) == w + t && TakeField(w + t, room) == w && (w + t)[|w|..] == t
  {
    assert " " + w + t == " " + (w + t) && (" " + (w + t))[1..] == w + t;
    TakeFieldIs(w, t, room);
  }

  function FieldText(f: Fields): string { " " + f.name + (" " + f.family + (" " + f.how)) }

  lemma IfaceReads(f: Fields)
    ensures Word(IfaceOf(f)) == "iface" && Rest(IfaceOf(f)) == FieldText(f)
  {
    assert IfaceOf(f) == "iface" + FieldText(f);
    WordThenRest("iface", FieldText(f));
  }

  lemma {:induction false} WordThenRest(w: string, t: string)
    requires 0 < |w| <= 31 && (forall i | 0 <= i < |w| :: !Blank(w[i]) && w[i] != '\n') && t != "" && Blank(t[0])
    ensures Word(w + t) == w && Rest(w + t) == t
  {
    SkipBlanksIs(w + t);
    TakeWordIs(w, t, 31);
    assert (w + t)[|w|..] == t;
  }

  lemma FieldsRead(f: Fields)
    requires FieldOk(f.name, 31) && FieldOk(f.family, 15) && FieldOk(f.how, 31)
    ensures Scan(FieldText(f)) == Some(f)
  {
    var t3 := " " + f.how;
    var t2 := " " + f.family + t3;
    FieldFirst(f.name, t2, 31);
    FieldFirst(f.family, t3, 15);
    FieldFirst(f.how, "", 31);
    assert " " + f.how + "" == t3 && f.how + "" == f.how;
  }

  lemma ScanInverts(f: Fields)
    requires FieldOk(f.name, 31) && FieldOk(f.family, 15) && FieldOk(f.how, 31)
    ensures Word(IfaceOf(f)) == "iface" && Scan(Rest(IfaceOf(f))) == Some(f)
  {
    IfaceReads(f);
    FieldsRead(f);
  }

  // The first iface line, and what follows it.
  function StanzaOf(ls: seq<string>): seq<string> {
    if ls == [] then [] else if IsIface(ls[0]) then ls else StanzaOf(ls[1..])
  }

  lemma ScannedIsOk(rest: string)
    requires Scan(rest).Some?
    ensures FieldOk(Scan(rest).value.name, 31) && FieldOk(Scan(rest).value.family, 15)
  {
    var s1 := SkipSpace(rest);
    FieldsAreOk(s1, 31);
    FieldsAreOk(SkipSpace(s1[|TakeField(s1, 31)|..]), 15);
  }

  /** The method written is the method read if the first iface line has three words and no line of the stanza says otherwise; if it has not, the method reads as before. */
  lemma {:induction false} MethodGetSet(ls: seq<string>, how: string)
    requires FieldOk(how, 31) && HasIface(ls)
    ensures StanzaOf(ls) != []
    ensures Scans(StanzaOf(ls)[0])
            ==> GetBefore(MethodLines(ls, how), "method") == GetInside(StanzaOf(ls)[1..], "method", Some(how))
    ensures !Scans(StanzaOf(ls)[0]) ==> GetBefore(MethodLines(ls, how), "method") == GetBefore(ls, "method")
    decreases |ls|
  {
    if Scans(ls[0]) {
      ScannedIsOk(Rest(ls[0]));
      ScanInverts(Scan(Rest(ls[0])).value.(how := how));
      assert MethodLines(ls, how)[1..] == ls[1..];
    } else {
      assert MethodLines(ls, how)[1..] == MethodLines(ls[1..], how);
      if IsIface(ls[0]) {
        MethodInside(ls[1..], how, "method", Method(ls[0]));
      } else {
        MethodGetSet(ls[1..], how);
      }
    }
  }

  // A later stanza's method is none of this one's business.
  lemma {:induction false} MethodInside(ls: seq<string>, how: string, m: string, found: Option<string>)
    requires FieldOk(how, 31)
    ensures GetInside(MethodLines(ls, how), m, found) == GetInside(ls, m, found)
    decreases |ls|
  {
    if ls != [] {
      if Scans(ls[0]) {
        ScannedIsOk(Rest(ls[0]));
        ScanInverts(Scan(Rest(ls[0])).value.(how := how));
      } else {
        assert MethodLines(ls, how)[1..] == MethodLines(ls[1..], how);
        if !IsIface(ls[0]) {
          MethodInside(ls[1..], how, m, if Word(ls[0]) == m then Some(Value(ls[0])) else found);
        }
      }
    }
  }

  /** Setting the method leaves every directive as it reads. */
  lemma {:induction false} MethodGetOther(ls: seq<string>, how: string, m: string)
    requires FieldOk(how, 31) && m != "method"
    ensures GetBefore(MethodLines(ls, how), m) == GetBefore(ls, m)
    decreases |ls|
  {
    if ls != [] {
      if Scans(ls[0]) {
        ScannedIsOk(Rest(ls[0]));
        ScanInverts(Scan(Rest(ls[0])).value.(how := how));
        assert MethodLines(ls, how)[1..] == ls[1..];
      } else {
        assert MethodLines(ls, how)[1..] == MethodLines(ls[1..], how);
        if IsIface(ls[0]) {
          MethodInside(ls[1..], how, m, None);
        } else {
          MethodGetOther(ls[1..], how, m);
        }
      }
    }
  }
}
