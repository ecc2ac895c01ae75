/** The string operations of the source that its parsers are built from: split on a separator,
    join, replacement of CR LF by LF, and trimming. */
module Text {

  const LF := "\n"
  const BLANK := "\n\n"

  function Last<T>(s: seq<T>): T
    requires |s| > 0
  {
    s[|s| - 1]
  }

  function Init<T>(s: seq<T>): seq<T>
    requires |s| > 0
  {
    s[..|s| - 1]
  }

  function FlatMap<A, B>(f: A -> seq<B>, s: seq<A>): seq<B> {
    if s == [] then [] else f(s[0]) + FlatMap(f, s[1..])
  }

  lemma FlatMapCons<A, B>(f: A -> seq<B>, x: A, t: seq<A>)
    ensures FlatMap(f, [x] + t) == f(x) + FlatMap(f, t)
  {
    assert ([x] + t)[1..] == t;
  }

  lemma {:induction false} FlatMapConcat<A, B>(f: A -> seq<B>, a: seq<A>, b: seq<A>)
    ensures FlatMap(f, a + b) == FlatMap(f, a) + FlatMap(f, b)
  {
    if a == [] {
      Associate([], [], b);
      Associate([], [], FlatMap(f, b));
    } else {
      var x, t := a[0], a[1..];
      FlatMapConcat(f, t, b);
      assert a == [x] + t;
      FlatMapCons(f, x, t);
      Associate([x], t, b);
      FlatMapCons(f, x, t + b);
      Associate(f(x), FlatMap(f, t), FlatMap(f, b));
    }
  }

  lemma SlicesMeet<T>(s: seq<T>, i: nat, j: nat)
    requires i <= j <= |s|
    ensures s == s[..i] + s[i..] && s[i..] == s[i..j] + s[j..]
    ensures s[..j][..i] == s[..i] && s[..j][i..] == s[i..j]
  {
  }

  lemma Associate<T>(a: seq<T>, b: seq<T>, c: seq<T>)
    ensures a + b + c == a + (b + c)
    ensures [] + c == c
  {
  }

  lemma FlatMapOne<A, B>(f: A -> seq<B>, x: A)
    ensures FlatMap(f, [x]) == f(x)
  {
    assert [x][1..] == [] && f(x) + [] == f(x);
  }

  lemma FlatMapNext<A, B>(f: A -> seq<B>, s: seq<A>, i: nat)
    requires i < |s|
    ensures FlatMap(f, s[..i + 1]) == FlatMap(f, s[..i]) + f(s[i])
  {
    var before, x := s[..i], s[i];
    assert s[..i + 1] == before + [x];
    FlatMapConcat(f, before, [x]);
    FlatMapOne(f, x);
  }

  lemma FlatMapSplit<A, B>(f: A -> seq<B>, s: seq<A>, i: nat)
    requires i <= |s|
    ensures FlatMap(f, s) == FlatMap(f, s[..i]) + FlatMap(f, s[i..])
  {
    var before, after := s[..i], s[i..];
    assert s == before + after;
    FlatMapConcat(f, before, after);
  }

  function Concat(parts: seq<string>): string {
    if parts == [] then "" else parts[0] + Concat(parts[1..])
  }

  function Join(parts: seq<string>, sep: string): string {
    if parts == [] then ""
    else if |parts| == 1 then parts[0]
    else parts[0] + sep + Join(parts[1..], sep)
  }

  /** Leftmost, non-overlapping split; always at least one piece. */
  function Split(s: string, sep: string): (parts: seq<string>)
    requires |sep| > 0
    ensures |parts| > 0
    decreases |s|
  {
    if |s| < |sep| then [s]
    else if sep <= s then [""] + Split(s[|sep|..], sep)
    else Cons(s[0], Split(s[1..], sep))
  }

  function Cons(c: char, parts: seq<string>): seq<string>
    requires |parts| > 0
  {
    [[c] + parts[0]] + parts[1..]
  }

  lemma SplitAtSeparator(rest: string, sep: string)
    requires |sep| > 0
    ensures Split(sep + rest, sep) == [""] + Split(rest, sep)
    ensures Handed(sep + rest, sep) == sep + Handed(rest, sep)
  {
    assert (sep + rest)[|sep|..] == rest;
  }

  lemma SplitAtChar(c: char, rest: string, sep: string)
    requires 0 < |sep| <= 1 + |rest| && !(sep <= [c] + rest)
    ensures Split([c] + rest, sep) == Cons(c, Split(rest, sep))
    ensures Handed([c] + rest, sep) == if Handed(rest, sep) == "" then "" else [c] + Handed(rest, sep)
  {
    assert ([c] + rest)[1..] == rest;
  }

  lemma {:induction false} JoinSplit(s: string, sep: string)
    requires |sep| > 0
    ensures Join(Split(s, sep), sep) == s
    decreases |s|
  {
    if |s| < |sep| {
    } else if sep <= s {
      var rest := s[|sep|..];
      JoinSplit(rest, sep);
      assert s == sep + rest;
      SplitAtSeparator(rest, sep);
      JoinMore("", Split(rest, sep), sep);
    } else {
      var c, rest := s[0], s[1..];
      JoinSplit(rest, sep);
      assert s == [c] + rest;
      SplitAtChar(c, rest, sep);
      JoinCons(c, Split(rest, sep), sep);
    }
  }

  lemma JoinMore(head: string, parts: seq<string>, sep: string)
    requires |parts| > 0
    ensures Join([head] + parts, sep) == head + sep + Join(parts, sep)
  {
    assert ([head] + parts)[1..] == parts;
  }

  lemma JoinCons(c: char, parts: seq<string>, sep: string)
    requires |parts| > 0
    ensures Join(Cons(c, parts), sep) == [c] + Join(parts, sep)
  {
    if |parts| > 1 {
      var head, tail := parts[0], parts[1..];
      assert parts == [head] + tail && Cons(c, parts) == [[c] + head] + tail;
      JoinMore(head, tail, sep);
      JoinMore([c] + head, tail, sep);
    }
  }

  /** The part of `s` up to and including its last separator: what a splitter has handed on. */
  function Handed(s: string, sep: string): (h: string)
    requires |sep| > 0
    ensures h != "" ==> |h| >= |sep| && Last(h) == Last(sep)
    decreases |s|
  {
    if |s| < |sep| then ""
    else if sep <= s then sep + Handed(s[|sep|..], sep)
    else
      var h := Handed(s[1..], sep);
      if h == "" then "" else [s[0]] + h
  }

  lemma {:induction false} HandedLast(s: string, sep: string)
    requires |sep| > 0
    ensures Handed(s, sep) + Last(Split(s, sep)) == s
    ensures Handed(s, sep) == "" <==> |Split(s, sep)| == 1
    decreases |s|
  {
    if |s| < |sep| {
      assert "" + s == s;
    } else if sep <= s {
      var rest := s[|sep|..];
      HandedLast(rest, sep);
      assert s == sep + rest;
      SplitAtSeparator(rest, sep);
      Associate(sep, Handed(rest, sep), Last(Split(rest, sep)));
    } else {
      var c, rest := s[0], s[1..];
      HandedLast(rest, sep);
      assert s == [c] + rest;
      SplitAtChar(c, rest, sep);
      ConsAppend(c, Split(rest, sep), []);
      Associate([c], Handed(rest, sep), Last(Split(rest, sep)));
      Associate("", "", s);
    }
  }

  lemma ConsAppend(c: char, r: seq<string>, more: seq<string>)
    requires |r| > 0
    ensures |r| > 1 ==> Last(Cons(c, r)) == Last(r)
    ensures |r| == 1 ==> Last(Cons(c, r)) == [c] + Last(r)
    ensures |r| > 1 ==> Init(Cons(c, r)) + more == Cons(c, Init(r) + more)
  {
  }

  /** What an incremental splitter relies on: once the complete pieces of `a` are handed on, its
      last piece may be replaced by any continuation, and nothing is lost or split differently. */
  lemma {:induction false} SplitCarry(a: string, rest: string, sep: string)
    requires |sep| > 0
    ensures Split(Handed(a, sep) + rest, sep) == Init(Split(a, sep)) + Split(rest, sep)
    decreases |a|
  {
    HandedLast(a, sep);
    if Handed(a, sep) == "" {
      Associate("", "", rest);
    } else if sep <= a {
      assert a == sep + a[|sep|..];
      SplitCarry(a[|sep|..], rest, sep);
      CarrySeparator(a[|sep|..], rest, sep);
    } else {
      assert a == [a[0]] + a[1..];
      HandedLast(a[1..], sep);
      SplitCarry(a[1..], rest, sep);
      CarryChar(a[0], a[1..], rest, sep);
    }
  }

  lemma CarrySeparator(t: string, rest: string, sep: string)
    requires |sep| > 0
    requires Split(Handed(t, sep) + rest, sep) == Init(Split(t, sep)) + Split(rest, sep)
    ensures Split(Handed(sep + t, sep) + rest, sep) == Init(Split(sep + t, sep)) + Split(rest, sep)
  {
    SplitAtSeparator(t, sep);
    Associate(sep, Handed(t, sep), rest);
    SplitAtSeparator(Handed(t, sep) + rest, sep);
    InitMore("", Split(t, sep), Split(rest, sep));
  }

  lemma InitMore(head: string, r: seq<string>, more: seq<string>)
    requires |r| > 0
    ensures Init([head] + r) + more == [head] + (Init(r) + more)
  {
  }

  lemma CarryChar(c: char, t: string, rest: string, sep: string)
    requires 0 < |sep| <= 1 + |t| && !(sep <= [c] + t)
    requires Handed(t, sep) != "" && Handed(t, sep) <= t && |Split(t, sep)| > 1
    requires Split(Handed(t, sep) + rest, sep) == Init(Split(t, sep)) + Split(rest, sep)
    ensures Split(Handed([c] + t, sep) + rest, sep) == Init(Split([c] + t, sep)) + Split(rest, sep)
  {
    var h := Handed(t, sep);
    SplitAtChar(c, t, sep);
    Associate([c], h, rest);
    assert !(sep <= [c] + (h + rest)) by {
      assert ([c] + (h + rest))[..|sep|] == ([c] + t)[..|sep|];
    }
    SplitAtChar(c, h + rest, sep);
    ConsAppend(c, Split(t, sep), Split(rest, sep));
  }

  /** Splitting at single line feeds undoes joining with them. */
  lemma {:induction false} SplitJoinLines(lines: seq<string>)
    requires |lines| > 0
    requires forall l | l in lines :: '\n' !in l
    ensures Split(Join(lines, LF), LF) == lines
    decreases |lines|
  {
    if |lines| == 1 {
      SplitSingle(lines[0]);
    } else {
      SplitJoinLines(lines[1..]);
      SplitHead(lines[0], Join(lines[1..], LF));
      assert lines[0] + LF + Join(lines[1..], LF) == lines[0] + (LF + Join(lines[1..], LF));
    }
  }

  lemma {:induction false} SplitSingle(s: string)
    requires '\n' !in s
    ensures Split(s, LF) == [s]
    decreases |s|
  {
    if |s| > 0 {
      SplitSingle(s[1..]);
      assert !(LF <= s) by { assert s[0] != '\n'; }
      assert s == [s[0]] + s[1..];
    }
  }

  lemma {:induction false} SplitHead(head: string, rest: string)
    requires '\n' !in head
    ensures Split(head + (LF + rest), LF) == [head] + Split(rest, LF)
    decreases |head|
  {
    var s := head + (LF + rest);
    if head == "" {
      assert s == LF + rest;
      assert s[1..] == rest;
    } else {
      SplitHead(head[1..], rest);
      assert s[1..] == head[1..] + (LF + rest);
      assert s[0] == head[0] && !(LF <= s);
      assert [head[0]] + head[1..] == head;
    }
  }

  /** A piece without blank line and not ending in a line feed is split off whole. */
  lemma {:induction false} SplitBlock(body: string, rest: string)
    requires forall i {:trigger body[i]} | 0 < i < |body| :: body[i] != '\n' || body[i - 1] != '\n'
    requires body != "" ==> Last(body) != '\n'
    ensures Split(body + (BLANK + rest), BLANK) == [body] + Split(rest, BLANK)
    decreases |body|
  {
    if body == "" {
      Associate("", "", BLANK + rest);
      SplitAtSeparator(rest, BLANK);
    } else {
      var c, t := body[0], body[1..];
      assert body == [c] + t;
      assert forall i {:trigger t[i]} | 0 < i < |t| :: t[i] == body[i + 1] && t[i - 1] == body[i];
      SplitBlock(t, rest);
      var more := t + (BLANK + rest);
      Associate([c], t, BLANK + rest);
      assert more[0] == (if t == "" then '\n' else body[1]);
      assert ([c] + more)[0] == c && ([c] + more)[1] == more[0];
      SplitAtChar(c, more, BLANK);
      assert Cons(c, [t] + Split(rest, BLANK)) == [[c] + t] + Split(rest, BLANK);
    }
  }

  /** `replaceAll("\r\n", "\n")`. */
  function Normalise(s: string): string {
    if |s| < 2 then s
    else if s[0] == '\r' && s[1] == '\n' then "\n" + Normalise(s[2..])
    else [s[0]] + Normalise(s[1..])
  }

  /** A line feed for each line break: CR LF, or a CR or LF alone. */
  function Unbroken(s: string): string {
    if s == "" then ""
    else if |s| >= 2 && s[0] == '\r' && s[1] == '\n' then "\n" + Unbroken(s[2..])
    else [if s[0] == '\r' then '\n' else s[0]] + Unbroken(s[1..])
  }

  predicate CutsCrLf(a: string, b: string) {
    |a| > 0 && |b| > 0 && Last(a) == '\r' && b[0] == '\n'
  }

  /** Normalising piecewise is exact unless the cut separates a CR from its LF, where it leaves one
      character too many. */
  lemma {:induction false} NormaliseConcat(a: string, b: string)
    ensures !CutsCrLf(a, b) ==> Normalise(a + b) == Normalise(a) + Normalise(b)
    ensures CutsCrLf(a, b) ==> |Normalise(a + b)| + 1 == |Normalise(a)| + |Normalise(b)|
    decreases |a|
  {
    if a == "" {
      Associate("", "", b);
      Associate("", "", Normalise(b));
    } else if a == "\r" && CutsCrLf(a, b) {
      var t := b[1..];
      assert a + b == "\r\n" + t && b == "\n" + t;
      NormaliseCrLf(t);
      NormaliseCons('\n', t);
    } else if |a| >= 2 && a[0] == '\r' && a[1] == '\n' {
      var t := a[2..];
      NormaliseConcat(t, b);
      assert a == "\r\n" + t;
      NormaliseCrLf(t);
      NormaliseCrLf(t + b);
      Associate("\r\n", t, b);
      Associate("\n", Normalise(t), Normalise(b));
    } else {
      var c, t := a[0], a[1..];
      NormaliseConcat(t, b);
      assert a == [c] + t;
      NormaliseCons(c, t);
      Associate([c], t, b);
      NormaliseCons(c, t + b);
      Associate([c], Normalise(t), Normalise(b));
    }
  }

  lemma NormaliseCrLf(rest: string)
    ensures Normalise("\r\n" + rest) == "\n" + Normalise(rest)
  {
    assert ("\r\n" + rest)[2..] == rest;
  }

  lemma NormaliseCrLfAlone()
    ensures Normalise("\r\n") == "\n"
  {
    NormaliseCrLf("");
    assert "\r\n" + "" == "\r\n" && "\n" + "" == "\n";
  }

  lemma NormaliseCons(c: char, rest: string)
    requires c == '\r' && rest != "" ==> rest[0] != '\n'
    ensures Normalise([c] + rest) == [c] + Normalise(rest)
  {
    assert ([c] + rest)[1..] == rest;
  }

  lemma {:induction false} NormaliseShrinks(s: string)
    ensures |Normalise(s)| <= |s|
    decreases |s|
  {
    if |s| >= 2 {
      NormaliseShrinks(s[1..]);
      NormaliseShrinks(s[2..]);
    }
  }

  predicate CrCrLfAt(s: string, i: int) {
    2 <= i < |s| && s[i - 2] == '\r' && s[i - 1] == '\r' && s[i] == '\n'
  }

  ghost predicate NoCrCrLf(s: string) {
    forall i :: !CrCrLfAt(s, i)
  }

  /** Without CR CR LF, normalising a prefix early and the whole again changes nothing. */
  lemma {:induction false} NormaliseOnce(s: string, c: string)
    requires NoCrCrLf(s + c)
    ensures Normalise(Normalise(s) + c) == Normalise(s + c)
    decreases |s|
  {
    if s == "" {
    } else if |s| >= 2 && s[0] == '\r' && s[1] == '\n' {
      var t := s[2..];
      assert s == "\r\n" + t;
      NoCrCrLfSuffix(s, c, 2);
      NormaliseOnce(t, c);
      NormaliseCrLf(t);
      Associate("\n", Normalise(t), c);
      NormaliseCons('\n', Normalise(t) + c);
      Associate("\r\n", t, c);
      NormaliseCrLf(t + c);
    } else {
      var x, t := s[0], s[1..];
      assert s == [x] + t;
      NoCrCrLfSuffix(s, c, 1);
      NormaliseOnce(t, c);
      NormaliseOnceCons(x, t, c);
    }
  }

  lemma NoCrCrLfSuffix(s: string, c: string, k: nat)
    requires NoCrCrLf(s + c) && k <= |s|
    ensures NoCrCrLf(s[k..] + c)
  {
    forall i ensures !CrCrLfAt(s[k..] + c, i) {
      assert !CrCrLfAt(s + c, i + k);
    }
  }

  lemma NoCrCrLfPrefix(s: string, c: string)
    requires NoCrCrLf(s + c)
    ensures NoCrCrLf(s)
  {
    forall i ensures !CrCrLfAt(s, i) {
      assert !CrCrLfAt(s + c, i);
    }
  }

  lemma NormaliseOnceCons(x: char, t: string, c: string)
    requires x == '\r' && t != "" ==> t[0] != '\n'
    requires NoCrCrLf([x] + t + c)
    requires Normalise(Normalise(t) + c) == Normalise(t + c)
    ensures Normalise(Normalise([x] + t) + c) == Normalise([x] + t + c)
  {
    NormaliseCons(x, t);
    Associate([x], Normalise(t), c);
    Associate([x], t, c);
    if t == "" {
    } else {
      NormaliseHead(t);
      assert !CrCrLfAt([x] + t + c, 2);
      NormaliseCons(x, Normalise(t) + c);
      NormaliseCons(x, t + c);
    }
  }

  lemma NormaliseHead(t: string)
    requires t != ""
    ensures Normalise(t) != ""
    ensures Normalise(t)[0] == '\n' ==> t[0] == '\n' || (|t| >= 2 && t[0] == '\r' && t[1] == '\n')
  {
  }

  lemma {:induction false} NormaliseWithoutCr(s: string)
    requires '\r' !in s
    ensures Normalise(s) == s
  {
    if |s| >= 2 {
      NormaliseWithoutCr(s[1..]);
    }
  }

  lemma {:induction false} NormaliseSame(s: string)
    requires |Normalise(s)| == |s|
    ensures Normalise(s) == s
    decreases |s|
  {
    if |s| >= 2 {
      NormaliseShrinks(s[2..]);
      NormaliseSame(s[1..]);
      assert [s[0]] + s[1..] == s;
    }
  }

  /** Across a cut the LF takes the place of the CR. */
  lemma NormaliseCut(s: string, c: string)
    requires CutsCrLf(s, c)
    ensures Normalise(s) != "" && Last(Normalise(s)) == '\r'
    ensures Normalise(c) != "" && Normalise(c)[0] == '\n'
    ensures Normalise(s + c) == Init(Normalise(s)) + Normalise(c)
  {
    var t, y := Init(s), c[1..];
    assert s == t + "\r" && c == "\n" + y && s + c == t + ("\r\n" + y);
    NormaliseConcat(t, "\r");
    NormaliseConcat(t, "\r\n" + y);
    NormaliseCrLf(y);
    NormaliseCons('\n', y);
  }

  // ---------------------------------------------------------------- what a splitter hands on

  predicate NoBlank(s: string) {
    forall i {:trigger s[i]} | 0 < i < |s| :: s[i] != '\n' || s[i - 1] != '\n'
  }

  lemma {:induction false} SplitNoBlank(s: string)
    ensures NoBlank(s) <==> Split(s, BLANK) == [s]
    decreases |s|
  {
    if |s| >= 2 {
      if BLANK <= s {
        assert s[1] == '\n' && s[0] == '\n';
      } else {
        var c, t := s[0], s[1..];
        assert s == [c] + t && (s[0] != '\n' || s[1] != '\n');
        SplitNoBlank(t);
        NoBlankCons(c, t);
        SplitAtChar(c, t, BLANK);
        WholePiece(c, Split(t, BLANK), t);
      }
    }
  }

  lemma WholePiece(c: char, r: seq<string>, t: string)
    requires |r| > 0
    ensures Cons(c, r) == [[c] + t] <==> r == [t]
  {
    assert |Cons(c, r)| == |r| && Cons(c, r)[0] == [c] + r[0];
    assert ([c] + r[0])[1..] == r[0] && ([c] + t)[1..] == t;
  }

  lemma NoBlankCons(c: char, t: string)
    requires t != "" && (c != '\n' || t[0] != '\n')
    ensures NoBlank([c] + t) <==> NoBlank(t)
  {
    var s := [c] + t;
    if NoBlank(s) {
      forall i {:trigger t[i]} | 0 < i < |t| ensures t[i] != '\n' || t[i - 1] != '\n' {
        assert s[i + 1] == t[i] && s[i] == t[i - 1];
      }
    } else {
      var i :| 0 < i < |s| && s[i] == '\n' && s[i - 1] == '\n';
      assert i >= 2 && t[i - 1] == s[i] && t[i - 2] == s[i - 1];
    }
  }

  /** The last piece has no blank line. */
  lemma LastNoBlank(s: string)
    ensures NoBlank(Last(Split(s, BLANK)))
  {
    var last := Last(Split(s, BLANK));
    HandedLast(s, BLANK);
    SplitCarry(s, last, BLANK);
    assert Init(Split(s, BLANK)) + [last] == Split(s, BLANK);
    SplitNoBlank(last);
  }

  /** The blocks handed on and the text handed on determine each other. */
  lemma BlocksGiveHanded(a: string, b: string)
    requires Init(Split(a, BLANK)) == Init(Split(b, BLANK))
    ensures Handed(a, BLANK) == Handed(b, BLANK)
  {
    HandedOfBlocks(a);
    HandedOfBlocks(b);
  }

  lemma HandedOfBlocks(a: string)
    ensures Handed(a, BLANK) == Join(Init(Split(a, BLANK)) + [""], BLANK)
  {
    SplitCarry(a, "", BLANK);
    assert Handed(a, BLANK) + "" == Handed(a, BLANK);
    JoinSplit(Handed(a, BLANK), BLANK);
  }

  /** Behind the last blank line of `a`, a continuation without blank line hands on nothing more. */
  lemma HandsOnSame(a: string, e: string)
    requires NoBlank(e)
    ensures Init(Split(Handed(a, BLANK) + e, BLANK)) == Init(Split(a, BLANK))
  {
    SplitCarry(a, e, BLANK);
    SplitNoBlank(e);
  }

  /** `b` is `a` without some of its CRs. */
  ghost predicate Thins(a: string, b: string)
    decreases |a|
  {
    if a == "" then b == ""
    else (b != "" && a[0] == b[0] && Thins(a[1..], b[1..])) || (a[0] == '\r' && Thins(a[1..], b))
  }

  lemma {:induction false} ThinsSelf(x: string)
    ensures Thins(x, x)
    decreases |x|
  {
    if x != "" { ThinsSelf(x[1..]); }
  }

  lemma {:induction false} ThinsAppend(a: string, b: string, x: string)
    requires Thins(a, b)
    ensures Thins(a + x, b + x)
    decreases |a|
  {
    if a == "" {
      ThinsSelf(x);
      Associate("", "", x);
    } else {
      var t := a[1..];
      assert (a + x)[1..] == t + x && (a + x)[0] == a[0];
      if b != "" && a[0] == b[0] && Thins(t, b[1..]) {
        ThinsAppend(t, b[1..], x);
        assert (b + x)[1..] == b[1..] + x && (b + x)[0] == b[0];
      } else {
        ThinsAppend(t, b, x);
      }
    }
  }

  lemma {:induction false} ThinsPrefix(x: string, a: string, b: string)
    requires Thins(a, b)
    ensures Thins(x + a, x + b)
    decreases |x|
  {
    if x == "" {
      Associate("", "", a);
      Associate("", "", b);
    } else {
      ThinsPrefix(x[1..], a, b);
      assert (x + a)[1..] == x[1..] + a && (x + b)[1..] == x[1..] + b;
    }
  }

  lemma {:induction false} ThinsDrop(a: string, b: string)
    requires Thins(a, b) && b != "" && Last(b) == '\r'
    ensures Thins(a, Init(b))
    decreases |a|
  {
    var t := a[1..];
    if a[0] == b[0] && Thins(t, b[1..]) {
      if |b| == 1 {
        assert b[1..] == "" && Init(b) == "";
      } else {
        ThinsDrop(t, b[1..]);
        assert Init(b)[1..] == Init(b[1..]);
      }
    } else {
      ThinsDrop(t, b);
    }
  }

  lemma {:induction false} ThinsNoBlank(a: string, b: string)
    requires Thins(a, b) && NoBlank(b)
    ensures NoBlank(a)
    decreases |a|
  {
    if |a| >= 2 {
      var c, t := a[0], a[1..];
      assert a == [c] + t;
      if b != "" && c == b[0] && Thins(t, b[1..]) {
        var u := b[1..];
        assert b == [c] + u;
        if u != "" {
          assert b[1] == u[0];
          NoBlankCons(c, u);
        }
        ThinsNoBlank(t, u);
      } else {
        ThinsNoBlank(t, b);
      }
      NoBlankCons(c, t);
    }
  }

  // ---------------------------------------------------------------- normalising again and again

  /** Only CRs up to the first LF, which is there. */
  predicate CrRunToLf(s: string) {
    s != "" && (s[0] == '\n' || (s[0] == '\r' && CrRunToLf(s[1..])))
  }

  /** `b` is `a` without some CRs of runs that end in an LF: what any number of normalisations leaves. */
  ghost predicate RunThins(a: string, b: string)
    decreases |a|
  {
    if a == "" then b == ""
    else
      || (b != "" && a[0] == b[0] && RunThins(a[1..], b[1..]))
      || (a[0] == '\r' && CrRunToLf(a[1..]) && RunThins(a[1..], b))
  }

  lemma {:induction false} CrRunAppend(a: string, x: string)
    requires CrRunToLf(a)
    ensures CrRunToLf(a + x)
  {
    if a[0] != '\n' {
      CrRunAppend(a[1..], x);
      assert (a + x)[1..] == a[1..] + x;
    }
  }

  lemma {:induction false} CrRunInit(a: string)
    requires CrRunToLf(a) && Last(a) == '\r'
    ensures CrRunToLf(Init(a))
  {
    if a[0] == '\n' {
      assert Init(a)[0] == '\n';
    } else {
      CrRunInit(a[1..]);
      assert |a| > 2 && Init(a)[1..] == Init(a[1..]) && Init(a)[0] == a[0];
    }
  }

  lemma {:induction false} CrRunThinned(a: string, b: string)
    requires RunThins(a, b) && CrRunToLf(b)
    ensures CrRunToLf(a)
    decreases |a|
  {
    if a[0] == b[0] && RunThins(a[1..], b[1..]) && a[0] != '\n' {
      CrRunThinned(a[1..], b[1..]);
    }
  }

  lemma {:induction false} RunThinsSelf(x: string)
    ensures RunThins(x, x)
    decreases |x|
  {
    if x != "" { RunThinsSelf(x[1..]); }
  }

  lemma {:induction false} RunThinsAppend(a: string, b: string, x: string)
    requires RunThins(a, b)
    ensures RunThins(a + x, b + x)
    decreases |a|
  {
    if a == "" {
      RunThinsSelf(x);
      Associate("", "", x);
    } else {
      var t := a[1..];
      assert (a + x)[1..] == t + x && (a + x)[0] == a[0];
      if b != "" && a[0] == b[0] && RunThins(t, b[1..]) {
        RunThinsAppend(t, b[1..], x);
        assert (b + x)[1..] == b[1..] + x && (b + x)[0] == b[0];
      } else {
        RunThinsAppend(t, b, x);
        CrRunAppend(t, x);
      }
    }
  }

  lemma {:induction false} RunThinsPrefix(x: string, a: string, b: string)
    requires RunThins(a, b)
    ensures RunThins(x + a, x + b)
    decreases |x|
  {
    if x == "" {
      Associate("", "", a);
      Associate("", "", b);
    } else {
      RunThinsPrefix(x[1..], a, b);
      assert (x + a)[1..] == x[1..] + a && (x + b)[1..] == x[1..] + b;
    }
  }

  lemma {:induction false} RunThinsThrough(a: string, b: string, c: string)
    requires RunThins(a, b) && RunThins(b, c)
    ensures RunThins(a, c)
    decreases |a|
  {
    if a != "" {
      if b != "" && a[0] == b[0] && RunThins(a[1..], b[1..]) {
        if c != "" && b[0] == c[0] && RunThins(b[1..], c[1..]) {
          RunThinsThrough(a[1..], b[1..], c[1..]);
        } else {
          CrRunThinned(a[1..], b[1..]);
          RunThinsThrough(a[1..], b[1..], c);
        }
      } else {
        RunThinsThrough(a[1..], b, c);
      }
    }
  }

  lemma {:induction false} NormaliseThins(x: string)
    ensures RunThins(x, Normalise(x))
    decreases |x|
  {
    if |x| < 2 {
      RunThinsSelf(x);
    } else if x[0] == '\r' && x[1] == '\n' {
      var t := x[2..];
      NormaliseThins(t);
      assert x == "\r\n" + t && x[1..] == "\n" + t && x[1..][1..] == t;
      assert ("\n" + Normalise(t))[1..] == Normalise(t);
      assert RunThins(x[1..], "\n" + Normalise(t));
    } else {
      NormaliseThins(x[1..]);
      assert ([x[0]] + Normalise(x[1..]))[1..] == Normalise(x[1..]);
    }
  }

  /** The last character stays, and so does a CR there. */
  lemma {:induction false} RunThinsLast(a: string, b: string)
    requires RunThins(a, b) && a != ""
    ensures b != "" && Last(b) == Last(a)
    ensures Last(a) == '\r' ==> RunThins(Init(a), Init(b))
    decreases |a|
  {
    var t := a[1..];
    if b != "" && a[0] == b[0] && RunThins(t, b[1..]) {
      if t == "" {
        assert b[1..] == "" && Init(a) == "" && Init(b) == "";
      } else {
        RunThinsLast(t, b[1..]);
        assert Last(b) == Last(b[1..]);
        assert Init(a)[1..] == Init(t) && Init(b)[1..] == Init(b[1..]) && Init(a)[0] == a[0] && Init(b)[0] == b[0];
      }
    } else {
      RunThinsLast(t, b);
      if Last(a) == '\r' {
        CrRunInit(t);
        assert Init(a)[1..] == Init(t) && Init(a)[0] == a[0];
      }
    }
  }

  lemma {:induction false} NormaliseLast(s: string)
    requires s != ""
    ensures Normalise(s) != "" && Last(Normalise(s)) == Last(s)
  {
    NormaliseThins(s);
    RunThinsLast(s, Normalise(s));
  }

  /** Once an LF is pending, only CRs before the next one make a gap that normalising again can close. */
  predicate Gapless(s: string, pending: bool) {
    if s == "" then true
    else if s[0] == '\n' then !pending && Gapless(s[1..], true)
    else Gapless(s[1..], pending && s[0] == '\r')
  }

  lemma {:induction false} GaplessThinned(a: string, b: string, pending: bool)
    requires RunThins(a, b)
    ensures Gapless(a, pending) <==> Gapless(b, pending)
    decreases |a|
  {
    if a != "" {
      if b != "" && a[0] == b[0] && RunThins(a[1..], b[1..]) {
        GaplessThinned(a[1..], b[1..], if a[0] == '\n' then true else pending && a[0] == '\r');
      } else {
        CrRunGapless(a[1..], pending);
        GaplessThinned(a[1..], b, pending);
      }
    }
  }

  lemma CrRunGapless(t: string, pending: bool)
    requires CrRunToLf(t)
    ensures Gapless("\r" + t, pending) == Gapless(t, pending)
  {
    assert ("\r" + t)[1..] == t;
  }

  lemma {:induction false} GaplessNoBlank(s: string, pending: bool)
    requires Gapless(s, pending)
    ensures NoBlank(s) && (pending && s != "" ==> s[0] != '\n')
    decreases |s|
  {
    if s != "" {
      var c, t := s[0], s[1..];
      assert s == [c] + t;
      GaplessNoBlank(t, if c == '\n' then true else pending && c == '\r');
      if t != "" { NoBlankCons(c, t); }
    }
  }

  predicate NoCrLf(s: string) {
    forall i {:trigger s[i]} | 0 < i < |s| :: s[i] != '\n' || s[i - 1] != '\r'
  }

  lemma NoCrLfCons(c: char, t: string)
    requires NoCrLf([c] + t)
    ensures NoCrLf(t) && (c == '\r' && t != "" ==> t[0] != '\n')
  {
    var s := [c] + t;
    forall i {:trigger t[i]} | 0 < i < |t| ensures t[i] != '\n' || t[i - 1] != '\r' {
      assert s[i + 1] == t[i] && s[i] == t[i - 1];
    }
    assert t != "" ==> s[1] == t[0] && s[0] == c;
  }

  lemma {:induction false} NormalHasNoCrLf(s: string)
    requires Normalise(s) == s
    ensures NoCrLf(s)
  {
    forall i {:trigger s[i]} | 0 < i < |s| ensures s[i] != '\n' || s[i - 1] != '\r' {
      if s[i] == '\n' && s[i - 1] == '\r' { NormaliseShortens(s, i - 1); }
    }
  }

  lemma NormaliseShortens(s: string, i: nat)
    requires i + 1 < |s| && s[i] == '\r' && s[i + 1] == '\n'
    ensures |Normalise(s)| < |s|
  {
    var x, y := s[..i], s[i + 2..];
    assert s == x + ("\r\n" + y);
    NormaliseConcat(x, "\r\n" + y);
    NormaliseCrLf(y);
    NormaliseShrinks(x);
    NormaliseShrinks(y);
  }

  /** How many characters of the text have these first q as their normal form. */
  function RawLength(s: string, q: nat): (m: nat)
    requires q <= |Normalise(s)|
    ensures m <= |s|
    decreases |s|
  {
    if q == 0 then 0
    else if |s| >= 2 && s[0] == '\r' && s[1] == '\n' then 2 + RawLength(s[2..], q - 1)
    else 1 + RawLength(s[1..], q - 1)
  }

  lemma {:induction false} RawLengthSplits(s: string, q: nat)
    requires q <= |Normalise(s)|
    ensures SplitsAt(s, RawLength(s, q), q)
    decreases |s|
  {
    if q == 0 {
      assert s[..0] == "" && s[0..] == s;
    } else if |s| >= 2 && s[0] == '\r' && s[1] == '\n' {
      assert s == "\r\n" + s[2..];
      RawLengthSplits(s[2..], q - 1);
      SplitsBehindCrLf(s[2..], RawLength(s[2..], q - 1), q - 1);
    } else {
      assert s == [s[0]] + s[1..];
      RawLengthSplits(s[1..], q - 1);
      SplitsBehindChar(s[0], s[1..], RawLength(s[1..], q - 1), q - 1);
    }
  }

  lemma SplitsBehindCrLf(t: string, m: nat, q: nat)
    requires SplitsAt(t, m, q)
    ensures SplitsAt("\r\n" + t, 2 + m, 1 + q)
  {
    NormaliseCrLf(t);
    NormaliseCrLf(t[..m]);
    SplitsBehind("\r\n", "\n", t, m, q);
  }

  lemma SplitsBehindChar(c: char, t: string, m: nat, q: nat)
    requires SplitsAt(t, m, q) && (c == '\r' && t != "" ==> t[0] != '\n')
    ensures SplitsAt([c] + t, 1 + m, 1 + q)
  {
    NormaliseCons(c, t);
    NormaliseCons(c, t[..m]);
    SplitsBehind([c], [c], t, m, q);
  }

  /** The text's first m characters have the normal form's first q as theirs, and the others the others. */
  predicate SplitsAt(s: string, m: nat, q: nat) {
    && m <= |s| && q <= |Normalise(s)|
    && Normalise(s[..m]) == Normalise(s)[..q] && Normalise(s[m..]) == Normalise(s)[q..]
  }

  lemma SplitsBehind(x: string, y: string, t: string, m: nat, q: nat)
    requires SplitsAt(t, m, q)
    requires Normalise(x + t) == y + Normalise(t) && Normalise(x + t[..m]) == y + Normalise(t[..m])
    ensures SplitsAt(x + t, |x| + m, |y| + q)
  {
    TakesBehind(x, t, m);
    TakesBehind(y, Normalise(t), q);
  }

  lemma TakesBehind(x: string, t: string, m: nat)
    requires m <= |t|
    ensures (x + t)[..|x| + m] == x + t[..m] && (x + t)[|x| + m..] == t[m..]
  {
  }

  /** Where normalising changes a text, it first puts an LF for a CR. */
  lemma {:induction false} NormaliseDiffers(s: string) returns (j: nat)
    requires Normalise(s) != s
    ensures j < |s| && j < |Normalise(s)| && Normalise(s)[j] == '\n' && s[j] == '\r'
    decreases |s|
  {
    if s[0] == '\r' && s[1] == '\n' {
      j := 0;
    } else {
      assert s == [s[0]] + s[1..];
      j := NormaliseDiffers(s[1..]);
      j := j + 1;
    }
  }

  function Crs(k: nat): string {
    if k == 0 then "" else "\r" + Crs(k - 1)
  }

  lemma {:induction false} NormaliseCrs(k: nat)
    ensures Normalise(Crs(k) + "\n") == Crs(if k == 0 then 0 else k - 1) + "\n"
  {
    if k == 1 {
      assert Crs(1) == "\r" && Crs(1) + "\n" == "\r\n";
      NormaliseCrLfAlone();
    } else if k > 1 {
      NormaliseCrs(k - 1);
      var t := Crs(k - 1) + "\n";
      assert Crs(k) + "\n" == "\r" + t && t[0] == '\r';
      NormaliseCons('\r', t);
      assert "\r" + (Crs(k - 2) + "\n") == Crs(k - 1) + "\n";
    }
  }

  /** The text up to a gap, and the gap. */
  function Gap(y: string, k: nat): string {
    y + "\n" + (Crs(k) + "\n")
  }

  lemma NormaliseGap(y: string, k: nat)
    ensures Normalise(y + "\n") != "" && Last(Normalise(y + "\n")) == '\n'
    ensures Normalise(Gap(y, k)) == Gap(Init(Normalise(y + "\n")), if k == 0 then 0 else k - 1)
  {
    NormaliseLast(y + "\n");
    NormaliseConcat(y + "\n", Crs(k) + "\n");
    NormaliseCrs(k);
    var n := Normalise(y + "\n");
    assert n == Init(n) + "\n";
  }

  lemma ClosedGap(y: string)
    ensures !NoBlank(Gap(y, 0))
  {
    var s := Gap(y, 0);
    assert s == y + "\n\n";
    assert s[|y| + 1] == '\n' && s[|y|] == '\n';
  }

  /** Where a text is not gapless there is a gap, opened in it or pending. */
  lemma {:induction false} GapFound(s: string, pending: bool) returns (open: bool, y: string, k: nat, z: string)
    requires !Gapless(s, pending)
    ensures open ==> pending && s == Crs(k) + "\n" + z
    ensures !open ==> s == Gap(y, k) + z
    decreases |s|
  {
    var c, t := s[0], s[1..];
    assert s == [c] + t;
    if c == '\n' && pending {
      open, y, k, z := true, "", 0, t;
      assert Crs(0) + "\n" + z == s;
    } else {
      open, y, k, z := GapFound(t, if c == '\n' then true else pending && c == '\r');
      if !open {
        y := [c] + y;
        assert s == Gap(y, k) + z;
      } else if c == '\n' {
        open := false;
        assert Gap("", k) + z == "\n" + (Crs(k) + "\n" + z);
        y := "";
      } else {
        k := k + 1;
        assert s == Crs(k) + "\n" + z;
      }
    }
  }

  /** In a text without CR LF that ends with an LF there is nothing to thin. */
  lemma {:induction false} RunThinsBehind(h: string, w: string, t: string) returns (u: string)
    requires RunThins(h + w, t) && NoCrLf(h) && (h != "" ==> Last(h) == '\n')
    ensures t == h + u && RunThins(w, u)
    decreases |h|
  {
    if h == "" {
      assert h + w == w;
      u := t;
    } else {
      var c, g := h[0], h[1..];
      assert h == [c] + g && (h + w)[0] == c && (h + w)[1..] == g + w;
      NoCrLfCons(c, g);
      if g == "" {
        assert c == '\n' && g + w == w;
        u := t[1..];
      } else {
        if c == '\r' && CrRunToLf(g + w) { CrRunInside(c, g, w); }
        u := RunThinsBehind(g, w, t[1..]);
      }
      assert t == [c] + t[1..];
    }
  }

  lemma {:induction false} CrRunInside(c: char, g: string, w: string)
    requires c == '\r' && g != "" && Last(g) == '\n' && CrRunToLf(g + w)
    ensures !NoCrLf([c] + g)
    decreases |g|
  {
    var s := [c] + g;
    assert (g + w)[0] == g[0];
    if g[0] == '\n' {
      assert s[1] == '\n' && s[0] == '\r';
    } else {
      var d, r := g[0], g[1..];
      assert (g + w)[1..] == r + w && g == [d] + r && r != "";
      CrRunInside(d, r, w);
      var i :| 0 < i < |g| && g[i] == '\n' && g[i - 1] == '\r';
      assert s[i + 1] == g[i] && s[i] == g[i - 1];
    }
  }

  /** ECMAScript white space and line terminators, as removed by trim. */
  predicate IsSpace(c: char) {
    || '\t' <= c <= '\r'
    || c == ' ' || c == '\U{00A0}' || c == '\U{1680}'
    || '\U{2000}' <= c <= '\U{200A}'
    || c == '\U{2028}' || c == '\U{2029}' || c == '\U{202F}' || c == '\U{205F}'
    || c == '\U{3000}' || c == '\U{FEFF}'
  }

  function TrimStart(s: string): string {
    if s != "" && IsSpace(s[0]) then TrimStart(s[1..]) else s
  }

  function TrimEnd(s: string): string {
    if s != "" && IsSpace(Last(s)) then TrimEnd(Init(s)) else s
  }

  function Trim(s: string): string {
    TrimEnd(TrimStart(s))
  }

  /** Trimming takes white space off both ends, and all of it. */
  lemma TrimExactly(s: string) returns (before: string, after: string)
    ensures s == before + Trim(s) + after
    ensures (forall c | c in before :: IsSpace(c)) && (forall c | c in after :: IsSpace(c))
    ensures Trim(s) != "" ==> !IsSpace(Trim(s)[0]) && !IsSpace(Last(Trim(s)))
  {
    before := StartExactly(s);
    after := EndExactly(TrimStart(s));
    Associate(before, Trim(s), after);
    assert Trim(s) != "" ==> Trim(s)[0] == TrimStart(s)[0];
  }

  lemma {:induction false} StartExactly(s: string) returns (before: string)
    ensures s == before + TrimStart(s) && forall c | c in before :: IsSpace(c)
    ensures TrimStart(s) != "" ==> !IsSpace(TrimStart(s)[0])
  {
    if s != "" && IsSpace(s[0]) {
      before := StartExactly(s[1..]);
      before := [s[0]] + before;
    } else {
      before := "";
    }
  }

  lemma {:induction false} EndExactly(s: string) returns (after: string)
    ensures s == TrimEnd(s) + after && forall c | c in after :: IsSpace(c)
    ensures TrimEnd(s) != "" ==> !IsSpace(Last(TrimEnd(s)))
  {
    if s != "" && IsSpace(Last(s)) {
      after := EndExactly(Init(s));
      after := after + [Last(s)];
    } else {
      after := "";
    }
  }
}
