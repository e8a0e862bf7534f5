/** Text operations of Python's `str` that the program relies on: `isspace`/`strip`,
    iterating a text file line by line, `split(" ")[0]`, and the code-point order
    that `sorted` applies to strings. */
module Text {

  /** `str.isspace()` for one character: the ASCII separators and the Unicode
      space characters Python treats as whitespace. */
  predicate IsSpace(c: char) {
    || c == ' '
    || '\t' <= c <= '\r'
    || '\U{1c}' <= c <= '\U{1f}'
    || c == '\U{85}' || c == '\U{a0}' || c == '\U{1680}'
    || '\U{2000}' <= c <= '\U{200a}'
    || c == '\U{2028}' || c == '\U{2029}' || c == '\U{202f}' || c == '\U{205f}' || c == '\U{3000}'
  }

  /** A string that `strip()` leaves alone: empty, or no whitespace at either end. */
  predicate Stripped(s: string) {
    s == [] || (!IsSpace(s[0]) && !IsSpace(s[|s| - 1]))
  }

  /** `str.lstrip()` */
  function StripLeft(s: string): (r: string)
    ensures r == [] || !IsSpace(r[0])
    ensures (s == [] || !IsSpace(s[0])) ==> r == s
  {
    if s != [] && IsSpace(s[0]) then StripLeft(s[1..]) else s
  }

  /** `str.rstrip()` */
  function StripRight(s: string): (r: string)
    ensures |r| <= |s| && (r != [] ==> r[0] == s[0])
    ensures r == [] || !IsSpace(r[|r| - 1])
    ensures (s == [] || !IsSpace(s[|s| - 1])) ==> r == s
  {
    if s != [] && IsSpace(s[|s| - 1]) then StripRight(s[..|s| - 1]) else s
  }

  /** `str.strip()` with no argument. */
  function Strip(s: string): (r: string)
    ensures Stripped(r)
    ensures Stripped(s) ==> r == s
  {
    StripRight(StripLeft(s))
  }

  /** `strip()` gives the input with its leading and trailing whitespace cut
      off, and nothing else: a slice of it, with whitespace on either side. */
  lemma StripCutsWhitespace(s: string)
    ensures exists i, j :: 0 <= i <= j <= |s| && Strip(s) == s[i..j]
                           && (forall k :: 0 <= k < i ==> IsSpace(s[k]))
                           && (forall k :: j <= k < |s| ==> IsSpace(s[k]))
  {
    StripLeftCuts(s);
    StripRightCuts(StripLeft(s));
    StripBounds(s, StripLeft(s), Strip(s));
  }

  /** `lstrip()` leaves the suffix after the leading whitespace. */
  lemma {:induction false} StripLeftCuts(s: string)
    ensures |StripLeft(s)| <= |s| && StripLeft(s) == s[|s| - |StripLeft(s)|..]
    ensures forall k :: 0 <= k < |s| - |StripLeft(s)| ==> IsSpace(s[k])
    decreases |s|
  {
    if s != [] && IsSpace(s[0]) {
      StripLeftCuts(s[1..]);
    }
  }

  /** `rstrip()` leaves the prefix before the trailing whitespace. */
  lemma {:induction false} StripRightCuts(s: string)
    ensures |StripRight(s)| <= |s| && StripRight(s) == s[..|StripRight(s)|]
    ensures forall k :: |StripRight(s)| <= k < |s| ==> IsSpace(s[k])
    decreases |s|
  {
    if s != [] && IsSpace(s[|s| - 1]) {
      StripRightCuts(s[..|s| - 1]);
    }
  }

  /** Where `strip()` cuts: whitespace before the suffix `lstrip()` keeps, and
      whitespace after the prefix of it that `rstrip()` keeps. */
  lemma StripBounds(s: string, l: string, r: string)
    requires |l| <= |s| && l == s[|s| - |l|..] && forall k :: 0 <= k < |s| - |l| ==> IsSpace(s[k])
    requires |r| <= |l| && r == l[..|r|] && forall k :: |r| <= k < |l| ==> IsSpace(l[k])
    ensures exists i, j :: 0 <= i <= j <= |s| && r == s[i..j]
                           && (forall k :: 0 <= k < i ==> IsSpace(s[k]))
                           && (forall k :: j <= k < |s| ==> IsSpace(s[k]))
  {
    var i := |s| - |l|;
    var j := i + |r|;
    assert r == s[i..j];
    forall k | j <= k < |s| ensures IsSpace(s[k]) {
      assert s[k] == l[k - i];
    }
  }

  lemma {:induction false} StripRightTrailingSpace(s: string, c: char)
    requires IsSpace(c)
    ensures StripRight(s + [c]) == StripRight(s)
  {
    assert (s + [c])[..|s + [c]| - 1] == s;
  }

  /** A stripped text followed by one whitespace character strips back to itself. */
  lemma StripTrailingSpace(x: string, c: char)
    requires x != [] && Stripped(x) && IsSpace(c)
    ensures Strip(x + [c]) == x
  {
    assert StripLeft(x + [c]) == x + [c];
    StripRightTrailingSpace(x, c);
  }

  /** A stripped entry followed by its line break strips back to itself. */
  lemma StripLineBreak(x: string)
    requires x != [] && Stripped(x)
    ensures Strip(x + "\n") == x
  {
    StripTrailingSpace(x, '\n');
  }

  // ---------------------------------------------------------------------
  // Lines of a text file

  /** How much of non-empty content its first line takes: through the first
      '\n', or all of it when there is none. */
  function FirstLineLength(s: string): (k: nat)
    requires s != []
    ensures 0 < k <= |s|
    ensures forall i :: 0 <= i < k - 1 ==> s[i] != '\n'
    ensures k == |s| || s[k - 1] == '\n'
  {
    if s[0] == '\n' || |s| == 1 then 1 else 1 + FirstLineLength(s[1..])
  }

  /** The lines that iterating over a file opened in text mode yields: each line
      keeps its terminating '\n', and the last one has none when the content does
      not end with a line break. */
  function Lines(s: string): seq<string>
    decreases |s|
  {
    if s == [] then [] else [s[..FirstLineLength(s)]] + Lines(s[FirstLineLength(s)..])
  }

  /** `"".join(lines)`, that is `writelines`. */
  function Concat(ls: seq<string>): string
  {
    if ls == [] then [] else ls[0] + Concat(ls[1..])
  }

  /** One line as `Lines` produces it: not empty, and a '\n' only as its last character. */
  predicate IsLine(l: string) {
    l != [] && forall i :: 0 <= i < |l| - 1 ==> l[i] != '\n'
  }

  predicate Terminated(l: string) {
    l != [] && l[|l| - 1] == '\n'
  }

  /** A sequence of lines that some content splits into: every line proper, and
      every line but the last terminated. */
  predicate WellFormed(ls: seq<string>) {
    && (forall i :: 0 <= i < |ls| ==> IsLine(ls[i]))
    && (forall i :: 0 <= i < |ls| - 1 ==> Terminated(ls[i]))
  }

  lemma {:induction false} ConcatAppend(xs: seq<string>, ys: seq<string>)
    ensures Concat(xs + ys) == Concat(xs) + Concat(ys)
  {
    if xs != [] {
      assert (xs + ys)[1..] == xs[1..] + ys;
      ConcatAppend(xs[1..], ys);
    } else {
      assert xs + ys == ys;
    }
  }

  /** Terminated lines join into content that is empty or terminated. */
  lemma {:induction false} ConcatTerminated(ls: seq<string>)
    requires forall i :: 0 <= i < |ls| ==> Terminated(ls[i])
    ensures Concat(ls) == [] || Terminated(Concat(ls))
  {
    if ls != [] {
      var rest := ls[1..];
      assert forall i :: 0 <= i < |rest| ==> rest[i] == ls[i + 1];
      ConcatTerminated(rest);
      var c := Concat(rest);
      if c == [] {
        assert ls[0] + c == ls[0];
      } else {
        assert (ls[0] + c)[|ls[0] + c| - 1] == c[|c| - 1];
      }
    }
  }

  /** Splitting content into lines loses nothing. */
  lemma {:induction false} LinesJoin(s: string)
    ensures Concat(Lines(s)) == s
    decreases |s|
  {
    if s != [] {
      var k := FirstLineLength(s);
      LinesJoin(s[k..]);
      assert ([s[..k]] + Lines(s[k..]))[1..] == Lines(s[k..]);
      assert s[..k] + s[k..] == s;
    }
  }

  /** Content has lines exactly when it is not empty; every line is proper and
      every line but the last is terminated; the last one is terminated when the
      content is. */
  lemma {:induction false} LinesWellFormed(s: string)
    ensures s != [] <==> Lines(s) != []
    ensures WellFormed(Lines(s))
    ensures Terminated(s) ==> Terminated(Lines(s)[|Lines(s)| - 1])
    decreases |s|
  {
    if s != [] {
      var k := FirstLineLength(s);
      var rest := Lines(s[k..]);
      LinesWellFormed(s[k..]);
      var ls := [s[..k]] + rest;
      assert forall i :: 1 <= i < |ls| ==> ls[i] == rest[i - 1];
      assert IsLine(s[..k]);
      assert rest != [] ==> Terminated(s[..k]);
      if Terminated(s) && rest != [] {
        assert s[k..][|s[k..]| - 1] == s[|s| - 1];
      }
    }
  }

  /** Text without a line break, followed by one, is a single terminated line. */
  lemma LineOfText(x: string)
    requires '\n' !in x
    ensures IsLine(x + "\n") && Terminated(x + "\n")
  {
    forall i | 0 <= i < |x + "\n"| - 1 ensures (x + "\n")[i] != '\n' {
      assert (x + "\n")[i] == x[i];
    }
  }

  /** Reading back one proper line followed by more content. */
  lemma LinesOfLine(l: string, c: string)
    requires IsLine(l)
    requires Terminated(l) || c == []
    ensures Lines(l + c) == [l] + Lines(c)
  {
    var s := l + c;
    var k := FirstLineLength(s);
    assert forall i :: 0 <= i < |l| ==> s[i] == l[i];
    assert k == |l|;
    assert s[..k] == l && s[k..] == c;
  }

  /** Writing well-formed lines and reading the file back gives the same lines. */
  lemma {:induction false} ConcatLines(ls: seq<string>)
    requires WellFormed(ls)
    ensures Lines(Concat(ls)) == ls
  {
    if ls != [] {
      assert WellFormed(ls[1..]) by {
        assert forall i :: 0 <= i < |ls[1..]| ==> ls[1..][i] == ls[i + 1];
      }
      ConcatLines(ls[1..]);
      if !Terminated(ls[0]) {
        assert |ls| == 1;
        assert ls[1..] == [];
      }
      LinesOfLine(ls[0], Concat(ls[1..]));
      assert ls == [ls[0]] + ls[1..];
    }
  }

  lemma WellFormedJoin(la: seq<string>, lb: seq<string>)
    requires WellFormed(la) && WellFormed(lb)
    requires la != [] ==> Terminated(la[|la| - 1])
    ensures WellFormed(la + lb)
  {
    var j := la + lb;
    forall i | 0 <= i < |j| ensures IsLine(j[i]) {
      if i < |la| { assert j[i] == la[i]; } else { assert j[i] == lb[i - |la|]; }
    }
    forall i | 0 <= i < |j| - 1 ensures Terminated(j[i]) {
      if i < |la| { assert j[i] == la[i]; } else { assert j[i] == lb[i - |la|]; }
    }
  }

  /** Appending to a file that is empty or ends with a line break adds lines and
      does not touch the old ones. */
  lemma LinesAppend(a: string, b: string)
    requires a == [] || Terminated(a)
    ensures Lines(a + b) == Lines(a) + Lines(b)
  {
    LinesJoin(a);
    LinesJoin(b);
    LinesWellFormed(a);
    LinesWellFormed(b);
    WellFormedJoin(Lines(a), Lines(b));
    ConcatAppend(Lines(a), Lines(b));
    ConcatLines(Lines(a) + Lines(b));
  }

  // ---------------------------------------------------------------------
  // First space-separated token

  /** `s.split(" ")[0]`: everything before the first space. */
  function FirstToken(s: string): (r: string)
    ensures ' ' !in r
    ensures |r| <= |s| && r == s[..|r|]
    ensures |r| < |s| ==> s[|r|] == ' '
  {
    if s == [] || s[0] == ' ' then [] else [s[0]] + FirstToken(s[1..])
  }

  /** The token before a space-led suffix is the text in front of it. */
  lemma {:induction false} FirstTokenOfSuffixed(x: string, suffix: string)
    requires ' ' !in x
    requires suffix == [] || suffix[0] == ' '
    ensures FirstToken(x + suffix) == x
  {
    if x != [] {
      assert (x + suffix)[1..] == x[1..] + suffix;
      FirstTokenOfSuffixed(x[1..], suffix);
    }
  }

  // ---------------------------------------------------------------------
  // Code-point order on strings (Python's `<` on `str`)

  predicate Below(a: string, b: string)
  {
    if a == [] then b != []
    else if b == [] then false
    else a[0] < b[0] || (a[0] == b[0] && Below(a[1..], b[1..]))
  }

  predicate AtMost(a: string, b: string) {
    a == b || Below(a, b)
  }

  lemma {:induction false} BelowIrreflexive(a: string)
    ensures !Below(a, a)
  {
    if a != [] { BelowIrreflexive(a[1..]); }
  }

  lemma {:induction false} BelowAsymmetric(a: string, b: string)
    requires Below(a, b)
    ensures !Below(b, a)
  {
    if a != [] && b != [] && a[0] == b[0] {
      BelowAsymmetric(a[1..], b[1..]);
    }
  }

  lemma {:induction false} BelowTransitive(a: string, b: string, c: string)
    requires Below(a, b) && Below(b, c)
    ensures Below(a, c)
  {
    if a != [] && a[0] == b[0] && b[0] == c[0] {
      BelowTransitive(a[1..], b[1..], c[1..]);
    }
  }

  lemma {:induction false} BelowTotal(a: string, b: string)
    ensures a == b || Below(a, b) || Below(b, a)
  {
    if a != [] && b != [] && a[0] == b[0] {
      BelowTotal(a[1..], b[1..]);
      if a[1..] == b[1..] {
        assert a == [a[0]] + a[1..] && b == [b[0]] + b[1..];
      }
    }
  }

  predicate IsLeast(m: string, s: set<string>) {
    m in s && forall x :: x in s ==> AtMost(m, x)
  }

  /** Every finite non-empty set of strings has a least element. */
  lemma {:induction false} LeastExists(s: set<string>)
    requires s != {}
    ensures exists m :: IsLeast(m, s)
    decreases |s|
  {
    var y :| y in s;
    if s == {y} {
      assert IsLeast(y, s);
    } else {
      LeastExists(s - {y});
      var m' :| IsLeast(m', s - {y});
      BelowTotal(y, m');
      if Below(y, m') {
        forall x | x in s ensures AtMost(y, x) {
          if x != y && x != m' {
            assert x in s - {y};
            BelowTransitive(y, m', x);
          }
        }
        assert IsLeast(y, s);
      } else {
        assert IsLeast(m', s);
      }
    }
  }

  predicate Ascending(r: seq<string>) {
    forall i, j :: 0 <= i < j < |r| ==> Below(r[i], r[j])
  }

  /** `sorted(list(s))` for a set of strings. */
  function SortedSet(s: set<string>): (r: seq<string>)
    ensures |r| == |s|
    ensures forall x :: x in r <==> x in s
    ensures Ascending(r)
    decreases |s|
  {
    if s == {} then []
    else
      LeastExists(s);
      var m :| IsLeast(m, s);
      assert forall m' :: IsLeast(m', s) ==> m' == m by {
        forall m' | IsLeast(m', s) ensures m' == m {
          if m' != m {
            assert Below(m, m') && Below(m', m);
            BelowAsymmetric(m, m');
          }
        }
      }
      var tail := SortedSet(s - {m});
      assert forall x :: x in tail ==> Below(m, x) by {
        forall x | x in tail ensures Below(m, x) { assert x in s && x != m; }
      }
      [m] + tail
  }
}
