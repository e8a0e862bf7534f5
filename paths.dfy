/** Filesystem paths as `pathlib` builds and resolves them, without symbolic links:
    a path is the list of its components below the root. */
module Paths {
  import opened Text

  /** An absolute path, as its components below `/`; the root is `[]`. */
  type Path = seq<string>

  /** A component a resolved path can hold. */
  predicate IsComponent(c: string) {
    c != [] && c != "." && c != ".." && '/' !in c
  }

  predicate Normal(p: Path) {
    forall i :: 0 <= i < |p| ==> IsComponent(p[i])
  }

  /** `p.parent`; the root is its own parent. */
  function Parent(p: Path): (r: Path)
    ensures p != [] ==> p == r + [p[|p| - 1]]
  {
    if p == [] then [] else p[..|p| - 1]
  }

  /** `p.is_relative_to(root)`: `root` is `p` or one of its ancestors. */
  predicate Within(root: Path, p: Path) {
    |root| <= |p| && p[..|root|] == root
  }

  // ---------------------------------------------------------------------
  // Text of a path

  function RenderTail(p: Path): string
  {
    if p == [] then [] else "/" + p[0] + RenderTail(p[1..])
  }

  lemma {:induction false} RenderTailSnoc(p: Path, x: string)
    ensures RenderTail(p + [x]) == RenderTail(p) + "/" + x
  {
    if p == [] {
      assert [x][1..] == [];
    } else {
      assert (p + [x])[1..] == p[1..] + [x];
      RenderTailSnoc(p[1..], x);
    }
  }

  /** `str(p)`: `/` for the root, `/a/b` otherwise. */
  function Render(p: Path): (r: string)
    ensures r != [] && r[0] == '/'
  {
    if p == [] then "/" else RenderTail(p)
  }

  predicate IsAbsolute(s: string) {
    s != [] && s[0] == '/'
  }

  /** The text cut at every `/` (empty pieces included). */
  function Split(s: string): (r: seq<string>)
    ensures |r| >= 1
  {
    if s == [] then [[]]
    else
      var rest := Split(s[1..]);
      if s[0] == '/' then [[]] + rest else [[s[0]] + rest[0]] + rest[1..]
  }

  /** One component applied to a resolved path: empty pieces and `.` stay put,
      `..` goes up (not above the root), anything else goes down. */
  function Step(p: Path, c: string): Path
  {
    if c == [] || c == "." then p
    else if c == ".." then Parent(p)
    else p + [c]
  }

  function Walk(p: Path, cs: seq<string>): Path
    decreases |cs|
  {
    if cs == [] then p else Walk(Step(p, cs[0]), cs[1..])
  }

  /** `(cwd / s).resolve()`: an absolute text starts over at the root, a relative
      one continues from `cwd`; `.`, `..` and doubled slashes are folded away. */
  function Resolve(cwd: Path, s: string): Path
  {
    Walk(if IsAbsolute(s) then [] else cwd, Split(s))
  }

  // ---------------------------------------------------------------------
  // Properties

  lemma {:induction false} WalkNormal(p: Path, cs: seq<string>)
    requires Normal(p)
    requires forall i :: 0 <= i < |cs| ==> '/' !in cs[i]
    ensures Normal(Walk(p, cs))
    decreases |cs|
  {
    if cs != [] {
      var q := Step(p, cs[0]);
      assert Normal(q) by {
        if cs[0] == ".." && p != [] {
          assert forall i :: 0 <= i < |q| ==> q[i] == p[i];
        }
      }
      WalkNormal(q, cs[1..]);
    }
  }

  lemma {:induction false} SplitPieces(s: string)
    ensures forall i :: 0 <= i < |Split(s)| ==> '/' !in Split(s)[i]
  {
    if s != [] {
      SplitPieces(s[1..]);
      var rest := Split(s[1..]);
      if s[0] != '/' {
        assert forall i :: 1 <= i < |rest| ==> Split(s)[i] == rest[i];
      }
    }
  }

  /** Resolving against a resolved directory gives a resolved path. */
  lemma ResolveNormal(cwd: Path, s: string)
    requires Normal(cwd)
    ensures Normal(Resolve(cwd, s))
  {
    SplitPieces(s);
    WalkNormal(if IsAbsolute(s) then [] else cwd, Split(s));
  }

  lemma {:induction false} SplitAfterName(a: string, y: string)
    requires '/' !in a
    ensures Split(a + y) == [a + Split(y)[0]] + Split(y)[1..]
  {
    if a == [] {
      assert a + y == y;
      assert a + Split(y)[0] == Split(y)[0];
      assert Split(y) == [Split(y)[0]] + Split(y)[1..];
    } else {
      assert (a + y)[1..] == a[1..] + y;
      SplitAfterName(a[1..], y);
      assert [a[0]] + (a[1..] + Split(y)[0]) == a + Split(y)[0];
    }
  }

  lemma {:induction false} SplitRenderTail(p: Path)
    requires Normal(p) && p != []
    ensures Split(RenderTail(p)) == [[]] + p
  {
    var tail := RenderTail(p[1..]);
    assert RenderTail(p) == "/" + (p[0] + tail);
    assert ("/" + (p[0] + tail))[1..] == p[0] + tail;
    var s := "/" + (p[0] + tail);
    assert Split(s) == [[]] + Split(p[0] + tail);
    SplitAfterName(p[0], tail);
    if p[1..] != [] {
      SplitRenderTail(p[1..]);
      assert Split(tail)[0] == [] && Split(tail)[1..] == p[1..];
      assert p[0] + Split(tail)[0] == p[0];
    } else {
      assert tail == [] && Split(tail) == [[]];
      assert p[0] + Split(tail)[0] == p[0];
    }
    assert Split(p[0] + tail) == p;
  }

  lemma {:induction false} WalkComponents(p: Path, cs: seq<string>)
    requires Normal(cs)
    ensures Walk(p, cs) == p + cs
    decreases |cs|
  {
    if cs != [] {
      WalkComponents(p + [cs[0]], cs[1..]);
      assert p + [cs[0]] + cs[1..] == p + cs;
    }
  }

  /** Reading a resolved path back from its text gives the same path, from any
      working directory. */
  lemma ResolveRender(cwd: Path, p: Path)
    requires Normal(p)
    ensures Resolve(cwd, Render(p)) == p
  {
    if p == [] {
      assert Split("/") == [[], []] by {
        assert "/"[1..] == [];
      }
      assert Walk([], [[], []]) == Walk([], [[]]) == Walk([], []);
    } else {
      SplitRenderTail(p);
      WalkComponents([], p);
    }
  }

  lemma {:induction false} WalkStaysWithin(p: Path, cs: seq<string>)
    requires forall i :: 0 <= i < |cs| ==> cs[i] != ".."
    ensures Within(p, Walk(p, cs))
    decreases |cs|
  {
    if cs != [] {
      var q := Step(p, cs[0]);
      WalkStaysWithin(q, cs[1..]);
      var r := Walk(q, cs[1..]);
      assert r[..|q|] == q;
      assert q[..|p|] == p;
      assert r[..|p|] == q[..|p|];
    }
  }

  /** A relative name with no `..` piece resolves to `root` or below it. */
  lemma ResolveDescends(root: Path, name: string)
    requires !IsAbsolute(name)
    requires ".." !in Split(name)
    ensures Within(root, Resolve(root, name))
  {
    WalkStaysWithin(root, Split(name));
  }

  /** `str(p)` carries no surrounding whitespace when its last name does not end in any. */
  lemma RenderStripped(p: Path)
    requires Normal(p)
    requires p != [] ==> !IsSpace(p[|p| - 1][|p[|p| - 1]| - 1])
    ensures Stripped(Render(p))
  {
    if p != [] {
      RenderTailEnds(p);
    }
  }

  lemma {:induction false} RenderTailEnds(p: Path)
    requires Normal(p) && p != []
    ensures RenderTail(p) != []
    ensures RenderTail(p)[|RenderTail(p)| - 1] == p[|p| - 1][|p[|p| - 1]| - 1]
  {
    var tail := RenderTail(p[1..]);
    var head := "/" + p[0];
    assert RenderTail(p) == head + tail;
    if p[1..] != [] {
      RenderTailEnds(p[1..]);
      assert p[1..][|p[1..]| - 1] == p[|p| - 1];
      assert (head + tail)[|head + tail| - 1] == tail[|tail| - 1];
    } else {
      assert head + tail == head;
    }
  }
}
