/** The meaning of a `go test` package pattern (`go help packages`). */
module Patterns {
  const DOTS := "..."

  /** `...` stands for any text; every other character for itself. */
  ghost predicate Glob(pattern: string, dir: string)
    decreases |pattern|
  {
    if DOTS <= pattern then exists i :: 0 <= i <= |dir| && Glob(pattern[3..], dir[i..])
    else if pattern == "" then dir == ""
    else dir != "" && pattern[0] == dir[0] && Glob(pattern[1..], dir[1..])
  }

  /** A final `/...` also matches nothing, so that `x/...` matches `x` itself. */
  ghost predicate Matches(pattern: string, dir: string) {
    || Glob(pattern, dir)
    || (|pattern| >= 4 && pattern[|pattern| - 4..] == "/..." && Glob(pattern[..|pattern| - 4], dir))
  }

  /** `dir` is `root` or lies below it. */
  predicate AtOrBelow(dir: string, root: string) {
    dir == root || root + "/" <= dir
  }

  /** Three dots in a row at position `k`. */
  predicate DotsAt(s: string, k: nat) {
    k + 3 <= |s| && s[k] == '.' && s[k + 1] == '.' && s[k + 2] == '.'
  }

  /** A path `go test` takes literally and a shell does not split. */
  ghost predicate Plain(s: string) {
    ' ' !in s && forall k: nat :: !DotsAt(s, k)
  }

  lemma DotsFirst(s: string)
    ensures DOTS <= s <==> DotsAt(s, 0)
  {
    assert DOTS == ['.', '.', '.'];
    assert |s| >= 3 ==> s[..3] == [s[0], s[1], s[2]];
  }

  lemma PlainPart(s: string, i: nat, j: nat)
    requires Plain(s) && i <= j <= |s|
    ensures Plain(s[i..j])
  {
    forall k: nat ensures !DotsAt(s[i..j], k) {
      assert !DotsAt(s, i + k);
    }
  }

  /** Nothing straddles a slash. */
  lemma PlainConcat(a: string, b: string)
    requires Plain(a) && Plain(b) && (b == "" || b[0] == '/')
    ensures Plain(a + b)
  {
    forall k: nat ensures !DotsAt(a + b, k) {
      assert !DotsAt(a, k);
      assert |a| <= k ==> !DotsAt(b, k - |a|);
      assert b != "" ==> (a + b)[|a|] == '/';
    }
  }

  lemma {:induction false} GlobPlain(pattern: string, dir: string)
    requires Plain(pattern)
    ensures Glob(pattern, dir) <==> pattern == dir
  {
    assert !DotsAt(pattern, 0);
    if pattern != "" {
      PlainPart(pattern, 1, |pattern|);
      assert pattern[1..|pattern|] == pattern[1..];
      if dir != "" {
        GlobPlain(pattern[1..], dir[1..]);
        assert pattern == [pattern[0]] + pattern[1..] && dir == [dir[0]] + dir[1..];
      }
    }
  }

  lemma GlobRest(dir: string)
    ensures Glob(DOTS, dir)
  {
    assert Glob(DOTS[3..], dir[|dir|..]);
  }

  lemma {:induction false} GlobTail(root: string, dir: string)
    requires Plain(root)
    ensures Glob(root + "/...", dir) <==> root + "/" <= dir
  {
    var p := root + "/...";
    assert p[|root|] == '/';
    assert !DotsAt(root, 0);
    assert !DotsAt(p, 0);
    DotsFirst(p);
    if dir != "" {
      if root == "" {
        assert p[1..] == DOTS && root + "/" == "/";
        GlobRest(dir[1..]);
      } else {
        assert p[1..] == root[1..] + "/...";
        PlainPart(root, 1, |root|);
        assert root[1..|root|] == root[1..];
        GlobTail(root[1..], dir[1..]);
        assert (root + "/")[1..] == root[1..] + "/";
        assert root + "/" <= dir <==> root[0] == dir[0] && root[1..] + "/" <= dir[1..];
      }
    }
  }

  /** A plain path names exactly itself. */
  lemma MatchesPlain(pattern: string, dir: string)
    requires Plain(pattern)
    ensures Matches(pattern, dir) <==> pattern == dir
  {
    GlobPlain(pattern, dir);
    assert |pattern| >= 4 ==> !DotsAt(pattern, |pattern| - 3);
    assert |pattern| >= 4 ==> pattern[|pattern| - 4..][1..] == pattern[|pattern| - 3..];
  }

  /** `root/...` names `root` and everything below it. */
  lemma MatchesBelow(root: string, dir: string)
    requires Plain(root)
    ensures Matches(root + "/...", dir) <==> AtOrBelow(dir, root)
  {
    var p := root + "/...";
    assert p[|p| - 4..] == "/..." && p[..|p| - 4] == root;
    GlobTail(root, dir);
    GlobPlain(root, dir);
  }
}
