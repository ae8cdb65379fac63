/** POSIX path arithmetic used by the dotfiles engine: a path is the sequence
    of its components, the empty sequence is the root "/". Relative paths
    (link targets) may hold ".." components; absolute paths used as keys of
    the filesystem are plain. */
module Paths {

  type Name = string
  type Path = seq<Name>

  const Up: Name := ".."
  const Here: Name := "."

  /** A component that names an entry (not "", "." or ".."). */
  predicate PlainName(n: Name) {
    n != "" && n != Here && n != Up
  }

  predicate Plain(p: Path) {
    forall i :: 0 <= i < |p| ==> PlainName(p[i])
  }

  /** `p` is `q` itself or lies below it. */
  predicate Under(p: Path, q: Path) {
    |q| <= |p| && p[..|q|] == q
  }

  /** os.path.dirname; the parent of the root is the root. */
  function Parent(p: Path): Path {
    if p == [] then [] else p[..|p| - 1]
  }

  /** n copies of "..". */
  function Ups(n: nat): (r: Path)
    ensures |r| == n
    ensures forall i :: 0 <= i < n ==> r[i] == Up
  {
    if n == 0 then [] else Ups(n - 1) + [Up]
  }

  /** Length of the longest common prefix of two paths. */
  function CommonPrefixLength(a: Path, b: Path): (k: nat)
    ensures k <= |a| && k <= |b|
    ensures a[..k] == b[..k]
    ensures k < |a| && k < |b| ==> a[k] != b[k]
  {
    if a == [] || b == [] || a[0] != b[0] then 0
    else
      var k := 1 + CommonPrefixLength(a[1..], b[1..]);
      assert a[..k] == [a[0]] + a[1..][..k - 1];
      assert b[..k] == [b[0]] + b[1..][..k - 1];
      k
  }

  /** os.path.relpath(target, start) for absolute plain paths: one ".." for
      every component of `start` past the common prefix, then the rest of
      `target`. (The empty result stands for ".".) */
  function RelPath(target: Path, start: Path): Path {
    var k := CommonPrefixLength(target, start);
    Ups(|start| - k) + target[k..]
  }

  /** os.path.normpath on an absolute path, processed left to right from the
      already normalised prefix `done`: ".." drops the last component (and
      stays at the root), "." and empty components vanish. */
  function NormalizeFrom(done: Path, rest: Path): Path
    decreases |rest|
  {
    if rest == [] then done
    else if rest[0] == Up then NormalizeFrom(Parent(done), rest[1..])
    else if rest[0] == Here || rest[0] == "" then NormalizeFrom(done, rest[1..])
    else NormalizeFrom(done + [rest[0]], rest[1..])
  }

  function Normalize(p: Path): Path {
    NormalizeFrom([], p)
  }

  /** Normalisation is a left fold: the two halves of a path can be
      normalised one after the other. */
  lemma {:induction false} NormalizeFromAppend(done: Path, a: Path, b: Path)
    ensures NormalizeFrom(done, a + b) == NormalizeFrom(NormalizeFrom(done, a), b)
    decreases |a|
  {
    if a != [] {
      assert (a + b)[0] == a[0];
      assert (a + b)[1..] == a[1..] + b;
      if a[0] == Up {
        NormalizeFromAppend(Parent(done), a[1..], b);
      } else if a[0] == Here || a[0] == "" {
        NormalizeFromAppend(done, a[1..], b);
      } else {
        NormalizeFromAppend(done + [a[0]], a[1..], b);
      }
    } else {
      assert a + b == b;
    }
  }

  /** Plain components are appended unchanged. */
  lemma {:induction false} NormalizeFromPlain(done: Path, a: Path)
    requires Plain(a)
    ensures NormalizeFrom(done, a) == done + a
    decreases |a|
  {
    if a != [] {
      NormalizeFromPlain(done + [a[0]], a[1..]);
      assert done + [a[0]] + a[1..] == done + a;
    } else {
      assert done + a == done;
    }
  }

  /** n ".." components climb n levels. */
  lemma {:induction false} NormalizeFromUps(done: Path, n: nat)
    requires n <= |done|
    ensures NormalizeFrom(done, Ups(n)) == done[..|done| - n]
  {
    if n > 0 {
      NormalizeFromAppend(done, Ups(n - 1), [Up]);
      NormalizeFromUps(done, n - 1);
      assert NormalizeFrom(done[..|done| - (n - 1)], [Up])
          == NormalizeFrom(Parent(done[..|done| - (n - 1)]), []);
      assert Parent(done[..|done| - (n - 1)]) == done[..|done| - n];
    } else {
      assert done[..|done|] == done;
    }
  }

  /** A plain absolute path normalises to itself. */
  lemma NormalizePlain(p: Path)
    requires Plain(p)
    ensures Normalize(p) == p
  {
    NormalizeFromPlain([], p);
  }

  /** The relative path from `start` to `target`, appended to `start`,
      normalises back to `target`. */
  lemma RelPathResolves(target: Path, start: Path)
    requires Plain(target) && Plain(start)
    ensures Normalize(start + RelPath(target, start)) == target
  {
    var k := CommonPrefixLength(target, start);
    var u := |start| - k;
    assert start + RelPath(target, start) == (start + Ups(u)) + target[k..];
    NormalizeFromAppend([], start + Ups(u), target[k..]);
    NormalizeFromAppend([], start, Ups(u));
    NormalizeFromPlain([], start);
    assert [] + start == start;
    NormalizeFromUps(start, u);
    assert start[..|start| - u] == target[..k];
    assert NormalizeFrom([], start + Ups(u)) == target[..k];
    assert Plain(target[k..]);
    NormalizeFromPlain(target[..k], target[k..]);
    assert target[..k] + target[k..] == target;
  }

  /** The relative path from an ancestor is the remaining suffix. */
  lemma RelPathFromAncestor(p: Path, q: Path)
    requires Under(p, q)
    ensures RelPath(p, q) == p[|q|..]
  {
    var k := CommonPrefixLength(p, q);
    if k < |q| {
      assert false;
    }
  }

  /** A path below `q` is `q` followed by its suffix. */
  lemma UnderSplit(p: Path, q: Path)
    requires Under(p, q)
    ensures p == q + p[|q|..]
  {
    assert p == p[..|q|] + p[|q|..];
  }

  /** Two ancestors of one path are comparable: one lies at or below the
      other. */
  lemma UnderComparable(p: Path, a: Path, b: Path)
    requires Under(p, a) && Under(p, b)
    ensures Under(a, b) || Under(b, a)
  {
    if |a| <= |b| {
      assert b[..|a|] == p[..|a|];
    } else {
      assert a[..|b|] == p[..|b|];
    }
  }

  lemma UnderTransitive(p: Path, q: Path, r: Path)
    requires Under(p, q) && Under(q, r)
    ensures Under(p, r)
  {
    assert p[..|r|] == p[..|q|][..|r|];
  }

  lemma PlainAppend(a: Path, b: Path)
    requires Plain(a) && Plain(b)
    ensures Plain(a + b)
  {
    assert forall i :: 0 <= i < |a + b| ==> (a + b)[i] == if i < |a| then a[i] else b[i - |a|];
  }
}
