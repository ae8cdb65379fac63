/** Adoption (move_to_dotfiles) and eviction (remove_from_dotfiles): the
    ordered skip conditions, the effect of a successful call, and eviction
    undoing adoption. */
module Adoption {
  import opened Paths
  import opened Os
  import opened Dotfiles
  import opened Mapping

  /** move_to_dotfiles checks, in order: a link that resolves to the mirror
      destination ("already a dotfile"), any other link ("is a symlink"), an
      existing mirror destination ("already exists"); every skip leaves the
      tree as it was. A path outside HOME is an error, not a skip. */
  lemma MoveToDotfilesSkips(c: Config, t: Tree, src: Path)
    requires WellFormed(t)
    ensures var s := MoveToDotfilesStep(c, t, src);
      && (!Under(src, c.home) ==> s == Step(Failed(OutsideHome(src)), t))
      && (Under(src, c.home) ==>
            var dest := MirrorPath(c, src).value;
            && (s.outcome == Skipped(AlreadyDotfile) <==> IsLink(t, src) && Resolve(t, src) == dest)
            && (s.outcome == Skipped(IsSymlink) <==> IsLink(t, src) && Resolve(t, src) != dest)
            && (s.outcome == Skipped(DestinationExists) <==> !IsLink(t, src) && Exists(t, dest)))
      && (s.outcome.Skipped? ==> s.tree == t)
  {
    if Under(src, c.home) && !IsLink(t, src) && !Exists(t, MirrorPath(c, src).value) {
      PastChecksNoSkip(c, t, src);
    }
  }

  /** Past its three checks, adoption does not skip: it succeeds or fails. */
  lemma PastChecksNoSkip(c: Config, t: Tree, src: Path)
    requires WellFormed(t) && Under(src, c.home)
    requires !IsLink(t, src) && !Exists(t, MirrorPath(c, src).value)
    ensures !MoveToDotfilesStep(c, t, src).outcome.Skipped?
  {
    MakeDirsEffect(t, Parent(MirrorPath(c, src).value));
  }

  /** The states a successful adoption passes through: parents made, then
      the subtree moved to a free place, then the link made at the source. */
  lemma AdoptionSteps(c: Config, t: Tree, src: Path)
    requires WellFormed(t)
    requires Under(src, c.home) && MirrorPath(c, src).value !in t
    requires MoveToDotfilesStep(c, t, src).outcome.Done?
    ensures var dest := MirrorPath(c, src).value;
      var t1 := MakeDirsStep(t, Parent(dest)).tree;
      && MakeDirsStep(t, Parent(dest)).outcome.Done?
      && WellFormed(t1) && dest !in t1 && NothingUnder(t1, dest)
      && (forall q :: q in t ==> q in t1 && t1[q] == t[q])
      && (forall q :: q in t1 && q !in t ==> Under(Parent(dest), q) && t1[q] == Dir)
      && src in t && src != [] && !Under(dest, src) && !Under(src, dest)
      && src !in Moved(t1, src, dest)
      && MoveToDotfilesStep(c, t, src).tree == Moved(t1, src, dest)[src := Link(Absolute(dest))]
  {
    var dest := MirrorPath(c, src).value;
    MakeDirsEffect(t, Parent(dest));
    var t1 := MakeDirsStep(t, Parent(dest)).tree;
    assert dest != [];
    forall q | q in t1 && q !in t ensures q != dest {
      assert Under(Parent(dest), q);
    }
    RenameToFreePlace(t1, src, dest);
    assert src in t;
    if Under(src, dest) {
      AncestorPresent(t, src, dest);
      assert false;
    }
    assert Under(dest, []);
  }

  /** The subtree moved by a rename to a free place keeps its nodes. */
  lemma MovedSubtree(t1: Tree, from: Path, to: Path, p: Path)
    requires NothingUnder(t1, to) && p in t1 && Under(p, from)
    ensures to + p[|from|..] in Moved(t1, from, to)
    ensures Moved(t1, from, to)[to + p[|from|..]] == t1[p]
  {
    var q := to + p[|from|..];
    assert q[..|to|] == to;
    assert q[|to|..] == p[|from|..];
    UnderSplit(p, from);
    assert q !in t1;
  }

  /** An entry of a moved tree that was not kept in place came from the
      subtree that was moved. */
  lemma MovedEntryOrigin(t: Tree, t1: Tree, from: Path, to: Path, p: Path)
    requires p in Moved(t1, from, to) && !(p in t1 && !Under(p, from))
    requires forall q :: q in t1 && q !in t ==> Under(Parent(to), q)
    requires !Under(to, from)
    ensures Under(p, to) && from + p[|to|..] in t
  {
    var x := from + p[|to|..];
    assert x[..|from|] == from;
    if x !in t {
      assert Under(Parent(to), x);
      if to != [] {
        assert Under(to, Parent(to));
      }
      UnderTransitive(to, Parent(to), x);
      UnderTransitive(to, x, from);
      assert false;
    }
  }

  /** A successful adoption of a path whose mirror destination is free:
      the source becomes a link with the absolute mirror destination as
      target, the mirror holds the original subtree, the entries outside
      the source are unchanged, and the only other new entries are the
      missing parent directories of the destination. */
  lemma MoveToDotfilesEffect(c: Config, t: Tree, src: Path)
    requires WellFormed(t)
    requires Under(src, c.home) && MirrorPath(c, src).value !in t
    requires MoveToDotfilesStep(c, t, src).outcome.Done?
    ensures var dest := MirrorPath(c, src).value;
      var t' := MoveToDotfilesStep(c, t, src).tree;
      && src in t' && t'[src] == Link(Absolute(dest))
      && (forall p :: p in t && Under(p, src) ==>
            dest + p[|src|..] in t' && t'[dest + p[|src|..]] == t[p])
      && (forall p :: p in t && !Under(p, src) ==> p in t' && t'[p] == t[p])
      && (forall p :: p in t' ==>
            || p == src
            || (p in t && !Under(p, src))
            || (Under(p, dest) && src + p[|dest|..] in t)
            || (Under(Parent(dest), p) && p !in t && t'[p] == Dir))
  {
    var dest := MirrorPath(c, src).value;
    AdoptionSteps(c, t, src);
    var t1 := MakeDirsStep(t, Parent(dest)).tree;
    var t2 := Moved(t1, src, dest);
    var t' := t2[src := Link(Absolute(dest))];
    assert MoveToDotfilesStep(c, t, src).tree == t';
    forall p | p in t && Under(p, src)
      ensures dest + p[|src|..] in t' && t'[dest + p[|src|..]] == t[p]
    {
      MovedSubtree(t1, src, dest, p);
      assert Under(dest + p[|src|..], dest);
    }
    forall p | p in t' && p != src && !(p in t && !Under(p, src)) && !(Under(p, dest) && src + p[|dest|..] in t)
      ensures Under(Parent(dest), p) && p !in t && t'[p] == Dir
    {
      if !(p in t1 && !Under(p, src)) {
        MovedEntryOrigin(t, t1, src, dest, p);
      }
    }
  }

  /** Adopting the same path a second time is skipped as "already a
      dotfile" and changes nothing. */
  lemma AdoptTwiceSkips(c: Config, t: Tree, src: Path)
    requires Plain(src) && Plain(c.mirrorRoot) && Under(src, c.home)
    requires MoveToDotfilesStep(c, t, src).outcome.Done?
    ensures var t' := MoveToDotfilesStep(c, t, src).tree;
      MoveToDotfilesStep(c, t', src) == Step(Skipped(AlreadyDotfile), t')
  {
    var dest := MirrorPath(c, src).value;
    assert Plain(src[|c.home|..]);
    PlainAppend(c.mirrorRoot, src[|c.home|..]);
    NormalizePlain(dest);
  }

  /** remove_from_dotfiles checks, in order: the path does not exist
      (links followed), it is not a link, it resolves somewhere other than
      its mirror path; every skip leaves the tree as it was. */
  lemma RemoveFromDotfilesSkips(c: Config, t: Tree, path: Path)
    ensures var s := RemoveFromDotfilesStep(c, t, path);
      && (!Under(path, c.home) ==> s == Step(Failed(OutsideHome(path)), t))
      && (Under(path, c.home) ==>
            var mirror := MirrorPath(c, path).value;
            && (s.outcome == Skipped(DoesNotExist) <==> !Exists(t, path))
            && (s.outcome == Skipped(NotASymlink) <==> Exists(t, path) && !IsLink(t, path))
            && (s.outcome == Skipped(NotADotfile) <==>
                  Exists(t, path) && IsLink(t, path) && Resolve(t, path) != mirror))
      && (s.outcome.Skipped? ==> s.tree == t)
  {
  }

  /** The states a successful eviction passes through: the link removed,
      then the mirror subtree moved to the free link path. */
  lemma EvictionSteps(c: Config, t: Tree, path: Path)
    requires WellFormed(t)
    requires Under(path, c.home) && RemoveFromDotfilesStep(c, t, path).outcome.Done?
    ensures var mirror := MirrorPath(c, path).value;
      && IsLink(t, path) && Resolve(t, path) == mirror
      && NothingUnder(t - {path}, path)
      && mirror != path && !Under(path, mirror)
      && RemoveFromDotfilesStep(c, t, path).tree == Moved(t - {path}, mirror, path)
  {
    var mirror := MirrorPath(c, path).value;
    var t0 := t - {path};
    assert UnlinkStep(t, path) == Step(Done, t0);
    assert WellFormed(t0) by {
      forall p | p in t0 && p != [] ensures Parent(p) in t0 {
        assert t[Parent(p)].Dir?;
      }
    }
    RenameToFreePlace(t0, mirror, path);
  }

  /** A successful eviction deletes the link and moves the mirror subtree
      back to the link's path; every other entry is unchanged. */
  lemma RemoveFromDotfilesEffect(c: Config, t: Tree, path: Path)
    requires WellFormed(t)
    requires Under(path, c.home) && RemoveFromDotfilesStep(c, t, path).outcome.Done?
    ensures var mirror := MirrorPath(c, path).value;
      var t' := RemoveFromDotfilesStep(c, t, path).tree;
      && (forall p :: p in t && Under(p, mirror) ==>
            path + p[|mirror|..] in t' && t'[path + p[|mirror|..]] == t[p])
      && (forall p :: p in t && !Under(p, mirror) && p != path ==> p in t' && t'[p] == t[p])
  {
    var mirror := MirrorPath(c, path).value;
    EvictionSteps(c, t, path);
    var t0 := t - {path};
    forall p | p in t && Under(p, mirror)
      ensures path + p[|mirror|..] in Moved(t0, mirror, path)
      ensures Moved(t0, mirror, path)[path + p[|mirror|..]] == t[p]
    {
      if p == path {
        assert false;
      }
      MovedSubtree(t0, mirror, path, p);
    }
  }

  /** Evicting an adopted path: the link at `src` points at `dest` and the
      tree without the link is `t2`, which holds nothing at `src`. */
  lemma EvictAdoptedLink(c: Config, t2: Tree, src: Path, dest: Path)
    requires MirrorPath(c, src) == Ok(dest) && Plain(dest)
    requires dest in t2 && src !in t2 && dest != src && !Under(src, dest)
    requires ParentIsDir(t2, src)
    ensures RemoveFromDotfilesStep(c, t2[src := Link(Absolute(dest))], src)
         == Step(Done, Moved(t2, dest, src))
  {
    var t3 := t2[src := Link(Absolute(dest))];
    NormalizePlain(dest);
    assert Exists(t3, src);
    assert UnlinkStep(t3, src) == Step(Done, t2) by {
      assert t3 - {src} == t2;
    }
  }

  /** Evicting right after adopting restores the tree the adoption started
      from, except for the parent directories adoption created in the
      mirror: the original node is back at its path and the mirror
      destination is gone. */
  lemma EvictAfterAdopt(c: Config, t: Tree, src: Path)
    requires WellFormed(t) && Plain(src) && Plain(c.mirrorRoot)
    requires Under(src, c.home) && MirrorPath(c, src).value !in t
    requires MoveToDotfilesStep(c, t, src).outcome.Done?
    ensures var dest := MirrorPath(c, src).value;
      var s := RemoveFromDotfilesStep(c, MoveToDotfilesStep(c, t, src).tree, src);
      && s.outcome.Done?
      && dest !in s.tree
      && (forall p :: p in t ==> p in s.tree && s.tree[p] == t[p])
      && (forall p :: p in s.tree && p !in t ==> Under(Parent(dest), p) && s.tree[p] == Dir)
  {
    var dest := MirrorPath(c, src).value;
    AdoptionSteps(c, t, src);
    var t1 := MakeDirsStep(t, Parent(dest)).tree;
    var t2 := Moved(t1, src, dest);
    assert Plain(src[|c.home|..]);
    PlainAppend(c.mirrorRoot, src[|c.home|..]);
    MovedSubtree(t1, src, dest, src);
    assert dest + src[|src|..] == dest;
    assert Parent(src) in t && t[Parent(src)].Dir?;
    assert !Under(Parent(src), src);
    EvictAdoptedLink(c, t2, src, dest);
    MovedBack(t1, src, dest);
  }

  /** The source's own eviction of a freshly adopted path: for anything but
      a directory it is the eviction above; for a directory the link leads
      to a directory, rmdir is called on the link and refuses it, so the
      eviction fails and leaves the tree as adoption left it, where the
      unlinking eviction succeeds. */
  lemma EvictAdoptedAsWritten(c: Config, t: Tree, src: Path)
    requires WellFormed(t) && Plain(src) && Plain(c.mirrorRoot)
    requires Under(src, c.home) && MirrorPath(c, src).value !in t
    requires MoveToDotfilesStep(c, t, src).outcome.Done?
    ensures var t2 := MoveToDotfilesStep(c, t, src).tree;
      && src in t
      && RemoveFromDotfilesStep(c, t2, src).outcome.Done?
      && (t[src].Dir? ==>
            RemoveFromDotfilesAsWritten(c, t2, src) == Step(Failed(NotADirectory(src)), t2))
      && (!t[src].Dir? ==>
            RemoveFromDotfilesAsWritten(c, t2, src) == RemoveFromDotfilesStep(c, t2, src))
  {
    var dest := MirrorPath(c, src).value;
    var t2 := MoveToDotfilesStep(c, t, src).tree;
    EvictAfterAdopt(c, t, src);
    MoveToDotfilesEffect(c, t, src);
    AdoptionSteps(c, t, src);
    assert Plain(src[|c.home|..]);
    PlainAppend(c.mirrorRoot, src[|c.home|..]);
    NormalizePlain(dest);
    assert dest + src[|src|..] == dest;
    assert t2[dest] == t[src];
    assert EvictionProceeds(c, t2, src);
  }

  /** The source's adoption replaces a dangling link in the mirror: with
      `~/f` a file and the mirror's `f` a link to nowhere, `exists()` does
      not see the link, and the rename puts the file in its place. The
      guarded adoption skips instead. */
  lemma AdoptOverDanglingMirrorLink()
    ensures var c := Config(["h"], ["m"], [".git"]);
      var t := map[[] := Dir, ["h"] := Dir, ["h", "f"] := File("x"),
                   ["m"] := Dir, ["m", "f"] := Link(Absolute(["nowhere"]))];
      var s := MoveToDotfilesStep(c, t, ["h", "f"]);
      && s.outcome.Done?
      && ["m", "f"] in s.tree && s.tree[["m", "f"]] == File("x")
      && MoveToDotfilesGuardedStep(c, t, ["h", "f"]) == Step(Skipped(DestinationExists), t)
  {
    var c := Config(["h"], ["m"], [".git"]);
    var t := map[[] := Dir, ["h"] := Dir, ["h", "f"] := File("x"),
                 ["m"] := Dir, ["m", "f"] := Link(Absolute(["nowhere"]))];
    var src: Path := ["h", "f"];
    var dest: Path := ["m", "f"];
    assert MirrorPath(c, src) == Ok(dest) by {
      assert src[..|c.home|] == c.home;
      assert src[|c.home|..] == ["f"];
      assert c.mirrorRoot + ["f"] == dest;
    }
    assert ["nowhere"] != dest && ["nowhere"] != src;
    NormalizePlain(["nowhere"]);
    assert !Exists(t, dest);
    assert Parent(dest) == ["m"];
    assert MakeDirsStep(t, ["m"]) == Step(Done, t);
    var t0 := t - {dest};
    assert RenameStep(t, src, dest) == Step(Done, Moved(t0, src, dest));
    var t1 := Moved(t0, src, dest);
    assert src + dest[|dest|..] == src;
    assert dest in t1 && t1[dest] == File("x");
    assert src !in t1 by {
      assert !Under(src, dest);
    }
    assert ParentIsDir(t1, src) by {
      assert Parent(src) == ["h"];
      assert !Under(["h"], src);
    }
  }

  /** The guarded adoption differs from the source's only on a dangling link
      at the mirror destination, and a successful guarded adoption never
      replaces a mirror entry: the destination was free, so every entry
      outside the adopted path is kept as it was. */
  lemma GuardedAdoptionKeepsMirror(c: Config, t: Tree, src: Path)
    requires WellFormed(t) && Under(src, c.home)
    ensures var dest := MirrorPath(c, src).value;
      MoveToDotfilesGuardedStep(c, t, src) != MoveToDotfilesStep(c, t, src) ==>
        dest in t && t[dest].Link? && LinkDestination(t[dest].target, dest) !in t
    ensures var dest := MirrorPath(c, src).value;
      var s := MoveToDotfilesGuardedStep(c, t, src);
      s.outcome.Done? ==>
        && dest !in t
        && (forall p :: p in t && !Under(p, src) ==> p in s.tree && s.tree[p] == t[p])
  {
    var dest := MirrorPath(c, src).value;
    if MoveToDotfilesGuardedStep(c, t, src).outcome.Done? {
      MoveToDotfilesEffect(c, t, src);
    }
  }
}
