/** Properties of the path mapping of dotfiles/dotfiles.py: make_dest_path
    (mirror to home), the home-to-mirror mapping of adoption and eviction,
    and the relative link targets of make_symlink_paths and read_link. */
module Mapping {
  import opened Paths
  import opened Os
  import opened Dotfiles

  /** make_dest_path of a mirror path is HOME followed by the path's part
      below DOTFILES_HOME. */
  lemma DestPathOfMirror(c: Config, p: Path)
    requires Under(p, c.mirrorRoot)
    ensures DestPath(c, p) == c.home + p[|c.mirrorRoot|..]
    ensures Under(DestPath(c, p), c.home)
  {
    RelPathFromAncestor(p, c.mirrorRoot);
  }

  /** Mapping a mirror path home and back gives the mirror path. */
  lemma MirrorOfDest(c: Config, p: Path)
    requires Under(p, c.mirrorRoot)
    ensures MirrorPath(c, DestPath(c, p)) == Ok(p)
  {
    DestPathOfMirror(c, p);
    var h := DestPath(c, p);
    assert h[|c.home|..] == p[|c.mirrorRoot|..];
    UnderSplit(p, c.mirrorRoot);
  }

  /** Mapping a home path to the mirror and back gives the home path; a
      path outside HOME has no mirror path (an error, not a skip). */
  lemma DestOfMirror(c: Config, h: Path)
    ensures MirrorPath(c, h).Err? <==> !Under(h, c.home)
    ensures MirrorPath(c, h).Err? ==> MirrorPath(c, h).error == OutsideHome(h)
    ensures MirrorPath(c, h).Ok? ==>
      Under(MirrorPath(c, h).value, c.mirrorRoot) && DestPath(c, MirrorPath(c, h).value) == h
  {
    if Under(h, c.home) {
      var m := c.mirrorRoot + h[|c.home|..];
      assert m[..|c.mirrorRoot|] == c.mirrorRoot;
      DestPathOfMirror(c, m);
      assert m[|c.mirrorRoot|..] == h[|c.home|..];
      UnderSplit(h, c.home);
    }
  }

  /** Distinct mirror paths have distinct home paths. */
  lemma DestPathInjective(c: Config, p: Path, q: Path)
    requires Under(p, c.mirrorRoot) && Under(q, c.mirrorRoot)
    requires DestPath(c, p) == DestPath(c, q)
    ensures p == q
  {
    MirrorOfDest(c, p);
    MirrorOfDest(c, q);
  }

  /** The home path of a plain mirror path is plain. */
  lemma DestPathPlain(c: Config, p: Path)
    requires Plain(c.home) && Plain(p) && Under(p, c.mirrorRoot)
    ensures Plain(DestPath(c, p))
  {
    DestPathOfMirror(c, p);
    assert Plain(p[|c.mirrorRoot|..]);
    PlainAppend(c.home, p[|c.mirrorRoot|..]);
  }

  /** The relative target computed by make_symlink_paths, resolved against
      the directory of the link, leads back to the mirror file; read_link
      returns a path that normalises to it. */
  lemma SymlinkTargetResolves(c: Config, f: Path)
    requires Plain(c.home) && Plain(f) && Under(f, c.mirrorRoot)
    ensures var (rel, dest) := SymlinkPaths(c, f);
      && LinkDestination(Relative(rel), dest) == f
      && Normalize(Parent(dest) + rel) == f
  {
    var dest := DestPath(c, f);
    DestPathPlain(c, f);
    assert Plain(Parent(dest));
    RelPathResolves(f, Parent(dest));
  }

  /** read_link on the link made for a mirror file yields, once normalised,
      the mirror file. */
  lemma ReadLinkOfReconciledLink(c: Config, t: Tree, f: Path)
    requires Plain(c.home) && Plain(f) && Under(f, c.mirrorRoot)
    requires var (rel, dest) := SymlinkPaths(c, f); dest in t && t[dest] == Link(Relative(rel))
    ensures var dest := SymlinkPaths(c, f).1;
      ReadLink(t, dest).Ok? && Normalize(ReadLink(t, dest).value) == f
  {
    SymlinkTargetResolves(c, f);
  }
}
