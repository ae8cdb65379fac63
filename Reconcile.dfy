/** The reconciliation walk (update_symlinks): what a successful run leaves
    behind, that a second run changes nothing, and that the walk reaches
    every entry of the mirror tree, including those inside ignored
    directories. */
module Reconcile {
  import opened Paths
  import opened Os
  import opened Dotfiles
  import opened Mapping
  import opened Policies
  import opened Adoption

  /** The home path a call is about. */
  function DestOf(c: Config, op: Op): Path {
    DestPath(c, op.mirror)
  }

  function Dests(c: Config, ops: seq<Op>): set<Path> {
    if ops == [] then {} else {DestOf(c, ops[0])} + Dests(c, ops[1..])
  }

  /** From `t` to `t2` no entry disappears, new entries appear only at
      paths in `d`, and of the old entries only links at paths in `d` may
      change. */
  predicate Preserves(t: Tree, t2: Tree, d: set<Path>) {
    && t.Keys <= t2.Keys <= t.Keys + d
    && forall p :: p in t && (p !in d || !t[p].Link?) ==> t2[p] == t[p]
  }

  /** What a successful call leaves at its home path. */
  predicate Settled(c: Config, t: Tree, op: Op) {
    match op
    case MakeDirOp(m) => IsDir(t, DestPath(c, m))
    case LinkOp(m) =>
      var (rel, dest) := SymlinkPaths(c, m);
      dest in t && t[dest] == Link(Relative(rel))
  }

  /** A call the policies treat as a no-op on `t`. */
  predicate Idle(c: Config, t: Tree, op: Op) {
    Settled(c, t, op) && (op.LinkOp? ==> Exists(t, DestOf(c, op)))
  }

  predicate DistinctDests(c: Config, ops: seq<Op>) {
    forall i, j :: 0 <= i < j < |ops| ==> DestOf(c, ops[i]) != DestOf(c, ops[j])
  }

  lemma {:induction false} DestsMember(c: Config, ops: seq<Op>, d: Path)
    requires d in Dests(c, ops)
    ensures exists i :: 0 <= i < |ops| && DestOf(c, ops[i]) == d
    decreases |ops|
  {
    if d != DestOf(c, ops[0]) {
      DestsMember(c, ops[1..], d);
      var i :| 0 <= i < |ops[1..]| && DestOf(c, ops[1..][i]) == d;
      assert DestOf(c, ops[i + 1]) == d;
    }
  }

  /** One successful call settles its own home path and touches nothing
      else but a link there. */
  lemma ApplyOpEffect(c: Config, t: Tree, op: Op)
    requires ApplyOp(c, t, op).outcome.Done?
    ensures Preserves(t, ApplyOp(c, t, op).tree, {DestOf(c, op)})
    ensures Settled(c, ApplyOp(c, t, op).tree, op)
  {
    match op
    case MakeDirOp(m) =>
      MakeDirIdempotent(t, DestPath(c, m));
    case LinkOp(m) =>
      var (rel, dest) := SymlinkPaths(c, m);
      MakeSymlinkIdempotent(t, Relative(rel), dest);
  }

  lemma PreservesTransitive(t: Tree, t1: Tree, t2: Tree, d1: set<Path>, d2: set<Path>)
    requires Preserves(t, t1, d1) && Preserves(t1, t2, d2)
    ensures Preserves(t, t2, d1 + d2)
  {
  }

  /** A successful run of calls with distinct home paths leaves every one of
      them settled and changes nothing but links at those paths. */
  lemma {:induction false} ApplyOpsEffect(c: Config, t: Tree, ops: seq<Op>)
    requires DistinctDests(c, ops)
    requires ApplyOps(c, t, ops).outcome.Done?
    ensures Preserves(t, ApplyOps(c, t, ops).tree, Dests(c, ops))
    ensures forall i :: 0 <= i < |ops| ==> Settled(c, ApplyOps(c, t, ops).tree, ops[i])
    decreases |ops|
  {
    if ops != [] {
      var s := ApplyOp(c, t, ops[0]);
      var rest := ops[1..];
      var t' := ApplyOps(c, t, ops).tree;
      ApplyOpEffect(c, t, ops[0]);
      assert DistinctDests(c, rest) by {
        forall i, j | 0 <= i < j < |rest| ensures DestOf(c, rest[i]) != DestOf(c, rest[j]) {
          assert rest[i] == ops[i + 1] && rest[j] == ops[j + 1];
        }
      }
      ApplyOpsEffect(c, s.tree, rest);
      PreservesTransitive(t, s.tree, t', {DestOf(c, ops[0])}, Dests(c, rest));
      var d := DestOf(c, ops[0]);
      if d in Dests(c, rest) {
        DestsMember(c, rest, d);
        assert false;
      }
      assert Settled(c, t', ops[0]) by {
        if ops[0].MakeDirOp? && s.tree[d].Link? {
          var l := LinkDestination(s.tree[d].target, d);
          assert s.tree[l].Dir?;
          assert t'[l] == s.tree[l];
        }
      }
      forall i | 0 <= i < |ops| ensures Settled(c, t', ops[i]) {
        if i > 0 {
          assert ops[i] == rest[i - 1];
        }
      }
    }
  }

  /** Calls that are all idle change nothing. */
  lemma {:induction false} ApplyOpsIdle(c: Config, t: Tree, ops: seq<Op>)
    requires forall i :: 0 <= i < |ops| ==> Idle(c, t, ops[i])
    ensures ApplyOps(c, t, ops) == Step(Done, t)
    decreases |ops|
  {
    if ops != [] {
      assert Idle(c, t, ops[0]);
      assert ApplyOp(c, t, ops[0]) == Step(Done, t);
      assert forall i :: 0 <= i < |ops[1..]| ==> ops[1..][i] == ops[i + 1];
      ApplyOpsIdle(c, t, ops[1..]);
    }
  }

  /** The walk as os.walk yields it for the tree: every call is for a plain
      mirror path present in the tree, and no mirror path is listed twice. */
  predicate WalkOf(c: Config, t: Tree, walk: seq<WalkEntry>) {
    var ops := Plan(c, walk);
    && (forall op :: op in ops ==> Plain(op.mirror) && Under(op.mirror, c.mirrorRoot) && op.mirror in t)
    && (forall i, j :: 0 <= i < j < |ops| ==> ops[i].mirror != ops[j].mirror)
  }

  /** After a successful update_symlinks every listed directory has a
      directory (or a link to one) at its home path, and every listed file
      has a link at make_dest_path whose raw target is the relative path of
      make_symlink_paths and which leads back to the mirror file. */
  lemma UpdateSymlinksEffect(c: Config, t: Tree, walk: seq<WalkEntry>)
    requires Plain(c.home) && WalkOf(c, t, walk)
    requires UpdateSymlinksStep(c, t, walk).outcome.Done?
    ensures var t' := UpdateSymlinksStep(c, t, walk).tree;
      && Preserves(t, t', Dests(c, Plan(c, walk)))
      && forall op :: op in Plan(c, walk) ==>
           && (op.MakeDirOp? ==> IsDir(t', DestPath(c, op.mirror)))
           && (op.LinkOp? ==>
                 var (rel, dest) := SymlinkPaths(c, op.mirror);
                 && dest in t' && t'[dest] == Link(Relative(rel))
                 && LinkDestination(Relative(rel), dest) == op.mirror
                 && Exists(t', dest))
  {
    var ops := Plan(c, walk);
    var t' := UpdateSymlinksStep(c, t, walk).tree;
    assert DistinctDests(c, ops) by {
      forall i, j | 0 <= i < j < |ops| ensures DestOf(c, ops[i]) != DestOf(c, ops[j]) {
        assert ops[i] in ops && ops[j] in ops;
        if DestOf(c, ops[i]) == DestOf(c, ops[j]) {
          DestPathInjective(c, ops[i].mirror, ops[j].mirror);
        }
      }
    }
    ApplyOpsEffect(c, t, ops);
    forall op | op in ops && op.LinkOp?
      ensures var (rel, dest) := SymlinkPaths(c, op.mirror);
        LinkDestination(Relative(rel), dest) == op.mirror && Exists(t', dest)
    {
      var i :| 0 <= i < |ops| && ops[i] == op;
      assert Settled(c, t', ops[i]);
      SymlinkTargetResolves(c, op.mirror);
    }
    forall op | op in ops ensures Settled(c, t', op) {
      var i :| 0 <= i < |ops| && ops[i] == op;
    }
  }

  /** Running update_symlinks a second time, with the same walk, changes
      nothing. */
  lemma UpdateSymlinksIdempotent(c: Config, t: Tree, walk: seq<WalkEntry>)
    requires Plain(c.home) && WalkOf(c, t, walk)
    requires UpdateSymlinksStep(c, t, walk).outcome.Done?
    ensures var t' := UpdateSymlinksStep(c, t, walk).tree;
      UpdateSymlinksStep(c, t', walk) == Step(Done, t')
  {
    var ops := Plan(c, walk);
    var t' := UpdateSymlinksStep(c, t, walk).tree;
    UpdateSymlinksEffect(c, t, walk);
    forall i | 0 <= i < |ops| ensures Idle(c, t', ops[i]) {
      assert ops[i] in ops;
    }
    ApplyOpsIdle(c, t', ops);
  }

  lemma {:induction false} DirOpsMember(dir: Path, names: seq<Name>, n: Name)
    requires n in names
    ensures MakeDirOp(dir + [n]) in DirOps(dir, names)
    decreases |names|
  {
    if names[0] != n {
      DirOpsMember(dir, names[1..], n);
    }
  }

  lemma {:induction false} LinkOpsMember(dir: Path, names: seq<Name>, n: Name)
    requires n in names
    ensures LinkOp(dir + [n]) in LinkOps(dir, names)
    decreases |names|
  {
    if names[0] != n {
      LinkOpsMember(dir, names[1..], n);
    }
  }

  /** Every name os.walk lists that is not on the ignore list gets its
      call. */
  lemma {:induction false} PlanListsEntry(c: Config, walk: seq<WalkEntry>, i: nat, n: Name)
    requires i < |walk| && n !in c.ignore
    ensures n in walk[i].dirnames ==> MakeDirOp(walk[i].dirpath + [n]) in Plan(c, walk)
    ensures n in walk[i].filenames ==> LinkOp(walk[i].dirpath + [n]) in Plan(c, walk)
    decreases i
  {
    var e := walk[i];
    if i == 0 {
      if n in e.dirnames {
        DirOpsMember(e.dirpath, Keep(c.ignore, e.dirnames), n);
      }
      if n in e.filenames {
        LinkOpsMember(e.dirpath, Keep(c.ignore, e.filenames), n);
      }
    } else {
      assert walk[1..][i - 1] == e;
      PlanListsEntry(c, walk[1..], i - 1, n);
    }
  }

  /** os.walk lists every entry below DOTFILES_HOME under its parent
      directory, directories among the dirnames and everything else among
      the filenames. */
  predicate Covers(c: Config, t: Tree, walk: seq<WalkEntry>) {
    forall p :: p in t && Under(p, c.mirrorRoot) && p != c.mirrorRoot ==>
      exists i :: 0 <= i < |walk| && walk[i].dirpath == Parent(p) &&
        (if t[p].Dir? then p[|p| - 1] in walk[i].dirnames else p[|p| - 1] in walk[i].filenames)
  }

  /** After a successful update_symlinks over a complete walk, every entry
      below DOTFILES_HOME whose own name is not ignored has its counterpart
      in the home directory: a directory for a directory, a link to the
      mirror file for anything else. The ignore list is matched against
      names only, so the entries inside an ignored directory are reached
      too. */
  lemma UpdateSymlinksCoversMirror(c: Config, t: Tree, walk: seq<WalkEntry>)
    requires Plain(c.home) && WalkOf(c, t, walk) && Covers(c, t, walk)
    requires UpdateSymlinksStep(c, t, walk).outcome.Done?
    ensures var t' := UpdateSymlinksStep(c, t, walk).tree;
      forall f :: f in t && Under(f, c.mirrorRoot) && f != c.mirrorRoot && f[|f| - 1] !in c.ignore ==>
        && (t[f].Dir? ==> IsDir(t', DestPath(c, f)))
        && (!t[f].Dir? ==>
              var (rel, dest) := SymlinkPaths(c, f);
              dest in t' && t'[dest] == Link(Relative(rel)))
  {
    UpdateSymlinksEffect(c, t, walk);
    forall f | f in t && Under(f, c.mirrorRoot) && f != c.mirrorRoot && f[|f| - 1] !in c.ignore
      ensures (t[f].Dir? ==> MakeDirOp(f) in Plan(c, walk))
      ensures (!t[f].Dir? ==> LinkOp(f) in Plan(c, walk))
    {
      CoveredEntryPlanned(c, t, walk, f);
    }
  }

  /** An entry below DOTFILES_HOME that a complete walk lists, and whose own
      name is not ignored, gets its call. */
  lemma CoveredEntryPlanned(c: Config, t: Tree, walk: seq<WalkEntry>, f: Path)
    requires Covers(c, t, walk)
    requires f in t && Under(f, c.mirrorRoot) && f != c.mirrorRoot && f[|f| - 1] !in c.ignore
    ensures t[f].Dir? ==> MakeDirOp(f) in Plan(c, walk)
    ensures !t[f].Dir? ==> LinkOp(f) in Plan(c, walk)
  {
    var i := ListingOf(c, t, walk, f);
    PlanListsEntry(c, walk, i, f[|f| - 1]);
  }

  /** The walk entry that lists `f`. */
  lemma ListingOf(c: Config, t: Tree, walk: seq<WalkEntry>, f: Path) returns (i: nat)
    requires Covers(c, t, walk)
    requires f in t && Under(f, c.mirrorRoot) && f != c.mirrorRoot
    ensures i < |walk| && walk[i].dirpath + [f[|f| - 1]] == f
    ensures t[f].Dir? ==> f[|f| - 1] in walk[i].dirnames
    ensures !t[f].Dir? ==> f[|f| - 1] in walk[i].filenames
  {
    i :| 0 <= i < |walk| && walk[i].dirpath == Parent(f) &&
      (if t[f].Dir? then f[|f| - 1] in walk[i].dirnames else f[|f| - 1] in walk[i].filenames);
    assert f == f[..|f| - 1] + [f[|f| - 1]];
  }

  /** Within one walked directory every make_dir call comes before every
      make_symlink call. */
  lemma EntryOpsOrder(c: Config, e: WalkEntry)
    ensures var ops := EntryOps(c, e);
      forall i, j :: 0 <= i < j < |ops| && ops[j].MakeDirOp? ==> ops[i].MakeDirOp?
  {
    var a := DirOps(e.dirpath, Keep(c.ignore, e.dirnames));
    var b := LinkOps(e.dirpath, Keep(c.ignore, e.filenames));
    var ops := a + b;
    DirOpsAreMakeDir(e.dirpath, Keep(c.ignore, e.dirnames));
    LinkOpsAreLinks(e.dirpath, Keep(c.ignore, e.filenames));
    assert forall k :: 0 <= k < |a| ==> ops[k] == a[k];
    assert forall k :: |a| <= k < |ops| ==> ops[k] == b[k - |a|];
  }

  lemma {:induction false} DirOpsAreMakeDir(dir: Path, names: seq<Name>)
    ensures forall k :: 0 <= k < |DirOps(dir, names)| ==> DirOps(dir, names)[k].MakeDirOp?
    decreases |names|
  {
    if names != [] {
      DirOpsAreMakeDir(dir, names[1..]);
    }
  }

  lemma {:induction false} LinkOpsAreLinks(dir: Path, names: seq<Name>)
    ensures forall k :: 0 <= k < |LinkOps(dir, names)| ==> LinkOps(dir, names)[k].LinkOp?
    decreases |names|
  {
    if names != [] {
      LinkOpsAreLinks(dir, names[1..]);
    }
  }

  // ------------------------------------------- adoption meets reconciliation

  /** A link made by update_symlinks is recognised as a dotfile: adopting it
      again is skipped with nothing changed, and evicting it (when its mirror
      file is there) removes the link and moves the mirror file back. */
  lemma ReconciledLinkIsDotfile(c: Config, t: Tree, f: Path)
    requires Plain(c.home) && Plain(f) && Under(f, c.mirrorRoot)
    requires var (rel, dest) := SymlinkPaths(c, f); dest in t && t[dest] == Link(Relative(rel))
    ensures var dest := SymlinkPaths(c, f).1;
      && MoveToDotfilesStep(c, t, dest) == Step(Skipped(AlreadyDotfile), t)
      && (f in t ==> RemoveFromDotfilesStep(c, t, dest) == RenameStep(t - {dest}, f, dest))
  {
    var dest := SymlinkPaths(c, f).1;
    MirrorOfDest(c, f);
    SymlinkTargetResolves(c, f);
  }

  /** The home path of the mirror entry adopted from `src` is `src` again,
      and the relative target for it leads where the absolute one does. */
  lemma AdoptedPaths(c: Config, src: Path)
    requires Plain(c.home) && Plain(c.mirrorRoot) && Plain(src) && Under(src, c.home)
    ensures var dest := MirrorPath(c, src).value;
      var (rel, d) := SymlinkPaths(c, dest);
      && d == src
      && LinkDestination(Relative(rel), src) == LinkDestination(Absolute(dest), src) == dest
  {
    var dest := MirrorPath(c, src).value;
    assert Under(dest, c.mirrorRoot);
    DestPathOfMirror(c, dest);
    assert dest[|c.mirrorRoot|..] == src[|c.home|..];
    UnderSplit(src, c.home);
    assert Plain(src[|c.home|..]);
    PlainAppend(c.mirrorRoot, src[|c.home|..]);
    NormalizePlain(dest);
    SymlinkTargetResolves(c, dest);
  }

  /** make_symlink over a live link with a different raw target swaps the
      link and changes nothing else. */
  lemma RelinkLiveLink(t: Tree, p: Path, before: Target, after: Target)
    requires p in t && t[p] == Link(before) && before != after
    requires LinkDestination(before, p) in t && ParentIsDir(t, p)
    ensures MakeSymlinkStep(t, after, p) == Step(Done, t[p := Link(after)])
  {
    assert Parent(p) != p;
    assert ParentIsDir(t - {p}, p);
    assert (t - {p})[p := Link(after)] == t[p := Link(after)];
  }

  /** The absolute link left by move_to_dotfiles and the relative link that
      update_symlinks wants at the same path lead to the same mirror entry;
      make_symlink compares raw targets, so it replaces the first with the
      second, and nothing else changes. */
  lemma AdoptedLinkIsRelinked(c: Config, t: Tree, src: Path)
    requires Plain(c.home) && Plain(c.mirrorRoot) && Plain(src) && Under(src, c.home)
    requires MoveToDotfilesStep(c, t, src).outcome.Done?
    ensures var dest := MirrorPath(c, src).value;
      var t2 := MoveToDotfilesStep(c, t, src).tree;
      var (rel, d) := SymlinkPaths(c, dest);
      && d == src
      && LinkDestination(Relative(rel), src) == LinkDestination(Absolute(dest), src) == dest
      && MakeSymlinkStep(t2, Relative(rel), src) == Step(Done, t2[src := Link(Relative(rel))])
  {
    var dest := MirrorPath(c, src).value;
    var t2 := MoveToDotfilesStep(c, t, src).tree;
    var s1 := MakeDirsStep(t, Parent(dest));
    var s2 := RenameStep(s1.tree, src, dest);
    assert s2.outcome.Done? && src !in s2.tree && ParentIsDir(s2.tree, src);
    assert t2 == s2.tree[src := Link(Absolute(dest))];
    assert src != dest;
    assert dest in s2.tree by {
      assert src + dest[|dest|..] == src;
    }
    AdoptedPaths(c, src);
    assert Parent(src) != src;
    RelinkLiveLink(t2, src, Absolute(dest), Relative(SymlinkPaths(c, dest).0));
  }
}
