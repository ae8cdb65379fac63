/** The creation policies of update_symlinks: make_dir and make_symlink. */
module Policies {
  import opened Paths
  import opened Os
  import opened Dotfiles

  /** make_dir: an existing directory (links followed) is left alone, any
      other existing entry is an error that changes nothing, and an absent
      path whose parent is a directory becomes exactly that directory. */
  lemma MakeDirOutcomes(t: Tree, p: Path)
    ensures IsDir(t, p) ==> MakeDirStep(t, p) == Step(Done, t)
    ensures Exists(t, p) && !IsDir(t, p) ==>
      MakeDirStep(t, p) == Step(Failed(NotADirectoryConflict(p)), t)
    ensures p !in t && ParentIsDir(t, p) ==> MakeDirStep(t, p) == Step(Done, t[p := Dir])
    ensures !MakeDirStep(t, p).outcome.Done? ==> MakeDirStep(t, p).tree == t
  {
  }

  /** After a successful make_dir the path is a directory, only that path
      may have changed, and a second call is a no-op. */
  lemma MakeDirIdempotent(t: Tree, p: Path)
    requires MakeDirStep(t, p).outcome.Done?
    ensures var t' := MakeDirStep(t, p).tree;
      && IsDir(t', p)
      && t'.Keys == t.Keys + {p}
      && (forall q :: q in t && q != p ==> t'[q] == t[q])
      && MakeDirStep(t', p) == Step(Done, t')
  {
  }

  /** make_symlink, case by case: an absent destination gets the link, an
      existing non-link is a conflict that changes nothing, a link with the
      same raw target is kept, a link with another target is replaced. */
  lemma MakeSymlinkOutcomes(t: Tree, src: Target, dest: Path)
    requires WellFormed(t)
    ensures dest !in t && ParentIsDir(t, dest) ==>
      MakeSymlinkStep(t, src, dest) == Step(Done, t[dest := Link(src)])
    ensures Exists(t, dest) && !IsLink(t, dest) ==>
      MakeSymlinkStep(t, src, dest) == Step(Failed(NotASymlinkConflict(dest)), t)
    ensures Exists(t, dest) && IsLink(t, dest) && t[dest].target == src ==>
      MakeSymlinkStep(t, src, dest) == Step(Done, t)
    ensures Exists(t, dest) && IsLink(t, dest) && t[dest].target != src ==>
      MakeSymlinkStep(t, src, dest) == Step(Done, t[dest := Link(src)])
  {
    if Exists(t, dest) && IsLink(t, dest) && t[dest].target != src {
      assert dest != [];
      assert Parent(dest) != dest;
      assert t - {dest} + map[dest := Link(src)] == t[dest := Link(src)];
    }
  }

  /** On success the destination is a link whose raw target is `src`,
      nothing else changed, and a second call with the same arguments is a
      no-op as long as the link does not dangle. */
  lemma MakeSymlinkIdempotent(t: Tree, src: Target, dest: Path)
    requires MakeSymlinkStep(t, src, dest).outcome.Done?
    ensures var t' := MakeSymlinkStep(t, src, dest).tree;
      && dest in t' && t'[dest] == Link(src)
      && t'.Keys == t.Keys + {dest}
      && (forall q :: q in t && q != dest ==> t'[q] == t[q])
      && (Exists(t', dest) ==> MakeSymlinkStep(t', src, dest) == Step(Done, t'))
  {
  }

  /** A dangling link at the destination does not exist for make_symlink,
      so os.symlink is called and fails, even when the link already has
      the requested target: such a link is neither kept nor replaced. */
  lemma MakeSymlinkOverDanglingLink(t: Tree, src: Target, dest: Path)
    requires dest in t && t[dest].Link?
    requires LinkDestination(t[dest].target, dest) !in t
    ensures MakeSymlinkStep(t, src, dest) == Step(Failed(FileExists(dest)), t)
  {
  }
}
