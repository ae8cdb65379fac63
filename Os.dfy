/** The POSIX filesystem as the dotfiles engine sees it: a finite map from
    absolute physical paths to nodes, the link-following queries of
    os.path / pathlib, and the system calls the engine issues (mkdir,
    symlink, unlink, rename, and pathlib's mkdir with parents). Each call is
    a pure transition on the tree; the FileSystem class applies it in place. */
module Os {
  import opened Paths

  /** A symbolic link's stored target, as `readlink` returns it. Comparing
      two targets compares the raw strings: an absolute and a relative target
      are never equal. */
  datatype Target = Absolute(path: Path) | Relative(path: Path)

  datatype Node = File(contents: string) | Dir | Link(target: Target)

  type Tree = map<Path, Node>

  datatype Error =
    | OutsideHome(path: Path)             // relative_to raised ValueError
    | NotADirectoryConflict(path: Path)   // make_dir found a non-directory
    | NotASymlinkConflict(path: Path)     // make_symlink found a non-link
    | FileExists(path: Path)              // EEXIST
    | NoSuchFile(path: Path)              // ENOENT (or a parent that is no directory)
    | InvalidMove(from: Path, to: Path)   // EINVAL: rename into its own subtree
    | NotALink(path: Path)                // readlink on a non-link
    | NotADirectory(path: Path)           // ENOTDIR: rmdir on a non-directory
    | DirectoryNotEmpty(path: Path)       // ENOTEMPTY
    | IsADirectory(path: Path)            // EISDIR: unlink on a directory

  datatype Result<T> = Ok(value: T) | Err(error: Error)

  /** Why adoption or eviction declined to act (the source's Skipping). */
  datatype SkipReason =
    | AlreadyDotfile | IsSymlink | DestinationExists
    | DoesNotExist | NotASymlink | NotADotfile

  datatype Outcome = Done | Skipped(reason: SkipReason) | Failed(error: Error)

  /** The outcome of an operation and the tree it leaves behind (on a
      failure: the tree at the point the exception was raised). */
  datatype Step = Step(outcome: Outcome, tree: Tree)

  /** Where a link at `at` with target `target` leads, normalised. */
  function LinkDestination(target: Target, at: Path): Path {
    match target
    case Absolute(a) => Normalize(a)
    case Relative(r) => Normalize(Parent(at) + r)
  }

  /** Path.resolve(): one hop through a link at `p`; any other path is
      returned normalised. */
  function Resolve(t: Tree, p: Path): Path {
    if p in t && t[p].Link? then LinkDestination(t[p].target, p) else Normalize(p)
  }

  /** os.path.exists / Path.exists: follows a link, so a dangling link
      does not exist. */
  predicate Exists(t: Tree, p: Path) {
    p in t && (t[p].Link? ==> LinkDestination(t[p].target, p) in t)
  }

  /** os.path.isdir / Path.is_dir: follows a link. */
  predicate IsDir(t: Tree, p: Path) {
    p in t &&
    (t[p].Dir? ||
     (t[p].Link? && LinkDestination(t[p].target, p) in t && t[LinkDestination(t[p].target, p)].Dir?))
  }

  /** os.path.islink / Path.is_symlink: does not follow. */
  predicate IsLink(t: Tree, p: Path) {
    p in t && t[p].Link?
  }

  /** The physical parent of `p` is a directory, so an entry can be made at `p`. */
  predicate ParentIsDir(t: Tree, p: Path) {
    p != [] && Parent(p) in t && t[Parent(p)].Dir?
  }

  /** Every entry hangs below a directory entry, up to the root directory. */
  predicate WellFormed(t: Tree) {
    && [] in t && t[[]].Dir?
    && forall p :: p in t && p != [] ==> Parent(p) in t && t[Parent(p)].Dir?
  }

  /** No entry of `t` is at or below `p`. */
  predicate NothingUnder(t: Tree, p: Path) {
    forall q :: q in t ==> !Under(q, p)
  }

  /** os.mkdir */
  function MkdirStep(t: Tree, p: Path): Step {
    if p in t then Step(Failed(FileExists(p)), t)
    else if !ParentIsDir(t, p) then Step(Failed(NoSuchFile(Parent(p))), t)
    else Step(Done, t[p := Dir])
  }

  /** os.symlink(target, p) / Path.symlink_to */
  function SymlinkStep(t: Tree, target: Target, p: Path): Step {
    if p in t then Step(Failed(FileExists(p)), t)
    else if !ParentIsDir(t, p) then Step(Failed(NoSuchFile(Parent(p))), t)
    else Step(Done, t[p := Link(target)])
  }

  /** os.rmdir: removes an empty directory. It does not follow a link, so a
      link to a directory is not a directory here. */
  function RmdirStep(t: Tree, p: Path): Step {
    if p !in t then Step(Failed(NoSuchFile(p)), t)
    else if !t[p].Dir? then Step(Failed(NotADirectory(p)), t)
    else if exists q :: q in t && q != p && Under(q, p) then Step(Failed(DirectoryNotEmpty(p)), t)
    else Step(Done, t - {p})
  }

  /** os.unlink: removes one entry that is not a directory. */
  function UnlinkStep(t: Tree, p: Path): Step {
    if p !in t then Step(Failed(NoSuchFile(p)), t)
    else if t[p].Dir? then Step(Failed(IsADirectory(p)), t)
    else Step(Done, t - {p})
  }

  /** Path.mkdir(parents=True, exist_ok=True): an existing directory (links
      followed) is accepted, any other existing entry is an error, missing
      ancestors are made first. */
  function MakeDirsStep(t: Tree, p: Path): Step
    decreases |p|
  {
    if p in t then
      if IsDir(t, p) then Step(Done, t) else Step(Failed(FileExists(p)), t)
    else if p == [] then Step(Failed(NoSuchFile(p)), t)
    else
      var s := MakeDirsStep(t, Parent(p));
      if !s.outcome.Done? then s else MkdirStep(s.tree, p)
  }

  /** The entries of `t` at or below `from`, re-rooted at `to`. */
  function MovedKeys(t: Tree, from: Path, to: Path): set<Path> {
    set q | q in t && Under(q, from) :: to + q[|from|..]
  }

  lemma MovedKeysSpec(t: Tree, from: Path, to: Path)
    ensures forall p :: p in MovedKeys(t, from, to) <==> Under(p, to) && from + p[|to|..] in t
  {
    forall p ensures p in MovedKeys(t, from, to) <==> Under(p, to) && from + p[|to|..] in t {
      if Under(p, to) && from + p[|to|..] in t {
        var q := from + p[|to|..];
        assert q[..|from|] == from;
        assert q[|from|..] == p[|to|..];
        UnderSplit(p, to);
        assert to + q[|from|..] == p;
      }
      if p in MovedKeys(t, from, to) {
        var q :| q in t && Under(q, from) && p == to + q[|from|..];
        assert p[..|to|] == to;
        assert p[|to|..] == q[|from|..];
        UnderSplit(q, from);
      }
    }
  }

  /** The tree after the subtree at `from` is moved to `to`; entries outside
      `from` stay where they are. */
  function Moved(t: Tree, from: Path, to: Path): (r: Tree)
    ensures forall p :: p in r <==> (p in t && !Under(p, from)) || (Under(p, to) && from + p[|to|..] in t)
    ensures forall p :: p in r && !(p in t && !Under(p, from)) ==> Under(p, to) && r[p] == t[from + p[|to|..]]
    ensures forall p :: p in r && p in t && !Under(p, from) ==> r[p] == t[p]
  {
    MovedKeysSpec(t, from, to);
    var kept := set p | p in t && !Under(p, from);
    map p | p in kept + MovedKeys(t, from, to) ::
      if p in t && !Under(p, from) then t[p] else t[from + p[|to|..]]
  }

  /** os.rename / Path.rename: moves the whole subtree. An existing
      non-directory destination is replaced when the source is no directory;
      other existing destinations are refused. */
  function RenameStep(t: Tree, from: Path, to: Path): Step {
    if from !in t then Step(Failed(NoSuchFile(from)), t)
    else if from == to then Step(Done, t)
    else if Under(to, from) then Step(Failed(InvalidMove(from, to)), t)
    else if to in t then
      if t[to].Dir? || t[from].Dir? then Step(Failed(FileExists(to)), t)
      else Step(Done, Moved(t - {to}, from, to))
    else if !ParentIsDir(t, to) then Step(Failed(NoSuchFile(Parent(to))), t)
    else Step(Done, Moved(t, from, to))
  }

  /** In a well-formed tree every ancestor of an entry is present. */
  lemma {:induction false} AncestorPresent(t: Tree, p: Path, q: Path)
    requires WellFormed(t) && p in t && Under(p, q)
    ensures q in t
    decreases |p|
  {
    if |p| > |q| {
      assert Under(Parent(p), q) by {
        assert Parent(p)[..|q|] == p[..|q|];
      }
      AncestorPresent(t, Parent(p), q);
    } else {
      assert p == p[..|q|];
    }
  }

  /** An absent path has nothing below it in a well-formed tree. */
  lemma AbsentHasNothingUnder(t: Tree, p: Path)
    requires WellFormed(t) && p !in t
    ensures NothingUnder(t, p)
  {
    forall q | q in t ensures !Under(q, p) {
      if Under(q, p) {
        AncestorPresent(t, q, p);
      }
    }
  }

  /** Moving a subtree to an empty place and back restores the tree. */
  lemma MovedBack(t: Tree, a: Path, b: Path)
    requires NothingUnder(t, b) && !Under(a, b) && !Under(b, a)
    ensures Moved(Moved(t, a, b), b, a) == t
  {
    var t1 := Moved(t, a, b);
    var t2 := Moved(t1, b, a);
    forall p ensures (p in t2 <==> p in t) && (p in t ==> t2[p] == t[p]) {
      if Under(p, a) {
        if Under(p, b) {
          UnderComparable(p, a, b);
        }
        var q := b + p[|a|..];
        assert Under(q, b);
        assert q !in t;
        assert a + q[|b|..] == p by {
          assert q[|b|..] == p[|a|..];
          UnderSplit(p, a);
        }
        assert p in t2 <==> q in t1;
      } else {
        assert p in t2 <==> p in t1 && !Under(p, b);
        if p in t {
          assert !Under(p, b);
        }
      }
    }
    assert t2.Keys == t.Keys;
  }

  /** pathlib's mkdir with parents: on success the path is a directory,
      every earlier entry is kept, and the only new entries are directories
      at or above the path; the tree stays well-formed. */
  lemma {:induction false} MakeDirsEffect(t: Tree, p: Path)
    requires WellFormed(t)
    ensures !MakeDirsStep(t, p).outcome.Skipped?
    ensures var s := MakeDirsStep(t, p);
      s.outcome.Done? ==>
        && IsDir(s.tree, p)
        && WellFormed(s.tree)
        && (forall q :: q in t ==> q in s.tree && s.tree[q] == t[q])
        && (forall q :: q in s.tree && q !in t ==> Under(p, q) && s.tree[q] == Dir)
    decreases |p|
  {
    if p !in t && p != [] {
      MakeDirsEffect(t, Parent(p));
      var s := MakeDirsStep(t, Parent(p));
      assert Under(p, Parent(p));
      if s.outcome.Done? {
        forall q | q in s.tree && q !in t ensures Under(p, q) {
          UnderTransitive(p, Parent(p), q);
        }
      }
    }
  }

  /** A rename to a free place in a well-formed tree moves the subtree. */
  lemma RenameToFreePlace(t: Tree, from: Path, to: Path)
    requires WellFormed(t) && to !in t
    ensures var s := RenameStep(t, from, to);
      s.outcome.Done? ==>
        from in t && !Under(to, from) && s.tree == Moved(t, from, to) && NothingUnder(t, to)
  {
    AbsentHasNothingUnder(t, to);
  }

  /** The tree, updated in place by the system calls. */
  class FileSystem {
    var tree: Tree

    constructor (initial: Tree)
      ensures tree == initial
    {
      tree := initial;
    }

    method Mkdir(p: Path) returns (outcome: Outcome)
      modifies this
      ensures Step(outcome, tree) == MkdirStep(old(tree), p)
    {
      var s := MkdirStep(tree, p);
      outcome, tree := s.outcome, s.tree;
    }

    method Symlink(target: Target, p: Path) returns (outcome: Outcome)
      modifies this
      ensures Step(outcome, tree) == SymlinkStep(old(tree), target, p)
    {
      var s := SymlinkStep(tree, target, p);
      outcome, tree := s.outcome, s.tree;
    }

    method Unlink(p: Path) returns (outcome: Outcome)
      modifies this
      ensures Step(outcome, tree) == UnlinkStep(old(tree), p)
    {
      var s := UnlinkStep(tree, p);
      outcome, tree := s.outcome, s.tree;
    }

    method Rmdir(p: Path) returns (outcome: Outcome)
      modifies this
      ensures Step(outcome, tree) == RmdirStep(old(tree), p)
    {
      var s := RmdirStep(tree, p);
      outcome, tree := s.outcome, s.tree;
    }

    method Rename(from: Path, to: Path) returns (outcome: Outcome)
      modifies this
      ensures Step(outcome, tree) == RenameStep(old(tree), from, to)
    {
      var s := RenameStep(tree, from, to);
      outcome, tree := s.outcome, s.tree;
    }

    method MakeDirs(p: Path) returns (outcome: Outcome)
      modifies this
      ensures Step(outcome, tree) == MakeDirsStep(old(tree), p)
    {
      var s := MakeDirsStep(tree, p);
      outcome, tree := s.outcome, s.tree;
    }
  }
}
