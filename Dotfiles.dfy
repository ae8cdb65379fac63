/** The symlink engine of dotfiles/dotfiles.py: the mapping between the
    mirror tree (DOTFILES_HOME) and the home directory, the symlink and
    directory creation policies, adoption (move_to_dotfiles), eviction
    (remove_from_dotfiles) and the reconciliation walk (update_symlinks).
    Each operation is specified by a pure transition (`...Step`) on the tree
    and implemented by a method on a FileSystem object that issues the same
    system calls in the same order as the source. */
module Dotfiles {
  import opened Paths
  import opened Os

  /** HOME, DOTFILES_HOME and DOTFILES_IGNORE, passed explicitly. */
  datatype Config = Config(home: Path, mirrorRoot: Path, ignore: seq<Name>)

  /** DOTFILES_DIR is $XDG_DATA_HOME/dotfiles, DOTFILES_HOME its "home"
      subdirectory, and only ".git" is ignored. */
  function StandardConfig(home: Path, dataHome: Path): Config {
    Config(home, dataHome + ["dotfiles", "home"], [".git"])
  }

  // ---------------------------------------------------------------- paths

  /** make_dest_path: HOME joined with the path relative to DOTFILES_HOME. */
  function DestPath(c: Config, p: Path): Path {
    c.home + RelPath(p, c.mirrorRoot)
  }

  /** The home-to-mirror mapping of move_to_dotfiles and remove_from_dotfiles:
      DOTFILES_HOME joined with the path relative to HOME; relative_to
      raises for a path outside HOME. */
  function MirrorPath(c: Config, p: Path): Result<Path> {
    if Under(p, c.home) then Ok(c.mirrorRoot + p[|c.home|..]) else Err(OutsideHome(p))
  }

  /** make_symlink_paths: the link target, relative to the link's own
      directory, and the link's home path. */
  function SymlinkPaths(c: Config, f: Path): (Path, Path) {
    var dest := DestPath(c, f);
    (RelPath(f, Parent(dest)), dest)
  }

  /** read_link: the link's directory joined with its raw target (an
      absolute target replaces the directory), not normalised. */
  function ReadLink(t: Tree, p: Path): Result<Path> {
    if IsLink(t, p) then
      match t[p].target
      case Absolute(a) => Ok(a)
      case Relative(r) => Ok(Parent(p) + r)
    else Err(NotALink(p))
  }

  // ---------------------------------------------------- creation policies

  /** make_dir */
  function MakeDirStep(t: Tree, p: Path): Step {
    if Exists(t, p) then
      if IsDir(t, p) then Step(Done, t) else Step(Failed(NotADirectoryConflict(p)), t)
    else MkdirStep(t, p)
  }

  /** make_symlink: an existing non-link is a conflict, a link with the same
      raw target is kept, any other link is replaced. Existence follows
      links, so a dangling link falls through to os.symlink. */
  function MakeSymlinkStep(t: Tree, src: Target, dest: Path): Step {
    if Exists(t, dest) then
      if !IsLink(t, dest) then Step(Failed(NotASymlinkConflict(dest)), t)
      else if t[dest].target == src then Step(Done, t)
      else
        var s := UnlinkStep(t, dest);
        if !s.outcome.Done? then s
        else SymlinkStep(s.tree, src, dest)
    else SymlinkStep(t, src, dest)
  }

  // ------------------------------------------------- adoption and eviction

  /** move_to_dotfiles */
  function MoveToDotfilesStep(c: Config, t: Tree, src: Path): Step {
    match MirrorPath(c, src)
    case Err(e) => Step(Failed(e), t)
    case Ok(dest) =>
      if IsLink(t, src) then
        if Resolve(t, src) == dest then Step(Skipped(AlreadyDotfile), t)
        else Step(Skipped(IsSymlink), t)
      else if Exists(t, dest) then Step(Skipped(DestinationExists), t)
      else
        var s1 := MakeDirsStep(t, Parent(dest));
        if !s1.outcome.Done? then s1
        else
          var s2 := RenameStep(s1.tree, src, dest);
          if !s2.outcome.Done? then s2
          else SymlinkStep(s2.tree, Absolute(dest), src)
  }

  /** move_to_dotfiles with its "already exists" test made on the entry at
      the mirror destination itself rather than through `exists()`, so a
      dangling link there is a reason to skip, not something the rename
      replaces. */
  function MoveToDotfilesGuardedStep(c: Config, t: Tree, src: Path): Step {
    if MirrorPath(c, src).Ok? && !IsLink(t, src) && MirrorPath(c, src).value in t then
      Step(Skipped(DestinationExists), t)
    else MoveToDotfilesStep(c, t, src)
  }

  /** remove_from_dotfiles gets past its three checks: the path maps into
      the mirror, exists (links followed), is a link, and resolves to its
      mirror path. */
  predicate EvictionProceeds(c: Config, t: Tree, path: Path) {
    && MirrorPath(c, path).Ok?
    && Exists(t, path)
    && IsLink(t, path)
    && Resolve(t, path) == MirrorPath(c, path).value
  }

  /** remove_from_dotfiles with the link removed by os.unlink whatever it
      leads to, then the mirror entry renamed back to the link's path. */
  function RemoveFromDotfilesStep(c: Config, t: Tree, path: Path): Step {
    match MirrorPath(c, path)
    case Err(e) => Step(Failed(e), t)
    case Ok(mirror) =>
      if !Exists(t, path) then Step(Skipped(DoesNotExist), t)
      else if !IsLink(t, path) then Step(Skipped(NotASymlink), t)
      else if Resolve(t, path) != mirror then Step(Skipped(NotADotfile), t)
      else
        var s := UnlinkStep(t, path);
        if !s.outcome.Done? then s
        else RenameStep(s.tree, mirror, path)
  }

  /** remove_from_dotfiles as the source has it: when the link leads to a
      directory, Path.is_dir follows it and the link is handed to rmdir,
      which refuses a link; otherwise it is unlinked as above. */
  function RemoveFromDotfilesAsWritten(c: Config, t: Tree, path: Path): Step {
    if EvictionProceeds(c, t, path) && IsDir(t, path) then RmdirStep(t, path)
    else RemoveFromDotfilesStep(c, t, path)
  }

  // ---------------------------------------------------- reconciliation walk

  /** One triple yielded by os.walk(DOTFILES_HOME). */
  datatype WalkEntry = WalkEntry(dirpath: Path, dirnames: seq<Name>, filenames: seq<Name>)

  /** One call issued by update_symlinks, named by the mirror path it is for. */
  datatype Op = MakeDirOp(mirror: Path) | LinkOp(mirror: Path)

  /** The names the ignore list lets through. */
  function Keep(ignore: seq<Name>, names: seq<Name>): (r: seq<Name>)
    ensures forall n :: n in r <==> n in names && n !in ignore
  {
    if names == [] then []
    else (if names[0] in ignore then [] else [names[0]]) + Keep(ignore, names[1..])
  }

  function DirOps(dir: Path, names: seq<Name>): seq<Op> {
    if names == [] then [] else [MakeDirOp(dir + [names[0]])] + DirOps(dir, names[1..])
  }

  function LinkOps(dir: Path, names: seq<Name>): seq<Op> {
    if names == [] then [] else [LinkOp(dir + [names[0]])] + LinkOps(dir, names[1..])
  }

  /** Within one directory: first make_dir for every kept subdirectory, then
      make_symlink for every kept file. */
  function EntryOps(c: Config, e: WalkEntry): seq<Op> {
    DirOps(e.dirpath, Keep(c.ignore, e.dirnames)) + LinkOps(e.dirpath, Keep(c.ignore, e.filenames))
  }

  /** The calls of update_symlinks, in walk order. */
  function Plan(c: Config, walk: seq<WalkEntry>): seq<Op> {
    if walk == [] then [] else EntryOps(c, walk[0]) + Plan(c, walk[1..])
  }

  function ApplyOp(c: Config, t: Tree, op: Op): Step {
    match op
    case MakeDirOp(m) => MakeDirStep(t, DestPath(c, m))
    case LinkOp(m) =>
      var (src, dest) := SymlinkPaths(c, m);
      MakeSymlinkStep(t, Relative(src), dest)
  }

  /** Runs the calls in order; the first failure propagates. */
  function ApplyOps(c: Config, t: Tree, ops: seq<Op>): Step
    decreases |ops|
  {
    if ops == [] then Step(Done, t)
    else
      var s := ApplyOp(c, t, ops[0]);
      if !s.outcome.Done? then s else ApplyOps(c, s.tree, ops[1..])
  }

  /** update_symlinks, given the walk of the mirror tree. */
  function UpdateSymlinksStep(c: Config, t: Tree, walk: seq<WalkEntry>): Step {
    ApplyOps(c, t, Plan(c, walk))
  }

  /** Running one call in front of others. */
  lemma ApplyOpsCons(c: Config, t: Tree, op: Op, rest: seq<Op>)
    ensures ApplyOps(c, t, [op] + rest)
         == (var s := ApplyOp(c, t, op); if !s.outcome.Done? then s else ApplyOps(c, s.tree, rest))
  {
    assert ([op] + rest)[0] == op;
    assert ([op] + rest)[1..] == rest;
  }

  /** Running two call sequences one after the other. */
  lemma {:induction false} ApplyOpsAppend(c: Config, t: Tree, a: seq<Op>, b: seq<Op>)
    ensures ApplyOps(c, t, a + b)
         == (var s := ApplyOps(c, t, a); if !s.outcome.Done? then s else ApplyOps(c, s.tree, b))
    decreases |a|
  {
    if a == [] {
      assert a + b == b;
    } else {
      ApplyOpsCons(c, t, a[0], a[1..] + b);
      assert a + b == [a[0]] + (a[1..] + b);
      var s := ApplyOp(c, t, a[0]);
      if s.outcome.Done? {
        ApplyOpsAppend(c, s.tree, a[1..], b);
      }
    }
  }

  // -------------------------------------------------------------- methods

  method MakeDir(fs: FileSystem, p: Path) returns (outcome: Outcome)
    modifies fs
    ensures Step(outcome, fs.tree) == MakeDirStep(old(fs.tree), p)
    ensures outcome.Done? ==> IsDir(fs.tree, p)
  {
    if Exists(fs.tree, p) {
      if IsDir(fs.tree, p) {
        return Done;
      }
      return Failed(NotADirectoryConflict(p));
    }
    outcome := fs.Mkdir(p);
  }

  method MakeSymlink(fs: FileSystem, src: Target, dest: Path) returns (outcome: Outcome)
    modifies fs
    ensures Step(outcome, fs.tree) == MakeSymlinkStep(old(fs.tree), src, dest)
    ensures outcome.Done? ==> dest in fs.tree && fs.tree[dest] == Link(src)
  {
    if Exists(fs.tree, dest) {
      if !IsLink(fs.tree, dest) {
        return Failed(NotASymlinkConflict(dest));
      } else if fs.tree[dest].target == src {
        return Done;
      } else {
        outcome := fs.Unlink(dest);
        if !outcome.Done? {
          return;
        }
      }
    }
    outcome := fs.Symlink(src, dest);
  }

  method MoveToDotfiles(c: Config, fs: FileSystem, src: Path) returns (outcome: Outcome)
    modifies fs
    ensures Step(outcome, fs.tree) == MoveToDotfilesStep(c, old(fs.tree), src)
  {
    var mapped := MirrorPath(c, src);
    if mapped.Err? {
      return Failed(mapped.error);
    }
    var dest := mapped.value;
    if IsLink(fs.tree, src) {
      if Resolve(fs.tree, src) == dest {
        return Skipped(AlreadyDotfile);
      } else {
        return Skipped(IsSymlink);
      }
    } else if Exists(fs.tree, dest) {
      return Skipped(DestinationExists);
    }
    outcome := fs.MakeDirs(Parent(dest));
    if !outcome.Done? {
      return;
    }
    outcome := fs.Rename(src, dest);
    if !outcome.Done? {
      return;
    }
    outcome := fs.Symlink(Absolute(dest), src);
  }

  method RemoveFromDotfiles(c: Config, fs: FileSystem, path: Path) returns (outcome: Outcome)
    modifies fs
    ensures Step(outcome, fs.tree) == RemoveFromDotfilesAsWritten(c, old(fs.tree), path)
  {
    var mapped := MirrorPath(c, path);
    if mapped.Err? {
      return Failed(mapped.error);
    }
    var mirror := mapped.value;
    if !Exists(fs.tree, path) {
      return Skipped(DoesNotExist);
    }
    if !IsLink(fs.tree, path) {
      return Skipped(NotASymlink);
    }
    if Resolve(fs.tree, path) != mirror {
      return Skipped(NotADotfile);
    }
    if IsDir(fs.tree, path) {
      outcome := fs.Rmdir(path);
    } else {
      outcome := fs.Unlink(path);
    }
    if !outcome.Done? {
      return;
    }
    outcome := fs.Rename(mirror, path);
  }

  /** The first inner loop of update_symlinks: make_dir for every kept
      subdirectory of one walked directory. */
  method MakeSubdirectories(c: Config, fs: FileSystem, dir: Path, names: seq<Name>) returns (outcome: Outcome)
    modifies fs
    ensures Step(outcome, fs.tree) == ApplyOps(c, old(fs.tree), DirOps(dir, names))
  {
    ghost var goal := ApplyOps(c, fs.tree, DirOps(dir, names));
    assert names[0..] == names;
    var j := 0;
    while j < |names|
      invariant 0 <= j <= |names|
      invariant ApplyOps(c, fs.tree, DirOps(dir, names[j..])) == goal
    {
      assert names[j..][1..] == names[j + 1..];
      ApplyOpsCons(c, fs.tree, MakeDirOp(dir + [names[j]]), DirOps(dir, names[j + 1..]));
      outcome := MakeDir(fs, DestPath(c, dir + [names[j]]));
      if !outcome.Done? {
        return;
      }
      j := j + 1;
    }
    outcome := Done;
  }

  /** The second inner loop of update_symlinks: make_symlink for every kept
      file of one walked directory. */
  method LinkFiles(c: Config, fs: FileSystem, dir: Path, names: seq<Name>) returns (outcome: Outcome)
    modifies fs
    ensures Step(outcome, fs.tree) == ApplyOps(c, old(fs.tree), LinkOps(dir, names))
  {
    ghost var goal := ApplyOps(c, fs.tree, LinkOps(dir, names));
    assert names[0..] == names;
    var k := 0;
    while k < |names|
      invariant 0 <= k <= |names|
      invariant ApplyOps(c, fs.tree, LinkOps(dir, names[k..])) == goal
    {
      assert names[k..][1..] == names[k + 1..];
      ApplyOpsCons(c, fs.tree, LinkOp(dir + [names[k]]), LinkOps(dir, names[k + 1..]));
      var (src, dest) := SymlinkPaths(c, dir + [names[k]]);
      outcome := MakeSymlink(fs, Relative(src), dest);
      if !outcome.Done? {
        return;
      }
      k := k + 1;
    }
    outcome := Done;
  }

  /** One iteration of update_symlinks' walk: the subdirectories of one
      walked directory are made before its files are linked. */
  method ReconcileDirectory(c: Config, fs: FileSystem, e: WalkEntry) returns (outcome: Outcome)
    modifies fs
    ensures Step(outcome, fs.tree) == ApplyOps(c, old(fs.tree), EntryOps(c, e))
  {
    var dirnames := Keep(c.ignore, e.dirnames);
    var filenames := Keep(c.ignore, e.filenames);
    ApplyOpsAppend(c, fs.tree, DirOps(e.dirpath, dirnames), LinkOps(e.dirpath, filenames));
    outcome := MakeSubdirectories(c, fs, e.dirpath, dirnames);
    if outcome.Done? {
      outcome := LinkFiles(c, fs, e.dirpath, filenames);
    }
  }

  /** update_symlinks, over the triples of the walk in order. */
  method UpdateSymlinks(c: Config, fs: FileSystem, walk: seq<WalkEntry>) returns (outcome: Outcome)
    modifies fs
    ensures Step(outcome, fs.tree) == UpdateSymlinksStep(c, old(fs.tree), walk)
  {
    ghost var goal := UpdateSymlinksStep(c, fs.tree, walk);
    assert walk[0..] == walk;
    var i := 0;
    while i < |walk|
      invariant 0 <= i <= |walk|
      invariant ApplyOps(c, fs.tree, Plan(c, walk[i..])) == goal
    {
      assert walk[i..][0] == walk[i] && walk[i..][1..] == walk[i + 1..];
      ApplyOpsAppend(c, fs.tree, EntryOps(c, walk[i]), Plan(c, walk[i + 1..]));
      outcome := ReconcileDirectory(c, fs, walk[i]);
      if !outcome.Done? {
        return;
      }
      i := i + 1;
    }
    outcome := Done;
  }

  /** remove_broken_symlinks: its filter `if ()` selects nothing, so the
      sweep changes nothing. */
  method RemoveBrokenSymlinks(c: Config, fs: FileSystem)
    ensures fs.tree == old(fs.tree)
  {
  }

  /** setup_dotfiles: reconciliation, then the (empty) sweep. */
  method SetupDotfiles(c: Config, fs: FileSystem, walk: seq<WalkEntry>) returns (outcome: Outcome)
    modifies fs
    ensures Step(outcome, fs.tree) == UpdateSymlinksStep(c, old(fs.tree), walk)
  {
    outcome := UpdateSymlinks(c, fs, walk);
    if outcome.Done? {
      RemoveBrokenSymlinks(c, fs);
    }
  }
}
