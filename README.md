# dotfiles symlink engine, modelled in Dafny

`dotfiles` keeps a mirror tree of a user's dotfiles under
`DOTFILES_HOME` (`$XDG_DATA_HOME/dotfiles/home`) and links every file of it
into the home directory, at the same relative path, with a relative symbolic
link. The core that does this is `dotfiles/dotfiles.py`. This project models
that core over an explicit filesystem and proves its properties:

- the mapping between mirror and home paths (`make_dest_path`, the
  `relative_to(Path.home())` mapping of adoption and eviction,
  `make_symlink_paths`, `read_link`);
- the creation policies `make_dir` and `make_symlink`;
- adoption (`move_to_dotfiles`) and eviction (`remove_from_dotfiles`);
- the reconciliation walk `update_symlinks`, and `setup_dotfiles` as its
  sequencing with `remove_broken_symlinks`.

Modules, in dependency order:

- `Paths`: a path is the sequence of its components and the root is `[]`.
  This module defines `os.path.relpath` (`RelPath`), `os.path.normpath`
  (`Normalize`) and `dirname` (`Parent`).
- `Os`: the filesystem is a map from physical paths to `File`, `Dir` or
  `Link` nodes. A link's raw target is `Absolute` or `Relative`, so the raw
  `readlink` comparison of `make_symlink` is datatype equality.
  - The module holds the link-following queries (`Exists`, `IsDir`,
    `Resolve`) and the non-following one (`IsLink`).
  - Each system call is a pure transition returning a `Step` (outcome and
    tree): mkdir, symlink, unlink, rmdir, rename (moves a subtree), and
    `mkdir(parents=True, exist_ok=True)`.
  - The `FileSystem` class holds the tree and applies those transitions in
    place.
- `Dotfiles`: the configuration (`HOME`, `DOTFILES_HOME`,
  `DOTFILES_IGNORE`, passed explicitly) and the path mapping.
  - Every operation is given twice: a pure `...Step` specification, and a
    method on a `FileSystem` that issues the same calls in the same order as
    the source.
  - Each method is proved equal to its specification.
  - `update_symlinks` is the nested loop over the `os.walk` triples, with
    loop invariants.
  - A raised exception is a `Failed` outcome; the tree it carries is the
    tree at the point of the raise. `Skipping` is a `Skipped` outcome.
- `Mapping`, `Policies`, `Adoption`, `Reconcile`: the properties.

A filesystem is `WellFormed` when the root is a directory and every entry's
parent is a directory. Paths are `Plain` when no component is `""`, `"."`
or `".."`.

## Model

| member | source | states |
|---|---|---|
| Paths.CommonPrefixLength | dotfiles/dotfiles.py:164 | the common prefix of the two paths that relpath climbs back to: both agree up to it and differ right after it |
| Paths.RelPathResolves | dotfiles/dotfiles.py:162-166 | the relative path from `start` to `target`, appended to `start` and normalised, is `target` |
| Paths.RelPathFromAncestor | dotfiles/dotfiles.py:157-159 | relpath from an ancestor is the remaining suffix |
| Paths.NormalizeFromAppend | dotfiles/dotfiles.py:175 | normalising a joined path equals normalising the halves one after the other |
| Os.Moved | dotfiles/dotfiles.py:31 | rename's new tree: entries outside the source are kept, the source subtree reappears under the destination with the same nodes, nothing else |
| Os.MakeDirsEffect | dotfiles/dotfiles.py:28-29 | `mkdir(parents=True, exist_ok=True)` never skips; on success the path is a directory, the tree stays well-formed, old entries are kept, and every new entry is a directory that is an ancestor of the path |
| Os.RenameToFreePlace | dotfiles/dotfiles.py:31 | a rename to an absent path succeeds only when the source exists and the target is not inside it, and then moves the subtree |
| Os.MovedBack | dotfiles/dotfiles.py:53 | renaming a subtree to a free place and back restores the tree |
| Os.FileSystem.Mkdir | dotfiles/dotfiles.py:136 | the new state and outcome are those of os.mkdir on the old tree |
| Os.FileSystem.Symlink | dotfiles/dotfiles.py:154 | the new state and outcome are those of os.symlink on the old tree |
| Os.FileSystem.Unlink | dotfiles/dotfiles.py:151 | the new state and outcome are those of os.unlink on the old tree |
| Os.FileSystem.Rmdir | dotfiles/dotfiles.py:49 | the new state and outcome are those of os.rmdir, which refuses a link, on the old tree |
| Os.FileSystem.Rename | dotfiles/dotfiles.py:31 | the new state and outcome are those of rename on the old tree |
| Os.FileSystem.MakeDirs | dotfiles/dotfiles.py:29 | the new state and outcome are those of `mkdir(parents=True, exist_ok=True)` on the old tree |
| Dotfiles.Keep | dotfiles/dotfiles.py:104-108 | a name is kept exactly when it is listed and not on the ignore list |
| Dotfiles.MakeDir | dotfiles/dotfiles.py:124-136 | make_dir's outcome and new state as its specification gives them; on success the path is a directory |
| Dotfiles.MakeSymlink | dotfiles/dotfiles.py:139-154 | make_symlink's outcome and new state as its specification gives them; on success the destination is a link with the requested raw target |
| Dotfiles.MoveToDotfiles | dotfiles/dotfiles.py:15-32 | move_to_dotfiles' outcome and new state: mapping, ordered skips, parents, rename, absolute link |
| Dotfiles.RemoveFromDotfiles | dotfiles/dotfiles.py:35-53 | remove_from_dotfiles' outcome and new state as written, including rmdir on a link that leads to a directory |
| Dotfiles.MakeSubdirectories | dotfiles/dotfiles.py:109-111 | the directory loop of one walked directory performs the specified make_dir calls, stopping at the first failure |
| Dotfiles.LinkFiles | dotfiles/dotfiles.py:118-121 | the file loop of one walked directory performs the specified make_symlink calls, stopping at the first failure |
| Dotfiles.ReconcileDirectory | dotfiles/dotfiles.py:103-121 | one walked directory: its kept subdirectories, then its kept files |
| Dotfiles.UpdateSymlinks | dotfiles/dotfiles.py:102-121 | the walk performs, in order, the calls its specification lists for every triple |
| Dotfiles.RemoveBrokenSymlinks | dotfiles/dotfiles.py:84-99 | the sweep changes nothing: its filter keeps no file |
| Dotfiles.SetupDotfiles | dotfiles/dotfiles.py:76-81 | setup changes the tree exactly as update_symlinks does; the sweep runs only after update_symlinks succeeds |
| Mapping.DestPathOfMirror | dotfiles/dotfiles.py:157-159 | make_dest_path of a mirror path is HOME followed by the path's part below DOTFILES_HOME |
| Mapping.MirrorOfDest | dotfiles/dotfiles.py:36-37 | mapping a mirror path home and back gives the mirror path |
| Mapping.DestOfMirror | dotfiles/dotfiles.py:17-18 | a path has a mirror path exactly when it lies under HOME, otherwise the mapping is an error; mapping that mirror path home gives the path back |
| Mapping.DestPathInjective | dotfiles/dotfiles.py:157-159 | distinct mirror paths have distinct home paths |
| Mapping.DestPathPlain | dotfiles/dotfiles.py:157-159 | the home path of a plain mirror path is plain |
| Mapping.SymlinkTargetResolves | dotfiles/dotfiles.py:162-166 | the relative target made for a mirror file, resolved from the link's directory, is that mirror file |
| Mapping.ReadLinkOfReconciledLink | dotfiles/dotfiles.py:173-176 | read_link of such a link succeeds and normalises to the mirror file |
| Policies.MakeDirOutcomes | dotfiles/dotfiles.py:124-136 | an existing directory is kept; any other existing entry is a conflict that changes nothing; an absent path with a directory parent becomes a directory |
| Policies.MakeDirIdempotent | dotfiles/dotfiles.py:125-128 | after a successful make_dir only that path changed, it is a directory, and a second call changes nothing |
| Policies.MakeSymlinkOutcomes | dotfiles/dotfiles.py:139-154 | the four cases: absent gets the link, a non-link is a conflict, the same raw target is kept, another target is replaced |
| Policies.MakeSymlinkIdempotent | dotfiles/dotfiles.py:146-148 | after a successful make_symlink only the destination changed, and a second call is a no-op unless the link dangles |
| Policies.MakeSymlinkOverDanglingLink | dotfiles/dotfiles.py:140-154 | a dangling link at the destination does not exist, so os.symlink fails on it, even when its target is the requested one |
| Adoption.MoveToDotfilesSkips | dotfiles/dotfiles.py:17-26 | outside HOME is an error; the three skips, in order, each hold exactly under their condition, and a skip changes nothing |
| Adoption.AdoptionSteps | dotfiles/dotfiles.py:28-32 | the intermediate trees of a successful adoption: parents made, subtree renamed to the free mirror path, link made |
| Adoption.MoveToDotfilesEffect | dotfiles/dotfiles.py:28-32 | after adoption the source is a link to the absolute mirror path, the mirror holds the original subtree node for node, everything outside the source is unchanged, and the only other new entries are mirror parent directories |
| Adoption.AdoptTwiceSkips | dotfiles/dotfiles.py:20-22 | adopting the same path again is skipped as already a dotfile and changes nothing |
| Adoption.AdoptOverDanglingMirrorLink | dotfiles/dotfiles.py:25-31 | on a concrete tree whose mirror destination is a dangling link, the source's adoption succeeds and the adopted file replaces the link, while the guarded adoption skips |
| Adoption.GuardedAdoptionKeepsMirror | dotfiles/dotfiles.py:25-31 | the guarded adoption differs from the source's only on a dangling link at the mirror destination; when it succeeds the destination was free and every entry outside the adopted path is kept as it was |
| Adoption.RemoveFromDotfilesSkips | dotfiles/dotfiles.py:36-46 | outside HOME is an error; the three skips, in order, each hold exactly under their condition, and a skip changes nothing |
| Adoption.EvictionSteps | dotfiles/dotfiles.py:48-53 | a successful eviction removed a link that resolves to the mirror path and renamed the mirror subtree to the freed path |
| Adoption.RemoveFromDotfilesEffect | dotfiles/dotfiles.py:48-53 | after eviction the mirror subtree is back at the link's path node for node, and every other entry except the link is unchanged |
| Adoption.EvictAfterAdopt | dotfiles/dotfiles.py:35-53 | evicting right after adopting succeeds, removes the mirror destination, and restores every original entry; only created mirror parent directories remain |
| Adoption.EvictAdoptedAsWritten | dotfiles/dotfiles.py:48-49 | the source's eviction of an adopted directory fails at rmdir and changes nothing; for anything else it is the unlinking eviction |
| Reconcile.ApplyOpEffect | dotfiles/dotfiles.py:109-121 | one successful make_dir or make_symlink settles its home path; it removes no entry, adds an entry only at that path, and of the old entries changes only a link there |
| Reconcile.ApplyOpsEffect | dotfiles/dotfiles.py:103-121 | a successful run of calls with distinct home paths leaves every one settled; it removes no entry, adds entries only at those paths, and of the old entries changes only links there |
| Reconcile.ApplyOpsIdle | dotfiles/dotfiles.py:125-148 | calls that are all already satisfied change nothing |
| Reconcile.PlanListsEntry | dotfiles/dotfiles.py:104-117 | every walked name not on the ignore list gets its make_dir or make_symlink call |
| Reconcile.UpdateSymlinksEffect | dotfiles/dotfiles.py:102-121 | after a successful run every walked directory whose name is not ignored has a directory at its home path, and every such walked file has a link at make_dest_path with make_symlink_paths' relative target, leading back to the mirror file; entries are created only at the calls' home paths, none is removed, and only links there are changed |
| Reconcile.UpdateSymlinksIdempotent | dotfiles/dotfiles.py:102-121 | a second run with the same walk succeeds and changes nothing |
| Reconcile.UpdateSymlinksCoversMirror | dotfiles/dotfiles.py:103-121 | with a complete walk, every mirror entry whose own name is not ignored has its counterpart: a directory for a directory, a link for anything else, including entries inside ignored directories |
| Reconcile.EntryOpsOrder | dotfiles/dotfiles.py:109-121 | within one walked directory every make_dir precedes every make_symlink |
| Reconcile.ReconciledLinkIsDotfile | dotfiles/dotfiles.py:20-22 | adopting a link made by update_symlinks is skipped as already a dotfile; evicting it unlinks it and renames the mirror entry back |
| Reconcile.AdoptedPaths | dotfiles/dotfiles.py:157-166 | the home path of an adopted mirror entry is the original path, and its relative target leads where the absolute one does |
| Reconcile.AdoptedLinkIsRelinked | dotfiles/dotfiles.py:146-154 | make_symlink replaces adoption's absolute link by the relative one (raw targets differ) and changes nothing else |

## Left out

- Git synchronisation (`sync_with_repo`, `update_from_repo`, `push_to_repo`), the command line (`cli.py`), logging (`log.py`) and the `ls_dotfiles` stub: they are orchestration and output, outside the symlink engine. `log.py` and `cli.py` are not part of this model.
- `home_dir()`, `Path.home()` and the `XDG_DATA_HOME` lookup of `common.py`: the environment is read once; `HOME`, `DOTFILES_HOME` and `DOTFILES_IGNORE` are the fields of `Config` (`StandardConfig` builds the default layout).
- `Path.absolute()` against the working directory: every path given to the model is already absolute.
- `Path.resolve()` following chains of links and links inside a path's directories: resolution is one hop through a link at the path itself, and the filesystem is keyed by physical paths, so a path through a linked directory is not followed.
- Dotfiles.MakeDir, Dotfiles.MakeSymlink, Dotfiles.UpdateSymlinks: because the tree is keyed by physical paths, a call at a home path below a link to a directory fails where the source succeeds. The common case is a run of update_symlinks after a directory was adopted: `~/.config` is then adoption's link to the mirror's `.config`, and the walk reaches `~/.config/app`. The source's `os.path.exists` and `isdir` follow that link, so make_dir returns unchanged, and make_symlink on a file below it raises the "not a symlink" conflict. The model instead stops at the first such call with `NoSuchFile` on the linked directory. The properties of update_symlinks are stated for successful runs and do not cover this case.
- `os.walk` itself: the walk is an input, a sequence of `(dirpath, dirnames, filenames)` triples taken as a snapshot, and `Covers` and `WalkOf` state what a faithful walk satisfies. Changes a walk would observe while it runs, and links to directories inside the mirror (which `os.walk` lists among the dirnames), are not modelled.
- The messages of `Skipping` and of the raised exceptions, including the unformatted `{path}` in the "not a symlink" skip: outcomes carry a reason, not text.
- Permission errors, full disks, the root directory as an rmdir or rename target, and the non-atomicity of the system calls: every call either succeeds as POSIX describes or fails with `NoSuchFile`, `FileExists`, `NotADirectory`, `DirectoryNotEmpty`, `IsADirectory` or `InvalidMove`.
- rename over an existing empty directory: the model refuses, with `FileExists`, any rename onto an existing entry when that entry or the source is a directory. Eviction renames only to a freed path, and adoption renames onto an existing entry only when a dangling link (never a directory) sits at the mirror destination, so no property depends on it.
- `remove_broken_symlinks`: its file filter `if ()` keeps nothing, so the walk of the home directory changes nothing and is modelled as a no-op. The `samefile` pruning of its walk has no effect on the tree.
- Adoption.MoveToDotfilesEffect, Adoption.AdoptionSteps, Adoption.EvictAfterAdopt, Adoption.EvictAdoptedAsWritten: stated only when the mirror destination has no entry at all. A dangling link at the destination is not covered: `exists()` does not see it, so adoption proceeds and the rename replaces the link (see Findings). After that, eviction cannot restore the original tree, because the mirror's link is gone.
- Reconcile.UpdateSymlinksEffect: stated for a walk with no duplicate mirror paths whose entries are plain paths present in the tree, as `os.walk` yields them.

## Findings

| source | as written | input that shows it | evidently intended | confidence | as-written member | corrected member |
|---|---|---|---|---|---|---|
| dotfiles/dotfiles.py:48-49 | when the link to evict leads to a directory, `Path.is_dir()` follows it and `path.rmdir()` is called on the link; `rmdir` does not follow links and fails with "not a directory" | adopt a directory, e.g. `~/.config/app`, then evict `~/.config/app` | remove the link itself (`unlink`), then rename the mirror directory back | high, not executed | Adoption.EvictAdoptedAsWritten | Adoption.EvictAfterAdopt |
| dotfiles/dotfiles.py:25-31 | the "already exists" test uses `dest_path.exists()`, which follows links, so a dangling link at the mirror destination passes it and `src_path.rename(dest_path)` replaces that link | `~/f` a file and the mirror's `f` a link to a missing path; adopt `~/f` | skip with "already exists" whenever any entry is at the mirror destination, so adoption never overwrites repository content | medium, not executed | Adoption.AdoptOverDanglingMirrorLink | Adoption.GuardedAdoptionKeepsMirror |
