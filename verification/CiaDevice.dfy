/**
 The device an update is installed on: a file system, the emulator's user path and its compression
 setting. Every call may fail; what a failed call may leave behind is part of its contract.
 */
module CiaDevice {
  import opened Bytes
  import opened CiaPolicy
  import opened CiaContents

  /** The components of an absolute path. */
  type Path = seq<string>

  datatype Node = Dir | Link | Regular(data: File)

  type Files = map<Path, Node>

  function Parent(p: Path): (q: Path)
    requires p != []
  {
    p[..|p| - 1]
  }

  predicate IsDir(fs: Files, p: Path) {
    p in fs && fs[p] == Dir
  }

  /** Everything lies in a directory. */
  predicate Tree(fs: Files) {
    IsDir(fs, []) && forall p :: p in fs && p != [] ==> IsDir(fs, Parent(p))
  }

  /** What lies at or below `top`. */
  function Below(fs: Files, top: Path): (s: set<Path>) {
    set p | p in fs && top <= p
  }

  /** The file system without `top` and everything below it. */
  function Without(fs: Files, top: Path): (r: Files)
    ensures forall p :: p in r <==> p in fs && !(top <= p)
    ensures forall p :: p in r ==> r[p] == fs[p]
  {
    fs - Below(fs, top)
  }

  /** `b` has everything that `a` has, and apart from that only directories on the way to `goal`. */
  ghost predicate Grown(a: Files, b: Files, goal: Path) {
    && (forall p :: p in a ==> p in b && b[p] == a[p])
    && (forall p :: p in b && p !in a ==> b[p] == Dir && p <= goal)
  }

  /** No file and no link stands where the first `i` components of `p` lead. */
  predicate Passable(fs: Files, p: Path, i: nat)
    requires i <= |p|
  {
    p[..i] in fs ==> fs[p[..i]] == Dir
  }

  /** Nothing but directories stands on the way to `p`. */
  predicate Open(fs: Files, p: Path) {
    forall i: nat :: i <= |p| ==> Passable(fs, p, i)
  }

  /** What was added are directories, so what stands in the way now was there before. */
  lemma PassableBefore(a: Files, b: Files, goal: Path, p: Path, i: nat)
    requires Grown(a, b, goal) && i <= |p|
    ensures Passable(a, p, i) <==> Passable(b, p, i)
  {
  }

  /** `top` is the same directory with other things in it, and nothing else differs. */
  predicate ChangedBelow(a: Files, b: Files, top: Path) {
    Tree(b) && top in b && Without(a, top) == Without(b, top)
  }

  /** The file system after `src`, with everything below it, was renamed to `dst`. */
  function Moved(fs: Files, src: Path, dst: Path): (r: Files) {
    Without(fs, src) + Replanted(fs, src, dst)
  }

  /** What lies at or below `src`, as it appears under `dst`. */
  function Replanted(fs: Files, src: Path, dst: Path): (r: Files)
    ensures forall p :: p in r <==> dst <= p && src + p[|dst|..] in fs
    ensures forall p :: p in r ==> r[p] == fs[src + p[|dst|..]]
  {
    var places := set q | q in Below(fs, src) :: dst + q[|src|..];
    PlacesOf(fs, src, dst);
    map p | p in places :: fs[src + p[|dst|..]]
  }

  lemma PlacesOf(fs: Files, src: Path, dst: Path)
    ensures forall p :: p in (set q | q in Below(fs, src) :: dst + q[|src|..]) <==> dst <= p && src + p[|dst|..] in fs
  {
    var places := set q | q in Below(fs, src) :: dst + q[|src|..];
    forall p ensures p in places <==> dst <= p && src + p[|dst|..] in fs {
      if p in places {
        var q :| q in Below(fs, src) && p == dst + q[|src|..];
        assert src + p[|dst|..] == q;
      }
      if dst <= p && src + p[|dst|..] in fs {
        var q := src + p[|dst|..];
        assert q in Below(fs, src) && dst + q[|src|..] == p;
      }
    }
  }

  // ----- lemmas about the file system -----

  lemma GrownTransitive(a: Files, b: Files, c: Files, goal: Path)
    requires Grown(a, b, goal) && Grown(b, c, goal)
    ensures Grown(a, c, goal)
  {
  }

  lemma GrownFurther(a: Files, b: Files, near: Path, goal: Path)
    requires Grown(a, b, near) && near <= goal
    ensures Grown(a, b, goal)
  {
    forall p | p in b && p !in a ensures b[p] == Dir && p <= goal {
      assert p <= near;
    }
  }

  /** In a tree, nothing lies below what does not exist. */
  lemma {:induction false} NothingBelow(fs: Files, top: Path, p: Path)
    requires Tree(fs) && top !in fs && top <= p
    ensures p !in fs
  {
    if p in fs {
      assert p != top && p != [];
      assert top <= Parent(p);
      NothingBelow(fs, top, Parent(p));
    }
  }

  lemma RootIsDir(fs: Files, p: Path)
    requires Tree(fs)
    ensures Grown(fs, fs, p) && IsDir(fs, p[..0])
  {
  }

  lemma TreeWithDir(fs: Files, p: Path)
    requires Tree(fs) && p !in fs && p != [] && IsDir(fs, Parent(p))
    ensures Tree(fs[p := Dir])
  {
  }

  lemma TreeWithFile(fs: Files, p: Path, data: File)
    requires Tree(fs) && p != [] && IsDir(fs, Parent(p)) && !IsDir(fs, p)
    ensures Tree(fs[p := Regular(data)])
  {
  }

  lemma TreeWithout(fs: Files, top: Path)
    requires Tree(fs) && top != []
    ensures Tree(Without(fs, top))
  {
    var r := Without(fs, top);
    forall p | p in r && p != [] ensures IsDir(r, Parent(p)) {
      assert IsDir(fs, Parent(p));
      assert top <= Parent(p) ==> top <= p;
    }
  }

  predicate Movable(fs: Files, src: Path, dst: Path) {
    && Tree(fs) && src in fs && src != []
    && dst != [] && dst !in fs && !(src <= dst) && IsDir(fs, Parent(dst))
  }

  lemma MovedTree(fs: Files, src: Path, dst: Path)
    requires Movable(fs, src, dst)
    ensures Tree(Moved(fs, src, dst))
  {
    hide Moved, Without;
    NothingBelowAll(fs, dst);
    assert IsDir(Moved(fs, src, dst), []) by { MovedApart(fs, src, dst, []); }
    forall p | p in Moved(fs, src, dst) && p != [] ensures IsDir(Moved(fs, src, dst), Parent(p)) {
      MovedParent(fs, src, dst, p);
    }
  }

  lemma NothingBelowAll(fs: Files, top: Path)
    requires Tree(fs) && top !in fs
    ensures forall p :: p in fs ==> !(top <= p)
  {
    hide Tree;
    forall p | p in fs ensures !(top <= p) {
      if top <= p {
        NothingBelow(fs, top, p);
      }
    }
  }

  /** The rest of the file system is untouched by a rename. */
  lemma MovedRest(fs: Files, src: Path, dst: Path)
    requires Movable(fs, src, dst)
    ensures Without(Moved(fs, src, dst), dst) == Without(fs, src)
  {
    hide Tree;
    NothingBelowAll(fs, dst);
    assert forall p :: p in Replanted(fs, src, dst) ==> dst <= p;
  }

  /** What was renamed is found at its new place. */
  lemma MovedLookup(fs: Files, src: Path, dst: Path, q: Path)
    ensures src + q in fs ==> dst + q in Moved(fs, src, dst) && Moved(fs, src, dst)[dst + q] == fs[src + q]
  {
    assert (dst + q)[|dst|..] == q && dst <= dst + q;
  }

  lemma MovedParent(fs: Files, src: Path, dst: Path, p: Path)
    requires Movable(fs, src, dst)
    requires forall q :: q in fs ==> !(dst <= q)
    requires p in Moved(fs, src, dst) && p != []
    ensures IsDir(Moved(fs, src, dst), Parent(p))
  {
    if p == dst {
      assert !(src <= Parent(dst)) && !(dst <= Parent(dst));
      MovedApart(fs, src, dst, Parent(dst));
    } else if dst <= p {
      MovedInside(fs, src, dst, p);
    } else {
      assert IsDir(fs, Parent(p));
      assert src <= Parent(p) ==> src <= p;
      assert !(dst <= Parent(p));
      MovedApart(fs, src, dst, Parent(p));
    }
  }

  lemma MovedApart(fs: Files, src: Path, dst: Path, p: Path)
    requires IsDir(fs, p) && !(src <= p) && !(dst <= p)
    ensures IsDir(Moved(fs, src, dst), p)
  {
  }

  lemma MovedInside(fs: Files, src: Path, dst: Path, p: Path)
    requires Tree(fs) && src != [] && dst < p && src + p[|dst|..] in fs
    ensures IsDir(Moved(fs, src, dst), Parent(p))
  {
    var q := src + p[|dst|..];
    assert dst <= Parent(p) && src + Parent(p)[|dst|..] == Parent(q);
    assert IsDir(fs, Parent(q));
  }

  // ----- the device -----

  class Device {
    var files: Files
    var userPath: Path
    var compress: bool
    /** How many renames have published a title. */
    ghost var commits: nat

    constructor (files: Files, userPath: Path, compress: bool)
      requires Tree(files)
      ensures this.files == files && this.userPath == userPath && this.compress == compress && commits == 0
    {
      this.files, this.userPath, this.compress, commits := files, userPath, compress, 0;
    }

    /** `fs::create_directory`; the system may refuse it. */
    method CreateDirectory(p: Path) returns (r: Outcome<()>, ghost refused: bool)
      requires Tree(files)
      modifies this`files
      ensures Tree(files) && Grown(old(files), files, p)
      ensures r.Done? ==> IsDir(files, p) && (forall q :: q in files ==> q in old(files) || q == p)
      ensures r.Failed? ==> r.status == InstallFailed && files == old(files)
      ensures refused ==> r.Failed?
      ensures !refused ==> (r.Done? <==> IsDir(old(files), p)
                                         || (p !in old(files) && p != [] && IsDir(old(files), Parent(p))))
    {
      var fails: bool := *;
      refused := false;
      if p in files {
        r := Require(files[p] == Dir, InstallFailed);
      } else if fails {
        r, refused := Failed(InstallFailed), true;
      } else if p == [] || !IsDir(files, Parent(p)) {
        r := Failed(InstallFailed);
      } else {
        TreeWithDir(files, p);
        files := files[p := Dir];
        r := Done(());
      }
    }

    /** `fs::create_directories`: a failure leaves the directories made so far. */
    method CreateDirectories(p: Path) returns (r: Outcome<()>, ghost refused: bool)
      requires Tree(files)
      modifies this`files
      ensures Tree(files) && Grown(old(files), files, p)
      ensures r.Done? ==> IsDir(files, p)
      ensures r.Failed? ==> r.status == InstallFailed
      ensures refused ==> r.Failed?
      ensures !refused ==> (r.Done? <==> Open(old(files), p))
    {
      hide Tree, Grown;
      refused := false;
      RootIsDir(files, p);
      for i := 0 to |p|
        invariant Tree(files) && Grown(old(files), files, p)
        invariant IsDir(files, p[..i]) && !refused
        invariant forall j: nat :: j <= i ==> Passable(old(files), p, j)
      {
        ghost var now := files;
        assert Parent(p[..i + 1]) == p[..i];
        PassableBefore(old(files), now, p, p, i + 1);
        r, refused := CreateDirectory(p[..i + 1]);
        if r.Failed? { return; }
        GrownFurther(now, files, p[..i + 1], p);
        GrownTransitive(old(files), now, files, p);
      }
      assert p[..|p|] == p;
      r := Done(());
    }

    /** `FileUtil::CreateFullPath`: what exists is enough; else every directory on the way, at most a hundred deep. */
    method CreateFullPath(p: Path) returns (ok: bool)
      requires Tree(files)
      modifies this`files
      ensures Tree(files) && Grown(old(files), files, p)
      ensures p in old(files) ==> ok && files == old(files)
      ensures ok ==> p in files
    {
      if p in files { return true; }
      for i := 0 to |p| + 1
        invariant Tree(files) && Grown(old(files), files, p)
        invariant i > 0 ==> IsDir(files, p[..i - 1])
      {
        ghost var now := files;
        var made, _ := CreateDirectory(p[..i]);
        if made.Failed? { return false; }
        GrownFurther(now, files, p[..i], p);
        GrownTransitive(old(files), now, files, p);
        if i + 1 == 100 { return false; }
      }
      assert p[..|p|] == p;
      ok := true;
    }

    /** `FileUtil::SetUserPath`: the given path if it exists or can be created, else a default of the platform. */
    method SetUserPath(p: Path)
      requires Tree(files)
      modifies this`userPath, this`files
      ensures Tree(files) && Grown(old(files), files, p)
      ensures p in old(files) ==> userPath == p && files == old(files)
    {
      var usable := CreateFullPath(p);
      if usable {
        userPath := p;
      } else {
        var fallback: Path := *;
        userPath := fallback;
      }
    }

    /** `mkdtemp`: a new directory whose name nobody could foresee. */
    method MakeTemporary(root: Path, stem: string) returns (r: Outcome<Path>)
      requires Tree(files)
      modifies this`files
      ensures r.Failed? ==> r.status == InstallFailed && files == old(files)
      ensures r.Done? ==> |r.value| == |root| + 1 && root < r.value && stem <= r.value[|root|]
      ensures r.Done? ==> r.value !in old(files) && files == old(files)[r.value := Dir] && Tree(files)
    {
      var name: string := *;
      var p := root + [name];
      assert Parent(p) == root;
      if !(stem <= name) || p in files || !IsDir(files, root) {
        return Failed(InstallFailed);
      }
      TreeWithDir(files, p);
      files := files[p := Dir];
      r := Done(p);
    }

    /** `fs::remove_all`. */
    method RemoveAll(p: Path)
      requires Tree(files) && p != []
      modifies this`files
      ensures files == Without(old(files), p) && Tree(files)
    {
      TreeWithout(files, p);
      files := Without(files, p);
    }

    /** Writes a whole file, new or not. */
    method WriteFile(p: Path, data: File)
      requires Tree(files) && p != [] && IsDir(files, Parent(p)) && !IsDir(files, p)
      modifies this`files
      ensures files == old(files)[p := Regular(data)] && Tree(files)
    {
      TreeWithFile(files, p, data);
      files := files[p := Regular(data)];
    }

    /** Appends to a file that is there. */
    method AppendFile(p: Path, chunk: bytes)
      requires Tree(files) && p in files && files[p].Regular? && |files[p].data| + |chunk| < 0x8000_0000_0000_0000
      modifies this`files
      ensures files == old(files)[p := Regular(old(files[p].data) + chunk)] && Tree(files)
    {
      files := files[p := Regular(files[p].data + chunk)];
    }

    /** The emulator's installer does what it likes below its user path. */
    method InstallerRuns()
      requires Tree(files) && userPath in files
      modifies this`files
      ensures Tree(files) && userPath in files
      ensures Without(files, userPath) == Without(old(files), userPath)
    {
      var next: Files := *;
      if ChangedBelow(files, next, userPath) {
        files := next;
      }
    }

    /** `renamex_np` with `RENAME_EXCL`: it never replaces anything. */
    method RenameExclusive(src: Path, dst: Path) returns (ok: bool, ghost refused: bool)
      requires Tree(files)
      modifies this`files, this`commits
      ensures ok <==> !refused && Movable(old(files), src, dst)
      ensures ok ==> files == Moved(old(files), src, dst) && commits == old(commits) + 1
      ensures !ok ==> files == old(files) && commits == old(commits)
    {
      var fails: bool := *;
      ok, refused := !fails && Movable(files, src, dst), fails;
      if ok {
        files := Moved(files, src, dst);
        commits := commits + 1;
      }
    }
  }
}
