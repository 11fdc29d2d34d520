/**
 The installation of an update: a copy is checked and installed into a staging directory, verified
 there, and published by one exclusive rename. Every call into the system and the emulator, and every
 cancel poll, may answer as it likes. Destructors are the statements after the call they guard.
 */
module CiaInstall {
  import opened Bytes
  import opened CiaPolicy
  import opened CiaContents
  import opened CiaDevice
  import opened CiaVerdict
  import opened Options

  datatype Report = Report(titleId: u64, version: u64, count: u64, contentBytes: u64)

  const NOTHING: Report := Report(0, 0, 0, 0)

  /** The user path is not where it was set to; the checks that report it turn out never to fail. */
  const ELSEWHERE: Outcome<()> := Failed(WrongEnvironment)

  // ----- paths -----

  /** A trailing slash is an empty last component; without stripping it the parent would be the path itself. */
  method DirectoryOf(p: Path) returns (d: Path)
    ensures d <= p && (d != [] ==> d[|d| - 1] != "")
    ensures forall i :: |d| <= i < |p| ==> p[i] == ""
  {
    d := p;
    while d != [] && d[|d| - 1] == ""
      invariant d <= p && forall i :: |d| <= i < |p| ==> p[i] == ""
    {
      d := Parent(d);
    }
  }

  /** No component leaves the base, and none is a symbolic link. */
  method NoLinks(device: Device, base: Path, relative: Path) returns (r: Outcome<()>)
    ensures r.Done? <==> FreeOfLinks(device.files, base, relative, |relative|)
    ensures r.Failed? ==> r.status == WrongEnvironment
  {
    var p := base;
    for i := 0 to |relative|
      invariant p == base + relative[..i]
      invariant FreeOfLinks(device.files, base, relative, i)
    {
      assert SafeStep(device.files, base, relative, i) <==>
             relative[i] != ".." && relative[i] != "/" && !IsLink(device.files, base + relative[..i + 1]);
      var _ :- Require(relative[i] != ".." && relative[i] != "/", WrongEnvironment);
      p := p + [relative[i]];
      assert p == base + relative[..i + 1];
      var _ :- Require(!IsLink(device.files, p), WrongEnvironment);
    }
    r := Done(());
  }

  /** The one root an update may be installed under. */
  method FindRoot(device: Device, request: Request, documents: Path) returns (r: Outcome<Path>)
    ensures r.Done? ==> r.value == ExpectedRoot(documents) == request.requested
    ensures r.Done? <==> request.requested == ExpectedRoot(documents)
                         && FreeOfLinks(device.files, documents, ["RoomExperiment-v1", "3DS"], 2)
    ensures r.Failed? ==> r.status == WrongEnvironment
  {
    var _ :- NoLinks(device, documents, ["RoomExperiment-v1", "3DS"]);
    var _ :- Require(request.requested == ExpectedRoot(documents), WrongEnvironment);
    r := Done(request.requested);
  }

  /** A question to the system or the emulator, which may refuse. */
  method Ask(status: Failure) returns (r: Outcome<()>, ghost refusal: Option<Failure>)
    ensures Settles(r, refusal, Success) && (refusal.Some? ==> refusal.value == status)
  {
    var grants: bool := *;
    r := Require(grants, status);
    refusal := if grants then None else Some(status);
  }

  /** A poll of the caller, which may cancel. */
  method Check() returns (r: Outcome<()>, ghost refusal: Option<Failure>)
    ensures Settles(r, refusal, Success) && (refusal.Some? ==> refusal.value == Cancelled)
  {
    ghost var asked;
    r, asked := Poll();
    refusal := if asked then Some(Cancelled) else None;
  }

  // ----- what an installation may change -----

  /** A file of the record's size, hashing to its digest. */
  ghost predicate HoldsContent(fs: Files, p: Path, c: Record, sha: bytes -> bytes) {
    p in fs && fs[p].Regular? && |fs[p].data| == c.size as nat && sha(fs[p].data) == c.hash
  }

  ghost predicate HoldsContents(fs: Files, at: Path, title: Title, m: Manifest, n: nat, sha: bytes -> bytes)
    requires m.Listed() && n <= m.count
  {
    forall i: nat :: i < n ==> HoldsContent(fs, at + title.contentAt(i), RecordAt(m, i), sha)
  }

  /** The title appeared at `to`, whole; all else that is new are directories on the way to it. */
  ghost predicate Published(a: Files, b: Files, to: Path, title: Title, m: Manifest, sha: bytes -> bytes)
    requires m.Listed() && to != []
  {
    to !in a && Grown(a, Without(b, to), Parent(to)) && HoldsContents(b, to, title, m, m.count, sha)
  }

  // ----- staging -----

  /** The input is copied in chunks; a failure leaves what was copied so far. */
  method CopyInput(device: Device, staging: Path, input: File)
    returns (r: Outcome<()>, ghost refusal: Option<Failure>)
    requires Tree(device.files) && IsDir(device.files, staging) && staging + ["input.cia"] !in device.files
    requires |input| <= MAX_INPUT as nat
    modifies device`files
    ensures Tree(device.files) && IsDir(device.files, staging)
    ensures Without(device.files, staging) == Without(old(device.files), staging)
    ensures r.Done? ==> HasFile(device.files, staging + ["input.cia"], input)
    ensures forall p :: p in device.files ==> p in old(device.files) || p == staging + ["input.cia"]
    ensures r.Failed? ==> r.status != Busy && r.status != AlreadyInstalled
    ensures Settles(r, refusal, Success)
  {
    hide Tree, Without;
    var source := staging + ["input.cia"];
    assert Parent(source) == staging;
    device.WriteFile(source, []);
    SetInside(old(device.files), staging, source, Regular([]));
    var size, off := |input| as u64, 0 as u64;
    while off < size
      invariant off <= size && Tree(device.files)
      invariant device.files == old(device.files)[source := Regular(input[..off as nat])]
      invariant Without(device.files, staging) == Without(old(device.files), staging)
    {
      r, refusal := Check();
      if r.Failed? { return; }
      var n := if size - off < CHUNK then size - off else CHUNK;
      var chunk, _ := ReadChunk(input, off, n);
      if chunk.Failed? { return Failed(chunk.status), Some(chunk.status); }
      r, refusal := Ask(InstallFailed);
      if r.Failed? { return; }
      assert input[..off as nat] + chunk.value == input[..(off + n) as nat];
      device.AppendFile(source, chunk.value);
      SetInside(old(device.files), staging, source, Regular(input[..(off + n) as nat]));
      off := off + n;
    }
    assert input[..size as nat] == input;
    r, refusal := Ask(InstallFailed);
  }

  lemma SetInside(fs: Files, top: Path, p: Path, node: Node)
    requires top <= p
    ensures Without(fs[p := node], top) == Without(fs, top)
  {
  }

  predicate HasFile(fs: Files, p: Path, data: File) {
    p in fs && fs[p] == Regular(data)
  }

  /** The emulator's installer is fed the copy in chunks; its results are read when it is closed. */
  method FeedInstaller(device: Device, copy: File) returns (r: Outcome<()>, ghost refusal: Option<Failure>)
    requires Tree(device.files) && device.userPath in device.files && |copy| <= MAX_INPUT as nat
    modifies device`files
    ensures Tree(device.files) && device.userPath in device.files
    ensures Without(device.files, device.userPath) == Without(old(device.files), device.userPath)
    ensures r.Failed? ==> r.status != Busy && r.status != AlreadyInstalled
    ensures Settles(r, refusal, Success)
  {
    hide Tree, Without;
    var size, off := |copy| as u64, 0 as u64;
    while off < size
      invariant off <= size && Tree(device.files) && device.userPath in device.files
      invariant Without(device.files, device.userPath) == Without(old(device.files), device.userPath)
    {
      r, refusal := Check();
      if r.Failed? { return; }
      var n := if size - off < CHUNK then size - off else CHUNK;
      var chunk, _ := ReadChunk(copy, off, n);
      if chunk.Failed? { return Failed(chunk.status), Some(chunk.status); }
      device.InstallerRuns();
      r, refusal := Ask(InstallFailed);
      if r.Failed? { return; }
      off := off + n;
    }
    device.InstallerRuns();
    r, refusal := Ask(InstallFailed);
  }

  /** The installer's destructor runs on every exit, while the user path is still the staged one. */
  method RunInstaller(device: Device, copy: File) returns (r: Outcome<()>, ghost refusal: Option<Failure>)
    requires Tree(device.files) && device.userPath in device.files && |copy| <= MAX_INPUT as nat
    modifies device`files
    ensures Tree(device.files) && device.userPath in device.files
    ensures Without(device.files, device.userPath) == Without(old(device.files), device.userPath)
    ensures r.Failed? ==> r.status != Busy && r.status != AlreadyInstalled
    ensures Settles(r, refusal, Success)
  {
    hide Tree, Without;
    r, refusal := FeedInstaller(device, copy);
    device.InstallerRuns();
  }

  /** Every installed content is read again: only what hashes to the listed digest gets further. */
  method VerifyInstalled(device: Device, title: Title, m: Manifest, hashes: seq<bytes>, sha: bytes -> bytes)
    returns (r: Outcome<()>, ghost refusal: Option<Failure>)
    requires m.Listed() && |hashes| == m.count && forall i: nat :: i < m.count ==> hashes[i] == RecordAt(m, i).hash
    ensures r.Done? ==> HoldsContents(device.files, device.userPath + title.place, title, m, m.count, sha)
    ensures r.Failed? ==> r.status != Busy && r.status != AlreadyInstalled
    ensures Settles(r, refusal, if HoldsContents(device.files, device.userPath + title.place, title, m, m.count, sha)
                                then Success else InstallFailed)
  {
    hide RecordAt;
    refusal := None;
    for i := 0 to m.count
      invariant HoldsContents(device.files, device.userPath + title.place, title, m, i, sha)
    {
      var p := device.userPath + title.place + title.contentAt(i);
      var size := RecordAt(m, i).size as nat;
      assert HoldsContent(device.files, p, RecordAt(m, i), sha) <==>
             p in device.files && device.files[p].Regular? && |device.files[p].data| == size
             && sha(device.files[p].data) == hashes[i];
      var _ :- Require(p in device.files && device.files[p].Regular? && |device.files[p].data| == size, InstallFailed);
      var data := device.files[p].data;
      var hash, interrupted := Hash(data, 0, |data| as u64, sha);
      if hash.Failed? { return Failed(hash.status), Some(hash.status); }
      assert Range(data, 0, |data|) == data;
      var _ :- Require(hash.value == hashes[i], InstallFailed);
    }
    r := Done(());
  }

  /** Installs into the staging directory and verifies the result there. */
  method Stage(device: Device, staging: Path, copy: File, title: Title, m: Manifest, hashes: seq<bytes>,
               sha: bytes -> bytes)
    returns (r: Outcome<()>, ghost refusal: Option<Failure>)
    requires Tree(device.files) && |copy| <= MAX_INPUT as nat
    requires IsDir(device.files, staging) && staging + ["user"] !in device.files
    requires m.Listed() && |hashes| == m.count && forall i: nat :: i < m.count ==> hashes[i] == RecordAt(m, i).hash
    modifies device`files, device`userPath, device`compress
    ensures Tree(device.files) && Without(device.files, staging) == Without(old(device.files), staging)
    ensures r.Failed? ==> r.status != Busy && r.status != AlreadyInstalled
    ensures Settles(r, refusal, Success)
    ensures r.Done? ==> device.userPath == staging + ["user"]
    ensures r.Done? ==> HoldsContents(device.files, staging + ["user"] + title.place, title, m, m.count, sha)
  {
    hide Tree, Without, HoldsContents, RecordAt;
    var stagedRoot := staging + ["user"];
    assert Parent(stagedRoot) == staging;
    ghost var refused;
    r, refused := device.CreateDirectory(stagedRoot);
    refusal := if refused then Some(InstallFailed) else None;
    GrownInside(old(device.files), device.files, staging, stagedRoot);
    if r.Failed? { return; }
    device.SetUserPath(stagedRoot);
    if device.userPath != stagedRoot { return ELSEWHERE, None; }
    device.compress := false;
    r, refusal := Check();
    if r.Failed? { return; }
    ghost var before := device.files;
    r, refusal := RunInstaller(device, copy);
    WithoutOuter(before, device.files, staging, stagedRoot);
    if r.Failed? { return; }
    r, refusal := VerifyInstalled(device, title, m, hashes, sha);
    if r.Failed? {
      // What does not verify is an answer of the installer that refuses.
      refusal := Some(r.status);
      return;
    }
    r, refusal := Ask(InstallFailed);
  }

  lemma GrownInside(a: Files, b: Files, top: Path, p: Path)
    requires Grown(a, b, p) && top <= p && (forall q :: q in b ==> q in a || q == p)
    ensures Without(a, top) == Without(b, top)
  {
  }

  lemma WithoutOuter(a: Files, b: Files, outer: Path, inner: Path)
    requires outer <= inner && Without(a, inner) == Without(b, inner)
    ensures Without(a, outer) == Without(b, outer)
  {
    forall p | !(outer <= p) ensures p in a <==> p in b {
      assert !(inner <= p);
      assert p in a <==> p in Without(a, inner);
      assert p in b <==> p in Without(b, inner);
    }
    forall p | p in Without(a, outer) ensures a[p] == b[p] {
      assert !(inner <= p);
      assert Without(a, inner)[p] == Without(b, inner)[p];
    }
  }

  // ----- publishing -----

  /** From the last cancel poll to the rename. */
  method Publish(device: Device, root: Path, staging: Path, title: Title, m: Manifest, sha: bytes -> bytes)
    returns (r: Outcome<()>, ghost refusal: Option<Failure>)
    requires Tree(device.files) && title.Proper() && m.Listed()
    requires root < staging && |staging| == |root| + 1 && STEM <= staging[|root|]
    requires device.userPath == staging + ["user"] && IsDir(device.files, root)
    requires HoldsContents(device.files, staging + ["user"] + title.place, title, m, m.count, sha)
    modifies device`files, device`userPath, device`commits
    ensures Tree(device.files)
    ensures Settles(r, refusal, TitleVerdict(old(device.files), root + title.place, root, title.place))
    ensures r.Failed? ==> device.commits == old(device.commits)
    ensures r.Failed? ==> Grown(Without(old(device.files), staging), Without(device.files, staging),
                                Parent(root + title.place))
    ensures r == Failed(AlreadyInstalled) ==> root + title.place in old(device.files)
    ensures r.Failed? ==> r.status != Busy
    ensures r.Done? ==> device.commits == old(device.commits) + 1 && device.userPath == root
    ensures r.Done? ==> Published(Without(old(device.files), staging), Without(device.files, staging),
                                  root + title.place, title, m, sha)
  {
    hide Tree, Without, HoldsContents, Moved, Published, Grown, Movable, FreeOfLinks, CiaDevice.Open;
    var destination := root + title.place;
    var stagedTitle := DirectoryOf(device.userPath + title.place + [""]);
    StrippedOnce(device.userPath + title.place, stagedTitle);
    GrownReflexive(Without(device.files, staging), Parent(destination));
    r, refusal := Check();
    if r.Failed? { return; }
    var _ :- NoLinks(device, root, title.place);
    r, refusal := Ask(InstallFailed);
    if r.Failed? { return; }
    var _ :- Require(destination !in device.files, AlreadyInstalled);
    ghost var before, refused := device.files, false;
    r, refused := device.CreateDirectories(Parent(destination));
    refusal := if refused then Some(InstallFailed) else None;
    GrownWithout(before, device.files, staging, Parent(destination));
    if r.Failed? { return; }
    StillHolds(before, device.files, Parent(destination), stagedTitle, title, m, sha);
    StillDir(before, device.files, Parent(destination), root);
    NotMade(before, device.files, destination);
    ghost var ready := device.files;
    r, refusal := Rename(device, root, staging, stagedTitle, title, m, sha);
    if r.Done? {
      MovedTree(ready, stagedTitle, destination);
      RenamePublishes(Without(before, staging), ready, root, staging, stagedTitle, title, m, sha);
    }
  }

  /** The user path goes back to the root, and the verified title is renamed to its place. */
  method Rename(device: Device, root: Path, staging: Path, src: Path, title: Title, m: Manifest, sha: bytes -> bytes)
    returns (r: Outcome<()>, ghost refusal: Option<Failure>)
    requires Tree(device.files) && title.Proper() && m.Listed() && src == staging + ["user"] + title.place
    requires root < staging && |staging| == |root| + 1
    requires IsDir(device.files, root) && IsDir(device.files, Parent(root + title.place))
    requires root + title.place !in device.files && HoldsContents(device.files, src, title, m, m.count, sha)
    modifies device`files, device`userPath, device`commits
    ensures Settles(r, refusal, Success)
    ensures r.Failed? ==> r.status == InstallFailed && device.files == old(device.files)
                          && device.commits == old(device.commits)
    ensures r.Done? ==> Movable(old(device.files), src, root + title.place)
                        && device.files == Moved(old(device.files), src, root + title.place)
                        && device.commits == old(device.commits) + 1 && device.userPath == root
  {
    hide Tree, HoldsContents, Moved, Movable;
    device.SetUserPath(root);
    StagedMovable(device.files, root, staging, src, title, m, sha);
    if device.userPath != root { return ELSEWHERE, None; }
    var renamed, refused := device.RenameExclusive(src, root + title.place);
    r := Require(renamed, InstallFailed);
    refusal := if refused then Some(InstallFailed) else None;
  }

  /** Making the directory above a path does not make the path. */
  lemma NotMade(a: Files, b: Files, p: Path)
    requires p != [] && p !in a && Grown(a, b, Parent(p))
    ensures p !in b
  {
    assert !(p <= Parent(p));
  }

  /** A verified title can be renamed; only the system can refuse. */
  lemma StagedMovable(fs: Files, root: Path, staging: Path, src: Path, title: Title, m: Manifest, sha: bytes -> bytes)
    requires Tree(fs) && title.Proper() && m.Listed() && src == staging + ["user"] + title.place
    requires root < staging && |staging| == |root| + 1
    requires HoldsContents(fs, src, title, m, m.count, sha)
    requires IsDir(fs, Parent(root + title.place)) && root + title.place !in fs
    ensures Movable(fs, src, root + title.place)
  {
    hide Tree, RecordAt;
    assert HoldsContent(fs, src + title.contentAt(0), RecordAt(m, 0), sha);
    AboveIsThere(fs, src, title.contentAt(0));
  }

  lemma AboveIsThere(fs: Files, p: Path, q: Path)
    requires Tree(fs) && p + q in fs
    ensures p in fs
  {
    if p !in fs {
      NothingBelow(fs, p, p + q);
    }
  }

  lemma StrippedOnce(p: Path, d: Path)
    requires p != [] && p[|p| - 1] != ""
    requires d <= p + [""] && (d != [] ==> d[|d| - 1] != "") && forall i :: |d| <= i < |p| + 1 ==> (p + [""])[i] == ""
    ensures d == p
  {
    assert (p + [""])[|p| - 1] == p[|p| - 1];
    assert |d| == |p| + 1 ==> d == p + [""];
  }

  lemma GrownReflexive(a: Files, goal: Path)
    ensures Grown(a, a, goal)
  {
  }

  lemma GrownWithout(a: Files, b: Files, top: Path, goal: Path)
    requires Grown(a, b, goal)
    ensures Grown(Without(a, top), Without(b, top), goal)
  {
  }

  lemma StillDir(a: Files, b: Files, goal: Path, p: Path)
    requires Grown(a, b, goal) && IsDir(a, p)
    ensures IsDir(b, p)
  {
  }

  /** What is outside the staging directory stays a directory while only the inside changes. */
  lemma DirOutside(a: Files, b: Files, staging: Path, root: Path)
    requires root < staging && IsDir(a, root) && Without(a, staging) == Without(b, staging)
    ensures IsDir(b, root)
  {
    assert root in Without(a, staging) && Without(a, staging)[root] == Dir;
    assert root in Without(b, staging);
  }

  lemma StillHolds(a: Files, b: Files, goal: Path, at: Path, title: Title, m: Manifest, sha: bytes -> bytes)
    requires m.Listed() && Grown(a, b, goal) && HoldsContents(a, at, title, m, m.count, sha)
    ensures HoldsContents(b, at, title, m, m.count, sha)
  {
    hide RecordAt;
  }

  lemma RenamePublishes(a: Files, ready: Files, root: Path, staging: Path, src: Path, title: Title, m: Manifest,
                        sha: bytes -> bytes)
    requires title.Proper() && m.Listed() && src == staging + ["user"] + title.place
    requires root < staging && |staging| == |root| + 1 && STEM <= staging[|root|]
    requires Grown(a, Without(ready, staging), Parent(root + title.place))
    requires Movable(ready, src, root + title.place) && HoldsContents(ready, src, title, m, m.count, sha)
    ensures Published(a, Without(Moved(ready, src, root + title.place), staging), root + title.place, title, m, sha)
  {
    hide Tree, Moved, Movable, RecordAt, Without, Grown;
    var dst := root + title.place;
    var after := Moved(ready, src, dst);
    MovedRest(ready, src, dst);
    WithoutTwice(after, ready, dst, src, staging);
    NotInGrown(a, ready, staging, dst, Parent(dst));
    forall i: nat | i < m.count
      ensures HoldsContent(Without(after, staging), dst + title.contentAt(i), RecordAt(m, i), sha)
    {
      var q := title.contentAt(i);
      assert HoldsContent(ready, src + q, RecordAt(m, i), sha);
      MovedLookup(ready, src, dst, q);
      Apart(root, staging, title.place, q);
      KeptWithout(after, staging, dst + q);
    }
  }

  lemma WithoutTwice(after: Files, ready: Files, dst: Path, src: Path, staging: Path)
    requires staging <= src && Without(after, dst) == Without(ready, src)
    ensures Without(Without(after, staging), dst) == Without(ready, staging)
  {
    var b := Without(Without(after, staging), dst);
    assert b == Without(Without(after, dst), staging);
    assert Without(Without(ready, src), staging) == Without(ready, staging);
  }

  lemma NotInGrown(a: Files, ready: Files, staging: Path, dst: Path, goal: Path)
    requires Grown(a, Without(ready, staging), goal) && dst !in ready
    ensures dst !in a
  {
  }

  lemma KeptWithout(fs: Files, top: Path, p: Path)
    requires p in fs && !(top <= p)
    ensures p in Without(fs, top) && Without(fs, top)[p] == fs[p]
  {
  }

  /**
   It is said to be installed only if it is, published only where no component of the way is a link, and not busy.
   */
  ghost predicate Explained(r: Outcome<()>, a: Files, root: Path, title: Title) {
    && (r == Failed(AlreadyInstalled) ==> root + title.place in a)
    && r != Failed(Busy)
    && (r.Done? ==> FreeOfLinks(a, root, title.place, |title.place|))
  }

  lemma FreeWithout(fs: Files, top: Path, base: Path, relative: Path)
    requires FreeOfLinks(fs, base, relative, |relative|)
    ensures FreeOfLinks(Without(fs, top), base, relative, |relative|)
  {
    hide Without;
    forall i: nat | i < |relative| ensures SafeStep(Without(fs, top), base, relative, i) {
      assert SafeStep(fs, base, relative, i);
    }
  }

  /** The user path is the root, and the place of the title is free. */
  method Locate(device: Device, root: Path, title: Title) returns (r: Outcome<()>, ghost refusal: Option<Failure>)
    requires Tree(device.files) && title.Proper() && IsDir(device.files, root)
    modifies device`files, device`userPath
    ensures device.files == old(device.files)
    ensures Settles(r, refusal,
                    if !FreeOfLinks(device.files, root, title.place, |title.place|) then WrongEnvironment
                    else if root + title.place in device.files then AlreadyInstalled else Success)
    ensures refusal.Some? ==> refusal.value != Busy && refusal.value != AlreadyInstalled
  {
    hide Tree, FreeOfLinks;
    device.SetUserPath(root);
    if device.userPath != root { return ELSEWHERE, None; }
    r, refusal := Ask(Unsupported);
    if r.Failed? { return; }
    var destination := DirectoryOf(device.userPath + title.place + [""]);
    StrippedOnce(device.userPath + title.place, destination);
    assert destination[|root|..] == title.place;
    var _ :- NoLinks(device, root, destination[|root|..]);
    r, refusal := Ask(InstallFailed);
    if r.Failed? { return; }
    r := Require(destination !in device.files, AlreadyInstalled);
  }

  /** Inside `Paths`: the title is located, staged and published. */
  method Commit(device: Device, root: Path, staging: Path, copy: File, title: Title, m: Manifest, hashes: seq<bytes>,
                sha: bytes -> bytes)
    returns (r: Outcome<()>, ghost refusal: Option<Failure>)
    requires Tree(device.files) && |copy| <= MAX_INPUT as nat && title.Proper()
    requires root < staging && |staging| == |root| + 1 && STEM <= staging[|root|] && IsDir(device.files, root)
    requires IsDir(device.files, staging) && staging + ["user"] !in device.files
    requires m.Listed() && |hashes| == m.count && forall i: nat :: i < m.count ==> hashes[i] == RecordAt(m, i).hash
    modifies device
    ensures Tree(device.files)
    ensures Settles(r, refusal, TitleVerdict(old(device.files), root + title.place, root, title.place))
    ensures r.Failed? ==> device.commits == old(device.commits)
    ensures Explained(r, Without(old(device.files), staging), root, title)
    ensures r.Failed? ==> Grown(Without(old(device.files), staging), Without(device.files, staging),
                                Parent(root + title.place))
    ensures r.Done? ==> device.commits == old(device.commits) + 1 && device.userPath == root
    ensures r.Done? ==> Published(Without(old(device.files), staging), Without(device.files, staging),
                                  root + title.place, title, m, sha)
  {
    hide Tree, Without, HoldsContents, RecordAt, Published, Grown, FreeOfLinks, CiaDevice.Open, Passable;
    ghost var before, to := device.files, root + title.place;
    GrownReflexive(Without(before, staging), Parent(to));
    OutsideTitle(before, staging, root, title);
    r, refusal := Locate(device, root, title);
    if r.Failed? { return; }
    r, refusal := Stage(device, staging, copy, title, m, hashes, sha);
    if r.Failed? { return; }
    ghost var staged := device.files;
    DirOutside(before, staged, staging, root);
    OutsideTitle(staged, staging, root, title);
    VerdictOutside(before, staged, root, staging, title.place);
    r, refusal := Publish(device, root, staging, title, m, sha);
  }

  /** The place of the title is outside the staging directory. */
  lemma OutsideTitle(fs: Files, staging: Path, root: Path, title: Title)
    requires title.Proper() && root < staging && |staging| == |root| + 1 && STEM <= staging[|root|]
    ensures root + title.place in fs <==> root + title.place in Without(fs, staging)
    ensures FreeOfLinks(fs, root, title.place, |title.place|) ==>
              FreeOfLinks(Without(fs, staging), root, title.place, |title.place|)
  {
    hide Without, FreeOfLinks;
    Apart(root, staging, title.place, []);
    assert root + title.place + [] == root + title.place;
    if FreeOfLinks(fs, root, title.place, |title.place|) {
      FreeWithout(fs, staging, root, title.place);
    }
  }

  /** `Paths`: whatever happens inside, its destructor sets the user path to the root and restores the compression
      setting. */
  method WithPaths(device: Device, root: Path, staging: Path, copy: File, title: Title, m: Manifest,
                   hashes: seq<bytes>, sha: bytes -> bytes)
    returns (r: Outcome<()>, ghost refusal: Option<Failure>)
    requires Tree(device.files) && |copy| <= MAX_INPUT as nat && title.Proper()
    requires root < staging && |staging| == |root| + 1 && STEM <= staging[|root|] && IsDir(device.files, root)
    requires IsDir(device.files, staging) && staging + ["user"] !in device.files
    requires m.Listed() && |hashes| == m.count && forall i: nat :: i < m.count ==> hashes[i] == RecordAt(m, i).hash
    modifies device
    ensures Tree(device.files)
    ensures Settles(r, refusal, TitleVerdict(old(device.files), root + title.place, root, title.place))
    ensures device.userPath == root && IsDir(device.files, root) && device.compress == old(device.compress)
    ensures r.Failed? ==> device.commits == old(device.commits)
    ensures Explained(r, Without(old(device.files), staging), root, title)
    ensures r.Failed? ==> Grown(Without(old(device.files), staging), Without(device.files, staging),
                                Parent(root + title.place))
    ensures r.Done? ==> device.commits == old(device.commits) + 1
    ensures r.Done? ==> Published(Without(old(device.files), staging), Without(device.files, staging),
                                  root + title.place, title, m, sha)
  {
    hide Tree, Without, HoldsContents, RecordAt, Published, Grown, TitleVerdict;
    var compression := device.compress;
    ghost var before := device.files;
    r, refusal := Commit(device, root, staging, copy, title, m, hashes, sha);
    RootStays(r, before, device.files, root, staging, title, m, sha);
    device.SetUserPath(root);
    device.compress := compression;
  }

  /** Whether it was published or not, the root is still there for the destructor. */
  lemma RootStays(r: Outcome<()>, a: Files, b: Files, root: Path, staging: Path, title: Title, m: Manifest,
                  sha: bytes -> bytes)
    requires title.Proper() && m.Listed() && root < staging && IsDir(a, root)
    requires r.Failed? ==> Grown(Without(a, staging), Without(b, staging), Parent(root + title.place))
    requires r.Done? ==> Published(Without(a, staging), Without(b, staging), root + title.place, title, m, sha)
    ensures IsDir(b, root)
  {
    hide HoldsContents;
    assert root in Without(a, staging) && Without(a, staging)[root] == Dir;
    assert root in Without(b, staging);
  }

  /** The checks of the copy: its lists, its contents, and what the emulator's own readers say about it. */
  method Examine(copy: File, sha: bytes -> bytes)
    returns (r: Outcome<(Manifest, seq<bytes>)>, ghost refusal: Option<Failure>)
    requires |copy| <= MAX_INPUT as nat
    ensures Settles(r, refusal, InputVerdict(copy, sha))
    ensures r.Done? ==> ReadManifest(copy) == Done(r.value.0) && r.value.0.Listed() && Complete(copy, r.value.0, sha)
    ensures r.Failed? ==> r.status != Busy && r.status != AlreadyInstalled
    ensures r.Done? ==> |r.value.1| == r.value.0.count
    ensures r.Done? ==> forall i: nat :: i < r.value.0.count ==> r.value.1[i] == RecordAt(r.value.0, i).hash
  {
    hide RecordAt, Complete, ReadManifest, FirstUndeclared;
    var asked;
    asked, refusal := Ask(InvalidFile);
    if asked.Failed? { return Failed(asked.status), refusal; }
    var m :- ReadManifest(copy);
    SectionsInOrder(m.header, |copy| as u64);
    var scanned, interrupted := ScanContents(copy, m, sha);
    if scanned.Failed? { return Failed(scanned.status), if interrupted then Some(scanned.status) else None; }
    asked, refusal := Ask(Unsupported);
    if asked.Failed? { return Failed(asked.status), refusal; }
    asked, refusal := Ask(InvalidFile);
    if asked.Failed? { return Failed(asked.status), refusal; }
    r := Done((m, scanned.value));
  }

  /** Inside `Temporary`: the input is copied, the copy examined, the title published. */
  method WithStaging(device: Device, root: Path, staging: Path, input: File, title: Title, sha: bytes -> bytes)
    returns (r: Outcome<()>, report: Report, ghost refusal: Option<Failure>, ghost paths: bool)
    requires Tree(device.files) && |input| <= MAX_INPUT as nat && title.Proper()
    requires root < staging && |staging| == |root| + 1 && STEM <= staging[|root|]
    requires IsDir(device.files, staging) && staging + ["input.cia"] !in device.files && IsDir(device.files, root)
    requires staging + ["user"] !in device.files
    modifies device
    ensures Settles(r, refusal, StagedVerdict(old(device.files), root, input, title, sha))
    ensures Tree(device.files) && device.compress == old(device.compress)
    ensures device.userPath == if paths then root else old(device.userPath)
    ensures r.Failed? ==> device.commits == old(device.commits)
    ensures Explained(r, Without(old(device.files), staging), root, title)
    ensures r.Failed? ==> Grown(Without(old(device.files), staging), Without(device.files, staging),
                                Parent(root + title.place))
    ensures r.Done? ==> paths && device.commits == old(device.commits) + 1
    ensures if paths then Accepted(input, report, sha) else report == NOTHING
    ensures r.Done? ==> Published(Without(old(device.files), staging), Without(device.files, staging),
                                  root + title.place, title, ReadManifest(input).value, sha)
  {
    hide Tree, Without, HoldsContents, RecordAt, Published, Grown, Complete, ReadManifest, InputVerdict, TitleVerdict;
    report, paths := NOTHING, false;
    ghost var before := device.files;
    r, refusal := CopyInput(device, staging, input);
    DirOutside(before, device.files, staging, root);
    GrownReflexive(Without(device.files, staging), Parent(root + title.place));
    if r.Failed? { return; }
    VerdictOutside(before, device.files, root, staging, title.place);
    assert (staging + ["user"])[|staging|] != (staging + ["input.cia"])[|staging|];
    var copy := device.files[staging + ["input.cia"]].data;
    var examined;
    examined, refusal := Examine(copy, sha);
    if examined.Failed? { return Failed(examined.status), report, refusal, paths; }
    var (m, hashes) := examined.value;
    SectionsInOrder(m.header, |copy| as u64);
    var version: u64 := *;
    report := Report(m.titleId, version, m.count as u64, m.sections.end - m.sections.content);
    paths := true;
    Reported(copy, m, report, sha);
    r, refusal := WithPaths(device, root, staging, copy, title, m, hashes, sha);
  }

  lemma Reported(input: File, m: Manifest, report: Report, sha: bytes -> bytes)
    requires ReadManifest(input) == Done(m) && m.Listed() && Complete(input, m, sha) && m.sections.end as nat <= |input|
    requires report.titleId == m.titleId && report.count as nat == m.count
    requires report.contentBytes == m.sections.end - m.sections.content
    ensures Accepted(input, report, sha)
  {
    hide ReadManifest, Complete, Total;
    ContentsTile(input, m, sha);
  }

  /** The input is a complete update, and the report tells its title and sizes. */
  ghost predicate Accepted(input: File, report: Report, sha: bytes -> bytes) {
    ReadManifest(input).Done? &&
    var m := ReadManifest(input).value;
    && m.Listed() && Complete(input, m, sha)
    && report.titleId == m.titleId && report.count as nat == m.count && report.contentBytes as nat == Total(m, m.count)
  }

  /** Where the title is published. */
  function Destination(request: Request, title: Title): (p: Path)
    requires request.documents.Some? && title.Proper()
    ensures p != []
  {
    ExpectedRoot(request.documents.value) + title.place
  }

  /** What a call leaves of the file system: the old one, with directories on the way to the title at most. */
  ghost predicate LeftAlone(a: Files, b: Files, request: Request, title: Title)
    requires title.Proper()
  {
    if request.documents.Some? then Grown(a, b, Parent(Destination(request, title))) else a == b
  }

  /** The file system with the title of the input published in it. */
  ghost predicate Delivered(a: Files, b: Files, request: Request, title: Title, sha: bytes -> bytes)
    requires title.Proper()
  {
    && request.documents.Some? && ReadManifest(request.input).Done?
    && Published(a, b, Destination(request, title), title, ReadManifest(request.input).value, sha)
  }

  /** `Temporary`: whatever happens inside, its destructor removes the staging directory. */
  method WithTemporary(device: Device, root: Path, request: Request, title: Title, sha: bytes -> bytes)
    returns (r: Outcome<()>, report: Report, ghost refusal: Option<Failure>, ghost paths: bool)
    requires Tree(device.files) && |request.input| <= MAX_INPUT as nat && title.Proper()
    requires request.documents.Some? && root == ExpectedRoot(request.documents.value)
    requires IsDir(device.files, root)
    modifies device
    ensures Settles(r, refusal, StagedVerdict(old(device.files), root, request.input, title, sha))
    ensures Tree(device.files) && device.compress == old(device.compress)
    ensures device.userPath == if paths then root else old(device.userPath)
    ensures Explained(r, old(device.files), root, title)
    ensures r.Failed? ==> device.commits == old(device.commits)
    ensures r.Failed? ==> LeftAlone(old(device.files), device.files, request, title)
    ensures r.Done? ==> device.commits == old(device.commits) + 1
    ensures r.Done? ==> Delivered(old(device.files), device.files, request, title, sha)
    ensures r.Done? ==> paths
    ensures if paths then Accepted(request.input, report, sha) else report == NOTHING
  {
    hide Tree, Without, HoldsContents, RecordAt, Published, Grown, Complete, ReadManifest, InputVerdict, TitleVerdict;
    report, paths := NOTHING, false;
    GrownReflexive(device.files, Parent(root + title.place));
    var made := device.MakeTemporary(root, STEM);
    if made.Failed? { return Failed(made.status), report, Some(made.status), paths; }
    var staging := made.value;
    NothingBelow(old(device.files), staging, staging + ["input.cia"]);
    NothingBelow(old(device.files), staging, staging + ["user"]);
    WithoutNew(old(device.files), staging);
    VerdictOutside(old(device.files), device.files, root, staging, title.place);
    r, report, refusal, paths := WithStaging(device, root, staging, request.input, title, sha);
    device.RemoveAll(staging);
  }

  lemma WithoutNew(fs: Files, p: Path)
    requires Tree(fs) && p !in fs
    ensures Without(fs[p := Dir], p) == fs == Without(fs, p)
  {
    hide Tree;
    NothingBelowAll(fs, p);
  }

  lemma GrownThenPublished(a: Files, b: Files, c: Files, near: Path, to: Path, title: Title, m: Manifest,
                           sha: bytes -> bytes)
    requires m.Listed() && to != [] && near <= Parent(to) && Grown(a, b, near) && Published(b, c, to, title, m, sha)
    ensures Published(a, c, to, title, m, sha)
  {
    hide HoldsContents, Without, Grown;
    GrownFurther(a, b, near, Parent(to));
    GrownTransitive(a, b, Without(c, to), Parent(to));
    GrownKeeps(a, b, near, to);
  }

  lemma GrownKeeps(a: Files, b: Files, goal: Path, p: Path)
    requires Grown(a, b, goal) && p !in b
    ensures p !in a
  {
  }

  /** Everything that is checked before the device is touched. */
  method Vet(device: Device, request: Request) returns (r: Outcome<Path>, ghost refusal: Option<Failure>)
    ensures Settles(r, refusal, RequestVerdict(device.files, request))
    ensures r.Done? ==> request.documents.Some? && r.value == ExpectedRoot(request.documents.value)
    ensures r.Done? ==> !request.busy && 0x2020 <= |request.input| <= MAX_INPUT as nat
    ensures r.Done? ==> Header(request.input[..0x2020], |request.input| as u64).Done?
    ensures request.busy <==> r == Failed(Busy)
    ensures r != Failed(AlreadyInstalled)
  {
    hide Header;
    refusal := None;
    var _ :- Require(!request.busy, Busy);
    var _ :- Require(request.named, InvalidFile);
    var _ :- Require(request.documents.Some?, WrongEnvironment);
    var root :- FindRoot(device, request, request.documents.value);
    var asked;
    asked, refusal := Ask(InstallFailed);
    if asked.Failed? { return Failed(asked.status), refusal; }
    var _ :- Require(request.acceptable, InvalidFile);
    var _ :- Require(0x2020 <= |request.input| <= MAX_INPUT as nat, InvalidFile);
    var header, broken := ReadChunk(request.input, 0, 0x2020);
    if header.Failed? { return Failed(header.status), Some(header.status); }
    assert header.value == request.input[..0x2020];
    var _ :- Header(header.value, |request.input| as u64);
    asked, refusal := Check();
    if asked.Failed? { return Failed(asked.status), refusal; }
    r := Done(root);
  }

  /** From the creation of the root on. */
  method InstallUnder(device: Device, root: Path, request: Request, title: Title, sha: bytes -> bytes)
    returns (r: Outcome<()>, report: Report, ghost refusal: Option<Failure>, ghost paths: bool)
    requires Tree(device.files) && |request.input| <= MAX_INPUT as nat && title.Proper()
    requires request.documents.Some? && root == ExpectedRoot(request.documents.value)
    modifies device
    ensures Settles(r, refusal, RootVerdict(old(device.files), root, request, title, sha))
    ensures Tree(device.files) && device.compress == old(device.compress)
    ensures device.userPath == if paths then root else old(device.userPath)
    ensures Explained(r, old(device.files), root, title)
    ensures r.Failed? ==> device.commits == old(device.commits)
    ensures r.Failed? ==> LeftAlone(old(device.files), device.files, request, title)
    ensures r.Done? ==> device.commits == old(device.commits) + 1
    ensures r.Done? ==> Delivered(old(device.files), device.files, request, title, sha)
    ensures r.Done? ==> paths
    ensures if paths then Accepted(request.input, report, sha) else report == NOTHING
  {
    hide Tree, Without, HoldsContents, RecordAt, Published, Grown, Complete, ReadManifest, Accepted, InputVerdict,
        TitleVerdict, CiaDevice.Open;
    report, paths := NOTHING, false;
    var size := |request.input|;
    ghost var refused;
    r, refused := device.CreateDirectories(root);
    refusal := if refused then Some(InstallFailed) else None;
    GrownFurther(old(device.files), device.files, root, Parent(Destination(request, title)));
    if r.Failed? { return; }
    VerdictBefore(old(device.files), device.files, root, title.place);
    r, refusal := Ask(InstallFailed);
    if r.Failed? { return; }
    if request.available <= size * 2 + SPARE as nat { return Failed(NoSpace), report, None, paths; }
    ghost var before := device.files;
    r, report, refusal, paths := WithTemporary(device, root, request, title, sha);
    var to := Destination(request, title);
    ExplainedBefore(r, old(device.files), before, root, title);
    if r.Done? {
      GrownThenPublished(old(device.files), before, device.files, root, to, title, ReadManifest(request.input).value,
                         sha);
    } else {
      GrownTransitive(old(device.files), before, device.files, Parent(to));
    }
  }

  lemma ExplainedBefore(r: Outcome<()>, a: Files, b: Files, root: Path, title: Title)
    requires title.Proper() && Grown(a, b, root) && Explained(r, b, root, title)
    ensures Explained(r, a, root, title)
  {
    if r.Done? {
      forall i: nat | i < |title.place| ensures SafeStep(a, root, title.place, i) {
        assert SafeStep(b, root, title.place, i);
      }
    }
  }

  /**
   One installation. It succeeds exactly if its rename happened; then the title is whole and every content hashes to
   its digest. Otherwise nothing is left but directories on the way to the title. The staging directory is gone either
   way, and once `Paths` existed the user path is the root and the compression setting is what it was.
   */
  method Install(device: Device, request: Request, title: Title, sha: bytes -> bytes)
    returns (r: Outcome<()>, report: Report, ghost refusal: Option<Failure>, ghost paths: bool)
    requires Tree(device.files) && title.Proper()
    modifies device
    ensures Settles(r, refusal, Verdict(old(device.files), request, title, sha))
    ensures Tree(device.files) && device.compress == old(device.compress)
    ensures paths ==> request.documents.Some?
    ensures device.userPath == if paths then ExpectedRoot(request.documents.value) else old(device.userPath)
    ensures r == Failed(Busy) <==> request.busy
    ensures request.documents.Some? ==> request.busy || Explained(r, old(device.files),
                                                                  ExpectedRoot(request.documents.value), title)
    ensures r.Failed? ==> device.commits == old(device.commits)
    ensures r.Failed? ==> LeftAlone(old(device.files), device.files, request, title)
    ensures r.Done? ==> device.commits == old(device.commits) + 1
    ensures r.Done? ==> Delivered(old(device.files), device.files, request, title, sha)
    ensures r.Done? ==> paths
    ensures if paths then Accepted(request.input, report, sha) else report == NOTHING
  {
    hide Tree, LeftAlone, Delivered, Accepted, RequestVerdict, RootVerdict;
    report, paths := NOTHING, false;
    NothingChanged(device.files, request, title);
    var vetted;
    vetted, refusal := Vet(device, request);
    if vetted.Failed? { return Failed(vetted.status), report, refusal, paths; }
    r, report, refusal, paths := InstallUnder(device, vetted.value, request, title, sha);
  }

  /** The exported entry point: a status for every outcome, and a result that is filled in only for a checked input. */
  method InstallUpdate(device: Device, hasResult: bool, request: Request, title: Title, sha: bytes -> bytes)
    returns (status: Status, report: Report, ghost refusal: Option<Failure>, ghost paths: bool)
    requires Tree(device.files) && title.Proper()
    modifies device
    ensures status == match refusal
                      case Some(refused) => refused
                      case None => if hasResult then Verdict(old(device.files), request, title, sha) else InvalidFile
    ensures status == Cancelled <==> refusal == Some(Cancelled)
    ensures Tree(device.files) && device.compress == old(device.compress)
    ensures status == Success <==> device.commits == old(device.commits) + 1
    ensures status != Success <==> device.commits == old(device.commits)
    ensures status != Success ==> LeftAlone(old(device.files), device.files, request, title)
    ensures status == Success ==> Delivered(old(device.files), device.files, request, title, sha)
    ensures status == Success ==> FreeOfLinks(old(device.files), ExpectedRoot(request.documents.value), title.place,
                                              |title.place|)
    ensures status == AlreadyInstalled && request.documents.Some? ==> Destination(request, title) in old(device.files)
    ensures status == Busy <==> hasResult && request.busy
    ensures paths ==> request.documents.Some?
    ensures device.userPath == if paths then ExpectedRoot(request.documents.value) else old(device.userPath)
    ensures status == Success ==> paths
    ensures if paths then Accepted(request.input, report, sha) else report == NOTHING
  {
    hide Tree, Delivered, LeftAlone, Accepted, RequestVerdict, RootVerdict;
    status, report, refusal, paths := InvalidFile, NOTHING, None, false;
    if !hasResult {
      NothingChanged(device.files, request, title);
      return;
    }
    var r;
    r, report, refusal, paths := Install(device, request, title, sha);
    status := if r.Done? then Success else r.status;
  }

  lemma NothingChanged(fs: Files, request: Request, title: Title)
    requires title.Proper()
    ensures LeftAlone(fs, fs, request, title)
  {
  }
}
