/**
 What becomes of a request when nothing refuses: the status that the request, its input and the file system decide
 between them. The installation is proved to end with it.
 */
module CiaVerdict {
  import opened Bytes
  import opened CiaPolicy
  import opened CiaContents
  import opened CiaDevice
  import opened Options

  const STEM := ".cia-import-"
  const SPARE: u64 := 0x400_0000

  /** The caller's arguments and what the system says about them. */
  datatype Request = Request(busy: bool, named: bool, documents: Option<Path>, requested: Path, acceptable: bool,
                             input: File, available: nat)

  /** Where the emulator keeps a title below its user path, and where its contents lie below that. */
  datatype Title = Title(place: Path, contentAt: nat -> Path)
  {
    predicate Proper() {
      place != [] && place[|place| - 1] != "" && !(STEM <= place[0])
    }
  }

  // ----- paths -----

  predicate IsLink(fs: Files, p: Path) {
    p in fs && fs[p] == Link
  }

  /** Component `i` stays below the base and is not a link. */
  predicate SafeStep(fs: Files, base: Path, relative: Path, i: nat)
    requires i < |relative|
  {
    relative[i] != ".." && relative[i] != "/" && !IsLink(fs, base + relative[..i + 1])
  }

  predicate FreeOfLinks(fs: Files, base: Path, relative: Path, n: nat)
    requires n <= |relative|
  {
    forall i: nat :: i < n ==> SafeStep(fs, base, relative, i)
  }

  function ExpectedRoot(documents: Path): Path {
    documents + ["RoomExperiment-v1", "3DS"]
  }

  // ----- the verdict -----

  /** The caller asks for the one root there is, and no link stands on the way to it. */
  predicate RightPlace(fs: Files, request: Request) {
    && request.documents.Some?
    && request.requested == ExpectedRoot(request.documents.value)
    && FreeOfLinks(fs, request.documents.value, ["RoomExperiment-v1", "3DS"], 2)
  }

  /** A file of the right kind and size. */
  predicate Readable(request: Request) {
    request.acceptable && 0x2020 <= |request.input| <= MAX_INPUT as nat
  }

  /** More than twice the size of the input, and 64 MiB. */
  predicate Roomy(request: Request) {
    request.available > 2 * |request.input| + 64 * 1024 * 1024
  }

  /** On the request alone, before anything is written. */
  function RequestVerdict(fs: Files, request: Request): Status {
    if request.busy then Busy
    else if !request.named then InvalidFile
    else if !RightPlace(fs, request) then WrongEnvironment
    else if !Readable(request) then InvalidFile
    else
      match Header(request.input[..0x2020], |request.input| as u64)
      case Failed(status) => status
      case Done(_) => Success
  }

  /** On the input: its lists, and its contents against them. */
  ghost function InputVerdict(input: File, sha: bytes -> bytes): Status {
    match ReadManifest(input)
    case Failed(status) => status
    case Done(m) => if Complete(input, m, sha) then Success
                    else if FirstUndeclared(input, m, sha) then Unsupported else InvalidFile
  }

  /** On the place of the title: free of links, not taken, and within reach. */
  function TitleVerdict(fs: Files, to: Path, root: Path, place: Path): Status
    requires to == root + place && place != []
  {
    if !FreeOfLinks(fs, root, place, |place|) then WrongEnvironment
    else if to in fs then AlreadyInstalled
    else if !CiaDevice.Open(fs, Parent(to)) then InstallFailed
    else Success
  }

  ghost function StagedVerdict(fs: Files, root: Path, input: File, title: Title, sha: bytes -> bytes): Status
    requires title.Proper()
  {
    if InputVerdict(input, sha) != Success then InputVerdict(input, sha)
    else TitleVerdict(fs, root + title.place, root, title.place)
  }

  ghost function RootVerdict(fs: Files, root: Path, request: Request, title: Title, sha: bytes -> bytes): Status
    requires title.Proper()
  {
    if !CiaDevice.Open(fs, root) then InstallFailed
    else if !Roomy(request) then NoSpace
    else StagedVerdict(fs, root, request.input, title, sha)
  }

  ghost function Verdict(fs: Files, request: Request, title: Title, sha: bytes -> bytes): (status: Status)
    requires title.Proper()
    ensures status != Cancelled
  {
    if RequestVerdict(fs, request) != Success then RequestVerdict(fs, request)
    else RootVerdict(fs, ExpectedRoot(request.documents.value), request, title, sha)
  }

  /** What a call answers: the first refusal it met, or else the verdict. */
  ghost predicate Settles<T>(r: Outcome<T>, refusal: Option<Failure>, verdict: Status) {
    match refusal
    case Some(status) => r.Failed? && r.status == status
    case None => if verdict == Success then r.Done? else r.Failed? && r.status == verdict
  }

  // ----- what the verdict does not depend on -----

  /** The title is not below the staging directory: their names differ right below the root. */
  lemma Apart(root: Path, staging: Path, place: Path, q: Path)
    requires root < staging && |staging| == |root| + 1 && STEM <= staging[|root|]
    requires place != [] && !(STEM <= place[0])
    ensures !(staging <= root + place + q)
  {
    assert (root + place + q)[|root|] == place[0];
    DifferAt(staging, root + place + q, |root|);
  }

  lemma DifferAt(a: Path, b: Path, i: nat)
    requires i < |a| && i < |b| && a[i] != b[i]
    ensures !(a <= b)
  {
  }

  /** The staging directory does not matter for the place of the title. */
  lemma VerdictOutside(a: Files, b: Files, root: Path, staging: Path, place: Path)
    requires root < staging && |staging| == |root| + 1 && STEM <= staging[|root|]
    requires place != [] && !(STEM <= place[0]) && Without(a, staging) == Without(b, staging)
    ensures TitleVerdict(a, root + place, root, place) == TitleVerdict(b, root + place, root, place)
  {
    hide Without;
    forall p | !(staging <= p) ensures p in a <==> p in b
      ensures p in a ==> a[p] == b[p]
    {
      SameOutside(a, b, staging, p);
    }
    forall i: nat | i <= |place| ensures !(staging <= root + place[..i]) {
      if i == 0 {
        assert root + place[..i] == root;
      } else {
        Apart(root, staging, place[..i], []);
        assert root + place[..i] + [] == root + place[..i];
      }
    }
    SameOnTheWay(a, b, root, place);
  }

  lemma SameOutside(a: Files, b: Files, top: Path, p: Path)
    requires Without(a, top) == Without(b, top) && !(top <= p)
    ensures p in a <==> p in b
    ensures p in a ==> a[p] == b[p]
  {
    assert p in a <==> p in Without(a, top);
    assert p in b <==> p in Without(b, top);
    assert p in a ==> Without(a, top)[p] == a[p];
  }

  /** Only what stands on the way to the title matters. */
  lemma SameOnTheWay(a: Files, b: Files, root: Path, place: Path)
    requires place != []
    requires forall i: nat :: i <= |place| ==> (root + place[..i] in a <==> root + place[..i] in b)
    requires forall i: nat :: i <= |place| && root + place[..i] in a ==> a[root + place[..i]] == b[root + place[..i]]
    requires forall i: nat :: i <= |root| ==> (Passable(a, root, i) <==> Passable(b, root, i))
    ensures TitleVerdict(a, root + place, root, place) == TitleVerdict(b, root + place, root, place)
  {
    assert root + place[..|place|] == root + place;
    assert forall i: nat :: i < |place| ==> (SafeStep(a, root, place, i) <==> SafeStep(b, root, place, i));
    var near := Parent(root + place);
    forall j: nat | j <= |near| ensures Passable(a, near, j) <==> Passable(b, near, j) {
      if j <= |root| {
        assert near[..j] == root[..j];
        assert Passable(a, root, j) <==> Passable(b, root, j);
      } else {
        assert near[..j] == root + place[..j - |root|];
      }
    }
  }

  /** Directories that are made on the way to the root do not matter either. */
  lemma VerdictBefore(a: Files, b: Files, root: Path, place: Path)
    requires place != [] && Grown(a, b, root)
    ensures TitleVerdict(a, root + place, root, place) == TitleVerdict(b, root + place, root, place)
  {
    forall i: nat | i < |place| ensures SafeStep(a, root, place, i) <==> SafeStep(b, root, place, i) {
      assert IsLink(a, root + place[..i + 1]) <==> IsLink(b, root + place[..i + 1]);
    }
    var near := Parent(root + place);
    forall j: nat | j <= |near| ensures Passable(a, near, j) <==> Passable(b, near, j) {
      PassableBefore(a, b, root, near, j);
    }
  }

  // ----- paths that stay below their base -----

  /** Where a relative path leads from a base: `..` goes up, and an absolute component starts anew. */
  function Resolved(base: Path, relative: Path): (p: Path)
    decreases relative
  {
    if relative == [] then base
    else if relative[0] == "/" then Resolved([], relative[1..])
    else if relative[0] == ".." then Resolved(if base == [] then [] else Parent(base), relative[1..])
    else Resolved(base + [relative[0]], relative[1..])
  }

  /** What is free of links leads below its base, component by component. */
  lemma {:induction false} FreeStaysBelow(fs: Files, base: Path, relative: Path)
    requires FreeOfLinks(fs, base, relative, |relative|)
    ensures Resolved(base, relative) == base + relative
    decreases relative
  {
    assert forall i: nat :: i < |relative| ==> SafeStep(fs, base, relative, i);
    if relative == [] {
      assert base + relative == base;
    } else {
      var next, rest := base + [relative[0]], relative[1..];
      assert SafeStep(fs, base, relative, 0);
      forall i: nat | i < |rest| ensures SafeStep(fs, next, rest, i) {
        assert SafeStep(fs, base, relative, i + 1);
        assert base + relative[..i + 2] == next + rest[..i + 1];
      }
      FreeStaysBelow(fs, next, rest);
      assert next + rest == base + relative;
    }
  }
}
