/** The walk that finds a package's files, and the digest taken over them. */
module PackageTree {
  import opened Wrappers
  import opened ByteStrings
  import opened Framing

  /** What a directory entry is: a file (or a link to one), a directory, a directory that cannot be
      read, or anything else. Entries come in whatever order the directory gives them. */
  datatype Node = File(data: Bytes) | Folder(entries: seq<Child>) | Sealed | Other

  datatype Child = Child(name: Bytes, node: Node)

  type Parts = seq<Bytes>
  type Found = (Parts, Bytes)

  predicate IsDirectory(node: Node) {
    node.Folder? || node.Sealed?
  }

  // ------------------------------------------------------------ what the walk is meant to find

  /** Every file at or under a place, under no skipped directory. */
  function FilesAt(at: Parts, node: Node, skip: set<Bytes>): seq<Found>
    decreases node, 1
  {
    match node
    case File(data) => [(at, data)]
    case Folder(entries) => FilesIn(at, entries, skip)
    case _ => []
  }

  function FilesIn(at: Parts, entries: seq<Child>, skip: set<Bytes>): seq<Found>
    decreases entries, 0
  {
    if entries == [] then []
    else
      (if IsDirectory(entries[0].node) && entries[0].name in skip then []
       else FilesAt(at + [entries[0].name], entries[0].node, skip))
      + FilesIn(at, entries[1..], skip)
  }

  /** Nothing unreadable outside the skipped directories. */
  predicate Readable(node: Node, skip: set<Bytes>)
    decreases node, 1
  {
    match node
    case Folder(entries) => ReadableIn(entries, skip)
    case Sealed => false
    case _ => true
  }

  predicate ReadableIn(entries: seq<Child>, skip: set<Bytes>)
    decreases entries, 0
  {
    entries == []
    || (((IsDirectory(entries[0].node) && entries[0].name in skip) || Readable(entries[0].node, skip))
        && ReadableIn(entries[1..], skip))
  }

  function Size(node: Node): (n: nat)
    ensures n > 0
    decreases node, 1
  {
    match node
    case Folder(entries) => 1 + SizeIn(entries)
    case _ => 1
  }

  function SizeIn(entries: seq<Child>): nat
    decreases entries, 0
  {
    if entries == [] then 0 else Size(entries[0].node) + SizeIn(entries[1..])
  }

  // ------------------------------------------------------------ the walk

  /** The directories still to be opened, and the three things they stand for. */
  type Pending = seq<(Parts, Node)>

  function PendingFiles(pending: Pending, skip: set<Bytes>): seq<Found> {
    if pending == [] then []
    else PendingFiles(pending[..|pending| - 1], skip)
         + FilesAt(pending[|pending| - 1].0, pending[|pending| - 1].1, skip)
  }

  predicate PendingReadable(pending: Pending, skip: set<Bytes>) {
    pending == [] || (PendingReadable(pending[..|pending| - 1], skip)
                      && Readable(pending[|pending| - 1].1, skip))
  }

  function PendingSize(pending: Pending): nat {
    if pending == [] then 0 else PendingSize(pending[..|pending| - 1]) + Size(pending[|pending| - 1].1)
  }

  lemma {:induction false} PendingBoth(a: Pending, b: Pending, skip: set<Bytes>)
    ensures PendingFiles(a + b, skip) == PendingFiles(a, skip) + PendingFiles(b, skip)
    ensures PendingReadable(a + b, skip) <==> PendingReadable(a, skip) && PendingReadable(b, skip)
    ensures PendingSize(a + b) == PendingSize(a) + PendingSize(b)
    decreases |b|
  {
    if b == [] {
      assert a + b == a;
    } else {
      assert (a + b)[..|a + b| - 1] == a + b[..|b| - 1];
      PendingBoth(a, b[..|b| - 1], skip);
    }
  }

  predicate Directories(pending: Pending) {
    forall k | 0 <= k < |pending| :: IsDirectory(pending[k].1)
  }

  lemma OnePending(at: Parts, node: Node, skip: set<Bytes>)
    ensures PendingFiles([(at, node)], skip) == FilesAt(at, node, skip)
    ensures PendingReadable([(at, node)], skip) <==> Readable(node, skip)
    ensures PendingSize([(at, node)]) == Size(node)
  {
    assert [(at, node)][..0] == [];
  }

  lemma PushedOne(pending: Pending, at: Parts, node: Node, skip: set<Bytes>)
    ensures PendingFiles(pending + [(at, node)], skip) == PendingFiles(pending, skip) + FilesAt(at, node, skip)
    ensures PendingReadable(pending + [(at, node)], skip) <==> PendingReadable(pending, skip) && Readable(node, skip)
    ensures PendingSize(pending + [(at, node)]) == PendingSize(pending) + Size(node)
  {
    PendingBoth(pending, [(at, node)], skip);
    OnePending(at, node, skip);
  }

  /** What was found, what the directories still to open hold and what is left to scan make up the
      whole, each file as often as it is in it. */
  ghost predicate Covers(files: seq<Found>, pending: Pending, rest: seq<Found>, all: seq<Found>, skip: set<Bytes>) {
    multiset(files) + multiset(PendingFiles(pending, skip)) + multiset(rest) == multiset(all)
  }

  lemma CoversOnceFound(files: seq<Found>, pending: Pending, one: Found, rest: seq<Found>, all: seq<Found>,
                        skip: set<Bytes>)
    requires Covers(files, pending, [one] + rest, all, skip)
    ensures Covers(files + [one], pending, rest, all, skip)
  {
    hide PendingFiles;
  }

  lemma CoversOncePushed(files: seq<Found>, pending: Pending, at: Parts, node: Node, rest: seq<Found>,
                         all: seq<Found>, skip: set<Bytes>)
    requires Covers(files, pending, FilesAt(at, node, skip) + rest, all, skip)
    ensures Covers(files, pending + [(at, node)], rest, all, skip)
  {
    PushedOne(pending, at, node, skip);
    hide PendingFiles, FilesAt;
  }

  /** A scanned directory gives way to what was found in it. */
  lemma CoversOnceScanned(files: seq<Found>, pending: Pending, here: seq<Found>, below: Pending,
                          scanned: seq<Found>, all: seq<Found>, skip: set<Bytes>)
    requires Covers(files, pending, scanned, all, skip) && Covers(here, below, [], scanned, skip)
    ensures Covers(files + here, pending + below, [], all, skip)
  {
    PendingBoth(pending, below, skip);
    hide PendingFiles;
    assert multiset(files + here) == multiset(files) + multiset(here);
  }

  lemma CoversPopped(files: seq<Found>, pending: Pending, at: Parts, node: Node, all: seq<Found>, skip: set<Bytes>)
    requires Covers(files, pending + [(at, node)], [], all, skip)
    ensures Covers(files, pending, FilesAt(at, node, skip), all, skip)
  {
    PushedOne(pending, at, node, skip);
    hide PendingFiles, FilesAt;
  }

  lemma CoversAtFirst(all: seq<Found>, skip: set<Bytes>)
    ensures Covers([], [], all, all, skip)
  {
  }

  lemma CoversAtLast(files: seq<Found>, all: seq<Found>, skip: set<Bytes>)
    requires Covers(files, [], [], all, skip)
    ensures multiset(files) == multiset(all)
  {
  }

  /** What one entry contributes. */
  lemma FirstChild(at: Parts, entries: seq<Child>, i: nat, skip: set<Bytes>)
    requires i < |entries|
    ensures var name, node, rest := entries[i].name, entries[i].node, FilesIn(at, entries[i + 1..], skip);
            FilesIn(at, entries[i..], skip)
            == if IsDirectory(node) then if name in skip then rest else FilesAt(at + [name], node, skip) + rest
               else if node.File? then [(at + [name], node.data)] + rest else rest
    ensures ReadableIn(entries[i..], skip)
            <==> (IsDirectory(entries[i].node) && entries[i].name !in skip ==> Readable(entries[i].node, skip))
                 && ReadableIn(entries[i + 1..], skip)
    ensures SizeIn(entries[i..]) == Size(entries[i].node) + SizeIn(entries[i + 1..])
  {
    assert entries[i..][0] == entries[i] && entries[i..][1..] == entries[i + 1..];
  }

  /** One directory's entries, sorted into files found there and directories still to open. */
  method ScanDirectory(at: Parts, entries: seq<Child>, skip: set<Bytes>)
    returns (files: seq<Found>, below: Pending)
    ensures Directories(below)
    ensures Covers(files, below, [], FilesIn(at, entries, skip), skip)
    ensures PendingReadable(below, skip) <==> ReadableIn(entries, skip)
    ensures PendingSize(below) <= SizeIn(entries)
  {
    hide Covers, PendingFiles, FilesIn, FilesAt, Size, Readable;
    files, below := [], [];
    ghost var all := FilesIn(at, entries, skip);
    CoversAtFirst(all, skip);
    assert entries[0..] == entries;
    for i := 0 to |entries|
      invariant Directories(below)
      invariant Covers(files, below, FilesIn(at, entries[i..], skip), all, skip)
      invariant PendingReadable(below, skip) && ReadableIn(entries[i..], skip) <==> ReadableIn(entries, skip)
      invariant PendingSize(below) + SizeIn(entries[i..]) <= SizeIn(entries)
    {
      var name, node := entries[i].name, entries[i].node;
      ghost var rest := FilesIn(at, entries[i + 1..], skip);
      FirstChild(at, entries, i, skip);
      if IsDirectory(node) {
        if name !in skip {
          CoversOncePushed(files, below, at + [name], node, rest, all, skip);
          PushedOne(below, at + [name], node, skip);
          below := below + [(at + [name], node)];
        }
      } else if node.File? {
        CoversOnceFound(files, below, (at + [name], node.data), rest, all, skip);
        files := files + [(at + [name], node.data)];
      }
    }
    NothingIn(at, entries[|entries|..], skip);
  }

  lemma NothingIn(at: Parts, entries: seq<Child>, skip: set<Bytes>)
    requires entries == []
    ensures FilesIn(at, entries, skip) == [] && ReadableIn(entries, skip) && SizeIn(entries) == 0
  {
  }

  /** A worklist of directories: one is taken off the end and scanned, and a directory that cannot be
      opened ends the walk. */
  method FilesUnder(root: Node, skip: set<Bytes>) returns (found: Option<seq<Found>>)
    requires IsDirectory(root)
    ensures found.Some? <==> Readable(root, skip)
    ensures found.Some? ==> multiset(found.value) == multiset(FilesAt([], root, skip))
  {
    hide Covers, PendingFiles, FilesIn, SizeIn, ReadableIn;
    var files: seq<Found> := [];
    var pending: Pending := [([], root)];
    ghost var all := FilesAt([], root, skip);
    CoversAtFirst(all, skip);
    assert all + [] == all;
    CoversOncePushed([], [], [], root, [], all, skip);
    OnePending([], root, skip);
    assert [] + [([], root)] == pending;
    while pending != []
      invariant Directories(pending)
      invariant Covers(files, pending, [], all, skip)
      invariant PendingReadable(pending, skip) <==> Readable(root, skip)
      decreases PendingSize(pending)
    {
      var last := |pending| - 1;
      var (at, directory) := pending[last];
      assert pending == pending[..last] + [(at, directory)];
      PushedOne(pending[..last], at, directory, skip);
      CoversPopped(files, pending[..last], at, directory, all, skip);
      pending := pending[..last];
      if directory.Sealed? { return None; }
      var here, below := ScanDirectory(at, directory.entries, skip);
      CoversOnceScanned(files, pending, here, below, FilesAt(at, directory, skip), all, skip);
      PendingBoth(pending, below, skip);
      files := files + here;
      pending := pending + below;
    }
    CoversAtLast(files, all, skip);
    return Some(files);
  }

  // ------------------------------------------------------------ the digest

  const SLASH: byte := 47

  /** __pycache__ */
  const EXCLUDED: Bytes := [95, 95, 112, 121, 99, 97, 99, 104, 101, 95, 95]

  lemma ExcludedIsTheCache()
    ensures |EXCLUDED| == |"__pycache__"|
    ensures forall i | 0 <= i < |EXCLUDED| :: EXCLUDED[i] == "__pycache__"[i] as int
  {
    var name := "__pycache__";
    assert name[0] == '_' && name[1] == '_' && name[2] == 'p' && name[3] == 'y' && name[4] == 'c' && name[5] == 'a'
           && name[6] == 'c' && name[7] == 'h' && name[8] == 'e' && name[9] == '_' && name[10] == '_';
  }

  function Posix(parts: Parts): Bytes {
    if parts == [] then []
    else if |parts| == 1 then parts[0]
    else parts[0] + [SLASH] + Posix(parts[1..])
  }

  /** Each kept file's path and the hash of its content. */
  function ItemsOf(files: seq<Found>, hash: Bytes -> Bytes): seq<(Bytes, Bytes)> {
    if files == [] then []
    else (if EXCLUDED in files[0].0 then [] else [(Posix(files[0].0), hash(files[0].1))])
         + ItemsOf(files[1..], hash)
  }

  /** The bytes the package digest is taken of. */
  function PackageStream(files: seq<Found>, hash: Bytes -> Bytes): Bytes {
    Chunks(Sorted(ItemsOf(files, hash)))
  }

  lemma LastOf<T>(all: seq<T>)
    ensures all[0..] == all && all[|all|..] == []
  {
  }

  method DigestPackage(files: seq<Found>, hash: Bytes -> Bytes) returns (stream: Bytes)
    ensures stream == PackageStream(files, hash)
  {
    var items: seq<(Bytes, Bytes)> := [];
    LastOf(files);
    for i := 0 to |files|
      invariant items + ItemsOf(files[i..], hash) == ItemsOf(files, hash)
    {
      assert files[i..][0] == files[i] && files[i..][1..] == files[i + 1..];
      if EXCLUDED !in files[i].0 {
        items := items + [(Posix(files[i].0), hash(files[i].1))];
      }
    }
    assert items == ItemsOf(files, hash);
    stream := Feed(Sorted(items));
  }

  /** The running digest's input, fed one file after another. */
  method Feed(sorted: seq<(Bytes, Bytes)>) returns (stream: Bytes)
    ensures stream == Chunks(sorted)
  {
    stream := [];
    LastOf(sorted);
    for i := 0 to |sorted|
      invariant stream + Chunks(sorted[i..]) == Chunks(sorted)
    {
      assert sorted[i..][0] == sorted[i] && sorted[i..][1..] == sorted[i + 1..];
      stream := stream + Chunk(sorted[i].0, sorted[i].1);
    }
  }

  // ------------------------------------------------------------ trees a file system can hold

  predicate NameOk(name: Bytes) {
    name != [] && SLASH !in name && NUL !in name
  }

  predicate PartsOk(parts: Parts) {
    parts != [] && forall i | 0 <= i < |parts| :: NameOk(parts[i])
  }

  /** Names hold no slash and no zero byte, and no directory holds one twice. */
  predicate WellNamed(node: Node)
    decreases node, 1
  {
    node.Folder? ==> WellNamedIn(node.entries)
  }

  predicate WellNamedIn(entries: seq<Child>)
    decreases entries, 0
  {
    entries == []
    || (&& NameOk(entries[0].name) && WellNamed(entries[0].node)
        && (forall k | 1 <= k < |entries| :: entries[k].name != entries[0].name)
        && WellNamedIn(entries[1..]))
  }

  /** Every file found under a place has a proper path there, through one of its entries. */
  predicate Under(at: Parts, file: Found) {
    at <= file.0 && (forall i | |at| <= i < |file.0| :: NameOk(file.0[i]))
  }

  predicate Through(at: Parts, entries: seq<Child>, file: Found) {
    && Under(at, file) && |file.0| > |at|
    && exists k :: 0 <= k < |entries| && entries[k].name == file.0[|at|]
  }

  lemma {:induction false} FoundUnder(at: Parts, node: Node, skip: set<Bytes>)
    requires WellNamed(node)
    ensures forall i | 0 <= i < |FilesAt(at, node, skip)| :: Under(at, FilesAt(at, node, skip)[i])
    decreases node, 1
  {
    if node.Folder? { FoundIn(at, node.entries, skip); }
  }

  lemma {:induction false} FoundIn(at: Parts, entries: seq<Child>, skip: set<Bytes>)
    requires WellNamedIn(entries)
    ensures forall i | 0 <= i < |FilesIn(at, entries, skip)| :: Through(at, entries, FilesIn(at, entries, skip)[i])
    decreases entries, 0
  {
    if entries != [] {
      var child := entries[0];
      var first := if IsDirectory(child.node) && child.name in skip then []
                   else FilesAt(at + [child.name], child.node, skip);
      var rest := FilesIn(at, entries[1..], skip);
      FoundUnder(at + [child.name], child.node, skip);
      FoundIn(at, entries[1..], skip);
      var all := first + rest;
      forall i | 0 <= i < |all| ensures Through(at, entries, all[i]) {
        if i < |first| {
          assert Under(at + [child.name], first[i]);
          assert first[i].0[|at|] == child.name && entries[0].name == child.name;
        } else {
          assert Through(at, entries[1..], rest[i - |first|]);
          var k :| 0 <= k < |entries[1..]| && entries[1..][k].name == all[i].0[|at|];
          assert entries[k + 1].name == all[i].0[|at|];
        }
      }
    }
  }

  predicate OncePath(files: seq<Found>) {
    forall i, j | 0 <= i < j < |files| :: files[i].0 != files[j].0
  }

  lemma {:induction false} PathsOnce(at: Parts, node: Node, skip: set<Bytes>)
    requires WellNamed(node)
    ensures OncePath(FilesAt(at, node, skip))
    decreases node, 1
  {
    if node.Folder? { PathsOnceIn(at, node.entries, skip); }
  }

  lemma {:induction false} PathsOnceIn(at: Parts, entries: seq<Child>, skip: set<Bytes>)
    requires WellNamedIn(entries)
    ensures OncePath(FilesIn(at, entries, skip))
    decreases entries, 0
  {
    if entries != [] {
      var child := entries[0];
      var first := if IsDirectory(child.node) && child.name in skip then []
                   else FilesAt(at + [child.name], child.node, skip);
      var rest := FilesIn(at, entries[1..], skip);
      PathsOnce(at + [child.name], child.node, skip);
      PathsOnceIn(at, entries[1..], skip);
      FoundUnder(at + [child.name], child.node, skip);
      FoundIn(at, entries[1..], skip);
      forall i, j | 0 <= i < |first| && 0 <= j < |rest| ensures first[i].0 != rest[j].0 {
        assert Under(at + [child.name], first[i]) && Through(at, entries[1..], rest[j]);
        var k :| 0 <= k < |entries[1..]| && entries[1..][k].name == rest[j].0[|at|];
        assert entries[k + 1].name != child.name;
        assert first[i].0[|at|] == child.name;
      }
    }
  }

  // ------------------------------------------------------------ any order of the same files

  lemma {:induction false} CountOnce(files: seq<Found>, x: Found)
    requires OncePath(files)
    ensures multiset(files)[x] <= 1
  {
    if files != [] {
      assert files == [files[0]] + files[1..];
      CountOnce(files[1..], x);
      forall k | 0 <= k < |files| - 1 ensures files[1..][k] != files[0] {
        assert files[0].0 != files[k + 1].0;
      }
    }
  }

  lemma CountTwice(files: seq<Found>, i: nat, j: nat)
    requires i < j < |files| && files[i] == files[j]
    ensures multiset(files)[files[i]] >= 2
  {
    assert files == files[..j] + [files[j]] + files[j + 1..];
    assert files[..j][i] == files[i];
  }

  lemma AnyOrderOnce(files: seq<Found>, all: seq<Found>)
    requires multiset(files) == multiset(all) && OncePath(all)
    ensures OncePath(files)
  {
    forall i, j | 0 <= i < j < |files| ensures files[i].0 != files[j].0 {
      assert files[i] in multiset(files) && files[j] in multiset(files);
      assert files[i] in all && files[j] in all;
      var a :| 0 <= a < |all| && all[a] == files[i];
      var b :| 0 <= b < |all| && all[b] == files[j];
      if files[i].0 == files[j].0 {
        assert a == b;
        CountTwice(files, i, j);
        CountOnce(all, files[i]);
      }
    }
  }

  lemma {:induction false} PosixIsPlain(parts: Parts)
    requires PartsOk(parts)
    ensures NUL !in Posix(parts)
    ensures |parts| == 1 ==> SLASH !in Posix(parts)
    ensures |parts| > 1 ==> SLASH in Posix(parts)
  {
    if |parts| > 1 {
      PosixIsPlain(parts[1..]);
      assert Posix(parts)[|parts[0]|] == SLASH;
    }
  }

  /** Different paths are written differently. */
  lemma {:induction false} PosixDiffers(a: Parts, b: Parts)
    requires PartsOk(a) && PartsOk(b) && Posix(a) == Posix(b)
    ensures a == b
  {
    PosixIsPlain(a);
    PosixIsPlain(b);
    if |a| > 1 {
      SplitsAlike(a[0], Posix(a[1..]), b[0], Posix(b[1..]), SLASH);
      PosixDiffers(a[1..], b[1..]);
      assert a == [a[0]] + a[1..] && b == [b[0]] + b[1..];
    }
  }

  /** A written path taken apart at its slashes (47). */
  function AtSlashes(path: Bytes): (parts: Parts)
    ensures parts != []
    decreases |path|
  {
    match Until(path, 47)
    case None => [path]
    case Some((front, rest)) => if |rest| < |path| then [front] + AtSlashes(rest) else [path]
  }

  lemma {:induction false} UntilNone(path: Bytes, mark: byte)
    requires mark !in path
    ensures Until(path, mark) == None
  {
    if path != [] { UntilNone(path[1..], mark); }
  }

  /** A path reads back as its names. */
  lemma {:induction false} PosixReads(parts: Parts)
    requires PartsOk(parts)
    ensures AtSlashes(Posix(parts)) == parts
    decreases |parts|
  {
    assert NameOk(parts[0]);
    if |parts| == 1 {
      UntilNone(parts[0], 47);
      assert parts == [parts[0]];
    } else {
      var rest := parts[1..];
      assert PartsOk(rest) by { assert forall i | 0 <= i < |rest| :: rest[i] == parts[i + 1]; }
      PosixReads(rest);
      hide Until, AtSlashes, NameOk;
      assert Posix(parts) == parts[0] + ([SLASH] + Posix(rest));
      NoSlash(parts[0]);
      UntilReads(parts[0], SLASH, Posix(rest));
      TakenApart(Posix(parts), parts[0], Posix(rest));
      assert parts == [parts[0]] + rest;
    }
  }

  lemma NoSlash(name: Bytes)
    requires NameOk(name)
    ensures SLASH !in name && SLASH == 47
  {
  }

  lemma TakenApart(path: Bytes, front: Bytes, rest: Bytes)
    requires Until(path, 47) == Some((front, rest)) && |rest| < |path|
    ensures AtSlashes(path) == [front] + AtSlashes(rest)
  {
    hide Until;
  }

  // ------------------------------------------------------------ what the walk finds

  /** The names lead from a node to a regular file. */
  predicate Leads(node: Node, parts: Parts, data: Bytes)
    decreases |parts|
  {
    if parts == [] then node == Node.File(data)
    else node.Folder? && exists k :: 0 <= k < |node.entries| && node.entries[k].name == parts[0]
                                     && Leads(node.entries[k].node, parts[1..], data)
  }

  /** A file in some entry's own part of the tree. */
  predicate Within(at: Parts, entry: Child, skip: set<Bytes>, file: Found) {
    !(IsDirectory(entry.node) && entry.name in skip) && file in FilesAt(at + [entry.name], entry.node, skip)
  }

  lemma {:induction false} InSomeEntry(at: Parts, entries: seq<Child>, skip: set<Bytes>, file: Found)
    ensures file in FilesIn(at, entries, skip) <==> exists k :: 0 <= k < |entries| && Within(at, entries[k], skip, file)
    decreases |entries|
  {
    if entries != [] {
      var rest := entries[1..];
      InSomeEntry(at, rest, skip, file);
      assert file in FilesIn(at, entries, skip) <==> Within(at, entries[0], skip, file) || file in FilesIn(at, rest, skip);
      hide Within, FilesIn;
      if k :| 0 <= k < |rest| && Within(at, rest[k], skip, file) { assert Within(at, entries[k + 1], skip, file); }
      if k :| 0 <= k < |entries| && Within(at, entries[k], skip, file) {
        if k > 0 { assert Within(at, rest[k - 1], skip, file); }
      }
    }
  }

  lemma {:induction false} WellNamedEach(entries: seq<Child>, k: nat)
    requires WellNamedIn(entries) && k < |entries|
    ensures NameOk(entries[k].name) && WellNamed(entries[k].node)
    decreases k
  {
    if k > 0 { WellNamedEach(entries[1..], k - 1); }
  }

  lemma WithinMeans(at: Parts, entry: Child, skip: set<Bytes>, parts: Parts, data: Bytes)
    requires WellNamed(entry.node)
    requires parts != [] && parts[0] == entry.name ==>
               ((at + [entry.name] + parts[1..], data) in FilesAt(at + [entry.name], entry.node, skip)
                <==> Leads(entry.node, parts[1..], data) && forall i | 0 <= i < |parts| - 2 :: parts[1..][i] !in skip)
    ensures Within(at, entry, skip, (at + parts, data))
            <==> && parts != [] && parts[0] == entry.name && Leads(entry.node, parts[1..], data)
                 && forall i | 0 <= i < |parts| - 1 :: parts[i] !in skip
  {
    var here := at + [entry.name];
    FoundUnder(here, entry.node, skip);
    if (at + parts, data) in FilesAt(here, entry.node, skip) {
      assert here <= at + parts;
      assert |parts| > 0 && (at + parts)[|at|] == here[|at|];
    }
    if parts != [] && parts[0] == entry.name {
      assert at + parts == here + parts[1..];
      if |parts| > 1 {
        assert forall i | 0 <= i < |parts| - 2 :: parts[1..][i] == parts[i + 1];
        assert (forall i | 0 <= i < |parts| - 1 :: parts[i] !in skip)
               <==> parts[0] !in skip && forall i | 0 <= i < |parts| - 2 :: parts[1..][i] !in skip by {
          assert forall i | 1 <= i < |parts| - 1 :: parts[i] == parts[1..][i - 1];
        }
      }
    }
  }

  /** The walk finds exactly the regular files: each by the names that lead to it, none behind a directory of a
      skipped name. */
  lemma {:induction false} FoundExactlyWhen(at: Parts, node: Node, skip: set<Bytes>, parts: Parts, data: Bytes)
    requires WellNamed(node)
    ensures (at + parts, data) in FilesAt(at, node, skip)
            <==> Leads(node, parts, data) && forall i | 0 <= i < |parts| - 1 :: parts[i] !in skip
    decreases node
  {
    match node
    case File(found) =>
      if parts != [] { assert (at + parts) != at by { assert |at + parts| > |at|; } }
      else { assert at + parts == at; }
    case Folder(entries) =>
      InSomeEntry(at, entries, skip, (at + parts, data));
      hide Within, FilesAt, FilesIn;
      forall k | 0 <= k < |entries|
        ensures Within(at, entries[k], skip, (at + parts, data))
                <==> && parts != [] && parts[0] == entries[k].name && Leads(entries[k].node, parts[1..], data)
                     && forall i | 0 <= i < |parts| - 1 :: parts[i] !in skip
      {
        WellNamedEach(entries, k);
        if parts != [] { FoundExactlyWhen(at + [entries[k].name], entries[k].node, skip, parts[1..], data); }
        WithinMeans(at, entries[k], skip, parts, data);
      }
      FolderHolds(at, entries, skip, (at + parts, data));
    case _ =>
  }

  lemma FolderHolds(at: Parts, entries: seq<Child>, skip: set<Bytes>, file: Found)
    ensures FilesAt(at, Folder(entries), skip) == FilesIn(at, entries, skip)
  {
  }

  // ------------------------------------------------------------ what the digest determines

  lemma {:induction false} ItemsAreOk(files: seq<Found>, hash: Bytes -> Bytes)
    requires forall i | 0 <= i < |files| :: PartsOk(files[i].0)
    requires forall data :: |hash(data)| == RAW_HASH
    ensures ChunksOk(ItemsOf(files, hash))
    ensures forall i | 0 <= i < |ItemsOf(files, hash)| ::
              exists k :: 0 <= k < |files| && ItemsOf(files, hash)[i] == (Posix(files[k].0), hash(files[k].1))
  {
    if files != [] {
      var rest, all := ItemsOf(files[1..], hash), ItemsOf(files, hash);
      var skipped := if EXCLUDED in files[0].0 then 0 else 1;
      ItemsAreOk(files[1..], hash);
      PosixIsPlain(files[0].0);
      forall i | 0 <= i < |all|
        ensures exists k :: 0 <= k < |files| && all[i] == (Posix(files[k].0), hash(files[k].1))
      {
        if i >= skipped {
          var k :| 0 <= k < |files[1..]| && rest[i - skipped] == (Posix(files[1..][k].0), hash(files[1..][k].1));
          assert all[i] == (Posix(files[k + 1].0), hash(files[k + 1].1));
        } else {
          assert all[i] == (Posix(files[0].0), hash(files[0].1));
        }
      }
    }
  }

  lemma {:induction false} ItemsOnce(files: seq<Found>, hash: Bytes -> Bytes)
    requires forall i | 0 <= i < |files| :: PartsOk(files[i].0)
    requires OncePath(files) && forall data :: |hash(data)| == RAW_HASH
    ensures Distinct(ItemsOf(files, hash))
  {
    if files != [] {
      var rest := ItemsOf(files[1..], hash);
      ItemsOnce(files[1..], hash);
      ItemsAreOk(files[1..], hash);
      forall j | 0 <= j < |rest| ensures rest[j].0 != Posix(files[0].0) {
        var k :| 0 <= k < |files[1..]| && rest[j] == (Posix(files[1..][k].0), hash(files[1..][k].1));
        assert files[0].0 != files[k + 1].0;
        if rest[j].0 == Posix(files[0].0) { PosixDiffers(files[k + 1].0, files[0].0); }
      }
    }
  }

  /** A walk of a tree a file system can hold, in whatever order it came. */
  predicate Walked(root: Node, files: seq<Found>) {
    && root.Folder? && WellNamed(root)
    && multiset(files) == multiset(FilesAt([], root, {EXCLUDED}))
  }

  lemma WalkedIsOk(root: Node, files: seq<Found>)
    requires Walked(root, files)
    ensures OncePath(files) && forall i | 0 <= i < |files| :: PartsOk(files[i].0)
  {
    var all := FilesAt([], root, {EXCLUDED});
    PathsOnce([], root, {EXCLUDED});
    AnyOrderOnce(files, all);
    FoundIn([], root.entries, {EXCLUDED});
    assert all == FilesIn([], root.entries, {EXCLUDED});
    forall i | 0 <= i < |files| ensures PartsOk(files[i].0) {
      assert files[i] in multiset(files);
      assert files[i] in all;
      var k :| 0 <= k < |all| && all[k] == files[i];
      assert Through([], root.entries, all[k]);
    }
  }

  lemma {:induction false} SortedChunksOk(items: seq<(Bytes, Bytes)>)
    requires Distinct(items) && ChunksOk(items)
    ensures ChunksOk(Sorted(items))
  {
    SortedIsASorting(items);
    var sorted := Sorted(items);
    forall i | 0 <= i < |sorted| ensures NUL !in sorted[i].0 && |sorted[i].1| == RAW_HASH {
      assert sorted[i] in items;
      var k :| 0 <= k < |items| && items[k] == sorted[i];
    }
  }

  /** The package digest's bytes are the same exactly for the same kept files: the same paths with the
      same content hashes, whatever order either tree was walked in. */
  lemma PackageDetermined(a: Node, filesA: seq<Found>, b: Node, filesB: seq<Found>, hash: Bytes -> Bytes)
    requires Walked(a, filesA) && Walked(b, filesB) && forall data :: |hash(data)| == RAW_HASH
    ensures PackageStream(filesA, hash) == PackageStream(filesB, hash)
            <==> Among(ItemsOf(filesA, hash), ItemsOf(filesB, hash))
                 && Among(ItemsOf(filesB, hash), ItemsOf(filesA, hash))
  {
    hide *;
    var itemsA, itemsB := ItemsOf(filesA, hash), ItemsOf(filesB, hash);
    StreamOfWalk(a, filesA, hash);
    StreamOfWalk(b, filesB, hash);
    if Chunks(Sorted(itemsA)) == Chunks(Sorted(itemsB)) {
      ChunksDetermine(Sorted(itemsA), Sorted(itemsB));
      AmongBoth(itemsA, Sorted(itemsA), itemsB);
      AmongBoth(itemsB, Sorted(itemsB), itemsA);
    }
    if Among(itemsA, itemsB) && Among(itemsB, itemsA) {
      AmongBoth(Sorted(itemsA), itemsA, itemsB);
      AmongBoth(Sorted(itemsA), itemsB, Sorted(itemsB));
      AmongBoth(Sorted(itemsB), itemsB, itemsA);
      AmongBoth(Sorted(itemsB), itemsA, Sorted(itemsA));
      OneSorting(Sorted(itemsA), Sorted(itemsB));
    }
  }

  lemma AmongBoth<T>(a: seq<(Bytes, T)>, b: seq<(Bytes, T)>, c: seq<(Bytes, T)>)
    requires Among(a, b) && Among(b, c)
    ensures Among(a, c)
  {
    forall i | 0 <= i < |a| ensures a[i] in c {
      assert a[i] in b;
      var k :| 0 <= k < |b| && b[k] == a[i];
    }
  }

  lemma StreamOfWalk(root: Node, files: seq<Found>, hash: Bytes -> Bytes)
    requires Walked(root, files) && forall data :: |hash(data)| == RAW_HASH
    ensures var items := ItemsOf(files, hash);
            && PackageStream(files, hash) == Chunks(Sorted(items))
            && Increasing(Sorted(items)) && ChunksOk(Sorted(items))
            && Among(items, Sorted(items)) && Among(Sorted(items), items)
  {
    var items := ItemsOf(files, hash);
    WalkedIsOk(root, files);
    hide Walked;
    ItemsAreOk(files, hash);
    ItemsOnce(files, hash);
    SortedIsASorting(items);
    SortedChunksOk(items);
  }

  /** Two walks of one tree give one digest. */
  lemma WalkOrderIsNothing(root: Node, one: seq<Found>, other: seq<Found>, hash: Bytes -> Bytes)
    requires Walked(root, one) && Walked(root, other) && forall data :: |hash(data)| == RAW_HASH
    ensures PackageStream(one, hash) == PackageStream(other, hash)
  {
    PackageDetermined(root, one, root, other, hash);
    forall i | 0 <= i < |one| ensures one[i] in other {
      assert one[i] in multiset(one);
    }
    forall i | 0 <= i < |other| ensures other[i] in one {
      assert other[i] in multiset(other);
    }
    ItemsAmong(one, other, hash);
    ItemsAmong(other, one, hash);
  }

  lemma {:induction false} ItemsHold(files: seq<Found>, hash: Bytes -> Bytes, file: Found)
    requires file in files && EXCLUDED !in file.0
    ensures (Posix(file.0), hash(file.1)) in ItemsOf(files, hash)
  {
    if file == files[0] {
      assert ItemsOf(files, hash)[0] == (Posix(file.0), hash(file.1));
    } else {
      assert files == [files[0]] + files[1..];
      ItemsHold(files[1..], hash, file);
    }
  }

  lemma {:induction false} ItemsAmong(one: seq<Found>, other: seq<Found>, hash: Bytes -> Bytes)
    requires forall i | 0 <= i < |one| :: one[i] in other
    ensures Among(ItemsOf(one, hash), ItemsOf(other, hash))
  {
    if one != [] {
      ItemsAmong(one[1..], other, hash);
      if EXCLUDED !in one[0].0 { ItemsHold(other, hash, one[0]); }
    }
  }

  /** With the excluded directories pruned, the filter after the walk drops exactly the files that
      carry the excluded name themselves. */
  lemma {:induction false} FilterDropsOnlyTheName(at: Parts, node: Node, i: nat)
    requires WellNamed(node) && EXCLUDED !in at && i < |FilesAt(at, node, {EXCLUDED})|
    ensures var parts := FilesAt(at, node, {EXCLUDED})[i].0;
            EXCLUDED in parts <==> |parts| > |at| && parts[|parts| - 1] == EXCLUDED
    decreases node, 1
  {
    if node.Folder? { FilterDropsIn(at, node.entries, i); }
  }

  lemma {:induction false} FilterDropsIn(at: Parts, entries: seq<Child>, i: nat)
    requires WellNamedIn(entries) && EXCLUDED !in at && i < |FilesIn(at, entries, {EXCLUDED})|
    ensures var parts := FilesIn(at, entries, {EXCLUDED})[i].0;
            EXCLUDED in parts <==> |parts| > |at| && parts[|parts| - 1] == EXCLUDED
    decreases entries, 0
  {
    if entries != [] {
      var child := entries[0];
      var first := if IsDirectory(child.node) && child.name == EXCLUDED then []
                   else FilesAt(at + [child.name], child.node, {EXCLUDED});
      if i >= |first| {
        FilterDropsIn(at, entries[1..], i - |first|);
      } else if child.node.File? {
        assert first[i].0 == at + [child.name];
      } else {
        FilterDropsOnlyTheName(at + [child.name], child.node, i);
        FoundUnder(at + [child.name], child.node, {EXCLUDED});
        FoundIn(at + [child.name], child.node.entries, {EXCLUDED});
        assert Through(at + [child.name], child.node.entries, first[i]);
      }
    }
  }

  /** So it happens: a regular file of the excluded name, which lies under no excluded directory, is
      found by the walk and dropped from the digest, whatever it holds. */
  lemma AFileOfTheNameIsDropped(data: Bytes, hash: Bytes -> Bytes)
    ensures var root := Folder([Child(EXCLUDED, Node.File(data))]);
            && WellNamed(root) && FilesAt([], root, {EXCLUDED}) == [([EXCLUDED], data)]
            && PackageStream(FilesAt([], root, {EXCLUDED}), hash) == PackageStream([], hash)
  {
    var entries := [Child(EXCLUDED, Node.File(data))];
    assert entries[1..] == [];
    assert [] + [EXCLUDED] == [EXCLUDED];
    assert FilesIn([], entries, {EXCLUDED}) == FilesAt([EXCLUDED], Node.File(data), {EXCLUDED}) + [];
    var files: seq<Found> := [([EXCLUDED], data)];
    assert files[1..] == [];
    assert ItemsOf(files, hash) == [] + ItemsOf([], hash);
  }
}
