/**
 The app store's version store (internal/appstore/manager.go and catalog.go): installing, activating
 and rolling back, where every step may fail and the process may stop at any of them.

 A directory is a map from relative paths to contents.  SHA-256 and number formatting are
 function-valued parameters.
 */
module AppStore {
  import opened Text

  type Dir = map<string, string>

  const MAX_FILE_BYTES: nat := 10 * 1024 * 1024
  const MAX_PAYLOAD_BYTES: nat := 25 * 1024 * 1024
  const BUNDLE := "bundle.json"

  datatype Hash = Hash(sha: string -> string, decimal: nat -> string)

  ghost predicate CollisionFree(h: Hash) {
    forall a: string, b: string :: h.sha(a) == h.sha(b) ==> a == b
  }

  datatype FileRecord = FileRecord(path: string, sha: string, size: nat)

  datatype Package = Package(payloadSha: string, payloadSize: nat, files: seq<FileRecord>)

  /** The files that count: everything but the bundle description. */
  function Payload(dir: Dir): Dir {
    map p | p in dir && p != BUNDLE :: dir[p]
  }

  function RecordOf(h: Hash, dir: Dir, path: string): FileRecord
    requires path in dir
  {
    FileRecord(path, h.sha(dir[path]), |dir[path]|)
  }

  predicate SortedByPath(files: seq<FileRecord>) {
    forall i, j :: 0 <= i < j < |files| ==> Less(files[i].path, files[j].path)
  }

  function TotalSize(files: seq<FileRecord>): nat {
    if files == [] then 0 else TotalSize(files[..|files| - 1]) + files[|files| - 1].size
  }

  /** What is fed to the payload hash, one file after another. */
  function HashInput(h: Hash, files: seq<FileRecord>): string {
    if files == [] then ""
    else
      var f := files[|files| - 1];
      HashInput(h, files[..|files| - 1]) + (f.path + "\n" + f.sha + "\n" + h.decimal(f.size) + "\n")
  }

  /** `files` are exactly the records of the payload. */
  ghost predicate Describes(h: Hash, dir: Dir, files: seq<FileRecord>) {
    && (forall p :: p in Payload(dir) ==> RecordOf(h, dir, p) in files)
    && (forall f :: f in files ==> f.path in Payload(dir) && f == RecordOf(h, dir, f.path))
  }

  ghost predicate IsPackage(h: Hash, dir: Dir, p: Package) {
    && Describes(h, dir, p.files) && SortedByPath(p.files)
    && p.payloadSize == TotalSize(p.files) && p.payloadSha == h.sha(HashInput(h, p.files))
  }

  /** Two directories with equal integrity data hold the same payload, byte for byte. */
  lemma SamePackageSamePayload(h: Hash, a: Dir, b: Dir, p: Package)
    requires CollisionFree(h) && IsPackage(h, a, p) && IsPackage(h, b, p)
    ensures Payload(a) == Payload(b)
  {
    hide SortedByPath, TotalSize, HashInput;
    forall path | path in Payload(a)
      ensures path in Payload(b) && a[path] == b[path]
    {
      assert RecordOf(h, a, path) in p.files;
    }
    forall path | path in Payload(b)
      ensures path in Payload(a)
    {
      assert RecordOf(h, b, path) in p.files;
    }
  }

  /** Integrity data says nothing beyond the payload. */
  lemma PackageOfPayload(h: Hash, a: Dir, b: Dir, p: Package)
    requires Payload(a) == Payload(b) && IsPackage(h, a, p)
    ensures IsPackage(h, b, p)
  {
    hide SortedByPath, TotalSize, HashInput;
    forall path | path in Payload(a)
      ensures RecordOf(h, b, path) == RecordOf(h, a, path)
    {
      assert Payload(a)[path] == a[path] && Payload(b)[path] == b[path];
    }
  }

  lemma {:induction false} SortedOnce(a: seq<FileRecord>, b: seq<FileRecord>)
    requires SortedByPath(a) && SortedByPath(b) && forall x :: x in a <==> x in b
    ensures a == b
    decreases |a|
  {
    hide Less;
    SameMembersEmpty(a, b);
    if a != [] {
      assert a[0] in b && b[0] in a;
      FirstIsLeast(a, b[0]);
      FirstIsLeast(b, a[0]);
      assert a[0] == b[0] by {
        if a[0] != b[0] {
          LessTransitive(a[0].path, b[0].path, a[0].path);
          LessIrreflexive(a[0].path);
        }
      }
      TailMembers(a);
      TailMembers(b);
      SortedOnce(a[1..], b[1..]);
    }
  }

  lemma SameMembersEmpty(a: seq<FileRecord>, b: seq<FileRecord>)
    requires forall x :: x in a <==> x in b
    ensures a == [] <==> b == []
  {
    if a != [] {
      assert a[0] in b;
    }
    if b != [] {
      assert b[0] in a;
    }
  }

  lemma FirstIsLeast(files: seq<FileRecord>, f: FileRecord)
    requires SortedByPath(files) && f in files
    ensures f == files[0] || Less(files[0].path, f.path)
  {
    hide Less;
  }

  lemma TailMembers(files: seq<FileRecord>)
    requires SortedByPath(files) && files != []
    ensures forall x :: x in files[1..] <==> x in files && x != files[0]
    ensures SortedByPath(files[1..])
  {
    hide Less;
    LessIrreflexive(files[0].path);
    assert files == [files[0]] + files[1..];
  }

  /** A directory has at most one package description. */
  lemma OnePackage(h: Hash, dir: Dir, p: Package, q: Package)
    requires IsPackage(h, dir, p) && IsPackage(h, dir, q)
    ensures p == q
  {
    hide SortedByPath, TotalSize, HashInput, Payload, RecordOf;
    SortedOnce(p.files, q.files);
  }

  // ----- The payload hash alone -----

  predicate EndsLine(s: string) {
    s == "" || s[|s| - 1] == '\n'
  }

  lemma NoBreakInLine(y: string, b: string)
    requires '\n' !in b
    ensures forall k :: |y| <= k < |y| + |b| ==> (y + (b + "\n"))[k] != '\n'
  {
    forall k | |y| <= k < |y| + |b|
      ensures (y + (b + "\n"))[k] != '\n'
    {
      assert (y + (b + "\n"))[k] == b[k - |y|];
    }
  }

  lemma LastLine(x: string, a: string, y: string, b: string)
    requires EndsLine(x) && EndsLine(y) && '\n' !in a && '\n' !in b
    requires x + (a + "\n") == y + (b + "\n")
    ensures x == y && a == b
  {
    var s, t := x + (a + "\n"), y + (b + "\n");
    NoBreakInLine(x, a);
    NoBreakInLine(y, b);
    assert x != "" ==> s[|x| - 1] == '\n';
    assert y != "" ==> t[|y| - 1] == '\n';
    assert |x| == |y|;
    assert s[..|x|] == x && t[..|y|] == y;
    assert s[|x|..][..|a|] == a && t[|y|..][..|b|] == b;
  }

  /** No path contains a line break, and neither digests nor numbers do; different numbers print differently. */
  ghost predicate OneLiners(h: Hash, files: seq<FileRecord>) {
    && (forall f :: f in files ==> '\n' !in f.path && '\n' !in f.sha)
    && (forall n :: '\n' !in h.decimal(n))
    && (forall m, n :: h.decimal(m) == h.decimal(n) ==> m == n)
  }

  lemma ThreeLines(x: string, a: string, b: string, c: string)
    ensures x + (a + "\n" + b + "\n" + c + "\n") == x + (a + "\n") + (b + "\n") + (c + "\n")
    ensures EndsLine(x + (a + "\n")) && EndsLine(x + (a + "\n") + (b + "\n"))
    ensures EndsLine(x + (a + "\n") + (b + "\n") + (c + "\n"))
  {
  }

  lemma HashInputStep(h: Hash, files: seq<FileRecord>)
    requires files != []
    ensures
      var f, before := files[|files| - 1], HashInput(h, files[..|files| - 1]);
      HashInput(h, files) == before + (f.path + "\n") + (f.sha + "\n") + (h.decimal(f.size) + "\n")
    ensures EndsLine(HashInput(h, files))
  {
    var f, before := files[|files| - 1], HashInput(h, files[..|files| - 1]);
    ThreeLines(before, f.path, f.sha, h.decimal(f.size));
    assert HashInput(h, files) == before + (f.path + "\n" + f.sha + "\n" + h.decimal(f.size) + "\n");
    hide HashInput, EndsLine;
  }

  lemma HashInputEndsLine(h: Hash, files: seq<FileRecord>)
    ensures EndsLine(HashInput(h, files))
  {
    if files != [] {
      HashInputStep(h, files);
    }
  }

  lemma OneMoreRecord(h: Hash, f: FileRecord, g: FileRecord, x: string, y: string)
    requires EndsLine(x) && EndsLine(y) && OneLiners(h, [f]) && OneLiners(h, [g])
    requires x + (f.path + "\n") + (f.sha + "\n") + (h.decimal(f.size) + "\n") ==
             y + (g.path + "\n") + (g.sha + "\n") + (h.decimal(g.size) + "\n")
    ensures x == y && f == g
  {
    assert f in [f] && g in [g];
    ThreeLines(x, f.path, f.sha, h.decimal(f.size));
    ThreeLines(y, g.path, g.sha, h.decimal(g.size));
    hide EndsLine;
    LastLine(x + (f.path + "\n") + (f.sha + "\n"), h.decimal(f.size),
             y + (g.path + "\n") + (g.sha + "\n"), h.decimal(g.size));
    LastLine(x + (f.path + "\n"), f.sha, y + (g.path + "\n"), g.sha);
    LastLine(x, f.path, y, g.path);
  }

  lemma {:induction false} HashInputOnce(h: Hash, a: seq<FileRecord>, b: seq<FileRecord>)
    requires OneLiners(h, a) && OneLiners(h, b) && HashInput(h, a) == HashInput(h, b)
    ensures a == b
    decreases |a|
  {
    if a != [] && b != [] {
      HashInputStep(h, a);
      HashInputStep(h, b);
      var before, before' := a[..|a| - 1], b[..|b| - 1];
      var f, g := a[|a| - 1], b[|b| - 1];
      HashInputEndsLine(h, before);
      HashInputEndsLine(h, before');
      assert f in a && g in b;
      hide HashInput, EndsLine;
      OneMoreRecord(h, f, g, HashInput(h, before), HashInput(h, before'));
      HashInputOnce(h, before, before');
      assert a == before + [f] && b == before' + [g];
    } else if a != [] {
      HashInputStep(h, a);
    } else if b != [] {
      HashInputStep(h, b);
    }
  }

  /** Where no path contains a line break, the payload hash alone fixes the whole package and its payload. */
  lemma PayloadHashIdentifies(h: Hash, a: Dir, b: Dir, p: Package, q: Package)
    requires CollisionFree(h) && IsPackage(h, a, p) && IsPackage(h, b, q) && p.payloadSha == q.payloadSha
    requires OneLiners(h, p.files) && OneLiners(h, q.files)
    ensures p == q && Payload(a) == Payload(b)
  {
    hide Describes, SortedByPath, TotalSize, HashInput, OneLiners, Payload;
    HashInputOnce(h, p.files, q.files);
    SamePackageSamePayload(h, a, b, p);
  }

  // ----- Inspecting a directory -----

  /** Insertion into a sorted list of records. */
  function Insert(f: FileRecord, files: seq<FileRecord>): (r: seq<FileRecord>)
    ensures forall x :: x in r <==> x == f || x in files
  {
    if files == [] then [f]
    else if Less(f.path, files[0].path) then [f] + files
    else [files[0]] + Insert(f, files[1..])
  }

  lemma {:induction false} InsertSorted(f: FileRecord, files: seq<FileRecord>)
    requires SortedByPath(files) && forall x :: x in files ==> x.path != f.path
    ensures SortedByPath(Insert(f, files))
  {
    hide Less;
    if files != [] {
      if Less(f.path, files[0].path) {
        forall j | 0 <= j < |files|
          ensures Less(f.path, files[j].path)
        {
          if j > 0 {
            LessTransitive(f.path, files[0].path, files[j].path);
          }
        }
      } else {
        LessTotal(f.path, files[0].path);
        assert files[0] in files;
        InsertSorted(f, files[1..]);
        var rest := Insert(f, files[1..]);
        forall j | 0 <= j < |rest|
          ensures Less(files[0].path, rest[j].path)
        {
          assert rest[j] in rest;
        }
      }
    }
  }

  /** `sort.Slice` by path. */
  function SortFiles(files: seq<FileRecord>): (r: seq<FileRecord>)
    ensures forall x :: x in r <==> x in files
  {
    if files == [] then [] else Insert(files[|files| - 1], SortFiles(files[..|files| - 1]))
  }

  ghost predicate DistinctPaths(files: seq<FileRecord>) {
    forall i, j :: 0 <= i < j < |files| ==> files[i].path != files[j].path
  }

  lemma {:induction false} SortFilesSorted(files: seq<FileRecord>)
    requires DistinctPaths(files)
    ensures SortedByPath(SortFiles(files))
  {
    if files != [] {
      var before, last := files[..|files| - 1], files[|files| - 1];
      SortFilesSorted(before);
      InsertSorted(last, SortFiles(before));
    }
  }

  /** Adds up the sizes and the hash input; gives up when the total passes the limit. */
  method Summarize(h: Hash, files: seq<FileRecord>) returns (package: Option<Package>)
    ensures package.Some? ==> package.value == Package(h.sha(HashInput(h, files)), TotalSize(files), files)
    ensures package.None? <==> TotalSize(files) > MAX_PAYLOAD_BYTES
  {
    var input, size := "", 0;
    assert files[..0] == [];
    for i := 0 to |files|
      invariant input == HashInput(h, files[..i]) && size == TotalSize(files[..i]) <= MAX_PAYLOAD_BYTES
    {
      var f := files[i];
      assert files[..i + 1][..i] == files[..i];
      input := input + (f.path + "\n" + f.sha + "\n" + h.decimal(f.size) + "\n");
      size := size + f.size;
      if size > MAX_PAYLOAD_BYTES {
        TotalGrows(files, i + 1);
        return None;
      }
    }
    assert files[..|files|] == files;
    return Some(Package(h.sha(input), size, files));
  }

  lemma {:induction false} TotalGrows(files: seq<FileRecord>, i: nat)
    requires i <= |files|
    ensures TotalSize(files[..i]) <= TotalSize(files)
    decreases |files|
  {
    if i == |files| {
      assert files[..i] == files;
    } else {
      var before := files[..|files| - 1];
      assert before[..i] == files[..i];
      TotalGrows(before, i);
    }
  }

  /** `walk` lists the directory's files once each, in any order. */
  ghost predicate Walks(walk: seq<string>, dir: Dir) {
    && (forall i, j :: 0 <= i < j < |walk| ==> walk[i] != walk[j])
    && (forall p :: p in walk <==> p in dir)
  }

  ghost predicate Inspectable(dir: Dir) {
    Payload(dir) != map[] && forall p :: p in Payload(dir) ==> |dir[p]| <= MAX_FILE_BYTES
  }

  /** The records of the paths in `done`, bundle description aside. */
  ghost predicate Collected(h: Hash, dir: Dir, done: seq<string>, files: seq<FileRecord>) {
    && DistinctPaths(files)
    && (forall f :: f in files ==> f.path in done && f.path in Payload(dir) && f == RecordOf(h, dir, f.path))
    && (forall p :: p in done && p in Payload(dir) ==> RecordOf(h, dir, p) in files && |dir[p]| <= MAX_FILE_BYTES)
  }

  lemma CollectedGrows(h: Hash, dir: Dir, done: seq<string>, path: string, files: seq<FileRecord>)
    requires Collected(h, dir, done, files) && path !in done && path in dir
    ensures path == BUNDLE ==> Collected(h, dir, done + [path], files)
    ensures path != BUNDLE && |dir[path]| <= MAX_FILE_BYTES ==>
              Collected(h, dir, done + [path], files + [RecordOf(h, dir, path)])
  {
  }

  method Collect(h: Hash, dir: Dir, walk: seq<string>) returns (files: Option<seq<FileRecord>>)
    requires Walks(walk, dir)
    ensures files.Some? ==> Collected(h, dir, walk, files.value)
    ensures files.None? ==> exists p :: p in Payload(dir) && |dir[p]| > MAX_FILE_BYTES
  {
    var records: seq<FileRecord> := [];
    assert walk[..0] == [];
    for i := 0 to |walk|
      invariant Collected(h, dir, walk[..i], records)
    {
      var path := walk[i];
      assert path in dir && path !in walk[..i] && walk[..i + 1] == walk[..i] + [path];
      CollectedGrows(h, dir, walk[..i], path, records);
      hide Collected, RecordOf;
      if path != BUNDLE {
        if |dir[path]| > MAX_FILE_BYTES {
          assert path in Payload(dir);
          return None;
        }
        records := records + [RecordOf(h, dir, path)];
      }
    }
    assert walk[..|walk|] == walk;
    return Some(records);
  }

  lemma CollectedAll(h: Hash, dir: Dir, walk: seq<string>, files: seq<FileRecord>, sorted: seq<FileRecord>)
    requires Walks(walk, dir) && Collected(h, dir, walk, files) && forall x :: x in sorted <==> x in files
    ensures Describes(h, dir, sorted) && forall p :: p in Payload(dir) ==> |dir[p]| <= MAX_FILE_BYTES
    ensures sorted == [] <==> Payload(dir) == map[]
  {
    if sorted != [] {
      assert sorted[0] in files;
      assert sorted[0].path in Payload(dir);
    }
  }

  method InspectPayload(h: Hash, dir: Dir, walk: seq<string>) returns (package: Option<Package>)
    requires Walks(walk, dir)
    ensures package.Some? ==>
              Inspectable(dir) && IsPackage(h, dir, package.value) && package.value.payloadSize <= MAX_PAYLOAD_BYTES
    ensures forall p :: IsPackage(h, dir, p) ==>
              (package == Some(p) <==> Inspectable(dir) && p.payloadSize <= MAX_PAYLOAD_BYTES)
  {
    hide Walks, Collected, Describes, SortedByPath, TotalSize, HashInput, Payload, SortFiles;
    var files := Collect(h, dir, walk);
    if files.None? {
      return None;
    }
    var sorted := SortFiles(files.value);
    CollectedDistinct(h, dir, walk, files.value);
    SortFilesSorted(files.value);
    CollectedAll(h, dir, walk, files.value, sorted);
    if |sorted| == 0 {
      return None;
    }
    package := Summarize(h, sorted);
    ghost var all := Package(h.sha(HashInput(h, sorted)), TotalSize(sorted), sorted);
    assert IsPackage(h, dir, all);
    forall p | IsPackage(h, dir, p)
      ensures p == all
    {
      OnePackage(h, dir, p, all);
    }
  }

  lemma InspectableOfPayload(a: Dir, b: Dir)
    requires Payload(a) == Payload(b) && Inspectable(a)
    ensures Inspectable(b)
  {
    forall p | p in Payload(b)
      ensures |b[p]| <= MAX_FILE_BYTES
    {
      assert Payload(a)[p] == a[p] && Payload(b)[p] == b[p];
    }
  }

  lemma CollectedDistinct(h: Hash, dir: Dir, walk: seq<string>, files: seq<FileRecord>)
    requires Collected(h, dir, walk, files)
    ensures DistinctPaths(files)
  {
  }

  // ----- The version store -----

  type Version = (string, string)

  datatype Installed = Installed(current: string, previous: string, updatedAt: int)

  const NOT_INSTALLED := Installed("", "", 0)

  /** The version to fall back to once `version` is installed. */
  function PreviousAfter(state: map<string, Installed>, id: string, version: string): string {
    var was := if id in state then state[id] else NOT_INSTALLED;
    if was.current != "" && was.current != version then was.current else was.previous
  }

  /** How an atomic step ends. */
  datatype Ending = Done | Failed | Crashed(applied: bool)

  predicate Applied(e: Ending) {
    e == Done || e == Crashed(true)
  }

  /** How a copy ends; otherwise than `Copied` it may leave anything, or nothing, at the target. */
  datatype Copying = Copied | CopyFailed(left: Option<Dir>) | CopyCrashed(left: Option<Dir>)

  /** How removing a directory ends; short of `Removed`, anything may be left of it. */
  datatype Removal = Removed | RemovalFailed(left: Option<Dir>) | RemovalCrashed(left: Option<Dir>)

  /** What is left of a directory; nothing comes of removing one that is not there. */
  function LeftOf(dir: Option<Dir>, r: Removal): Option<Dir> {
    if dir.None? then None
    else
      match r
      case Removed => None
      case RemovalFailed(left) => left
      case RemovalCrashed(left) => left
  }

  datatype Activation = Activation(
    stage: Ending,   // make and fill the incoming directory
    clear: Removal,  // remove a left-over previous directory; failure is ignored
    aside: Ending,   // rename active to previous
    swap: Ending,    // rename incoming to active
    restore: Ending, // after a failed swap, rename previous back; failure is ignored
    tidy: Removal)   // remove previous

  /** Everything an activation does goes through. */
  predicate Smooth(a: Activation) {
    a.stage == Done && a.clear == Removed && a.aside == Done && a.swap == Done && a.tidy == Removed
  }

  function Entry(dirs: map<string, Dir>, id: string): Option<Dir> {
    if id in dirs then Some(dirs[id]) else None
  }

  function WithEntry(dirs: map<string, Dir>, id: string, dir: Option<Dir>): map<string, Dir> {
    if dir.None? then dirs - {id} else dirs[id := dir.value]
  }

  lemma EntryLaws(dirs: map<string, Dir>, id: string, x: Option<Dir>, y: Option<Dir>)
    ensures Entry(WithEntry(dirs, id, x), id) == x
    ensures WithEntry(WithEntry(dirs, id, x), id, y) == WithEntry(dirs, id, y)
    ensures WithEntry(dirs, id, Entry(dirs, id)) == dirs
    ensures SameElsewhere(dirs, WithEntry(dirs, id, x), id)
  {
  }

  /** The active directory cannot be moved aside: a directory with something in it is in the way. */
  predicate InTheWay(was: Option<Dir>, left: Option<Dir>) {
    was.Some? && left.Some? && left.value != map[]
  }

  datatype Status = Success | Error | Stopped

  /** One app's active and previous directories, part-way through an activation. */
  datatype Halfway = Halfway(active: Option<Dir>, aside: Option<Dir>, status: Status)

  /** After clearing a left-over directory and renaming the active one out of the way. */
  function Moved(a: Activation, was: Option<Dir>, old': Option<Dir>): Halfway {
    var left := LeftOf(old', a.clear);
    if a.clear.RemovalCrashed? then Halfway(was, left, Stopped)
    else if was.None? then Halfway(None, left, Success)
    else if InTheWay(was, left) || a.aside == Failed then Halfway(was, left, Error)
    else if !Applied(a.aside) then Halfway(was, left, Stopped)
    else Halfway(None, was, if a.aside == Done then Success else Stopped)
  }

  /** After renaming the incoming directory into place, or else the one aside back. */
  function Swapped(a: Activation, aside: Option<Dir>, source: Dir): Halfway {
    match a.swap
    case Done =>
      var status := if a.tidy == Removed then Success else if a.tidy.RemovalFailed? then Error else Stopped;
      Halfway(Some(source), LeftOf(aside, a.tidy), status)
    case Crashed(applied) => Halfway(if applied then Some(source) else None, aside, Stopped)
    case Failed =>
      var status := if a.restore.Crashed? then Stopped else Error;
      if Applied(a.restore) then Halfway(aside, None, status) else Halfway(None, aside, status)
  }

  /** An activation that got as far as the renames. */
  lemma MovedThenSwapped(a: Activation, was: Option<Dir>, old': Option<Dir>, source: Dir)
    requires a.stage == Done
    ensures
      var first := Moved(a, was, old');
      var last := if first.status == Success then Swapped(a, first.aside, source) else first;
      && last.active == ActiveAfter(a, was, old', source)
      && (last.status == Success ==> last.active == Some(source) && last.aside == None)
      && (Smooth(a) ==> last.status == Success)
      && (first.status == Success ==> first.active == None)
  {
  }

  /**
   The active directory after an activation, however it ends.  `was` is the active directory before,
   `old'` a previous directory left over from earlier.
   */
  function ActiveAfter(a: Activation, was: Option<Dir>, old': Option<Dir>, source: Dir): Option<Dir> {
    var left := LeftOf(old', a.clear);
    if a.stage != Done || a.clear.RemovalCrashed? || InTheWay(was, left) then was
    else if was.Some? && a.aside != Done then if Applied(a.aside) then None else was
    else
      match a.swap
      case Done => Some(source)
      case Crashed(applied) => if applied then Some(source) else None
      case Failed =>
        // What is moved back is what was moved aside, or else what is left from earlier.
        var aside := if was.Some? then was else left;
        if Applied(a.restore) then aside else None
  }

  /**
   The activation leaves neither what was active nor what was to be: it stopped between the two
   renames, could not put the old directory back, or put back one that was not active.
   */
  predicate Torn(a: Activation, was: Option<Dir>, old': Option<Dir>, source: Dir) {
    var left := LeftOf(old', a.clear);
    && a.stage == Done && !a.clear.RemovalCrashed? && !InTheWay(was, left)
    && if was.Some? then
         || a.aside == Crashed(true)
         || (a.aside == Done && (a.swap == Crashed(false) || (a.swap == Failed && !Applied(a.restore))))
       else a.swap == Failed && Applied(a.restore) && left.Some? && left.value != source
  }

  /** Activation is atomic exactly when it is not torn. */
  lemma AtomicUnlessTorn(a: Activation, was: Option<Dir>, old': Option<Dir>, source: Dir)
    ensures
      var after := ActiveAfter(a, was, old', source);
      after == was || after == Some(source) <==> !Torn(a, was, old', source)
  {
  }

  /** Without a crash, and if putting back works, only a previous directory that would not go away tears it. */
  lemma TornWithoutCrash(a: Activation, was: Option<Dir>, old': Option<Dir>, source: Dir)
    requires !a.stage.Crashed? && !a.clear.RemovalCrashed? && !a.aside.Crashed? && !a.swap.Crashed? && a.restore == Done
    ensures Torn(a, was, old', source) ==> was.None? && old'.Some? && a.clear.RemovalFailed? && a.swap == Failed
  {
  }

  /** A left-over directory that cannot be removed may come back as the active one, whatever is left of it. */
  lemma FailedClearActivatesPart(a: Activation, old': Dir, source: Dir)
    requires a.stage == Done && a.clear.RemovalFailed? && a.swap == Failed && a.restore == Done
    ensures ActiveAfter(a, None, Some(old'), source) == a.clear.left
  {
  }

  /** Otherwise an activation leaves what was active, what was to be, or nothing. */
  lemma OldNewOrNothing(a: Activation, was: Option<Dir>, old': Option<Dir>, source: Dir)
    requires !a.clear.RemovalFailed?
    ensures ActiveAfter(a, was, old', source) in {was, Some(source), None}
  {
  }

  /** Each of these directories is a whole stored version of its app. */
  ghost predicate AllStored(dirs: map<string, Dir>, versions: map<Version, Dir>) {
    forall id :: id in dirs ==> exists v :: (id, v) in versions && versions[(id, v)] == dirs[id]
  }

  lemma StoredStays(dirs: map<string, Dir>, versions: map<Version, Dir>, versions': map<Version, Dir>)
    requires AllStored(dirs, versions) && Extends(versions, versions')
    ensures AllStored(dirs, versions')
  {
    forall id | id in dirs
      ensures exists v :: (id, v) in versions' && versions'[(id, v)] == dirs[id]
    {
      var v :| (id, v) in versions && versions[(id, v)] == dirs[id];
      assert (id, v) in versions' && versions'[(id, v)] == dirs[id];
    }
  }

  lemma ActivatedIsStored(dirs: map<string, Dir>, versions: map<Version, Dir>, id: string, version: string,
                          a: Activation, old': Option<Dir>)
    requires AllStored(dirs, versions) && (id, version) in versions && !a.clear.RemovalFailed?
    ensures AllStored(WithEntry(dirs, id, ActiveAfter(a, Entry(dirs, id), old', versions[(id, version)])), versions)
  {
    OldNewOrNothing(a, Entry(dirs, id), old', versions[(id, version)]);
    hide ActiveAfter;
  }


  datatype Bundle = Bundle(id: string, version: string, package: Package)

  type Verified = set<(Version, Dir)>

  /** A version the state file may name: its directory holds a payload that passed the integrity check. */
  ghost predicate StoredIn(versions: map<Version, Dir>, verified: Verified, v: Version) {
    v in versions && (v, Payload(versions[v])) in verified
  }

  /** The current and previous versions differ, and each is stored. */
  ghost predicate RecordOk(versions: map<Version, Dir>, verified: Verified,
                     id: string, r: Installed) {
    && r.current != "" && StoredIn(versions, verified, (id, r.current))
    && r.current != r.previous && (r.previous != "" ==> StoredIn(versions, verified, (id, r.previous)))
  }

  ghost predicate StateOk(state: map<string, Installed>, versions: map<Version, Dir>, verified: Verified) {
    forall id :: id in state ==> RecordOk(versions, verified, id, state[id])
  }

  lemma StateKeepsOk(state: map<string, Installed>, versions: map<Version, Dir>, verified: Verified,
                     id: string, r: Installed)
    requires StateOk(state, versions, verified) && RecordOk(versions, verified, id, r)
    ensures StateOk(state[id := r], versions, verified)
  {
    hide RecordOk;
  }

  lemma StoreGrowsOk(state: map<string, Installed>, versions: map<Version, Dir>, verified: Verified,
                     versions': map<Version, Dir>, verified': Verified)
    requires StateOk(state, versions, verified) && Extends(versions, versions') && verified <= verified'
    ensures StateOk(state, versions', verified')
  {
    hide Payload;
  }

  lemma InstalledIsOk(state: map<string, Installed>, versions: map<Version, Dir>, verified: Verified,
                      id: string, version: string, at: int)
    requires StateOk(state, versions, verified) && version != "" && StoredIn(versions, verified, (id, version))
    ensures RecordOk(versions, verified, id, Installed(version, PreviousAfter(state, id, version), at))
  {
    hide StoredIn;
  }

  lemma SwappedIsOk(versions: map<Version, Dir>, verified: Verified, id: string, r: Installed, at: int)
    requires RecordOk(versions, verified, id, r) && r.previous != ""
    ensures RecordOk(versions, verified, id, Installed(r.previous, r.current, at))
  {
    hide StoredIn;
  }

  lemma CurrentIsNamed(versions: map<Version, Dir>, verified: Verified, id: string, r: Installed)
    requires RecordOk(versions, verified, id, r)
    ensures r.current != ""
  {
  }

  lemma StateHasOk(state: map<string, Installed>, versions: map<Version, Dir>, verified: Verified, id: string)
    requires StateOk(state, versions, verified) && id in state
    ensures RecordOk(versions, verified, id, state[id])
  {
  }

  lemma Unchanged<T(!new)>(dirs: map<string, T>, id: string)
    ensures SameElsewhere(dirs, dirs, id)
  {
  }

  class Manager {
    /** The state file. */
    var state: map<string, Installed>
    var versions: map<Version, Dir>
    /** The installed-apps directory: active apps, and those set aside. */
    var active: map<string, Dir>
    var aside: map<string, Dir>
    /** Payloads that passed the integrity check, by id and version. */
    ghost var verified: Verified

    ghost predicate Stored(v: Version)
      reads this
    {
      StoredIn(versions, verified, v)
    }

    /** Every active directory is a whole stored version. */
    ghost predicate ActiveStored()
      reads this
    {
      AllStored(active, versions)
    }

    /** The active directories after activating a stored version, if it came to that. */
    ghost predicate Activated(before: map<string, Dir>, beforeAside: map<string, Dir>, id: string, version: string,
                              a: Activation)
      reads this
    {
      active == before
      || ((id, version) in versions
          && var after := ActiveAfter(a, Entry(before, id), Entry(beforeAside, id), versions[(id, version)]);
          active == WithEntry(before, id, after))
    }

    ghost predicate Valid()
      reads this
    {
      StateOk(state, versions, verified)
    }

    /** The active directory is the recorded current version. */
    ghost predicate ActiveIsCurrent(id: string)
      reads this
    {
      && id in state && (id, state[id].current) in versions
      && id in active && active[id] == versions[(id, state[id].current)]
    }

    constructor ()
      ensures Valid() && ActiveStored() && state == map[] && versions == map[] && active == map[]
    {
      state, versions, active, aside, verified := map[], map[], map[], map[], {};
    }

    /** Clears a left-over directory and renames the active one out of the way; success even if there was none. */
    method MoveAside(id: string, a: Activation) returns (status: Status)
      modifies this`active, this`aside
      ensures
        var moved := Moved(a, Entry(old(active), id), Entry(old(aside), id));
        && active == WithEntry(old(active), id, moved.active) && aside == WithEntry(old(aside), id, moved.aside)
        && status == moved.status
    {
      var left := LeftOf(Entry(aside, id), a.clear);
      aside := WithEntry(aside, id, left);
      if a.clear.RemovalCrashed? {
        return Stopped;
      }
      if id !in active {
        return Success;
      }
      // Renaming onto a directory with something in it fails.
      if InTheWay(Some(active[id]), left) || a.aside == Failed {
        return Error;
      }
      if Applied(a.aside) {
        aside, active := aside[id := active[id]], active - {id};
      }
      status := if a.aside == Done then Success else Stopped;
    }

    /** Renames the incoming directory into place, and the one aside back on failure. */
    method SwapIn(id: string, source: Dir, a: Activation) returns (status: Status)
      requires id !in active
      modifies this`active, this`aside
      ensures
        var swapped := Swapped(a, Entry(old(aside), id), source);
        && active == WithEntry(old(active), id, swapped.active) && aside == WithEntry(old(aside), id, swapped.aside)
        && status == swapped.status
    {
      if Applied(a.swap) {
        active := active[id := source];
      }
      if a.swap.Crashed? {
        return Stopped;
      }
      if a.swap == Failed {
        if Applied(a.restore) && id in aside {
          active, aside := active[id := aside[id]], aside - {id};
        }
        return if a.restore.Crashed? then Stopped else Error;
      }
      aside := WithEntry(aside, id, LeftOf(Entry(aside, id), a.tidy));
      status := if a.tidy == Removed then Success else if a.tidy.RemovalFailed? then Error else Stopped;
    }

    /** The active directory of `id` becomes exactly what `ActiveAfter` says; no other app's is touched. */
    method Activate(id: string, source: Dir, a: Activation) returns (status: Status)
      modifies this`active, this`aside
      ensures active ==
              WithEntry(old(active), id, ActiveAfter(a, Entry(old(active), id), Entry(old(aside), id), source))
      ensures SameElsewhere(old(active), active, id) && SameElsewhere(old(aside), aside, id)
      ensures status == Success ==> id in active && active[id] == source && id !in aside
      ensures Smooth(a) ==> status == Success
    {
      ghost var was, old' := Entry(active, id), Entry(aside, id);
      if a.stage != Done {
        EntryLaws(active, id, was, was);
        EntryLaws(aside, id, old', old');
        return if a.stage == Failed then Error else Stopped;
      }
      ghost var moved := Moved(a, was, old');
      ghost var swapped := Swapped(a, moved.aside, source);
      MovedThenSwapped(a, was, old', source);
      EntryLaws(active, id, moved.active, swapped.active);
      EntryLaws(aside, id, moved.aside, swapped.aside);
      EntryLaws(active, id, swapped.active, None);
      EntryLaws(aside, id, swapped.aside, None);
      hide Moved, Swapped, ActiveAfter, Smooth, SameElsewhere;
      status := MoveAside(id, a);
      if status == Success {
        status := SwapIn(id, source, a);
      }
    }

    method WriteState(id: string, record: Installed, e: Ending) returns (status: Status)
      modifies this`state
      ensures state == if Applied(e) then old(state)[id := record] else old(state)
      ensures SameElsewhere(old(state), state, id)
      ensures status == if e == Done then Success else if e == Failed then Error else Stopped
    {
      if Applied(e) {
        state := state[id := record];
      }
      status := if e == Done then Success else if e == Failed then Error else Stopped;
    }

    /**
     Puts a version's directory in place, or checks the one already there against the same integrity
     data; `probed` is false when looking at what is there fails.
     */
    method StoreVersion(h: Hash, v: Version, download: Dir, package: Package, walk: Dir -> seq<string>,
                        probed: bool, copying: Copying)
      returns (status: Status)
      requires CollisionFree(h) && IsWalker(walk) && IsPackage(h, download, package)
      requires (v, Payload(download)) in verified && Inspectable(download) && package.payloadSize <= MAX_PAYLOAD_BYTES
      modifies this`versions
      ensures forall w :: w in old(versions) ==> w in versions && versions[w] == old(versions)[w]
      ensures forall w :: w in versions ==> w in old(versions) || w == v
      ensures status == Success ==> Stored(v) && Payload(versions[v]) == Payload(download)
      ensures status == Success <==>
                probed && if v in old(versions) then Payload(old(versions)[v]) == Payload(download) else copying.Copied?
    {
      hide IsPackage, Payload, CollisionFree, Inspectable, IsWalker, Walks;
      if !probed {
        return Error;
      }
      if v !in versions {
        if copying.Copied? {
          versions := versions[v := download];
          return Success;
        }
        if copying.left.Some? {
          versions := versions[v := copying.left.value];
        }
        return if copying.CopyFailed? then Error else Stopped;
      }
      WalkerWalks(walk, versions[v]);
      var existing := InspectPayload(h, versions[v], walk(versions[v]));
      if Payload(versions[v]) == Payload(download) {
        PackageOfPayload(h, download, versions[v], package);
        InspectableOfPayload(download, versions[v]);
      }
      if existing != Some(package) {
        return Error;
      }
      SamePackageSamePayload(h, versions[v], download, package);
      return Success;
    }

    /** The end of an installation: load the state file, activate a stored version, record it. */
    method MakeCurrent(id: string, version: string, readable: bool, activation: Activation, write: Ending, at: int)
      returns (status: Status)
      requires Valid() && version != "" && Stored((id, version))
      modifies this`state, this`active, this`aside
      ensures Valid()
      ensures SameElsewhere(old(state), state, id)
      ensures status == Error ==> state == old(state)
      ensures status == Success ==>
                && ActiveIsCurrent(id) && state[id].current == version
                && state[id].previous == (if id !in old(state) then ""
                                          else if old(state)[id].current == version then old(state)[id].previous
                                          else old(state)[id].current)
      ensures readable && Smooth(activation) && write == Done ==> status == Success
      ensures SameElsewhere(old(active), active, id)
      ensures Activated(old(active), old(aside), id, version, activation)
      ensures old(ActiveStored()) && !activation.clear.RemovalFailed? ==> ActiveStored()
    {
      hide StateOk, RecordOk, Payload, SameElsewhere, ActiveAfter, AllStored, Smooth;
      Unchanged(active, id);
      if ActiveStored() && !activation.clear.RemovalFailed? {
        ActivatedIsStored(active, versions, id, version, activation, Entry(aside, id));
      }
      Unchanged(state, id);
      if !readable {
        return Error;
      }
      var previous := PreviousAfter(state, id, version);
      if id in state {
        StateHasOk(state, versions, verified, id);
        assert state[id].current != "" by {
          assert RecordOk(versions, verified, id, state[id]);
          CurrentIsNamed(versions, verified, id, state[id]);
        }
      }
      InstalledIsOk(state, versions, verified, id, version, at);
      StateKeepsOk(state, versions, verified, id, Installed(version, previous, at));
      status := Activate(id, versions[(id, version)], activation);
      if status != Success {
        return;
      }
      status := WriteState(id, Installed(version, previous, at), write);
    }

    /**
     From the integrity check on.  `accepted` stands for the checks around it: catalogue lookup,
     compatibility, manifest validation and the worker's approval.
     */
    method Install(h: Hash, id: string, bundle: Bundle, accepted: bool, download: Dir, walk: Dir -> seq<string>,
                   probed: bool, copying: Copying, readable: bool, activation: Activation, write: Ending, at: int)
      returns (status: Status)
      requires Valid() && CollisionFree(h) && IsWalker(walk)
      modifies this
      ensures Valid() && Extends(old(versions), versions) && old(verified) <= verified
      ensures forall v :: v in versions ==> v in old(versions) || v == (id, bundle.version)
      ensures SameElsewhere(old(state), state, id)
      ensures status == Error ==> state == old(state)
      ensures status == Success ==>
                && ActiveIsCurrent(id) && state[id].current == bundle.version
                && Payload(active[id]) == Payload(download) && IsPackage(h, download, bundle.package)
                && state[id].previous == (if id !in old(state) then ""
                                          else if old(state)[id].current == bundle.version then old(state)[id].previous
                                          else old(state)[id].current)
      ensures readable && Smooth(activation) && write == Done ==>
                (status == Success <==>
                 && bundle.id == id && bundle.version != "" && accepted
                 && Inspectable(download) && IsPackage(h, download, bundle.package)
                 && bundle.package.payloadSize <= MAX_PAYLOAD_BYTES
                 && probed
                 && if (id, bundle.version) in old(versions)
                    then Payload(old(versions)[(id, bundle.version)]) == Payload(download) else copying.Copied?)
      ensures SameElsewhere(old(active), active, id)
      ensures Activated(old(active), old(aside), id, bundle.version, activation)
      ensures old(ActiveStored()) && !activation.clear.RemovalFailed? ==> ActiveStored()
    {
      hide IsPackage, Payload, CollisionFree, IsWalker, StateOk, SameElsewhere, Inspectable, Smooth;
      hide ActiveAfter, AllStored;
      Unchanged(active, id);
      Unchanged(state, id);
      ghost var versions0, verified0 := versions, verified;
      if bundle.id != id || bundle.version == "" {
        return Error;
      }
      WalkerWalks(walk, download);
      var payload := InspectPayload(h, download, walk(download));
      if payload != Some(bundle.package) {
        return Error;
      }
      var v := (id, bundle.version);
      verified := verified + {(v, Payload(download))};
      StoreGrowsOk(state, versions0, verified0, versions0, verified);
      if !accepted {
        return Error;
      }
      status := StoreVersion(h, v, download, bundle.package, walk, probed, copying);
      StoreGrowsOk(state, versions0, verified0, versions, verified);
      if AllStored(active, versions0) {
        StoredStays(active, versions0, versions);
      }
      if status != Success {
        return;
      }
      status := MakeCurrent(id, bundle.version, readable, activation, write, at);
    }

    method Rollback(id: string, accepted: bool, activation: Activation, write: Ending, at: int) returns (status: Status)
      requires Valid()
      modifies this`state, this`active, this`aside
      ensures Valid()
      ensures SameElsewhere(old(state), state, id)
      ensures status == Error ==> state == old(state)
      ensures status == Success ==>
                && id in old(state) && ActiveIsCurrent(id)
                && state[id].current == old(state)[id].previous && state[id].previous == old(state)[id].current
      ensures Smooth(activation) && write == Done ==>
                (status == Success <==> id in old(state) && old(state)[id].previous != "" && accepted)
      ensures SameElsewhere(old(active), active, id)
      ensures active == old(active)
              || (id in old(state) && Activated(old(active), old(aside), id, old(state)[id].previous, activation))
      ensures old(ActiveStored()) && !activation.clear.RemovalFailed? ==> ActiveStored()
    {
      hide StateOk, Payload, SameElsewhere, Smooth, ActiveAfter, AllStored;
      Unchanged(active, id);
      Unchanged(state, id);
      if id !in state || state[id].previous == "" || !accepted {
        return Error;
      }
      var was := state[id];
      assert RecordOk(versions, verified, id, was) by {
        StateHasOk(state, versions, verified, id);
      }
      SwappedIsOk(versions, verified, id, was, at);
      StateKeepsOk(state, versions, verified, id, Installed(was.previous, was.current, at));
      if ActiveStored() && !activation.clear.RemovalFailed? {
        ActivatedIsStored(active, versions, id, was.previous, activation, Entry(aside, id));
      }
      status := Activate(id, versions[(id, was.previous)], activation);
      if status != Success {
        return;
      }
      status := WriteState(id, Installed(was.previous, was.current, at), write);
    }

    /** Two rollbacks bring back the version pair, and the directory that was current. */
    method RollbackTwice(id: string, first: Activation, second: Activation, at: int) returns (status: Status)
      requires Valid()
      modifies this`state, this`active, this`aside
      ensures Valid()
      ensures status == Success ==>
                && id in old(state) && ActiveIsCurrent(id)
                && state[id].current == old(state)[id].current && state[id].previous == old(state)[id].previous
      ensures Smooth(first) && Smooth(second) ==>
                (status == Success <==> id in old(state) && old(state)[id].previous != "")
    {
      hide Payload, Smooth;
      status := Rollback(id, true, first, Done, at);
      if status == Success {
        status := Rollback(id, true, second, Done, at);
      }
    }

    /** An upgrade can be undone: what was installed before it is current and active again. */
    method UpgradeAndUndo(h: Hash, walk: Dir -> seq<string>, id: string, first: Bundle, second: Bundle,
                          oldDownload: Dir, newDownload: Dir, activation: Activation, at: int)
      returns (installed: Status, upgraded: Status, undone: Status)
      requires Valid() && CollisionFree(h) && IsWalker(walk) && Smooth(activation)
      requires first.id == id && second.id == id && first.version != second.version
      requires first.version != "" && second.version != ""
      requires (id, first.version) in versions ==> Payload(versions[(id, first.version)]) == Payload(oldDownload)
      requires (id, second.version) in versions ==> Payload(versions[(id, second.version)]) == Payload(newDownload)
      requires Inspectable(oldDownload) && IsPackage(h, oldDownload, first.package)
      requires Inspectable(newDownload) && IsPackage(h, newDownload, second.package)
      requires first.package.payloadSize <= MAX_PAYLOAD_BYTES && second.package.payloadSize <= MAX_PAYLOAD_BYTES
      modifies this
      ensures Valid() && installed == upgraded == undone == Success
      ensures ActiveIsCurrent(id) && Payload(active[id]) == Payload(oldDownload)
      ensures state[id].current == first.version && state[id].previous == second.version
    {
      hide IsPackage, Payload, CollisionFree, IsWalker, Inspectable, Smooth;
      hide StateOk, ActiveAfter, AllStored, SameElsewhere;
      installed := Install(h, id, first, true, oldDownload, walk, true, Copied, true, activation, Done, at);
      ghost var was := versions[(id, first.version)];
      upgraded := Install(h, id, second, true, newDownload, walk, true, Copied, true, activation, Done, at);
      undone := Rollback(id, true, activation, Done, at);
    }

    /** Any series of calls, each ending in any way. */
    method RunAll(h: Hash, walk: Dir -> seq<string>, calls: seq<Call>)
      requires Valid() && CollisionFree(h) && IsWalker(walk)
      modifies this
      ensures Valid() && Extends(old(versions), versions) && old(verified) <= verified
      ensures old(ActiveStored()) && (forall i :: 0 <= i < |calls| ==> !calls[i].activation.clear.RemovalFailed?) ==>
                ActiveStored()
      ensures forall id ::
                (forall i :: 0 <= i < |calls| ==> calls[i].id != id) ==> Entry(active, id) == Entry(old(active), id)
    {
      hide CollisionFree, IsWalker, AllStored, StateOk;
      for i := 0 to |calls|
        invariant Valid() && Extends(old(versions), versions) && old(verified) <= verified
        invariant old(ActiveStored()) && (forall j :: 0 <= j < i ==> !calls[j].activation.clear.RemovalFailed?) ==>
                    ActiveStored()
        invariant forall id ::
                    (forall j :: 0 <= j < i ==> calls[j].id != id) ==> Entry(active, id) == Entry(old(active), id)
      {
        var status;
        match calls[i] {
          case InstallCall(id, bundle, accepted, download, probed, copying, readable, activation, write, at) =>
            status := Install(h, id, bundle, accepted, download, walk, probed, copying, readable,
                              activation, write, at);
          case RollbackCall(id, accepted, activation, write, at) =>
            status := Rollback(id, accepted, activation, write, at);
        }
      }
    }
  }

  datatype Call =
    | InstallCall(id: string, bundle: Bundle, accepted: bool, download: Dir, probed: bool, copying: Copying,
                  readable: bool, activation: Activation, write: Ending, at: int)
    | RollbackCall(id: string, accepted: bool, activation: Activation, write: Ending, at: int)

  /** A directory walker lists every directory's files once each. */
  ghost predicate IsWalker(walk: Dir -> seq<string>) {
    forall d: Dir :: Walks(walk(d), d)
  }

  lemma WalkerWalks(walk: Dir -> seq<string>, d: Dir)
    requires IsWalker(walk)
    ensures Walks(walk(d), d)
  {
  }

  /** Stored directories are never changed or removed. */
  ghost predicate Extends(before: map<Version, Dir>, after: map<Version, Dir>) {
    forall v :: v in before ==> v in after && after[v] == before[v]
  }

  /** Nothing changed but the entry of `id`. */
  ghost predicate SameElsewhere<T(!new)>(before: map<string, T>, after: map<string, T>, id: string) {
    forall other :: other != id ==>
      (other in after <==> other in before) && (other in after ==> after[other] == before[other])
  }
}
