/**
 Key rotation (internal/vpnprofiles/store.go, `Rotate`): stage a re-encrypted copy of every profile
 beside the original, then rename the copies into place.

 Every file operation may fail, and the process may stop at any of them: a `Plan` says how each one
 ends, and the results hold for all plans.  A stop part-way is a plan that crashes there, so they
 cover every state a rotation can leave behind.
 */
module KeyRotation {
  import opened Text
  import opened ProfileStore

  type Files = map<string, string>

  datatype Entry = Entry(name: string, isDir: bool)

  datatype RenameOutcome = Renamed | RenameFailed | RenameCrashed(applied: bool)
  datatype RemoveOutcome = Removed | RemoveFailed | RemoveCrashed(applied: bool)

  /** How each operation on a profile ends.  Each is tried at most once per rotation. */
  datatype Plan = Plan(
    read: string -> bool,
    nonce: string -> Option<string>,
    write: string -> WriteOutcome,
    rename: string -> RenameOutcome,
    remove: string -> RemoveOutcome)

  /** What failed while a profile was being staged. */
  datatype StagingStep = Reading | Decrypting | Sealing | Writing

  datatype Status =
    | Success
    | KeyRejected              // the new key does not have 32 bytes
    | KeyUnavailable           // the current key could not be read
    | DirectoryUnreadable
    | StageFailed(ref: string, at: StagingStep) // aborted, and cleaned up, before the first rename
    | ReplaceFailed(ref: string)
    | Crashed

  datatype Counts = Counts(rotated: nat, alreadyNew: nat, total: nat)

  datatype Keys = Keys(cipher: Cipher, oldKey: string, newKey: string)

  ghost predicate GoodPlan(plan: Plan) {
    forall ref: string :: plan.nonce(ref).Some? ==> |plan.nonce(ref).value| == NONCE_BYTES
  }

  /** No operation fails and the process is not stopped. */
  ghost predicate FaultFree(plan: Plan) {
    forall ref: string ::
      plan.read(ref) && plan.nonce(ref).Some? && plan.write(ref).Written? && plan.rename(ref).Renamed?
  }

  lemma NoFault(plan: Plan, ref: string)
    ensures FaultFree(plan) ==>
              plan.read(ref) && plan.nonce(ref).Some? && plan.write(ref).Written? && plan.rename(ref).Renamed?
  {
  }

  // ----- What a profile file means during a rotation -----

  predicate OpensOld(keys: Keys, data: string) {
    Open(keys.cipher, keys.oldKey, data).Ok?
  }

  predicate IsNew(keys: Keys, data: string, plain: string) {
    Open(keys.cipher, keys.newKey, data) == Ok(plain)
  }

  /** Readable under the new key, with the text it yields to someone holding both. */
  predicate ReadsNew(keys: Keys, data: string) {
    Reads(keys, data).Some? && IsNew(keys, data, Reads(keys, data).value)
  }

  /** The text a profile yields to someone holding both keys, or None if it yields none. */
  function Reads(keys: Keys, data: string): Option<string> {
    var underOld := Open(keys.cipher, keys.oldKey, data);
    var underNew := Open(keys.cipher, keys.newKey, data);
    if underOld.Ok? then Some(underOld.value) else if underNew.Ok? then Some(underNew.value) else None
  }

  function Temp(ref: string): string {
    ref + ".rotating"
  }

  predicate IsTemp(name: string) {
    |name| == 48 && ValidRef(name[..39]) && name == Temp(name[..39])
  }

  lemma TempNames(ref: string)
    requires ValidRef(ref)
    ensures IsTemp(Temp(ref)) && !ValidRef(Temp(ref)) && Temp(ref)[..39] == ref && !IsTemp(ref)
  {
    assert Temp(ref)[..39] == ref;
  }

  lemma SealedReads(keys: Keys, nonce: string, plain: string)
    requires Sound(keys.cipher) && |nonce| == NONCE_BYTES
    ensures Reads(keys, Seal(keys.cipher, keys.newKey, nonce, plain)) == Some(plain)
    ensures IsNew(keys, Seal(keys.cipher, keys.newKey, nonce, plain), plain)
  {
    hide Open, Seal;
    OpenSealed(keys.cipher, keys.newKey, keys.oldKey, nonce, plain);
    OpenSealed(keys.cipher, keys.newKey, keys.newKey, nonce, plain);
  }

  // ----- Invariants over directory contents -----

  /** The same profiles are there, each yields the same text, and nothing else changed but staged copies. */
  ghost predicate Preserved(keys: Keys, before: Files, after: Files) {
    && (forall n :: n in before && !IsTemp(n) ==>
          n in after && if ValidRef(n) then Reads(keys, after[n]) == Reads(keys, before[n]) else after[n] == before[n])
    && (forall n :: n in after && !IsTemp(n) ==> n in before)
  }

  /** Nothing changed but staged copies. */
  ghost predicate Untouched(before: Files, after: Files) {
    && (forall n :: n in before && !IsTemp(n) ==> n in after && after[n] == before[n])
    && (forall n :: n in after && !IsTemp(n) ==> n in before)
  }

  /** A staged copy only stands beside a profile still readable under the old key. */
  ghost predicate Resumable(keys: Keys, files: Files) {
    forall n :: n in files && IsTemp(n) ==> n[..39] in files && OpensOld(keys, files[n[..39]])
  }

  /** Every profile is readable under one of the two keys. */
  ghost predicate AllReadable(keys: Keys, files: Files) {
    forall n :: n in files && ValidRef(n) ==> Reads(keys, files[n]).Some?
  }

  ghost predicate NoneStaged(files: Files) {
    forall n :: n in files ==> !IsTemp(n)
  }

  ghost predicate AllNew(keys: Keys, before: Files, after: Files) {
    forall ref :: ref in after && ValidRef(ref) ==>
      ref in before && Reads(keys, before[ref]).Some? && IsNew(keys, after[ref], Reads(keys, before[ref]).value)
  }

  /** Every profile in `pending` is readable under the old key and has its sealed copy beside it. */
  ghost predicate Staged(keys: Keys, plan: Plan, files: Files, pending: seq<string>) {
    && (forall i, j :: 0 <= i < j < |pending| ==> pending[i] != pending[j])
    && (forall ref :: ref in pending ==>
          && ValidRef(ref) && ref in files && OpensOld(keys, files[ref]) && Temp(ref) in files
          && plan.nonce(ref).Some?
          && files[Temp(ref)] == Seal(keys.cipher, keys.newKey, plan.nonce(ref).value, Reads(keys, files[ref]).value))
  }

  /** What holds after staging, with `rest` still to be renamed. */
  ghost predicate Committing(keys: Keys, plan: Plan, before: Files, files: Files, rest: seq<string>) {
    && Preserved(keys, before, files)
    && Staged(keys, plan, files, rest)
    && (forall ref :: ref in files && ValidRef(ref) && ref !in rest ==> ReadsNew(keys, files[ref]))
  }

  ghost predicate TempsOnlyFor(files: Files, refs: seq<string>) {
    forall n :: n in files && IsTemp(n) ==> n[..39] in refs
  }

  // ----- What each file operation keeps -----

  lemma WriteTemp(keys: Keys, before: Files, files: Files, ref: string, data: string, o: WriteOutcome)
    requires ValidRef(ref) && ref in files && OpensOld(keys, files[ref])
    requires Untouched(before, files)
    ensures Untouched(before, AfterWrite(files, Temp(ref), data, o))
    ensures Resumable(keys, files) ==> Resumable(keys, AfterWrite(files, Temp(ref), data, o))
  {
    hide Open, ValidRef, Temp;
    TempNames(ref);
  }

  lemma RemoveTemp(keys: Keys, before: Files, files: Files, ref: string)
    requires ValidRef(ref) && Untouched(before, files)
    ensures Untouched(before, files - {Temp(ref)})
    ensures Resumable(keys, files) ==> Resumable(keys, files - {Temp(ref)})
  {
    hide Open, ValidRef, Temp;
    TempNames(ref);
  }

  lemma UntouchedPreserves(keys: Keys, before: Files, after: Files)
    requires Untouched(before, after)
    ensures Preserved(keys, before, after)
  {
    hide Reads, IsTemp, ValidRef;
  }

  function AfterRename(files: Files, ref: string): Files
    requires Temp(ref) in files
  {
    files[ref := files[Temp(ref)]] - {Temp(ref)}
  }

  lemma OldReads(keys: Keys, data: string)
    requires OpensOld(keys, data)
    ensures Reads(keys, data).Some?
  {
  }

  lemma RenameKeepsStaged(keys: Keys, plan: Plan, files: Files, rest: seq<string>)
    requires rest != [] && Staged(keys, plan, files, rest)
    ensures Staged(keys, plan, AfterRename(files, rest[0]), rest[1..])
  {
    hide Open, ValidRef, Seal, Reads, OpensOld, Temp;
    var ref := rest[0];
    TempNames(ref);
    forall r | r in rest[1..]
      ensures r != ref && Temp(r) != Temp(ref) && r != Temp(ref) && ref != Temp(r)
    {
      TempNames(r);
    }
  }

  lemma RenameKeepsPreserved(keys: Keys, before: Files, files: Files, ref: string)
    requires Preserved(keys, before, files) && ValidRef(ref) && ref in files && Temp(ref) in files
    requires Reads(keys, files[Temp(ref)]) == Reads(keys, files[ref])
    ensures Preserved(keys, before, AfterRename(files, ref))
  {
    hide ValidRef, Reads, Temp;
    TempNames(ref);
  }

  lemma RenameKeepsTemps(keys: Keys, files: Files, rest: seq<string>)
    requires rest != [] && ValidRef(rest[0]) && Temp(rest[0]) in files
    ensures Resumable(keys, files) ==> Resumable(keys, AfterRename(files, rest[0]))
    ensures TempsOnlyFor(files, rest) ==> TempsOnlyFor(AfterRename(files, rest[0]), rest[1..])
  {
    hide ValidRef, OpensOld, Temp;
    var ref := rest[0];
    TempNames(ref);
    forall n | n in AfterRename(files, ref) && IsTemp(n)
      ensures n in files && n[..39] != ref && n[..39] != Temp(ref)
    {
      TempNames(n[..39]);
    }
    hide IsTemp;
    assert forall r :: r in rest <==> r == ref || r in rest[1..];
  }

  lemma RenameKeeps(keys: Keys, plan: Plan, before: Files, files: Files, rest: seq<string>)
    requires Sound(keys.cipher) && GoodPlan(plan) && rest != []
    requires Committing(keys, plan, before, files, rest)
    ensures Temp(rest[0]) in files
    ensures Committing(keys, plan, before, AfterRename(files, rest[0]), rest[1..])
    ensures Resumable(keys, files) ==> Resumable(keys, AfterRename(files, rest[0]))
    ensures TempsOnlyFor(files, rest) ==> TempsOnlyFor(AfterRename(files, rest[0]), rest[1..])
  {
    hide ValidRef, Seal, Reads, OpensOld, IsNew, Temp, Resumable, TempsOnlyFor;
    var ref := rest[0];
    TempNames(ref);
    OldReads(keys, files[ref]);
    SealedReads(keys, plan.nonce(ref).value, Reads(keys, files[ref]).value);
    RenameKeepsPreserved(keys, before, files, ref);
    RenameKeepsStaged(keys, plan, files, rest);
    RenameKeepsTemps(keys, files, rest);
    hide Preserved, Staged, GoodPlan, IsTemp;
    assert forall r :: r in rest <==> r == ref || r in rest[1..];
  }

  // ----- The source's loops -----

  ghost predicate Listed(listing: seq<Entry>, files: Files) {
    && (forall i, j :: 0 <= i < j < |listing| ==> listing[i].name != listing[j].name)
    && (forall e :: e in listing ==> (e.name in files <==> !e.isDir))
    && (forall n :: n in files ==> Entry(n, false) in listing)
  }

  ghost function Profiles(files: Files): set<string> {
    set n | n in files && ValidRef(n)
  }

  /** The profiles readable under the old key. */
  ghost function OldProfiles(keys: Keys, files: Files): set<string> {
    set n | n in files && ValidRef(n) && OpensOld(keys, files[n])
  }

  ghost function SetOf(refs: seq<string>): set<string> {
    set ref | ref in refs
  }

  lemma {:induction false} DistinctSize(refs: seq<string>)
    requires forall i, j :: 0 <= i < j < |refs| ==> refs[i] != refs[j]
    ensures |SetOf(refs)| == |refs|
  {
    if refs == [] {
      assert SetOf(refs) == {};
    } else {
      var rest := refs[1..];
      DistinctSize(rest);
      assert SetOf(refs) == SetOf(rest) + {refs[0]};
      assert refs[0] !in SetOf(rest);
    }
  }

  /** Each rename takes one profile off the old key, and no other. */
  lemma RenameTakesOne(keys: Keys, plan: Plan, files: Files, rest: seq<string>)
    requires Sound(keys.cipher) && GoodPlan(plan) && keys.oldKey != keys.newKey
    requires rest != [] && Staged(keys, plan, files, rest)
    ensures OldProfiles(keys, AfterRename(files, rest[0])) == OldProfiles(keys, files) - {rest[0]}
  {
    var ref := rest[0];
    OldReads(keys, files[ref]);
    OpenSealed(keys.cipher, keys.newKey, keys.oldKey, plan.nonce(ref).value, Reads(keys, files[ref]).value);
    TempNames(ref);
    hide Sound, GoodPlan, Open, Seal, Reads, ValidRef, IsTemp, Temp;
    var after := AfterRename(files, ref);
    assert !OpensOld(keys, after[ref]);
    forall n | ValidRef(n) && n != ref
      ensures n in after <==> n in files
      ensures n in after ==> after[n] == files[n]
    {
      TempNames(n);
    }
  }

  lemma SetOfTail(refs: seq<string>)
    requires refs != [] && forall i, j :: 0 <= i < j < |refs| ==> refs[i] != refs[j]
    ensures SetOf(refs[1..]) == SetOf(refs) - {refs[0]}
  {
    assert refs == [refs[0]] + refs[1..];
  }

  /** Between renames, the profiles still under the old key are exactly those still to be renamed. */
  lemma StillOld(keys: Keys, plan: Plan, before: Files, files: Files, rest: seq<string>)
    requires Sound(keys.cipher) && GoodPlan(plan) && rest != [] && Committing(keys, plan, before, files, rest)
    requires OldProfiles(keys, files) == SetOf(rest)
    ensures |OldProfiles(keys, files)| == |rest| && Temp(rest[0]) in files
    ensures keys.oldKey != keys.newKey ==> OldProfiles(keys, AfterRename(files, rest[0])) == SetOf(rest[1..])
  {
    hide Preserved, OldProfiles, OpensOld, Reads, ValidRef, Seal, Temp, Sound, GoodPlan, ReadsNew, SetOf;
    DistinctSize(rest);
    if keys.oldKey != keys.newKey {
      RenameTakesOne(keys, plan, files, rest);
      SetOfTail(rest);
    }
  }

  /** Removes the staged copies; errors are ignored, a crash stops it. */
  method Cleanup(dir: Directory, keys: Keys, pending: seq<string>, plan: Plan, ghost before: Files)
    returns (crashed: bool)
    requires forall ref :: ref in pending ==> ValidRef(ref)
    requires Untouched(before, dir.files)
    modifies dir
    ensures Untouched(before, dir.files)
    ensures Resumable(keys, old(dir.files)) ==> Resumable(keys, dir.files)
    ensures dir.files.Keys <= old(dir.files).Keys
    ensures (forall ref :: plan.remove(ref).Removed?) ==>
              !crashed && forall ref :: ref in pending ==> Temp(ref) !in dir.files
  {
    hide IsTemp, ValidRef, Temp, Untouched, Resumable;
    for i := 0 to |pending|
      invariant Untouched(before, dir.files)
      invariant Resumable(keys, old(dir.files)) ==> Resumable(keys, dir.files)
      invariant dir.files.Keys <= old(dir.files).Keys
      invariant (forall ref :: plan.remove(ref).Removed?) ==>
                  forall ref :: ref in pending[..i] ==> Temp(ref) !in dir.files
    {
      var ref := pending[i];
      var outcome := plan.remove(ref);
      RemoveTemp(keys, before, dir.files, ref);
      if outcome.Removed? || (outcome.RemoveCrashed? && outcome.applied) {
        dir.files := dir.files - {Temp(ref)};
      }
      if outcome.RemoveCrashed? {
        return true;
      }
      assert pending[..i + 1] == pending[..i] + [ref];
    }
    assert pending[..|pending|] == pending;
    return false;
  }

  method Commit(dir: Directory, keys: Keys, pending: seq<string>, plan: Plan, ghost before: Files)
    returns (status: Status, rotated: nat)
    requires Sound(keys.cipher) && GoodPlan(plan)
    requires Committing(keys, plan, before, dir.files, pending) && OldProfiles(keys, dir.files) == SetOf(pending)
    modifies dir
    ensures status.Success? || status.ReplaceFailed? || status.Crashed?
    ensures Preserved(keys, before, dir.files)
    ensures Resumable(keys, old(dir.files)) ==> Resumable(keys, dir.files)
    ensures status.ReplaceFailed? ==> rotated < |pending|
    ensures status.ReplaceFailed? && keys.oldKey != keys.newKey ==>
              rotated == |OldProfiles(keys, old(dir.files))| - |OldProfiles(keys, dir.files)|
    ensures status.Success? ==> rotated == |pending| && Committing(keys, plan, before, dir.files, [])
    ensures status.Success? && TempsOnlyFor(old(dir.files), pending) ==> TempsOnlyFor(dir.files, [])
    ensures FaultFree(plan) ==> status.Success?
  {
    hide *;
    rotated := 0;
    assert pending[0..] == pending;
    if pending != [] {
      StillOld(keys, plan, before, dir.files, pending);
    }
    for i := 0 to |pending|
      invariant rotated == i
      invariant keys.oldKey != keys.newKey || i == 0 ==> OldProfiles(keys, dir.files) == SetOf(pending[i..])
      invariant Committing(keys, plan, before, dir.files, pending[i..])
      invariant Resumable(keys, old(dir.files)) ==> Resumable(keys, dir.files)
      invariant TempsOnlyFor(old(dir.files), pending) ==> TempsOnlyFor(dir.files, pending[i..])
    {
      var ref, outcome := pending[i], plan.rename(pending[i]);
      NoFault(plan, ref);
      RenameKeeps(keys, plan, before, dir.files, pending[i..]);
      assert pending[i..][1..] == pending[i + 1..];
      if keys.oldKey != keys.newKey {
        StillOld(keys, plan, before, dir.files, pending[i..]);
      }
      CommittingPreserves(keys, plan, before, dir.files, pending[i..]);
      if outcome.RenameFailed? || (outcome.RenameCrashed? && !outcome.applied) {
        return if outcome.RenameFailed? then ReplaceFailed(ref) else Crashed, rotated;
      }
      dir.files := AfterRename(dir.files, ref);
      CommittingPreserves(keys, plan, before, dir.files, pending[i + 1..]);
      if outcome.RenameCrashed? {
        return Crashed, rotated;
      }
      rotated := rotated + 1;
    }
    assert pending[|pending|..] == [];
    CommittingPreserves(keys, plan, before, dir.files, []);
    return Success, rotated;
  }

  lemma CommittingPreserves(keys: Keys, plan: Plan, before: Files, files: Files, rest: seq<string>)
    requires Committing(keys, plan, before, files, rest)
    ensures Preserved(keys, before, files)
  {
  }

  // ----- Staging -----

  ghost function ProfilesListed(listing: seq<Entry>): set<string> {
    set e | e in listing && !e.isDir && ValidRef(e.name) :: e.name
  }

  /** The staging loop's invariant after the entries in `done`. */
  ghost predicate Staging(keys: Keys, plan: Plan, before: Files, files: Files, done: seq<Entry>,
                          pending: seq<string>, total: nat, alreadyNew: nat)
  {
    && Untouched(before, files)
    && Staged(keys, plan, files, pending)
    && total == |pending| + alreadyNew == |ProfilesListed(done)|
    && (forall ref :: ref in pending ==> ref in ProfilesListed(done))
    && RestNew(keys, files, ProfilesListed(done), pending)
    && TempsAccounted(before, files, pending)
  }

  /** Of `refs`, those not pending are already under the new key, and only that one. */
  ghost predicate RestNew(keys: Keys, files: Files, refs: set<string>, pending: seq<string>) {
    forall ref :: ref in refs && ref in files && ref !in pending ==>
      !OpensOld(keys, files[ref]) && ReadsNew(keys, files[ref])
  }

  ghost predicate TempsAccounted(before: Files, files: Files, pending: seq<string>) {
    forall n :: n in files && IsTemp(n) ==> n in before || n[..39] in pending
  }

  lemma RestNewGrows(keys: Keys, files: Files, refs: set<string>, pending: seq<string>, ref: string, data: string)
    requires RestNew(keys, files, refs, pending) && forall r :: r in refs ==> r != Temp(ref)
    ensures RestNew(keys, files[Temp(ref) := data], refs + {ref}, pending + [ref])
  {
    hide OpensOld, ReadsNew, Temp;
  }

  lemma TempsAccountedGrows(before: Files, files: Files, pending: seq<string>, ref: string, data: string)
    requires TempsAccounted(before, files, pending) && ValidRef(ref)
    ensures TempsAccounted(before, files[Temp(ref) := data], pending + [ref])
  {
    hide ValidRef, Temp;
    TempNames(ref);
  }

  lemma StagingSkips(keys: Keys, plan: Plan, before: Files, files: Files, done: seq<Entry>, entry: Entry,
                     pending: seq<string>, total: nat, alreadyNew: nat)
    requires Staging(keys, plan, before, files, done, pending, total, alreadyNew)
    requires entry.isDir || !ValidRef(entry.name)
    ensures Staging(keys, plan, before, files, done + [entry], pending, total, alreadyNew)
  {
    hide Untouched, Staged, OpensOld, ReadsNew, IsTemp;
    assert ProfilesListed(done + [entry]) == ProfilesListed(done);
  }

  lemma ProfilesListedGrows(done: seq<Entry>, entry: Entry)
    requires !entry.isDir && ValidRef(entry.name) && forall e :: e in done ==> e.name != entry.name
    ensures ProfilesListed(done + [entry]) == ProfilesListed(done) + {entry.name}
    ensures |ProfilesListed(done + [entry])| == |ProfilesListed(done)| + 1
  {
    hide ValidRef;
    assert entry in done + [entry];
    assert forall e :: e in done ==> e in done + [entry];
  }

  lemma StagingKeepsNew(keys: Keys, plan: Plan, before: Files, files: Files, done: seq<Entry>, entry: Entry,
                        pending: seq<string>, total: nat, alreadyNew: nat)
    requires Staging(keys, plan, before, files, done, pending, total, alreadyNew)
    requires !entry.isDir && ValidRef(entry.name) && forall e :: e in done ==> e.name != entry.name
    requires entry.name in files && !OpensOld(keys, files[entry.name]) && ReadsNew(keys, files[entry.name])
    ensures Staging(keys, plan, before, files, done + [entry], pending, total + 1, alreadyNew + 1)
  {
    hide Untouched, Staged, OpensOld, ReadsNew, IsTemp, ValidRef;
    ProfilesListedGrows(done, entry);
    hide ProfilesListed;
  }

  lemma StagingWrites(keys: Keys, plan: Plan, before: Files, files: Files, done: seq<Entry>, entry: Entry,
                      pending: seq<string>, total: nat, alreadyNew: nat, sealed: string)
    requires Staging(keys, plan, before, files, done, pending, total, alreadyNew)
    requires !entry.isDir && ValidRef(entry.name) && forall e :: e in done ==> e.name != entry.name
    requires entry.name in files && OpensOld(keys, files[entry.name]) && plan.nonce(entry.name).Some?
    requires Reads(keys, files[entry.name]).Some?
    requires
      var plain := Reads(keys, files[entry.name]).value;
      sealed == Seal(keys.cipher, keys.newKey, plan.nonce(entry.name).value, plain)
    ensures Staging(keys, plan, before, files[Temp(entry.name) := sealed], done + [entry],
                    pending + [entry.name], total + 1, alreadyNew)
  {
    hide OpensOld, ReadsNew, ValidRef, Seal, Reads, Open, Temp, Staged, Untouched, IsTemp, RestNew, TempsAccounted;
    var ref := entry.name;
    TempNames(ref);
    WriteTemp(keys, before, files, ref, sealed, Written);
    ProfilesListedGrows(done, entry);
    assert ref !in pending by {
      assert ref !in ProfilesListed(done);
    }
    StagedGrows(keys, plan, files, pending, ref, sealed);
    forall r | r in ProfilesListed(done)
      ensures r != Temp(ref)
    {
      ListedAreProfiles(done, r);
    }
    hide ProfilesListed;
    TempsAccountedGrows(before, files, pending, ref, sealed);
    RestNewGrows(keys, files, ProfilesListed(done), pending, ref, sealed);
  }

  lemma StagedGrows(keys: Keys, plan: Plan, files: Files, pending: seq<string>, ref: string, sealed: string)
    requires Staged(keys, plan, files, pending) && ref !in pending
    requires ValidRef(ref) && ref in files && OpensOld(keys, files[ref]) && plan.nonce(ref).Some?
    requires Reads(keys, files[ref]).Some?
    requires sealed == Seal(keys.cipher, keys.newKey, plan.nonce(ref).value, Reads(keys, files[ref]).value)
    ensures Staged(keys, plan, files[Temp(ref) := sealed], pending + [ref])
  {
    hide OpensOld, ValidRef, Seal, Reads, Temp;
    TempNames(ref);
    forall r | r in pending
      ensures r != Temp(ref) && Temp(r) != Temp(ref)
    {
      TempNames(r);
    }
  }

  lemma ListedAreProfiles(done: seq<Entry>, ref: string)
    requires ref in ProfilesListed(done)
    ensures ValidRef(ref)
  {
  }

  /** Failure before the first rename: remove the staged copies and report `ref`. */
  method Abort(dir: Directory, keys: Keys, pending: seq<string>, plan: Plan, ref: string, at: StagingStep,
               ghost before: Files)
    returns (status: Status)
    requires forall r :: r in pending ==> ValidRef(r)
    requires ValidRef(ref) && Untouched(before, dir.files)
    modifies dir
    ensures status == StageFailed(ref, at) || status == Crashed
    ensures Untouched(before, dir.files)
    ensures Resumable(keys, old(dir.files)) ==> Resumable(keys, dir.files)
    ensures (forall r :: plan.remove(r).Removed?) && NoneStaged(before)
            && TempsOnlyFor(old(dir.files), pending + [ref]) ==>
              status == StageFailed(ref, at) && dir.files - {Temp(ref)} == before
    ensures (forall r :: plan.remove(r).Removed?) && NoneStaged(before) && TempsOnlyFor(old(dir.files), pending) ==>
              dir.files == before
  {
    hide ValidRef, Resumable, Temp;
    var crashed := Cleanup(dir, keys, pending, plan, before);
    status := if crashed then Crashed else StageFailed(ref, at);
    if (forall r :: plan.remove(r).Removed?) && NoneStaged(before) && TempsOnlyFor(old(dir.files), pending + [ref]) {
      TempNames(ref);
      assert dir.files - {Temp(ref)} == before;
    }
    if (forall r :: plan.remove(r).Removed?) && NoneStaged(before) && TempsOnlyFor(old(dir.files), pending) {
      NoneLeft(before, dir.files, pending);
    }
  }

  /** Without staged copies, untouched means unchanged. */
  lemma NoneLeft(before: Files, files: Files, pending: seq<string>)
    requires Untouched(before, files) && NoneStaged(before) && TempsOnlyFor(files, pending)
    requires forall ref :: ref in pending ==> Temp(ref) !in files
    ensures files == before
  {
    hide ValidRef;
  }

  lemma ListedProfile(listing: seq<Entry>, before: Files, files: Files, i: nat)
    requires Listed(listing, before) && Untouched(before, files) && i < |listing|
    requires !listing[i].isDir && ValidRef(listing[i].name)
    ensures listing[i].name in files
    ensures forall e :: e in listing[..i] ==> e.name != listing[i].name
  {
    TempNames(listing[i].name);
  }

  lemma StagingStarts(keys: Keys, plan: Plan, files: Files)
    ensures Staging(keys, plan, files, files, [], [], 0, 0)
  {
    assert ProfilesListed([]) == {};
  }

  lemma StagingTemps(keys: Keys, plan: Plan, before: Files, files: Files, done: seq<Entry>,
                     pending: seq<string>, total: nat, alreadyNew: nat)
    requires Staging(keys, plan, before, files, done, pending, total, alreadyNew)
    ensures Untouched(before, files) && forall ref :: ref in pending ==> ValidRef(ref)
    ensures NoneStaged(before) ==> TempsOnlyFor(files, pending)
  {
  }

  lemma StagingDone(keys: Keys, plan: Plan, before: Files, files: Files, listing: seq<Entry>,
                    pending: seq<string>, total: nat, alreadyNew: nat)
    requires Staging(keys, plan, before, files, listing, pending, total, alreadyNew) && Listed(listing, before)
    ensures Committing(keys, plan, before, files, pending)
    ensures total == |Profiles(before)|
    ensures Resumable(keys, files) ==> TempsOnlyFor(files, pending)
  {
    hide OpensOld, ReadsNew, ValidRef, Staged, Temp;
    UntouchedPreserves(keys, before, files);
    hide Preserved;
    assert forall n :: n in before && ValidRef(n) ==> n in ProfilesListed(listing) by {
      assert forall n :: n in before && ValidRef(n) ==> Entry(n, false) in listing;
    }
    assert ProfilesListed(listing) == Profiles(before);
    forall n | n in files && ValidRef(n)
      ensures n in before
    {
      TempNames(n);
    }
    forall n | n in files && IsTemp(n) && Resumable(keys, files)
      ensures n[..39] in pending
    {
      assert n[..39] in ProfilesListed(listing);
    }
  }

  /** What was counted when staging failed at `ref`. */
  ghost predicate ReachedRef(keys: Keys, before: Files, listing: seq<Entry>, ref: string, total: nat, alreadyNew: nat) {
    exists i :: 0 <= i < |listing| && StoppedAt(keys, before, listing, i, ref, total, alreadyNew)
  }

  /** The profiles up to the `i`-th entry, and those before it that are not under the old key. */
  ghost predicate StoppedAt(keys: Keys, before: Files, listing: seq<Entry>, i: nat, ref: string,
                            total: nat, alreadyNew: nat)
  {
    && i < |listing| && listing[i] == Entry(ref, false) && total == |ProfilesListed(listing[..i])| + 1
    && alreadyNew == |ProfilesListed(listing[..i]) - OldProfiles(keys, before)|
  }

  lemma ReachedNow(keys: Keys, before: Files, listing: seq<Entry>, i: nat, total: nat, alreadyNew: nat)
    requires i < |listing| && StoppedAt(keys, before, listing, i, listing[i].name, total, alreadyNew)
    ensures ReachedRef(keys, before, listing, listing[i].name, total, alreadyNew)
  {
  }

  lemma ListedIsUntouched(before: Files, files: Files, listing: seq<Entry>, i: nat, n: string)
    requires Untouched(before, files) && Listed(listing, before) && i <= |listing| && n in ProfilesListed(listing[..i])
    ensures ValidRef(n) && n in before && n in files && files[n] == before[n]
  {
    ListedAreProfiles(listing[..i], n);
    TempNames(n);
    hide ValidRef, Temp, IsTemp;
    var e :| e in listing[..i] && !e.isDir && e.name == n;
    assert e in listing;
  }

  /** The staging counts after the entries before the `i`-th. */
  lemma CountedSoFar(keys: Keys, plan: Plan, before: Files, files: Files, listing: seq<Entry>, i: nat,
                     pending: seq<string>, total: nat, alreadyNew: nat)
    requires i < |listing| && !listing[i].isDir && Listed(listing, before)
    requires Staging(keys, plan, before, files, listing[..i], pending, total, alreadyNew)
    ensures StoppedAt(keys, before, listing, i, listing[i].name, total + 1, alreadyNew)
  {
    var names := ProfilesListed(listing[..i]);
    forall n | n in names
      ensures ValidRef(n) && n in before && n in files && files[n] == before[n]
    {
      ListedIsUntouched(before, files, listing, i, n);
    }
    PendingAmong(keys, plan, before, files, listing[..i], pending, total, alreadyNew);
    DistinctSize(pending);
    hide Staging, ProfilesListed, Listed, OldProfiles, SetOf, ValidRef, OpensOld;
    SplitInTwo(names, SetOf(pending), OldProfiles(keys, before));
  }

  /** Of the profiles seen, the pending ones are those under the old key. */
  lemma PendingAmong(keys: Keys, plan: Plan, before: Files, files: Files, done: seq<Entry>,
                     pending: seq<string>, total: nat, alreadyNew: nat)
    requires Staging(keys, plan, before, files, done, pending, total, alreadyNew)
    requires forall n :: n in ProfilesListed(done) ==>
               ValidRef(n) && n in before && n in files && files[n] == before[n]
    ensures total == |pending| + alreadyNew == |ProfilesListed(done)|
    ensures SetOf(pending) <= ProfilesListed(done)
    ensures forall n :: n in ProfilesListed(done) ==> (n in SetOf(pending) <==> n in OldProfiles(keys, before))
    ensures forall i, j :: 0 <= i < j < |pending| ==> pending[i] != pending[j]
  {
    hide OpensOld, ReadsNew, Seal, Reads, ValidRef, Temp, Open, ProfilesListed, Untouched, TempsAccounted;
  }

  lemma SplitInTwo(all: set<string>, part: set<string>, chosen: set<string>)
    requires part <= all && forall n :: n in all ==> (n in part <==> n in chosen)
    ensures |all - chosen| == |all| - |part|
  {
    assert all - chosen == all - part;
  }

  method Stage(dir: Directory, keys: Keys, listing: seq<Entry>, plan: Plan)
    returns (ended: Option<Status>, pending: seq<string>, total: nat, alreadyNew: nat)
    requires Sound(keys.cipher) && GoodPlan(plan) && Listed(listing, dir.files)
    modifies dir
    ensures Untouched(old(dir.files), dir.files)
    ensures Resumable(keys, old(dir.files)) ==> Resumable(keys, dir.files)
    ensures ended.Some? ==> ended.value.StageFailed? || ended.value.Crashed?
    ensures FaultFree(plan) ==> (ended.None? <==> AllReadable(keys, old(dir.files)))
    ensures ended.Some? && ended.value.StageFailed? ==>
              ReachedRef(keys, old(dir.files), listing, ended.value.ref, total, alreadyNew)
    ensures ended.Some? && ended.value.StageFailed? && NoneStaged(old(dir.files))
            && (forall r :: plan.remove(r).Removed?) ==>
              if ended.value.at == Writing then dir.files - {Temp(ended.value.ref)} == old(dir.files)
              else dir.files == old(dir.files)
    ensures ended.None? ==>
              && Staging(keys, plan, old(dir.files), dir.files, listing, pending, total, alreadyNew)
              && Committing(keys, plan, old(dir.files), dir.files, pending)
              && total == |Profiles(old(dir.files))|
              && (Resumable(keys, old(dir.files)) ==> TempsOnlyFor(dir.files, pending))
  {
    hide *;
    ghost var before := dir.files;
    pending, total, alreadyNew := [], 0, 0;
    StagingStarts(keys, plan, before);
    assert listing[..0] == [];
    for i := 0 to |listing|
      invariant Staging(keys, plan, before, dir.files, listing[..i], pending, total, alreadyNew)
      invariant Resumable(keys, before) ==> Resumable(keys, dir.files)
    {
      var entry := listing[i];
      assert listing[..i + 1] == listing[..i] + [entry];
      StagingTemps(keys, plan, before, dir.files, listing[..i], pending, total, alreadyNew);
      if entry.isDir || !ValidRef(entry.name) {
        StagingSkips(keys, plan, before, dir.files, listing[..i], entry, pending, total, alreadyNew);
        continue;
      }
      var ref := entry.name;
      ListedProfile(listing, before, dir.files, i);
      CountedSoFar(keys, plan, before, dir.files, listing, i, pending, total, alreadyNew);
      ReachedNow(keys, before, listing, i, total + 1, alreadyNew);
      NoFault(plan, ref);
      TempsGrow(dir.files, pending, ref);
      if !plan.read(ref) {
        var status := Abort(dir, keys, pending, plan, ref, Reading, before);
        return Some(status), pending, total + 1, alreadyNew;
      }
      var data := dir.files[ref];
      var plain := Open(keys.cipher, keys.oldKey, data);
      if plain.Err? {
        if Open(keys.cipher, keys.newKey, data).Ok? {
          ReadsUnderNew(keys, data);
          StagingKeepsNew(keys, plan, before, dir.files, listing[..i], entry, pending, total, alreadyNew);
          total, alreadyNew := total + 1, alreadyNew + 1;
          continue;
        }
        UnreadableFound(keys, before, dir.files, ref);
        var status := Abort(dir, keys, pending, plan, ref, Decrypting, before);
        return Some(status), pending, total + 1, alreadyNew;
      }
      ReadsUnderOld(keys, data);
      if plan.nonce(ref).None? {
        var status := Abort(dir, keys, pending, plan, ref, Sealing, before);
        return Some(status), pending, total + 1, alreadyNew;
      }
      var sealed := Seal(keys.cipher, keys.newKey, plan.nonce(ref).value, plain.value);
      var outcome := plan.write(ref);
      WriteTemp(keys, before, dir.files, ref, sealed, outcome);
      StagingWrites(keys, plan, before, dir.files, listing[..i], entry, pending, total, alreadyNew, sealed);
      TempsAfterWrite(dir.files, pending, ref, sealed, outcome);
      dir.files := AfterWrite(dir.files, Temp(ref), sealed, outcome);
      if outcome.WriteCrashed? {
        return Some(Crashed), pending, total + 1, alreadyNew;
      }
      if outcome.WriteFailed? {
        var status := Abort(dir, keys, pending, plan, ref, Writing, before);
        return Some(status), pending, total + 1, alreadyNew;
      }
      pending, total := pending + [ref], total + 1;
    }
    assert listing[..|listing|] == listing;
    StagingTemps(keys, plan, before, dir.files, listing, pending, total, alreadyNew);
    StagingDone(keys, plan, before, dir.files, listing, pending, total, alreadyNew);
    CommittingIsReadable(keys, plan, before, dir.files, pending);
    return None, pending, total, alreadyNew;
  }

  lemma UnreadableFound(keys: Keys, before: Files, files: Files, ref: string)
    requires Untouched(before, files) && ValidRef(ref) && ref in files
    requires Open(keys.cipher, keys.oldKey, files[ref]).Err? && Open(keys.cipher, keys.newKey, files[ref]).Err?
    ensures !AllReadable(keys, before)
  {
    hide Open, ValidRef, Temp;
    TempNames(ref);
  }

  lemma CommittingIsReadable(keys: Keys, plan: Plan, before: Files, files: Files, rest: seq<string>)
    requires Committing(keys, plan, before, files, rest)
    ensures AllReadable(keys, before)
  {
    hide Open, ValidRef, Seal, Temp;
    forall n | n in before && ValidRef(n)
      ensures Reads(keys, before[n]).Some?
    {
      TempNames(n);
    }
  }

  lemma TempsGrow(files: Files, pending: seq<string>, ref: string)
    requires ValidRef(ref)
    ensures TempsOnlyFor(files, pending) ==> TempsOnlyFor(files, pending + [ref])
  {
  }

  lemma TempsAfterWrite(files: Files, pending: seq<string>, ref: string, data: string, o: WriteOutcome)
    requires ValidRef(ref)
    ensures TempsOnlyFor(files, pending) ==> TempsOnlyFor(AfterWrite(files, Temp(ref), data, o), pending + [ref])
    ensures o.Written? ==> AfterWrite(files, Temp(ref), data, o) == files[Temp(ref) := data]
  {
    TempNames(ref);
  }

  lemma ReadsUnderOld(keys: Keys, data: string)
    requires Open(keys.cipher, keys.oldKey, data).Ok?
    ensures OpensOld(keys, data) && Reads(keys, data) == Some(Open(keys.cipher, keys.oldKey, data).value)
  {
  }

  lemma ReadsUnderNew(keys: Keys, data: string)
    requires Open(keys.cipher, keys.oldKey, data).Err? && Open(keys.cipher, keys.newKey, data).Ok?
    ensures !OpensOld(keys, data) && ReadsNew(keys, data)
  {
  }

  // ----- Rotate -----

  datatype ReadDir = MissingDirectory | UnreadableDirectory | Entries(listing: seq<Entry>)

  /** One attempt at rotating, whichever way it ended. */
  ghost predicate Attempt(keys: Keys, before: Files, after: Files, success: bool) {
    && Preserved(keys, before, after)
    && (Resumable(keys, before) ==> Resumable(keys, after))
    && (success ==> AllNew(keys, before, after) && (Resumable(keys, before) ==> NoneStaged(after)))
  }

  /** `keyRead` says whether the current key could be read. */
  method Rotate(dir: Directory, keys: Keys, keyRead: bool, entries: ReadDir, plan: Plan)
    returns (status: Status, counts: Counts)
    requires Sound(keys.cipher) && GoodPlan(plan)
    requires entries.MissingDirectory? ==> dir.files == map[]
    requires entries.Entries? ==> Listed(entries.listing, dir.files)
    modifies dir
    ensures Attempt(keys, old(dir.files), dir.files, status.Success?)
    ensures status.Success? || status.ReplaceFailed? ==>
              && counts.total == |Profiles(old(dir.files))|
              && counts.alreadyNew == |Profiles(old(dir.files)) - OldProfiles(keys, old(dir.files))|
    ensures status.Success? ==> counts.rotated == |OldProfiles(keys, old(dir.files))|
    ensures status.ReplaceFailed? ==> counts.rotated < |OldProfiles(keys, old(dir.files))|
    ensures status.ReplaceFailed? && keys.oldKey != keys.newKey ==>
              counts.rotated == |OldProfiles(keys, old(dir.files))| - |OldProfiles(keys, dir.files)|
    ensures status.StageFailed? ==>
              entries.Entries?
              && ReachedRef(keys, old(dir.files), entries.listing, status.ref, counts.total, counts.alreadyNew)
    ensures !status.Success? && !status.ReplaceFailed? && !status.Crashed? ==> counts.rotated == 0
    ensures status.KeyRejected? <==> |keys.newKey| != KEY_BYTES
    ensures status.KeyUnavailable? <==> |keys.newKey| == KEY_BYTES && !keyRead
    ensures FaultFree(plan) && keyRead && entries.Entries? && |keys.newKey| == KEY_BYTES ==>
              (status.Success? <==> AllReadable(keys, old(dir.files)))
    ensures status.KeyRejected? || status.KeyUnavailable? || status.DirectoryUnreadable? ==> dir.files == old(dir.files)
    ensures status.StageFailed? ==> Untouched(old(dir.files), dir.files)
    ensures status.StageFailed? && NoneStaged(old(dir.files)) && (forall r :: plan.remove(r).Removed?) ==>
              if status.at == Writing then dir.files - {Temp(status.ref)} == old(dir.files)
              else dir.files == old(dir.files)
  {
    hide *;
    ghost var before := dir.files;
    counts := Counts(0, 0, 0);
    UnchangedAttempt(keys, before);
    if |keys.newKey| != KEY_BYTES {
      return KeyRejected, counts;
    }
    if !keyRead {
      return KeyUnavailable, counts;
    }
    if entries.MissingDirectory? {
      OldAndNew(keys, before);
      return Success, counts;
    }
    if entries.UnreadableDirectory? {
      return DirectoryUnreadable, counts;
    }
    var ended, pending, total, alreadyNew := Stage(dir, keys, entries.listing, plan);
    UntouchedPreserves(keys, before, dir.files);
    if ended.Some? {
      StagedAttempt(keys, before, dir.files);
      return ended.value, Counts(0, alreadyNew, total);
    }
    StagingCounts(keys, plan, before, dir.files, entries.listing, pending, total, alreadyNew);
    OldAndNew(keys, before);
    ghost var mid := dir.files;
    var rotated;
    status, rotated := Commit(dir, keys, pending, plan, before);
    CommittedAttempt(keys, plan, before, mid, dir.files, pending, status.Success?);
    return status, Counts(rotated, alreadyNew, total);
  }

  lemma UnchangedAttempt(keys: Keys, files: Files)
    ensures Attempt(keys, files, files, false)
    ensures files == map[] ==> Attempt(keys, files, files, true) && Profiles(files) == {}
  {
  }

  lemma StagedAttempt(keys: Keys, before: Files, after: Files)
    requires Preserved(keys, before, after) && (Resumable(keys, before) ==> Resumable(keys, after))
    ensures Attempt(keys, before, after, false)
  {
    hide Preserved, Resumable;
  }

  /** The pending profiles are exactly those under the old key. */
  lemma StagingCounts(keys: Keys, plan: Plan, before: Files, files: Files, listing: seq<Entry>,
                      pending: seq<string>, total: nat, alreadyNew: nat)
    requires Staging(keys, plan, before, files, listing, pending, total, alreadyNew) && Listed(listing, before)
    ensures total == |pending| + alreadyNew == |Profiles(before)|
    ensures OldProfiles(keys, files) == OldProfiles(keys, before) == SetOf(pending)
    ensures |pending| == |OldProfiles(keys, before)|
  {
    StagingDone(keys, plan, before, files, listing, pending, total, alreadyNew);
    hide OpensOld, ReadsNew, Seal, Reads, ValidRef, Temp, Committing;
    DistinctSize(pending);
    forall n | ValidRef(n)
      ensures n in files <==> n in before
      ensures n in files ==> files[n] == before[n] && n in ProfilesListed(listing)
    {
      TempNames(n);
      if n in before {
        assert Entry(n, false) in listing;
      }
    }
  }

  /** A profile is under the old key or not. */
  lemma OldAndNew(keys: Keys, files: Files)
    ensures |Profiles(files)| == |OldProfiles(keys, files)| + |Profiles(files) - OldProfiles(keys, files)|
    ensures files == map[] ==> OldProfiles(keys, files) == {} && Profiles(files) == {}
  {
    hide OpensOld, ValidRef;
    assert Profiles(files) == OldProfiles(keys, files) + (Profiles(files) - OldProfiles(keys, files));
  }

  lemma CommittedAttempt(keys: Keys, plan: Plan, before: Files, mid: Files, after: Files,
                         pending: seq<string>, success: bool)
    requires Preserved(keys, before, after) && (Resumable(keys, before) ==> Resumable(keys, mid))
    requires Resumable(keys, mid) ==> Resumable(keys, after)
    requires Resumable(keys, before) ==> TempsOnlyFor(mid, pending)
    requires success ==> Committing(keys, plan, before, after, [])
    requires success && TempsOnlyFor(mid, pending) ==> TempsOnlyFor(after, [])
    ensures Attempt(keys, before, after, success)
  {
    hide Reads, IsNew, Resumable, Staged, ValidRef, Temp;
    if success {
      forall ref | ref in after && ValidRef(ref)
        ensures ref in before && Reads(keys, after[ref]) == Reads(keys, before[ref])
      {
        TempNames(ref);
      }
    }
  }

  /**
   Interrupted runs can simply be repeated.  Over any series of attempts with the same two keys on a
   directory that began with no staged copies, no attempt ever loses or alters a profile's text, and
   after any successful one every profile is under the new key with its original text and no staged
   copy is left.  Profiles readable at first stay readable, so a run without faults then succeeds.
   */
  lemma {:induction false} RotationResumes(keys: Keys, states: seq<Files>, success: seq<bool>, k: nat)
    requires |states| == |success| + 1 && k < |states|
    requires NoneStaged(states[0])
    requires forall i :: 0 <= i < |success| ==> Attempt(keys, states[i], states[i + 1], success[i])
    ensures Preserved(keys, states[0], states[k]) && Resumable(keys, states[k])
    ensures AllReadable(keys, states[0]) ==> AllReadable(keys, states[k])
    ensures k > 0 && success[k - 1] ==> AllNew(keys, states[0], states[k]) && NoneStaged(states[k])
  {
    if k > 0 {
      RotationResumes(keys, states, success, k - 1);
      assert Attempt(keys, states[k - 1], states[k], success[k - 1]);
      AttemptsCompose(keys, states[0], states[k - 1], states[k], success[k - 1]);
      PreservedReadable(keys, states[0], states[k]);
    }
  }

  lemma PreservedReadable(keys: Keys, before: Files, after: Files)
    requires Preserved(keys, before, after)
    ensures AllReadable(keys, before) ==> AllReadable(keys, after)
  {
    hide Reads, ValidRef, Temp;
    forall n | n in after && ValidRef(n)
      ensures n in before && Reads(keys, after[n]) == Reads(keys, before[n])
    {
      TempNames(n);
    }
  }

  lemma AttemptsCompose(keys: Keys, first: Files, before: Files, after: Files, success: bool)
    requires Preserved(keys, first, before) && Resumable(keys, before) && Attempt(keys, before, after, success)
    ensures Attempt(keys, first, after, success) && Resumable(keys, after)
    ensures success ==> NoneStaged(after)
  {
    hide Reads, IsNew, Resumable, ValidRef, Temp;
    forall ref | ref in before && ValidRef(ref)
      ensures !IsTemp(ref)
    {
      TempNames(ref);
    }
  }
}
