/**
 The worker's persisted app approvals (internal/dockerworker/approvals.go): records in memory, a file
 replaced atomically, an undo when persisting fails, and restarts that read the file back.
 */
module Approvals {
  import opened Text

  const MAX_RECORDS: nat := 10000

  /** `rest` stands for every field that only the digest covers. */
  datatype AppSpec = AppSpec(id: string, version: string, image: string, manifest: string, rest: string)

  datatype Status = Status(
    id: string, version: string, image: string, manifest: string, specification: string, approvedAt: int)

  type Records = map<string, Status>
  type Digest = AppSpec -> string

  ghost predicate CollisionFree(digest: Digest) {
    forall a: AppSpec, b: AppSpec :: digest(a) == digest(b) ==> a == b
  }

  function Key(app: AppSpec): string {
    app.id + "\0" + app.version + "\0" + app.manifest
  }

  function Approval(digest: Digest, app: AppSpec, at: int): Status {
    Status(app.id, app.version, app.image, app.manifest, digest(app), at)
  }

  predicate Allows(digest: Digest, records: Records, app: AppSpec) {
    && Key(app) in records
    && var s := records[Key(app)];
    s.id == app.id && s.version == app.version && s.image == app.image
    && s.manifest == app.manifest && s.specification == digest(app)
  }

  /**
   How replacing the file ends; `Lost` and `Crashed(true)` replaced it without reporting success.
   After a crash the next process starts from the file.
   */
  datatype Outcome = Persisted | Failed | Lost | Crashed(replaced: bool)

  datatype Step = Approve(app: AppSpec, at: int, outcome: Outcome) | Restart

  /** `reached` collects the specifications whose approval was in a version of the file. */
  datatype Store = Store(memory: Records, disk: Records, reached: set<AppSpec>)

  const EMPTY := Store(map[], map[], {})

  predicate Full(records: Records, app: AppSpec) {
    Key(app) !in records && |records| >= MAX_RECORDS
  }

  function Apply(digest: Digest, s: Store, step: Step): Store {
    match step
    case Restart => s.(memory := s.disk)
    case Approve(app, at, outcome) =>
      if Full(s.memory, app) then s
      else
        var records := s.memory[Key(app) := Approval(digest, app, at)];
        var written := s.(disk := records, reached := s.reached + {app});
        match outcome
        case Persisted => written.(memory := records)
        case Failed => s.(memory := records - {Key(app)})
        case Lost => written.(memory := records - {Key(app)})
        case Crashed(true) => written.(memory := records)
        case Crashed(false) => s.(memory := s.disk)
  }

  function RunFrom(digest: Digest, s: Store, steps: seq<Step>): Store {
    if steps == [] then s else Apply(digest, RunFrom(digest, s, steps[..|steps| - 1]), steps[|steps| - 1])
  }

  function Run(digest: Digest, steps: seq<Step>): Store {
    RunFrom(digest, EMPTY, steps)
  }

  /** `inner` holds a part of `outer`, record for record. */
  ghost predicate SubRecords(inner: Records, outer: Records) {
    forall k :: k in inner ==> k in outer && inner[k] == outer[k]
  }

  /** The record was made for one of these specifications. */
  ghost predicate MadeFor(digest: Digest, s: Status, apps: set<AppSpec>) {
    exists app :: app in apps && Approval(digest, app, s.approvedAt) == s
  }

  ghost predicate Inv(digest: Digest, s: Store) {
    SubRecords(s.memory, s.disk) && DiskOk(digest, s.disk, s.reached)
  }

  /** The file is not too large, and every record in it was made for a specification that reached it. */
  ghost predicate DiskOk(digest: Digest, disk: Records, reached: set<AppSpec>) {
    |disk| <= MAX_RECORDS && forall k :: k in disk ==> MadeFor(digest, disk[k], reached)
  }

  /** What an approval writes is in order. */
  lemma WrittenOk(digest: Digest, s: Store, app: AppSpec, at: int)
    requires Inv(digest, s) && !Full(s.memory, app)
    ensures DiskOk(digest, s.memory[Key(app) := Approval(digest, app, at)], s.reached + {app})
  {
    hide Key, Full, Approval, MadeFor;
    RecordsFit(s.memory, s.disk, app, Approval(digest, app, at));
    forall k | k in s.disk
      ensures MadeFor(digest, s.disk[k], s.reached + {app})
    {
      MadeForMore(digest, s.disk[k], s.reached, app);
    }
    MadeForItself(digest, app, at, s.reached + {app});
  }

  lemma UndoKeepsSub(memory: Records, disk: Records, key: string, status: Status)
    requires SubRecords(memory, disk)
    ensures SubRecords(memory[key := status] - {key}, disk)
    ensures SubRecords(memory[key := status] - {key}, memory[key := status])
    ensures SubRecords(disk, disk)
  {
  }

  lemma ApplyKeepsInv(digest: Digest, s: Store, step: Step)
    requires Inv(digest, s)
    ensures Inv(digest, Apply(digest, s, step))
  {
    hide Key, Full, Approval, DiskOk, SubRecords;
    UndoKeepsSub(s.memory, s.disk, "", Status("", "", "", "", "", 0));
    if step.Approve? && !Full(s.memory, step.app) {
      var app, status := step.app, Approval(digest, step.app, step.at);
      var records := s.memory[Key(app) := status];
      WrittenOk(digest, s, app, step.at);
      UndoKeepsSub(s.memory, s.disk, Key(app), status);
      UndoKeepsSub(records, records, Key(app), status) by {
        Itself(records);
      }
    }
  }

  lemma Itself(records: Records)
    ensures SubRecords(records, records)
  {
  }

  lemma RecordsFit(memory: Records, disk: Records, app: AppSpec, status: Status)
    requires SubRecords(memory, disk) && |disk| <= MAX_RECORDS
    ensures |memory| <= MAX_RECORDS
    ensures !Full(memory, app) ==> |memory[Key(app) := status]| <= MAX_RECORDS
  {
    hide Key;
    assert memory.Keys <= disk.Keys;
    SubsetSize(memory.Keys, disk.Keys);
    assert |memory| == |memory.Keys| && |disk| == |disk.Keys|;
    var after := memory[Key(app) := status];
    assert after.Keys == memory.Keys + {Key(app)};
    assert |after| == |after.Keys|;
  }

  lemma {:induction false} SubsetSize(a: set<string>, b: set<string>)
    requires a <= b
    ensures |a| <= |b|
  {
    assert b == a + (b - a);
  }

  lemma MadeForMore(digest: Digest, s: Status, apps: set<AppSpec>, app: AppSpec)
    requires MadeFor(digest, s, apps)
    ensures MadeFor(digest, s, apps + {app})
  {
    var was :| was in apps && Approval(digest, was, s.approvedAt) == s;
    assert was in apps + {app};
  }

  lemma MadeForItself(digest: Digest, app: AppSpec, at: int, apps: set<AppSpec>)
    requires app in apps
    ensures MadeFor(digest, Approval(digest, app, at), apps)
  {
  }

  lemma {:induction false} RunKeepsInv(digest: Digest, s: Store, steps: seq<Step>)
    requires Inv(digest, s)
    ensures Inv(digest, RunFrom(digest, s, steps))
  {
    hide Apply, Inv;
    if steps != [] {
      RunKeepsInv(digest, s, steps[..|steps| - 1]);
      ApplyKeepsInv(digest, RunFrom(digest, s, steps[..|steps| - 1]), steps[|steps| - 1]);
    }
  }

  /**
   In every run of approvals, failed persists, crashes and restarts, memory never holds a record the
   file does not, and only a specification whose own approval reached the file is allowed.
   */
  lemma OnlyPersistedApprovalsAllow(digest: Digest, steps: seq<Step>, app: AppSpec)
    requires CollisionFree(digest)
    ensures
      var s := Run(digest, steps);
      SubRecords(s.memory, s.disk) && (Allows(digest, s.memory, app) ==> app in s.reached)
  {
    RunKeepsInv(digest, EMPTY, steps);
    var s := Run(digest, steps);
    hide RunFrom, Key;
    if Allows(digest, s.memory, app) {
      var status := s.memory[Key(app)];
      assert MadeFor(digest, status, s.reached);
      var made :| made in s.reached && Approval(digest, made, status.approvedAt) == status;
      assert digest(made) == digest(app);
    }
  }

  // ----- How long an approval stands -----

  /** The step writes a new version of the file. */
  predicate Replaces(s: Store, step: Step) {
    step.Approve? && !Full(s.memory, step.app) && step.outcome != Failed && step.outcome != Crashed(false)
  }

  /** The step reads the file back into memory, without writing it. */
  predicate Reloads(s: Store, step: Step) {
    step.Restart? || (!Full(s.memory, step.app) && step.outcome == Crashed(false))
  }

  lemma SetRecord(digest: Digest, records: Records, other: AppSpec, at: int, app: AppSpec)
    requires CollisionFree(digest)
    ensures Allows(digest, records[Key(other) := Approval(digest, other, at)], app) <==>
            if Key(other) == Key(app) then other == app else Allows(digest, records, app)
    ensures Allows(digest, records[Key(other) := Approval(digest, other, at)] - {Key(other)}, app) <==>
            Key(other) != Key(app) && Allows(digest, records, app)
  {
    hide Key;
  }

  /** What one step does to the standing of one specification, on disk and in memory. */
  lemma Standing(digest: Digest, s: Store, step: Step, app: AppSpec)
    requires CollisionFree(digest)
    ensures
      var t := Apply(digest, s, step);
      && (Allows(digest, t.disk, app) <==>
          if !Replaces(s, step) then Allows(digest, s.disk, app)
          else if Key(step.app) == Key(app) then step.app == app
          else Allows(digest, s.memory, app))
      && (Allows(digest, t.memory, app) <==>
          if Reloads(s, step) then Allows(digest, s.disk, app)
          else if Full(s.memory, step.app) || Key(step.app) != Key(app) then Allows(digest, s.memory, app)
          else step.app == app && (step.outcome == Persisted || step.outcome == Crashed(true)))
  {
    if step.Approve? {
      SetRecord(digest, s.memory, step.app, step.at, app);
    }
    hide Key, Allows, CollisionFree, Full;
  }

  /** A step that does not end an approval: anything but a different or failing approval under the same key. */
  predicate Keeps(step: Step, app: AppSpec) {
    || step.Restart? || Key(step.app) != Key(app) || step.outcome == Crashed(false)
    || (step.app == app && (step.outcome == Persisted || step.outcome == Crashed(true)))
  }

  /** Exactly which steps leave an allowed specification allowed. */
  lemma ApprovalSurvives(digest: Digest, s: Store, step: Step, app: AppSpec)
    requires CollisionFree(digest) && Inv(digest, s) && Allows(digest, s.memory, app)
    ensures Allows(digest, Apply(digest, s, step).memory, app) <==> Keeps(step, app)
  {
    Standing(digest, s, step, app);
    MemoryIsOnDisk(digest, s, app);
    assert step.Approve? && Key(step.app) == Key(app) ==> !Full(s.memory, step.app);
    hide Key, Apply, Allows, Full;
  }

  lemma MemoryIsOnDisk(digest: Digest, s: Store, app: AppSpec)
    requires Inv(digest, s) && Allows(digest, s.memory, app)
    ensures Allows(digest, s.disk, app)
  {
    hide Key, MadeFor;
  }

  /** Allowed at every point of the run. */
  ghost predicate AlwaysAllowed(digest: Digest, s: Store, steps: seq<Step>, app: AppSpec) {
    forall k :: 0 <= k <= |steps| ==> Allows(digest, RunFrom(digest, s, steps[..k]).memory, app)
  }

  /** A condition on the steps alone. */
  predicate AlwaysKept(steps: seq<Step>, app: AppSpec) {
    forall k :: 0 <= k < |steps| ==> Keeps(steps[k], app)
  }

  lemma AllowedOneMore(digest: Digest, s: Store, before: seq<Step>, last: Step, app: AppSpec)
    ensures AlwaysAllowed(digest, s, before + [last], app) <==>
            AlwaysAllowed(digest, s, before, app) && Allows(digest, RunFrom(digest, s, before + [last]).memory, app)
    ensures AlwaysAllowed(digest, s, before, app) ==> Allows(digest, RunFrom(digest, s, before).memory, app)
  {
    hide RunFrom, Allows;
    var steps := before + [last];
    assert forall k :: 0 <= k <= |before| ==> steps[..k] == before[..k];
    assert steps[..|steps|] == steps && before[..|before|] == before;
  }

  lemma RunOneMore(digest: Digest, s: Store, before: seq<Step>, last: Step)
    ensures RunFrom(digest, s, before + [last]) == Apply(digest, RunFrom(digest, s, before), last)
  {
    hide Apply;
    assert (before + [last])[..|before + [last]| - 1] == before;
  }

  /** Over a whole run, an approval stands at every point if and only if every step keeps it. */
  lemma {:induction false} StandsThroughout(digest: Digest, s: Store, steps: seq<Step>, app: AppSpec)
    requires CollisionFree(digest) && Inv(digest, s) && Allows(digest, s.memory, app)
    ensures AlwaysAllowed(digest, s, steps, app) <==> AlwaysKept(steps, app)
  {
    hide Apply, Allows, Keeps, Inv;
    if steps == [] {
      assert AlwaysAllowed(digest, s, [], app) && AlwaysKept([], app);
    } else {
      hide AlwaysAllowed, RunFrom;
      var before, last := steps[..|steps| - 1], steps[|steps| - 1];
      assert steps == before + [last];
      StandsThroughout(digest, s, before, app);
      AllowedOneMore(digest, s, before, last, app);
      assert AlwaysKept(steps, app) <==> AlwaysKept(before, app) && Keeps(last, app);
      RunOneMore(digest, s, before, last);
      RunKeepsInv(digest, s, before);
      if Allows(digest, RunFrom(digest, s, before).memory, app) {
        ApprovalSurvives(digest, RunFrom(digest, s, before), last, app);
      }
    }
  }

  /** A failed re-approval always takes the earlier approval out of memory, though the file still has it. */
  lemma FailedReapprovalSuspends(digest: Digest, s: Store, app: AppSpec, at: int)
    requires CollisionFree(digest) && Inv(digest, s) && Allows(digest, s.memory, app)
    ensures !Allows(digest, Apply(digest, s, Approve(app, at, Failed)).memory, app)
    ensures Allows(digest, Apply(digest, s, Approve(app, at, Failed)).disk, app)
  {
    Standing(digest, s, Approve(app, at, Failed), app);
    MemoryIsOnDisk(digest, s, app);
    assert Full(s.memory, app) ==> Key(app) !in s.memory;
    hide Key, Apply;
  }

  lemma FieldsApart(a: string, x: string, b: string, y: string)
    requires '\0' !in a && '\0' !in b && a + "\0" + x == b + "\0" + y
    ensures a == b && x == y
  {
    var s, t := a + ['\0'] + x, b + ['\0'] + y;
    IndexOfConcat(a, '\0', x);
    IndexOfConcat(b, '\0', y);
    assert s == t;
    assert s[..|a|] == a && t[..|b|] == b;
    assert s[|a| + 1..] == x && t[|b| + 1..] == y;
  }

  /** Keys are equal exactly when id, version and manifest are, as long as the first two contain no NUL. */
  lemma KeysApart(a: AppSpec, b: AppSpec)
    requires forall app :: app in {a, b} ==> '\0' !in app.id && '\0' !in app.version
    ensures Key(a) == Key(b) <==> a.id == b.id && a.version == b.version && a.manifest == b.manifest
  {
    assert a in {a, b} && b in {a, b};
    if Key(a) == Key(b) {
      assert Key(a) == a.id + "\0" + (a.version + "\0" + a.manifest);
      assert Key(b) == b.id + "\0" + (b.version + "\0" + b.manifest);
      FieldsApart(a.id, a.version + "\0" + a.manifest, b.id, b.version + "\0" + b.manifest);
      FieldsApart(a.version, a.manifest, b.version, b.manifest);
    }
  }

  /** Approving one app, however it ends, leaves the standing of any other id, version or manifest in memory alone. */
  lemma OthersUndisturbed(digest: Digest, s: Store, other: AppSpec, at: int, outcome: Outcome, app: AppSpec)
    requires CollisionFree(digest) && Inv(digest, s) && outcome != Crashed(false)
    requires forall a :: a in {app, other} ==> '\0' !in a.id && '\0' !in a.version
    requires other.id != app.id || other.version != app.version || other.manifest != app.manifest
    ensures Allows(digest, Apply(digest, s, Approve(other, at, outcome)).memory, app) <==> Allows(digest, s.memory, app)
  {
    KeysApart(other, app);
    Standing(digest, s, Approve(other, at, outcome), app);
    hide Key, Apply, Allows, Inv, Full;
  }

  // ----- What becomes of a suspended approval -----

  datatype Fate = Suspended | Restored | Gone

  /** The first step that writes the file or reads it back decides. */
  function FateOf(digest: Digest, s: Store, steps: seq<Step>): Fate {
    if steps == [] then Suspended
    else
      var before, last := steps[..|steps| - 1], steps[|steps| - 1];
      var t := RunFrom(digest, s, before);
      match FateOf(digest, s, before)
      case Restored => Restored
      case Gone => Gone
      case Suspended => if Replaces(t, last) then Gone else if Reloads(t, last) then Restored else Suspended
  }

  /**
   A suspended approval, on disk but no longer in memory, under any run of approvals with other keys,
   failures, crashes and restarts: it is allowed again if and only if the file was read back before it
   was next written, and it has left the disk for good if and only if it was written first.
   */
  lemma {:induction false} SuspensionEnds(digest: Digest, s: Store, steps: seq<Step>, app: AppSpec)
    requires CollisionFree(digest) && Allows(digest, s.disk, app) && !Allows(digest, s.memory, app)
    requires forall i :: 0 <= i < |steps| && steps[i].Approve? ==> Key(steps[i].app) != Key(app)
    ensures
      var t, fate := RunFrom(digest, s, steps), FateOf(digest, s, steps);
      (Allows(digest, t.memory, app) <==> fate == Restored) && (Allows(digest, t.disk, app) <==> fate != Gone)
  {
    hide Apply, Allows, Key, Full;
    if steps != [] {
      var before := steps[..|steps| - 1];
      SuspensionEnds(digest, s, before, app);
      Standing(digest, RunFrom(digest, s, before), steps[|steps| - 1], app);
    }
  }

  /** Once in neither place, only an approval of the very same specification that reaches the file brings it back. */
  lemma {:induction false} GoneForGood(digest: Digest, s: Store, steps: seq<Step>, app: AppSpec)
    requires CollisionFree(digest) && !Allows(digest, s.disk, app) && !Allows(digest, s.memory, app)
    requires forall i :: 0 <= i < |steps| && Replaces(RunFrom(digest, s, steps[..i]), steps[i]) ==> steps[i].app != app
    ensures
      var t := RunFrom(digest, s, steps);
      !Allows(digest, t.disk, app) && !Allows(digest, t.memory, app)
  {
    hide Apply, Allows, Key, Full;
    if steps != [] {
      var before, n := steps[..|steps| - 1], |steps| - 1;
      assert forall i :: 0 <= i < n ==> steps[..i] == before[..i];
      GoneForGood(digest, s, before, app);
      assert steps[..n] == before;
      Standing(digest, RunFrom(digest, s, before), steps[n], app);
    }
  }

  /** A failed re-approval, then any other approval: the first one is lost, and a restart does not bring it back. */
  lemma OtherApprovalErases(digest: Digest, s: Store, app: AppSpec, other: AppSpec, at: int)
    requires CollisionFree(digest) && Inv(digest, s) && Allows(digest, s.memory, app) && Key(other) != Key(app)
    ensures
      var t := RunFrom(digest, s, [Approve(app, at, Failed), Approve(other, at, Persisted), Restart]);
      !Allows(digest, t.memory, app) && !Allows(digest, t.disk, app) && Allows(digest, t.memory, other)
  {
    var failed, next := Approve(app, at, Failed), Approve(other, at, Persisted);
    var one := Apply(digest, s, failed);
    FailedReapprovalSuspends(digest, s, app, at);
    RoomAfterFailure(digest, s, app, at, other);
    var two := Apply(digest, one, next);
    Standing(digest, one, next, app);
    Standing(digest, one, next, other);
    Standing(digest, two, Restart, app);
    Standing(digest, two, Restart, other);
    hide Apply, Allows, Key, Full;
    RunThree(digest, s, failed, next, Restart);
  }

  /** The failed approval took its record out, so there is room for another. */
  lemma RoomAfterFailure(digest: Digest, s: Store, app: AppSpec, at: int, other: AppSpec)
    requires Inv(digest, s) && Allows(digest, s.memory, app)
    ensures !Full(Apply(digest, s, Approve(app, at, Failed)).memory, other)
  {
    RecordsFit(s.memory, s.disk, app, Approval(digest, app, at));
    OneFewer(s.memory, Key(app), Approval(digest, app, at));
    FailedMemory(digest, s, app, at);
    hide Key, Inv, Approval, Apply;
  }

  lemma FailedMemory(digest: Digest, s: Store, app: AppSpec, at: int)
    requires Key(app) in s.memory
    ensures Apply(digest, s, Approve(app, at, Failed)).memory ==
            s.memory[Key(app) := Approval(digest, app, at)] - {Key(app)}
  {
    hide Key, Approval;
  }

  lemma OneFewer(records: Records, key: string, status: Status)
    requires key in records
    ensures |records[key := status] - {key}| == |records| - 1
  {
    var after := records[key := status] - {key};
    assert after.Keys == records.Keys - {key};
    assert |after| == |after.Keys| && |records| == |records.Keys|;
  }

  lemma RunThree(digest: Digest, s: Store, a: Step, b: Step, c: Step)
    ensures RunFrom(digest, s, [a, b, c]) == Apply(digest, Apply(digest, Apply(digest, s, a), b), c)
  {
    hide Apply;
    assert [a, b, c][..2] == [a, b] && [a, b][..1] == [a] && [a][..0] == [];
    assert RunFrom(digest, s, [a]) == Apply(digest, s, a);
    assert RunFrom(digest, s, [a, b]) == Apply(digest, Apply(digest, s, a), b);
  }

  class ApprovalStore {
    var records: Records
    var file: Records
    ghost var reached: set<AppSpec>

    ghost function Value(): Store
      reads this
    {
      Store(records, file, reached)
    }

    constructor ()
      ensures Value() == EMPTY
    {
      records, file, reached := map[], map[], {};
    }

    method Approve(digest: Digest, app: AppSpec, at: int, outcome: Outcome) returns (status: Option<Status>)
      modifies this
      ensures Value() == Apply(digest, old(Value()), Step.Approve(app, at, outcome))
      ensures status.Some? <==> !Full(old(records), app) && outcome == Persisted
      ensures status.Some? ==> Allows(digest, records, app)
    {
      hide Key;
      var key := Key(app);
      if key !in records && |records| >= MAX_RECORDS {
        return None;
      }
      records := records[key := Approval(digest, app, at)];
      if outcome != Failed && outcome != Crashed(false) {
        file := records;
        reached := reached + {app};
      }
      if outcome.Crashed? {
        records := file;
        return None;
      }
      if outcome != Persisted {
        records := records - {key};
        return None;
      }
      return Some(records[key]);
    }

    /** A new process reads the file back. */
    method Reload(digest: Digest)
      modifies this
      ensures Value() == Apply(digest, old(Value()), Restart)
    {
      records := file;
    }

    method Allowed(digest: Digest, app: AppSpec) returns (ok: bool)
      ensures ok == Allows(digest, records, app)
    {
      var key := Key(app);
      if key !in records {
        return false;
      }
      var s := records[key];
      return s.id == app.id && s.version == app.version && s.image == app.image && s.manifest == app.manifest
             && s.specification == digest(app);
    }
  }
}
