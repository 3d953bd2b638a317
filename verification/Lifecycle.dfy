/**
 The workstation lifecycle protocol (internal/workstations/state.go, internal/httpapi/workstations.go,
 internal/database/database.go): requests, background jobs, reconciliation and crashes over shared
 rows, in every interleaving.

 A process is the straight-line code of one handler or job.  Each database transaction and each
 worker call is one step, and may fail.  A run is any sequence of steps.
 */
module Lifecycle {
  import opened Text

  datatype State =
    | Creating | PullingImages | CreatingStorage | StartingVpn | WaitingForVpn | StartingApps | Ready
    | VpnFailed | Unhealthy | Locked | Stopping | Stopped | Deleting | Deleted | Error

  function Transitions(from: State): set<State> {
    match from
    case Creating => {PullingImages, CreatingStorage, Error, Deleting}
    case PullingImages => {CreatingStorage, Error, Deleting}
    case CreatingStorage => {StartingVpn, StartingApps, Error, Deleting}
    case StartingVpn => {WaitingForVpn, VpnFailed, Error, Deleting}
    case WaitingForVpn => {StartingApps, VpnFailed, Locked, Error, Deleting}
    case StartingApps => {Ready, Unhealthy, VpnFailed, Error, Deleting}
    case Ready => {PullingImages, Stopping, Unhealthy, VpnFailed, Locked, Deleting, Error}
    case VpnFailed => {PullingImages, StartingVpn, Locked, Stopping, Deleting, Error}
    case Unhealthy => {PullingImages, StartingApps, Stopping, Deleting, Error}
    case Locked => {PullingImages, StartingVpn, Stopping, Deleting, Error}
    case Stopping => {Stopped, Error}
    case Stopped => {PullingImages, CreatingStorage, StartingVpn, StartingApps, Deleting, Error}
    case Deleting => {Deleted, Error}
    case Error => {PullingImages, CreatingStorage, StartingVpn, StartingApps, Stopping, Deleting}
    case Deleted => {}
  }

  predicate CanTransition(from: State, to: State) {
    to in Transitions(from)
  }

  /** The same table read the other way: from where a state may be entered. */
  function Sources(to: State): set<State> {
    match to
    case PullingImages => {Creating, Ready, VpnFailed, Unhealthy, Locked, Stopped, Error}
    case CreatingStorage => {Creating, PullingImages, Stopped, Error}
    case StartingVpn => {CreatingStorage, VpnFailed, Locked, Stopped, Error}
    case WaitingForVpn => {StartingVpn}
    case StartingApps => {CreatingStorage, WaitingForVpn, Unhealthy, Stopped, Error}
    case Ready => {StartingApps}
    case VpnFailed => {StartingVpn, WaitingForVpn, StartingApps, Ready}
    case Unhealthy => {StartingApps, Ready}
    case Locked => {WaitingForVpn, Ready, VpnFailed}
    case Stopping => {Ready, VpnFailed, Unhealthy, Locked, Error}
    case Stopped => {Stopping}
    case Deleted => {Deleting}
    case Creating => {}
    case Deleting =>
      {Creating, PullingImages, CreatingStorage, StartingVpn, WaitingForVpn, StartingApps, Ready, VpnFailed, Unhealthy,
       Locked, Stopped, Error}
    case Error =>
      {Creating, PullingImages, CreatingStorage, StartingVpn, WaitingForVpn, StartingApps, Ready, VpnFailed, Unhealthy,
       Locked, Stopping, Stopped, Deleting}
  }

  predicate OnTheWayUp(s: State) {
    s.Creating? || s.PullingImages? || s.CreatingStorage? || s.StartingVpn? || s.WaitingForVpn? || s.StartingApps?
  }

  lemma TableBothWays(from: State, to: State)
    ensures CanTransition(from, to) <==> from in Sources(to)
  {
    hide CanTransition, Sources;
    if OnTheWayUp(from) {
      EarlyEdges(from, to);
    } else if from.Ready? || from.VpnFailed? || from.Unhealthy? || from.Locked? {
      SettledEdges(from, to);
    } else {
      LateEdges(from, to);
    }
  }

  lemma EarlyEdges(from: State, to: State)
    requires OnTheWayUp(from)
    ensures CanTransition(from, to) <==> from in Sources(to)
  {
  }

  lemma SettledEdges(from: State, to: State)
    requires from.Ready? || from.VpnFailed? || from.Unhealthy? || from.Locked?
    ensures CanTransition(from, to) <==> from in Sources(to)
  {
  }

  lemma LateEdges(from: State, to: State)
    requires from.Stopping? || from.Stopped? || from.Deleting? || from.Deleted? || from.Error?
    ensures CanTransition(from, to) <==> from in Sources(to)
  {
  }

  // ----- Rows -----

  datatype Job = Provision | Start | Stop | Restart | Update | Delete

  /** A request handler, or the background job it starts. */
  datatype Role = Handler(job: Job) | Background(job: Job)

  /** Who committed a state change; for a process, whether its own worker call had already succeeded. */
  datatype Committer = Process(pid: nat, role: Role, workerDone: bool) | Reconciler

  datatype Event = Event(from: State, to: State, author: Committer)

  datatype Row = Row(state: State, vpnRequired: bool, events: seq<Event>)

  type Rows = map<string, Row>

  predicate SwapApplies(rows: Rows, id: string, from: State) {
    id in rows && rows[id].state == from
  }

  /** `SetWorkstationState`: the update takes effect only on a row still in state `from`. */
  function Swap(rows: Rows, id: string, from: State, to: State, author: Committer): Rows {
    if SwapApplies(rows, id, from) then
      rows[id := rows[id].(state := to, events := rows[id].events + [Event(from, to, author)])]
    else rows
  }

  // ----- Code of the jobs and request handlers -----

  datatype Instruction =
    | Load               // read the row into the process's snapshot
    | Call               // the job's one call to the worker
    | Move(to: State)    // `transition`: check the table against the snapshot, then swap
    | Spawn(job: Job)    // start the background job

  /** The way from created storage to `Ready`. */
  function BringUp(vpn: bool): seq<Instruction> {
    (if vpn then [Move(StartingVpn), Move(WaitingForVpn)] else []) + [Move(StartingApps), Move(Ready)]
  }

  function JobCode(job: Job, vpn: bool): seq<Instruction> {
    match job
    case Provision => [Load, Move(PullingImages), Call, Move(CreatingStorage)] + BringUp(vpn)
    case Update => [Load, Call, Move(CreatingStorage)] + BringUp(vpn)
    case Restart => [Load, Call, Move(Stopped)] + BringUp(vpn)
    case Start => [Load, Call] + (if vpn then [Move(WaitingForVpn), Move(StartingApps)] else []) + [Move(Ready)]
    case Stop => [Load, Call, Move(Stopped)]
    case Delete => [Load, Call, Move(Deleted)]
  }

  /** `beginAction`: the first transition is made before the job starts. */
  function RequestCode(job: Job, vpn: bool): seq<Instruction>
    requires job != Provision
  {
    var first :=
      match job
      case Start => if vpn then StartingVpn else StartingApps
      case Stop => Stopping
      case Restart => Stopping
      case Update => PullingImages
      case Delete => Deleting;
    [Load, Move(first), Spawn(job)]
  }

  datatype Proc = Proc(id: string, role: Role, code: seq<Instruction>, snapshot: State, workerDone: bool)

  /** A reconciliation in progress: what the worker listed, and the records still to be looked at. */
  datatype Reconcile = Reconcile(resources: set<string>, records: seq<(string, State)>)

  datatype System = System(rows: Rows, procs: map<nat, Proc>, reconciles: map<nat, Reconcile>, unused: nat)

  const EMPTY := System(map[], map[], map[], 0)

  // ----- Steps -----

  /** How a transaction or call ends; `Lost` is applied, but reported to the caller as an error. */
  datatype Outcome = Succeeds | Fails | Lost

  datatype Step =
    | Create(id: string, vpnRequired: bool)
    | Request(id: string, job: Job)
    | Execute(pid: nat, outcome: Outcome)
    | BeginReconcile(resources: set<string>, records: seq<(string, State)>)
    | ReconcileNext(rid: nat, outcome: Outcome)
    | Crash

  function Launch(s: System, id: string, role: Role, code: seq<Instruction>): System {
    s.(procs := s.procs[s.unused := Proc(id, role, code, Creating, false)], unused := s.unused + 1)
  }

  function WithProc(s: System, pid: nat, p: Proc): System {
    s.(procs := s.procs[pid := p])
  }

  /** The process returns. */
  function Return(s: System, pid: nat, p: Proc): System {
    WithProc(s, pid, p.(code := []))
  }

  function ExecuteMove(s: System, pid: nat, p: Proc, to: State, outcome: Outcome): System
    requires p.code != []
  {
    if !CanTransition(p.snapshot, to) || outcome == Fails || !SwapApplies(s.rows, p.id, p.snapshot) then
      Return(s, pid, p)
    else
      var moved := s.(rows := Swap(s.rows, p.id, p.snapshot, to, Process(pid, p.role, p.workerDone)));
      if outcome == Lost then Return(moved, pid, p)
      else WithProc(moved, pid, p.(code := p.code[1..], snapshot := to))
  }

  function ExecuteNext(s: System, pid: nat, p: Proc, outcome: Outcome): System
    requires p.code != []
  {
    var next := p.(code := p.code[1..]);
    match p.code[0]
    case Load =>
      if outcome != Succeeds || p.id !in s.rows then Return(s, pid, p)
      else WithProc(s, pid, next.(snapshot := s.rows[p.id].state))
    case Call =>
      // A failed worker call leaves one thing to try: recording the error.
      if outcome == Succeeds then WithProc(s, pid, next.(workerDone := true))
      else WithProc(s, pid, p.(code := [Move(Error)]))
    case Move(to) => ExecuteMove(s, pid, p, to, outcome)
    case Spawn(job) =>
      if p.id !in s.rows then Return(s, pid, p)
      else Launch(WithProc(s, pid, next), p.id, Background(job), JobCode(job, s.rows[p.id].vpnRequired))
  }

  predicate Inactive(state: State) {
    state == Deleted || state == Deleting
  }

  /** `AllActiveWorkstations`: every active row, as it is now. */
  ghost predicate ActiveRecords(rows: Rows, records: seq<(string, State)>) {
    && (forall r :: r in records ==> r.0 in rows && rows[r.0].state == r.1 && !Inactive(r.1))
    && (forall id :: id in rows && !Inactive(rows[id].state) ==> (id, rows[id].state) in records)
  }

  predicate MarksError(resources: set<string>, record: (string, State)) {
    record.0 !in resources && record.1 != Creating && record.1 != PullingImages
  }

  function ReconcileRecord(rows: Rows, resources: set<string>, record: (string, State)): Rows {
    if MarksError(resources, record) then Swap(rows, record.0, record.1, Error, Reconciler) else rows
  }

  ghost function Apply(s: System, step: Step): System {
    match step
    case Create(id, vpn) =>
      if id in s.rows then s
      else Launch(s.(rows := s.rows[id := Row(Creating, vpn, [])]), id, Background(Provision), JobCode(Provision, vpn))
    case Request(id, job) =>
      if id !in s.rows || job == Provision then s
      else Launch(s, id, Handler(job), RequestCode(job, s.rows[id].vpnRequired))
    case Execute(pid, outcome) =>
      if pid !in s.procs || s.procs[pid].code == [] then s else ExecuteNext(s, pid, s.procs[pid], outcome)
    case BeginReconcile(resources, records) =>
      if !ActiveRecords(s.rows, records) then s
      else s.(reconciles := s.reconciles[s.unused := Reconcile(resources, records)], unused := s.unused + 1)
    case ReconcileNext(rid, outcome) =>
      if rid !in s.reconciles || s.reconciles[rid].records == [] then s
      else
        var r := s.reconciles[rid];
        s.(reconciles := s.reconciles[rid := r.(records := r.records[1..])],
           rows := if outcome == Fails then s.rows else ReconcileRecord(s.rows, r.resources, r.records[0]))
    case Crash => s.(procs := map[], reconciles := map[])
  }

  ghost function Run(s: System, steps: seq<Step>): System
    decreases |steps|
  {
    if steps == [] then s else Run(Apply(s, steps[0]), steps[1..])
  }

  // ----- What every step keeps -----

  /** `events` leads from `Creating` to `state` without a gap. */
  predicate Path(events: seq<Event>, state: State) {
    && (|events| == 0 ==> state == Creating)
    && (|events| > 0 ==> events[0].from == Creating && events[|events| - 1].to == state)
    && (forall i :: 0 < i < |events| ==> events[i].from == events[i - 1].to)
  }

  /** What is true of one committed change, on its own. */
  predicate LegalEvent(e: Event, vpn: bool) {
    && (CanTransition(e.from, e.to) || (e.author.Reconciler? && e.from == Error))
    && (e.author.Reconciler? ==> e.to == Error)
    && (vpn && e.to == StartingApps ==> e.from == WaitingForVpn)
    && (e.author.Process? ==> MayEnter(e.author.role, e.to, vpn) && (Earned(e.to) ==> e.author.workerDone))
  }

  /** States that are only reported once the worker has done its part. */
  predicate Earned(state: State) {
    state in {CreatingStorage, WaitingForVpn, Ready, Stopped, Deleted}
  }

  /** Which handler or job may bring a workstation into a state. */
  predicate MayEnter(role: Role, to: State, vpn: bool) {
    match to
    case PullingImages => role == Background(Provision) || role == Handler(Update)
    case CreatingStorage => role == Background(Provision) || role == Background(Update)
    case StartingVpn => vpn
    case WaitingForVpn => vpn && role.Background?
    case Ready => role.Background? && role.job != Stop && role.job != Delete
    case Stopping => role == Handler(Stop) || role == Handler(Restart)
    case Stopped => role == Background(Stop) || role == Background(Restart)
    case Deleting => role == Handler(Delete)
    case Deleted => role == Background(Delete)
    case _ => to == StartingApps || to == Error
  }

  predicate LegalRow(row: Row) {
    Path(row.events, row.state) && forall i :: 0 <= i < |row.events| ==> LegalEvent(row.events[i], row.vpnRequired)
  }

  /** The code still to run starts apps from behind the VPN only, and reports earned states after its call only. */
  predicate LegalCode(code: seq<Instruction>, role: Role, vpn: bool, snapshot: State, workerDone: bool) {
    && (vpn && |code| > 0 && code[0] == Move(StartingApps) ==> snapshot == WaitingForVpn)
    && (vpn ==> forall i :: 0 < i < |code| && code[i] == Move(StartingApps) ==> code[i - 1] == Move(WaitingForVpn))
    && (forall i :: 0 <= i < |code| && code[i].Move? ==> MayEnter(role, code[i].to, vpn))
    && (forall i :: 0 <= i < |code| && code[i].Move? && Earned(code[i].to) ==> workerDone || Call in code[..i])
  }

  predicate LegalProc(rows: Rows, p: Proc) {
    p.id in rows && LegalCode(p.code, p.role, rows[p.id].vpnRequired, p.snapshot, p.workerDone)
  }

  ghost predicate Inv(s: System) {
    && (forall id :: id in s.rows ==> LegalRow(s.rows[id]))
    && (forall pid :: pid in s.procs ==> LegalProc(s.rows, s.procs[pid]))
    && (forall rid :: rid in s.reconciles ==>
          forall i :: 0 <= i < |s.reconciles[rid].records| ==> !Inactive(s.reconciles[rid].records[i].1))
  }

  lemma JobCodeEnters(job: Job, vpn: bool)
    ensures forall i :: 0 <= i < |JobCode(job, vpn)| && JobCode(job, vpn)[i].Move? ==>
              MayEnter(Background(job), JobCode(job, vpn)[i].to, vpn)
  {
    match job {
      case Provision =>
      case Update =>
      case Restart =>
      case Start =>
      case Stop =>
      case Delete =>
    }
  }

  lemma JobCodeCallsFirst(job: Job, vpn: bool)
    ensures
      var code := JobCode(job, vpn);
      var at := if job == Provision then 2 else 1;
      && at < |code| && code[at] == Call
      && forall i :: 0 <= i <= at && code[i].Move? ==> !Earned(code[i].to)
  {
  }

  lemma JobCodeWaitsForVpn(job: Job)
    ensures
      var code := JobCode(job, true);
      && code[0] == Load
      && forall i :: 0 < i < |code| && code[i] == Move(StartingApps) ==> code[i - 1] == Move(WaitingForVpn)
  {
  }

  lemma JobCodeLegal(job: Job, vpn: bool)
    ensures LegalCode(JobCode(job, vpn), Background(job), vpn, Creating, false)
  {
    hide MayEnter, Earned, JobCode;
    JobCodeEnters(job, vpn);
    JobCodeCallsFirst(job, vpn);
    JobCodeWaitsForVpn(job);
    var code := JobCode(job, vpn);
    var at := if job == Provision then 2 else 1;
    forall i | 0 <= i < |code| && code[i].Move? && Earned(code[i].to)
      ensures Call in code[..i]
    {
      assert code[..i][at] == Call;
    }
  }

  lemma RequestCodeLegal(job: Job, vpn: bool)
    requires job != Provision
    ensures LegalCode(RequestCode(job, vpn), Handler(job), vpn, Creating, false)
  {
  }

  lemma LegalCodeTail(code: seq<Instruction>, role: Role, vpn: bool, snapshot: State, workerDone: bool,
                      snapshot': State, workerDone': bool)
    requires code != [] && LegalCode(code, role, vpn, snapshot, workerDone)
    requires code[0] == Move(WaitingForVpn) ==> snapshot' == WaitingForVpn
    requires (workerDone || code[0] == Call) ==> workerDone'
    ensures LegalCode(code[1..], role, vpn, snapshot', workerDone')
  {
    hide MayEnter, Earned;
    var tail := code[1..];
    forall i | 0 <= i < |tail| && tail[i].Move? && Earned(tail[i].to)
      ensures workerDone' || Call in tail[..i]
    {
      assert code[i + 1] == tail[i];
      assert code[..i + 1] == [code[0]] + tail[..i];
    }
    if |tail| > 0 {
      assert code[1] == tail[0];
    }
  }

  lemma SwapKeepsRows(rows: Rows, id: string, from: State, to: State, author: Committer)
    requires forall i :: i in rows ==> LegalRow(rows[i])
    requires SwapApplies(rows, id, from) ==> LegalEvent(Event(from, to, author), rows[id].vpnRequired)
    ensures forall i :: i in Swap(rows, id, from, to, author) ==> LegalRow(Swap(rows, id, from, to, author)[i])
  {
    hide LegalEvent;
  }

  lemma SwapKeepsProcs(rows: Rows, id: string, from: State, to: State, author: Committer, p: Proc)
    requires LegalProc(rows, p)
    ensures LegalProc(Swap(rows, id, from, to, author), p)
  {
    hide LegalCode;
  }

  lemma MoveIsLegal(p: Proc, vpn: bool, pid: nat, to: State)
    requires p.code != [] && p.code[0] == Move(to) && LegalCode(p.code, p.role, vpn, p.snapshot, p.workerDone)
    requires CanTransition(p.snapshot, to)
    ensures LegalEvent(Event(p.snapshot, to, Process(pid, p.role, p.workerDone)), vpn)
  {
    assert p.code[0] == Move(to) && p.code[..0] == [];
  }

  lemma ReconcileIsLegal(state: State, vpn: bool)
    requires !Inactive(state) && state != Creating && state != PullingImages
    ensures LegalEvent(Event(state, Error, Reconciler), vpn)
  {
  }

  lemma WithProcKeepsInv(s: System, pid: nat, p: Proc)
    requires Inv(s) && LegalProc(s.rows, p)
    ensures Inv(WithProc(s, pid, p))
  {
    hide LegalRow, LegalProc;
  }

  /** A legal swap keeps the invariant, whoever makes it. */
  lemma SwapKeepsInv(s: System, id: string, from: State, to: State, author: Committer)
    requires Inv(s)
    requires SwapApplies(s.rows, id, from) ==> LegalEvent(Event(from, to, author), s.rows[id].vpnRequired)
    ensures Inv(s.(rows := Swap(s.rows, id, from, to, author)))
  {
    hide LegalRow, LegalProc, LegalEvent, Swap;
    SwapKeepsRows(s.rows, id, from, to, author);
    forall q | q in s.procs
      ensures LegalProc(Swap(s.rows, id, from, to, author), s.procs[q])
    {
      SwapKeepsProcs(s.rows, id, from, to, author, s.procs[q]);
    }
  }

  lemma MoveKeepsInv(s: System, pid: nat, p: Proc, to: State, outcome: Outcome)
    requires Inv(s) && pid in s.procs && s.procs[pid] == p && p.code != [] && p.code[0] == Move(to)
    ensures Inv(ExecuteMove(s, pid, p, to, outcome))
  {
    assert LegalProc(s.rows, p);
    hide Inv, LegalEvent, LegalCode, CanTransition, Swap;
    EmptyCodeLegal(s.rows, p);
    WithProcKeepsInv(s, pid, p.(code := []));
    if CanTransition(p.snapshot, to) && outcome != Fails && SwapApplies(s.rows, p.id, p.snapshot) {
      var author := Process(pid, p.role, p.workerDone);
      MoveIsLegal(p, s.rows[p.id].vpnRequired, pid, to);
      SwapKeepsInv(s, p.id, p.snapshot, to, author);
      SwapKeepsProcs(s.rows, p.id, p.snapshot, to, author, p);
      MovedKeepsInv(s.(rows := Swap(s.rows, p.id, p.snapshot, to, author)), pid, p, to);
    }
  }

  /** After its swap a process may stop, or go on with the rest of its code. */
  lemma MovedKeepsInv(s: System, pid: nat, p: Proc, to: State)
    requires Inv(s) && LegalProc(s.rows, p) && p.code != [] && p.code[0] == Move(to)
    ensures Inv(WithProc(s, pid, p.(code := []))) && Inv(WithProc(s, pid, p.(code := p.code[1..], snapshot := to)))
  {
    hide Inv, LegalCode;
    EmptyCodeLegal(s.rows, p);
    WithProcKeepsInv(s, pid, p.(code := []));
    LegalCodeTail(p.code, p.role, s.rows[p.id].vpnRequired, p.snapshot, p.workerDone, to, p.workerDone);
    WithProcKeepsInv(s, pid, p.(code := p.code[1..], snapshot := to));
  }

  lemma EmptyCodeLegal(rows: Rows, p: Proc)
    requires p.id in rows
    ensures LegalProc(rows, p.(code := [])) && LegalProc(rows, p.(code := [Move(Error)]))
  {
  }

  lemma LaunchKeepsInv(s: System, id: string, role: Role, code: seq<Instruction>)
    requires Inv(s) && id in s.rows && LegalCode(code, role, s.rows[id].vpnRequired, Creating, false)
    ensures Inv(Launch(s, id, role, code))
  {
    hide LegalRow, LegalCode;
  }

  lemma ExecuteKeepsInv(s: System, pid: nat, outcome: Outcome)
    requires Inv(s) && pid in s.procs && s.procs[pid].code != []
    ensures Inv(ExecuteNext(s, pid, s.procs[pid], outcome))
  {
    var p := s.procs[pid];
    assert LegalProc(s.rows, p);
    hide Inv, LegalCode, JobCode, CanTransition;
    EmptyCodeLegal(s.rows, p);
    WithProcKeepsInv(s, pid, p.(code := []));
    WithProcKeepsInv(s, pid, p.(code := [Move(Error)]));
    var next := p.(code := p.code[1..]);
    match p.code[0] {
      case Load =>
        LegalCodeTail(p.code, p.role, s.rows[p.id].vpnRequired, p.snapshot, p.workerDone,
                      s.rows[p.id].state, p.workerDone);
        WithProcKeepsInv(s, pid, next.(snapshot := s.rows[p.id].state));
      case Call =>
        LegalCodeTail(p.code, p.role, s.rows[p.id].vpnRequired, p.snapshot, p.workerDone, p.snapshot, true);
        WithProcKeepsInv(s, pid, next.(workerDone := true));
      case Move(to) =>
        MoveKeepsInv(s, pid, p, to, outcome);
      case Spawn(job) =>
        LegalCodeTail(p.code, p.role, s.rows[p.id].vpnRequired, p.snapshot, p.workerDone, p.snapshot, p.workerDone);
        WithProcKeepsInv(s, pid, next);
        JobCodeLegal(job, s.rows[p.id].vpnRequired);
        LaunchKeepsInv(WithProc(s, pid, next), p.id, Background(job), JobCode(job, s.rows[p.id].vpnRequired));
    }
  }

  lemma ReconcileKeepsInv(s: System, rid: nat, outcome: Outcome)
    requires Inv(s)
    ensures Inv(Apply(s, ReconcileNext(rid, outcome)))
  {
    hide LegalRow, LegalProc, LegalEvent, Swap;
    if rid in s.reconciles && s.reconciles[rid].records != [] {
      var r := s.reconciles[rid];
      var record := r.records[0];
      if MarksError(r.resources, record) {
        if SwapApplies(s.rows, record.0, record.1) {
          ReconcileIsLegal(record.1, s.rows[record.0].vpnRequired);
        }
        SwapKeepsInv(s, record.0, record.1, Error, Reconciler);
      }
    }
  }

  lemma NewRowKeepsInv(s: System, id: string, vpn: bool)
    requires Inv(s) && id !in s.rows
    ensures Inv(s.(rows := s.rows[id := Row(Creating, vpn, [])]))
  {
    assert LegalRow(Row(Creating, vpn, []));
    hide LegalRow, LegalCode;
  }

  lemma CreateKeepsInv(s: System, id: string, vpn: bool)
    requires Inv(s)
    ensures Inv(Apply(s, Create(id, vpn)))
  {
    hide Inv, LegalCode, JobCode;
    if id !in s.rows {
      NewRowKeepsInv(s, id, vpn);
      JobCodeLegal(Provision, vpn);
      var made := s.(rows := s.rows[id := Row(Creating, vpn, [])]);
      LaunchKeepsInv(made, id, Background(Provision), JobCode(Provision, vpn));
    }
  }

  lemma ApplyKeepsInv(s: System, step: Step)
    requires Inv(s)
    ensures Inv(Apply(s, step))
  {
    hide LegalRow, LegalProc, JobCode, RequestCode, ExecuteNext;
    match step {
      case Create(id, vpn) => CreateKeepsInv(s, id, vpn);
      case Request(id, job) =>
        if id in s.rows && job != Provision {
          RequestCodeLegal(job, s.rows[id].vpnRequired);
          LaunchKeepsInv(s, id, Handler(job), RequestCode(job, s.rows[id].vpnRequired));
        }
      case Execute(pid, outcome) =>
        if pid in s.procs && s.procs[pid].code != [] {
          ExecuteKeepsInv(s, pid, outcome);
        }
      case ReconcileNext(rid, outcome) => ReconcileKeepsInv(s, rid, outcome);
      case BeginReconcile(resources, records) =>
      case Crash =>
    }
  }

  lemma {:induction false} RunKeepsInv(s: System, steps: seq<Step>)
    requires Inv(s)
    ensures Inv(Run(s, steps))
    decreases |steps|
  {
    hide Inv, Apply;
    if steps != [] {
      ApplyKeepsInv(s, steps[0]);
      RunKeepsInv(Apply(s, steps[0]), steps[1..]);
    }
  }

  // ----- Main results -----

  /**
   In every run, a workstation's committed events form one unbroken path from `Creating` to its
   current state, along edges of the table or Reconcile's error-to-error loop, and nothing follows
   an arrival at `Deleted`.
   */
  lemma EventsFormOnePath(steps: seq<Step>, id: string)
    requires id in Run(EMPTY, steps).rows
    ensures
      var row := Run(EMPTY, steps).rows[id];
      && Path(row.events, row.state)
      && (forall i :: 0 <= i < |row.events| ==>
            var e := row.events[i];
            CanTransition(e.from, e.to) || (e == Event(Error, Error, Reconciler)))
      && (forall i :: 0 <= i < |row.events| && row.events[i].to == Deleted ==> i == |row.events| - 1)
  {
    RunKeepsInv(EMPTY, steps);
    var row := Run(EMPTY, steps).rows[id];
    assert LegalRow(row);
    hide Run, Inv, CanTransition;
    forall i | 0 <= i < |row.events|
      ensures CanTransition(row.events[i].from, row.events[i].to) || row.events[i] == Event(Error, Error, Reconciler)
      ensures row.events[i].from != Deleted
    {
      assert LegalEvent(row.events[i], row.vpnRequired);
      NothingLeavesDeleted(row.events[i].to);
    }
    forall i | 0 <= i < |row.events| - 1
      ensures row.events[i].to != Deleted
    {
      assert row.events[i + 1].from == row.events[i].to;
    }
  }

  lemma NothingLeavesDeleted(to: State)
    ensures !CanTransition(Deleted, to)
  {
  }

  /**
   In every run, each arrival of a VPN-required workstation at `Ready` ends the consecutive
   committed states `StartingVpn`, `WaitingForVpn`, `StartingApps`, `Ready`, and was committed by a
   process whose own worker call had already succeeded.
   */
  lemma ReadyOnlyBehindVpn(steps: seq<Step>, id: string, i: nat)
    requires id in Run(EMPTY, steps).rows
    requires i < |Run(EMPTY, steps).rows[id].events| && Run(EMPTY, steps).rows[id].events[i].to == Ready
    ensures
      var row := Run(EMPTY, steps).rows[id];
      && row.events[i].author.Process? && row.events[i].author.workerDone
      && (row.vpnRequired ==>
            && i >= 3
            && row.events[i - 3].to == StartingVpn
            && row.events[i - 2].from == StartingVpn && row.events[i - 2].to == WaitingForVpn
            && row.events[i - 1].from == WaitingForVpn && row.events[i - 1].to == StartingApps
            && row.events[i].from == StartingApps)
  {
    RunKeepsInv(EMPTY, steps);
    var row := Run(EMPTY, steps).rows[id];
    assert LegalRow(row);
    hide *;
    ReadyEndsVpnPath(row, i);
  }

  /**
   In every run, each committed change was made by a handler or job entitled to it, and the states
   that claim work was done follow a successful call to the worker by the same process.
   */
  lemma EveryStateIsEarned(steps: seq<Step>, id: string, i: nat)
    requires id in Run(EMPTY, steps).rows && i < |Run(EMPTY, steps).rows[id].events|
    ensures
      var row := Run(EMPTY, steps).rows[id];
      var e := row.events[i];
      if e.author.Reconciler? then e.to == Error
      else MayEnter(e.author.role, e.to, row.vpnRequired) && (Earned(e.to) ==> e.author.workerDone)
  {
    RunKeepsInv(EMPTY, steps);
    var row := Run(EMPTY, steps).rows[id];
    hide Run, MayEnter, Earned, CanTransition;
    assert LegalRow(row);
    assert LegalEvent(row.events[i], row.vpnRequired);
  }

  /** The table alone fixes where `Ready` and `WaitingForVpn` are entered from. */
  lemma OnlyWayIn(from: State)
    ensures CanTransition(from, Ready) ==> from == StartingApps
    ensures CanTransition(from, WaitingForVpn) ==> from == StartingVpn
  {
  }

  lemma ReadyEndsVpnPath(row: Row, i: nat)
    requires LegalRow(row) && i < |row.events| && row.events[i].to == Ready
    ensures row.events[i].author.Process? && row.events[i].author.workerDone
    ensures row.vpnRequired ==>
              && i >= 3
              && row.events[i - 3].to == StartingVpn
              && row.events[i - 2].from == StartingVpn && row.events[i - 2].to == WaitingForVpn
              && row.events[i - 1].from == WaitingForVpn && row.events[i - 1].to == StartingApps
              && row.events[i].from == StartingApps
  {
    hide CanTransition;
    var e := row.events;
    OnlyWayIn(e[i].from);
    assert LegalEvent(e[i], row.vpnRequired);
    if row.vpnRequired {
      assert e[i - 1].to == StartingApps;
      assert LegalEvent(e[i - 1], true);
      assert e[i - 2].to == WaitingForVpn;
      OnlyWayIn(e[i - 2].from);
      assert LegalEvent(e[i - 2], true);
      assert e[i - 3].to == StartingVpn;
    }
  }

  // ----- History is append-only -----

  /** Rows stay, keep their VPN requirement, and only ever gain events. */
  ghost predicate Extends(before: Rows, after: Rows) {
    forall id :: id in before ==>
      && id in after && after[id].vpnRequired == before[id].vpnRequired
      && before[id].events <= after[id].events
      && (after[id].events == before[id].events ==> after[id] == before[id])
  }

  lemma SwapExtends(rows: Rows, id: string, from: State, to: State, author: Committer)
    ensures Extends(rows, rows) && Extends(rows, Swap(rows, id, from, to, author))
  {
  }

  lemma ApplyExtends(s: System, step: Step)
    ensures Extends(s.rows, Apply(s, step).rows)
  {
    hide CanTransition, JobCode, RequestCode, Swap, Extends;
    SwapExtends(s.rows, "", Error, Error, Reconciler);
    match step {
      case Execute(pid, outcome) =>
        if pid in s.procs && s.procs[pid].code != [] && s.procs[pid].code[0].Move? {
          var p := s.procs[pid];
          SwapExtends(s.rows, p.id, p.snapshot, p.code[0].to, Process(pid, p.role, p.workerDone));
        }
      case ReconcileNext(rid, outcome) =>
        if rid in s.reconciles && s.reconciles[rid].records != [] {
          var record := s.reconciles[rid].records[0];
          SwapExtends(s.rows, record.0, record.1, Error, Reconciler);
        }
      case Create(id, vpn) =>
        CreateExtends(s.rows, id, Row(Creating, vpn, []));
      case Request(_, _) =>
      case BeginReconcile(_, _) =>
      case Crash =>
    }
  }

  lemma CreateExtends(rows: Rows, id: string, row: Row)
    ensures id !in rows ==> Extends(rows, rows[id := row])
  {
  }

  lemma {:induction false} RunExtends(s: System, steps: seq<Step>)
    ensures Extends(s.rows, Run(s, steps).rows)
    decreases |steps|
  {
    hide Apply;
    if steps != [] {
      ApplyExtends(s, steps[0]);
      RunExtends(Apply(s, steps[0]), steps[1..]);
    }
  }

  lemma {:induction false} RunConcat(s: System, first: seq<Step>, more: seq<Step>)
    ensures Run(s, first + more) == Run(Run(s, first), more)
    decreases |first|
  {
    hide Apply;
    if first == [] {
      assert first + more == more;
    } else {
      assert (first + more)[1..] == first[1..] + more;
      RunConcat(Apply(s, first[0]), first[1..], more);
    }
  }

  /** A deleted workstation's row never changes again, whatever stale jobs and reconciliations are still to come. */
  lemma DeletedIsFinal(steps: seq<Step>, more: seq<Step>, id: string)
    requires id in Run(EMPTY, steps).rows && Run(EMPTY, steps).rows[id].state == Deleted
    ensures id in Run(EMPTY, steps + more).rows
    ensures Run(EMPTY, steps + more).rows[id] == Run(EMPTY, steps).rows[id]
  {
    RunConcat(EMPTY, steps, more);
    RunExtends(Run(EMPTY, steps), more);
    EventsFormOnePath(steps, id);
    EventsFormOnePath(steps + more, id);
    hide Run, CanTransition;
    var before, after := Run(EMPTY, steps).rows[id].events, Run(EMPTY, steps + more).rows[id].events;
    assert after[|before| - 1] == before[|before| - 1];
  }

  // ----- What reconciliation, failures and crashes do to a run -----

  /**
   A reconciliation step changes a row exactly when its transaction goes through, the row is still in
   the state recorded for it, the worker listed nothing for it, and that state is settled and active;
   and then the row is in error.
   */
  lemma ReconcileMarksLost(s: System, rid: nat, outcome: Outcome, id: string)
    requires Inv(s) && id in s.rows && rid in s.reconciles && s.reconciles[rid].records != []
    ensures
      var r, row, after := s.reconciles[rid], s.rows[id], Apply(s, ReconcileNext(rid, outcome)).rows;
      && id in after
      && (after[id] != row <==>
          && outcome != Fails && r.records[0] == (id, row.state) && id !in r.resources
          && row.state !in {Creating, PullingImages, Deleting, Deleted})
      && (after[id] != row ==>
            after[id] == Row(Error, row.vpnRequired, row.events + [Event(row.state, Error, Reconciler)]))
  {
    var r, row := s.reconciles[rid], s.rows[id];
    assert !Inactive(r.records[0].1);
    assert row.events + [Event(row.state, Error, Reconciler)] != row.events;
    hide Inv, CanTransition;
  }

  /** A process whose worker call fails, and which nobody overtook, leaves its workstation in error. */
  lemma FailedCallRecordsError(s: System, pid: nat, outcome: Outcome)
    requires InStep(s, pid) && s.procs[pid].code != [] && s.procs[pid].code[0] == Call && outcome != Succeeds
    requires s.rows[s.procs[pid].id].state !in {Error, Deleted}
    ensures
      var t := Run(s, [Execute(pid, outcome), Execute(pid, Succeeds)]);
      && s.procs[pid].id in t.rows && t.rows[s.procs[pid].id].state == Error
      && pid in t.procs && t.procs[pid].code == []
  {
    var id := s.procs[pid].id;
    TableBothWays(s.rows[id].state, Error);
    RunTwo(s, Execute(pid, outcome), Execute(pid, Succeeds));
    hide CanTransition, Run;
    var t := Apply(s, Execute(pid, outcome));
    assert t.procs[pid].code == [Move(Error)] && t.rows == s.rows;
  }

  /** After a crash nothing that was under way goes on. */
  lemma CrashStopsEverything(s: System, pid: nat, rid: nat, outcome: Outcome)
    ensures
      var t := Apply(s, Crash);
      t.rows == s.rows && Apply(t, Execute(pid, outcome)) == t && Apply(t, ReconcileNext(rid, outcome)) == t
  {
  }

  // ----- Left alone, every action reaches its goal -----

  /** Where code leads when every call and transaction succeeds and nobody interferes; None if the table forbids it. */
  function Walk(code: seq<Instruction>, state: State): Option<State> {
    if code == [] then Some(state)
    else
      match code[0]
      case Load => Walk(code[1..], state)
      case Call => Walk(code[1..], state)
      case Move(to) => if CanTransition(state, to) then Walk(code[1..], to) else None
      case Spawn(_) => None
  }

  /** The state a job starts from: a new workstation's, or the one its handler moved to. */
  function JobStart(job: Job, vpn: bool): State {
    match job
    case Provision => Creating
    case Start => if vpn then StartingVpn else StartingApps
    case Stop => Stopping
    case Restart => Stopping
    case Update => PullingImages
    case Delete => Deleting
  }

  function JobGoal(job: Job): State {
    match job
    case Stop => Stopped
    case Delete => Deleted
    case _ => Ready
  }

  /** Which requests each state admits. */
  lemma RequestsAdmitted(state: State, job: Job, vpn: bool)
    requires job != Provision
    ensures CanTransition(state, JobStart(job, vpn)) <==>
            match job
            case Start =>
              if vpn then state in {CreatingStorage, VpnFailed, Locked, Stopped, Error}
              else state in {CreatingStorage, WaitingForVpn, Unhealthy, Stopped, Error}
            case Stop => state in {Ready, VpnFailed, Unhealthy, Locked, Error}
            case Restart => state in {Ready, VpnFailed, Unhealthy, Locked, Error}
            case Update => state in {Creating, Ready, VpnFailed, Unhealthy, Locked, Stopped, Error}
            case Delete => state !in {Stopping, Deleting, Deleted}
  {
    hide CanTransition;
    TableBothWays(state, JobStart(job, vpn));
  }

  lemma WalkNext(first: Instruction, rest: seq<Instruction>, state: State)
    ensures !first.Spawn? ==>
              Walk([first] + rest, state) ==
              if first.Move? then if CanTransition(state, first.to) then Walk(rest, first.to) else None
              else Walk(rest, state)
  {
    hide CanTransition;
    assert ([first] + rest)[1..] == rest;
  }

  lemma {:induction false} WalkConcat(first: seq<Instruction>, more: seq<Instruction>, state: State)
    requires Walk(first, state).Some?
    ensures Walk(first + more, state) == Walk(more, Walk(first, state).value)
  {
    hide CanTransition;
    if first == [] {
      assert first + more == more;
    } else {
      assert (first + more)[1..] == first[1..] + more;
      WalkConcat(first[1..], more, if first[0].Move? then first[0].to else state);
    }
  }

  lemma WalkTwo(first: Instruction, second: Instruction, state: State)
    ensures !first.Spawn? && !second.Spawn? ==>
              Walk([first, second], state) ==
              var middle := if first.Move? then first.to else state;
              if first.Move? && !CanTransition(state, first.to) then None
              else if !second.Move? then Some(middle)
              else if CanTransition(middle, second.to) then Some(second.to) else None
  {
    hide CanTransition;
    assert [first, second] == [first] + [second] && [second] == [second] + [];
    WalkNext(first, [second], state);
    WalkNext(second, [], if first.Move? then first.to else state);
  }

  lemma BringUpWalks(vpn: bool, state: State)
    requires state == CreatingStorage || state == Stopped
    ensures Walk(BringUp(vpn), state) == Some(Ready)
  {
    hide Walk;
    WalkTwo(Move(StartingApps), Move(Ready), state);
    if vpn {
      WalkTwo(Move(StartingVpn), Move(WaitingForVpn), state);
      WalkTwo(Move(StartingApps), Move(Ready), WaitingForVpn);
      WalkConcat([Move(StartingVpn), Move(WaitingForVpn)], [Move(StartingApps), Move(Ready)], state);
    } else {
      assert BringUp(vpn) == [Move(StartingApps), Move(Ready)];
    }
  }

  /** From the state its handler leaves, the table lets every job through to its goal. */
  lemma JobWalks(job: Job, vpn: bool)
    ensures Walk(JobCode(job, vpn), JobStart(job, vpn)) == Some(JobGoal(job))
  {
    match job {
      case Provision => ProvisionWalks(vpn);
      case Start => StartWalks(vpn);
      case _ => ShortJobWalks(job, vpn);
    }
  }

  lemma ProvisionWalks(vpn: bool)
    ensures Walk(JobCode(Provision, vpn), Creating) == Some(Ready)
  {
    hide Walk, BringUp;
    WalkTwo(Load, Move(PullingImages), Creating);
    WalkTwo(Call, Move(CreatingStorage), PullingImages);
    WalkConcat([Load, Move(PullingImages)], [Call, Move(CreatingStorage)], Creating);
    BringUpWalks(vpn, CreatingStorage);
    var head := [Load, Move(PullingImages)] + [Call, Move(CreatingStorage)];
    assert head == [Load, Move(PullingImages), Call, Move(CreatingStorage)];
    WalkConcat(head, BringUp(vpn), Creating);
  }

  lemma StartWalks(vpn: bool)
    ensures Walk(JobCode(Start, vpn), JobStart(Start, vpn)) == Some(Ready)
  {
    hide Walk;
    if vpn {
      WalkTwo(Load, Call, StartingVpn);
      WalkTwo(Move(WaitingForVpn), Move(StartingApps), StartingVpn);
      WalkConcat([Load, Call], [Move(WaitingForVpn), Move(StartingApps)], StartingVpn);
      WalkTwo(Load, Move(Ready), StartingApps);
      WalkNext(Load, [Move(Ready)], StartingApps);
      assert [Load, Move(Ready)] == [Load] + [Move(Ready)];
      WalkConcat([Load, Call] + [Move(WaitingForVpn), Move(StartingApps)], [Move(Ready)], StartingVpn);
    } else {
      WalkTwo(Call, Move(Ready), StartingApps);
      WalkNext(Load, [Call, Move(Ready)], StartingApps);
      assert JobCode(Start, vpn) == [Load] + [Call, Move(Ready)];
    }
  }

  lemma ShortJobWalks(job: Job, vpn: bool)
    requires job != Provision && job != Start
    ensures Walk(JobCode(job, vpn), JobStart(job, vpn)) == Some(JobGoal(job))
  {
    hide Walk, BringUp;
    var next := if job == Update then CreatingStorage else if job == Delete then Deleted else Stopped;
    var start := JobStart(job, vpn);
    WalkTwo(Call, Move(next), start);
    WalkNext(Load, [Call, Move(next)], start);
    var head := [Load] + [Call, Move(next)];
    assert head == [Load, Call, Move(next)];
    if job == Update || job == Restart {
      BringUpWalks(vpn, next);
      WalkConcat(head, BringUp(vpn), start);
    }
  }

  /** `n` steps of one process, all successful. */
  function Undisturbed(pid: nat, n: nat): seq<Step> {
    if n == 0 then [] else [Execute(pid, Succeeds)] + Undisturbed(pid, n - 1)
  }

  /** The process knows the state, or is about to read it. */
  predicate InStep(s: System, pid: nat) {
    && pid in s.procs && s.procs[pid].id in s.rows
    && var p := s.procs[pid];
    (p.code != [] && p.code[0] == Load) || p.snapshot == s.rows[p.id].state
  }

  lemma StepWalks(s: System, pid: nat)
    requires InStep(s, pid) && s.procs[pid].code != []
    requires Walk(s.procs[pid].code, s.rows[s.procs[pid].id].state).Some?
    ensures
      var p, t := s.procs[pid], Apply(s, Execute(pid, Succeeds));
      && InStep(t, pid) && t.procs[pid].id == p.id && t.procs[pid].code == p.code[1..]
      && Walk(t.procs[pid].code, t.rows[p.id].state) == Walk(p.code, s.rows[p.id].state)
  {
    hide CanTransition;
  }

  /** A process left alone takes its workstation where its code leads. */
  lemma {:induction false} UndisturbedWalks(s: System, pid: nat)
    requires InStep(s, pid) && Walk(s.procs[pid].code, s.rows[s.procs[pid].id].state).Some?
    ensures
      var p := s.procs[pid];
      var t := Run(s, Undisturbed(pid, |p.code|));
      p.id in t.rows && Some(t.rows[p.id].state) == Walk(p.code, s.rows[p.id].state)
    decreases |s.procs[pid].code|
  {
    hide Apply, InStep;
    InStepRuns(s, pid);
    var p := s.procs[pid];
    if p.code != [] {
      StepWalks(s, pid);
      var t := Apply(s, Execute(pid, Succeeds));
      InStepRuns(t, pid);
      UndisturbedWalks(t, pid);
      var steps := Undisturbed(pid, |p.code|);
      assert steps[0] == Execute(pid, Succeeds) && steps[1..] == Undisturbed(pid, |p.code| - 1);
    }
  }

  lemma InStepRuns(s: System, pid: nat)
    requires InStep(s, pid)
    ensures pid in s.procs && s.procs[pid].id in s.rows
  {
  }

  /** A new workstation, left alone, becomes ready. */
  lemma CreationReachesReady(s: System, id: string, vpn: bool)
    requires id !in s.rows
    ensures
      var t := Run(s, [Create(id, vpn)] + Undisturbed(s.unused, |JobCode(Provision, vpn)|));
      id in t.rows && t.rows[id].state == Ready
  {
    hide JobCode, Walk, Undisturbed;
    JobWalks(Provision, vpn);
    JobCodeLoadsFirst(Provision, vpn);
    var t := Apply(s, Create(id, vpn));
    var steps := [Create(id, vpn)] + Undisturbed(s.unused, |JobCode(Provision, vpn)|);
    assert steps[0] == Create(id, vpn) && steps[1..] == Undisturbed(s.unused, |JobCode(Provision, vpn)|);
    UndisturbedWalks(t, s.unused);
  }

  lemma JobCodeLoadsFirst(job: Job, vpn: bool)
    ensures JobCode(job, vpn) != [] && JobCode(job, vpn)[0] == Load
  {
  }

  /** Process `pid` is the handler of `job` with this code still to run. */
  predicate Handling(s: System, pid: nat, id: string, job: Job, code: seq<Instruction>, snapshot: State) {
    && id in s.rows && s.unused == pid + 1
    && pid in s.procs && s.procs[pid] == Proc(id, Handler(job), code, snapshot, false)
  }

  lemma HandlerBegins(s: System, id: string, job: Job)
    requires id in s.rows && job != Provision
    ensures
      var first := JobStart(job, s.rows[id].vpnRequired);
      var t := Apply(s, Request(id, job));
      Handling(t, s.unused, id, job, [Load, Move(first), Spawn(job)], Creating) && t.rows == s.rows
  {
  }

  lemma HandlerMoves(s: System, pid: nat, id: string, job: Job, first: State)
    requires Handling(s, pid, id, job, [Load, Move(first), Spawn(job)], Creating)
    requires CanTransition(s.rows[id].state, first)
    ensures
      var t := Apply(Apply(s, Execute(pid, Succeeds)), Execute(pid, Succeeds));
      && Handling(t, pid, id, job, [Spawn(job)], first)
      && t.rows[id].state == first && t.rows[id].vpnRequired == s.rows[id].vpnRequired
  {
    hide CanTransition;
    var t := Apply(s, Execute(pid, Succeeds));
    assert Handling(t, pid, id, job, [Move(first), Spawn(job)], s.rows[id].state) && t.rows == s.rows;
  }

  lemma HandlerSpawns(s: System, pid: nat, id: string, job: Job, snapshot: State)
    requires Handling(s, pid, id, job, [Spawn(job)], snapshot)
    ensures
      var t := Apply(s, Execute(pid, Succeeds));
      && t.rows == s.rows && pid + 1 in t.procs
      && t.procs[pid + 1] == Proc(id, Background(job), JobCode(job, s.rows[id].vpnRequired), Creating, false)
  {
    hide JobCode;
  }

  function HandlerSteps(pid: nat, id: string, job: Job): seq<Step> {
    [Request(id, job), Execute(pid, Succeeds), Execute(pid, Succeeds), Execute(pid, Succeeds)]
  }

  /** The handler, left alone, moves the row and starts the job. */
  lemma HandlerStarts(s: System, id: string, job: Job)
    requires id in s.rows && job != Provision
    requires CanTransition(s.rows[id].state, JobStart(job, s.rows[id].vpnRequired))
    ensures
      var vpn := s.rows[id].vpnRequired;
      var t := Run(s, HandlerSteps(s.unused, id, job));
      && id in t.rows && t.rows[id].state == JobStart(job, vpn) && s.unused + 1 in t.procs
      && t.procs[s.unused + 1] == Proc(id, Background(job), JobCode(job, vpn), Creating, false)
  {
    hide JobCode, CanTransition, Apply, Run, JobStart;
    var vpn, pid := s.rows[id].vpnRequired, s.unused;
    var first, e := JobStart(job, vpn), Execute(pid, Succeeds);
    RunFour(s, Request(id, job), e, e, e);
    HandlerBegins(s, id, job);
    var t := Apply(s, Request(id, job));
    HandlerMoves(t, pid, id, job, first);
    HandlerSpawns(Apply(Apply(t, e), e), pid, id, job, first);
  }

  lemma RunFour(s: System, a: Step, b: Step, c: Step, d: Step)
    ensures Run(s, [a, b, c, d]) == Apply(Apply(Apply(Apply(s, a), b), c), d)
  {
    hide Apply;
    assert [a, b, c, d] == [a, b] + [c, d];
    RunConcat(s, [a, b], [c, d]);
    RunTwo(s, a, b);
    RunTwo(Run(s, [a, b]), c, d);
  }

  lemma RunTwo(s: System, a: Step, b: Step)
    ensures Run(s, [a, b]) == Apply(Apply(s, a), b)
  {
    hide Apply;
    assert [a, b][1..] == [b];
    assert Run(Apply(s, a), [b]) == Apply(Apply(s, a), b);
  }

  /** A request that the table allows now, left alone, takes the workstation to the request's goal. */
  lemma RequestReachesGoal(s: System, id: string, job: Job)
    requires id in s.rows && job != Provision
    requires CanTransition(s.rows[id].state, JobStart(job, s.rows[id].vpnRequired))
    ensures
      var job' := Undisturbed(s.unused + 1, |JobCode(job, s.rows[id].vpnRequired)|);
      var t := Run(s, HandlerSteps(s.unused, id, job) + job');
      id in t.rows && t.rows[id].state == JobGoal(job)
  {
    hide JobCode, Walk, Undisturbed, Run, CanTransition, HandlerSteps;
    var pid, vpn := s.unused, s.rows[id].vpnRequired;
    var handler := HandlerSteps(pid, id, job);
    HandlerStarts(s, id, job);
    RunConcat(s, handler, Undisturbed(pid + 1, |JobCode(job, vpn)|));
    JobWalks(job, vpn);
    JobCodeLoadsFirst(job, vpn);
    UndisturbedWalks(Run(s, handler), pid + 1);
  }

  // ----- The database methods -----

  class Workstation {
    const id: string
    var state: State

    constructor (id: string, state: State)
      ensures this.id == id && this.state == state
    {
      this.id, this.state := id, state;
    }
  }

  class Database {
    var rows: Rows

    constructor ()
      ensures rows == map[]
    {
      rows := map[];
    }

    method SetWorkstationState(id: string, from: State, to: State, author: Committer, outcome: Outcome)
      returns (ok: bool)
      modifies this
      ensures rows == if outcome == Fails then old(rows) else Swap(old(rows), id, from, to, author)
      ensures ok <==> outcome == Succeeds && SwapApplies(old(rows), id, from)
    {
      var current := rows;
      ok := false;
      if outcome != Fails && SwapApplies(current, id, from) {
        var row := current[id];
        rows := current[id := row.(state := to, events := row.events + [Event(from, to, author)])];
        ok := outcome == Succeeds;
      }
    }

    /** Checks the table against the caller's snapshot, swaps, and moves the snapshot along on success only. */
    method Transition(ws: Workstation, to: State, author: Committer, outcome: Outcome) returns (ok: bool)
      modifies this, ws`state
      ensures ok <==>
              CanTransition(old(ws.state), to) && outcome == Succeeds && SwapApplies(old(rows), ws.id, old(ws.state))
      ensures rows == if CanTransition(old(ws.state), to) && outcome != Fails
                      then Swap(old(rows), ws.id, old(ws.state), to, author) else old(rows)
      ensures ws.state == if ok then to else old(ws.state)
      ensures forall s: System, pid: nat, p: Proc ::
                (s.rows == old(rows) && p.id == ws.id && p.snapshot == old(ws.state) && p.code != []
                 && author == Process(pid, p.role, p.workerDone)) ==>
                  ExecuteMove(s, pid, p, to, outcome).rows == rows
    {
      hide Transitions;
      if !CanTransition(ws.state, to) {
        return false;
      }
      ok := SetWorkstationState(ws.id, ws.state, to, author, outcome);
      if ok {
        ws.state := to;
      }
    }

    /** One undisturbed reconciliation marks exactly the active, settled workstations without resources. */
    method Reconcile(resources: set<string>, records: seq<(string, State)>)
      requires ActiveRecords(rows, records)
      requires forall i, j :: 0 <= i < j < |records| ==> records[i].0 != records[j].0
      modifies this
      ensures rows.Keys == old(rows).Keys
      ensures forall id :: id in rows ==>
                var was := old(rows)[id];
                rows[id] ==
                if id in resources || was.state in {Creating, PullingImages, Deleting, Deleted} then was
                else Row(Error, was.vpnRequired, was.events + [Event(was.state, Error, Reconciler)])
    {
      ghost var before := rows;
      assert records[..0] == [];
      for k := 0 to |records|
        invariant Reconciled(before, rows, resources, records[..k])
      {
        var record := records[k];
        assert records[..k + 1] == records[..k] + [record];
        ReconcileStep(before, rows, resources, records[..k], record);
        if MarksError(resources, record) {
          var _ := SetWorkstationState(record.0, record.1, Error, Reconciler, Succeeds);
        }
      }
      assert records[..|records|] == records;
    }
  }

  function Marked(row: Row, id: string, resources: set<string>): Row {
    if MarksError(resources, (id, row.state)) then
      row.(state := Error, events := row.events + [Event(row.state, Error, Reconciler)])
    else row
  }

  /** The rows after the records in `done`. */
  ghost predicate Reconciled(before: Rows, after: Rows, resources: set<string>, done: seq<(string, State)>) {
    && after.Keys == before.Keys
    && forall id :: id in before ==>
         after[id] == if (id, before[id].state) in done then Marked(before[id], id, resources) else before[id]
  }

  lemma ReconcileStep(before: Rows, rows: Rows, resources: set<string>, done: seq<(string, State)>,
                      record: (string, State))
    requires Reconciled(before, rows, resources, done) && record !in done
    requires record.0 in before && before[record.0].state == record.1
    ensures Reconciled(before, ReconcileRecord(rows, resources, record), resources, done + [record])
  {
    assert forall r :: r in done + [record] <==> r in done || r == record;
    assert rows[record.0] == before[record.0];
  }
}
