/**
 Container ordering in the worker (internal/dockerworker/service.go and engine.go): start, stop,
 restart, rebuild, create and delete bring containers up and down so that nothing ever runs without
 the network it depends on, even when a run is cut short by a failing call.

 The containers of one workstation are a map that only the worker changes, one order at a time, so a
 listing is complete.
 Every engine call may be refused, or may take effect and still report an error; a `const` plan says
 which, and the results hold for all plans.
 */
module Containers {
  import opened Text

  datatype Kind = Vpn | Wslan | Sandbox | App | Seed | Init

  datatype Container = Container(kind: Kind, app: string, running: bool)

  type Containers = map<string, Container>

  datatype Resource = Resource(name: string, kind: Kind, app: string)

  function Rank(kind: Kind): nat {
    match kind
    case Vpn => 0
    case Wslan => 0
    case Sandbox => 1
    case App => 2
    case Seed => 3
    case Init => 3
  }

  // ----- Dependencies -----

  predicate Gateway(cs: Containers, n: string) {
    n in cs && (cs[n].kind == Wslan || cs[n].kind == Vpn)
  }

  predicate RunningGateway(cs: Containers, n: string) {
    Gateway(cs, n) && cs[n].running
  }

  predicate SandboxOf(cs: Containers, n: string, app: string) {
    n in cs && cs[n].kind == Sandbox && cs[n].app == app
  }

  predicate RunningSandboxOf(cs: Containers, n: string, app: string) {
    SandboxOf(cs, n, app) && cs[n].running
  }

  /** What must exist for `c` to exist. */
  ghost predicate CanExist(cs: Containers, c: Container) {
    && (c.kind == Sandbox || c.kind == App ==> exists n :: Gateway(cs, n))
    && (c.kind == App ==> exists n :: SandboxOf(cs, n, c.app))
  }

  /** What must run for `c` to run. */
  ghost predicate CanRun(cs: Containers, c: Container) {
    && (c.kind == Sandbox || c.kind == App ==> exists n :: RunningGateway(cs, n))
    && (c.kind == App ==> exists n :: RunningSandboxOf(cs, n, c.app))
  }

  /** Dependency-closed: every container's network is there, and runs if the container does. */
  ghost predicate Closed(cs: Containers) {
    forall n :: n in cs ==> CanExist(cs, cs[n]) && (cs[n].running ==> CanRun(cs, cs[n]))
  }

  // ----- What one engine call keeps -----

  function Started(cs: Containers, name: string): Containers
    requires name in cs
  {
    cs[name := cs[name].(running := true)]
  }

  function Halted(cs: Containers, name: string): Containers
    requires name in cs
  {
    cs[name := cs[name].(running := false)]
  }

  lemma StartKeepsClosed(cs: Containers, name: string)
    requires Closed(cs) && name in cs && CanRun(cs, cs[name])
    ensures Closed(Started(cs, name))
  {
    var after := Started(cs, name);
    assert forall n :: Gateway(cs, n) ==> Gateway(after, n);
    assert forall n :: RunningGateway(cs, n) ==> RunningGateway(after, n);
    assert forall n, app :: SandboxOf(cs, n, app) ==> SandboxOf(after, n, app);
    assert forall n, app :: RunningSandboxOf(cs, n, app) ==> RunningSandboxOf(after, n, app);
  }

  /** Nothing running depends on `c`. */
  ghost predicate Unneeded(cs: Containers, c: Container) {
    && (Rank(c.kind) == 0 ==> forall n :: n in cs && cs[n].running ==> cs[n].kind != Sandbox && cs[n].kind != App)
    && (Rank(c.kind) == 1 ==> forall n :: n in cs && cs[n].running ==> cs[n].kind != App)
  }

  lemma StopKeepsClosed(cs: Containers, name: string)
    requires Closed(cs) && name in cs && Unneeded(cs, cs[name])
    ensures Closed(Halted(cs, name))
  {
    var after := Halted(cs, name);
    forall n | n in after
      ensures CanExist(after, after[n]) && (after[n].running ==> CanRun(after, after[n]))
    {
      StopKeepsNeeds(cs, name, n);
    }
  }

  lemma StopKeepsNeeds(cs: Containers, name: string, n: string)
    requires Closed(cs) && name in cs && n in cs && Unneeded(cs, cs[name])
    ensures
      var after := Halted(cs, name);
      CanExist(after, after[n]) && (after[n].running ==> CanRun(after, after[n]))
  {
    var after := Halted(cs, name);
    assert CanExist(cs, cs[n]) && (cs[n].running ==> CanRun(cs, cs[n]));
    hide Closed;
    assert forall m :: Gateway(cs, m) ==> Gateway(after, m);
    assert forall m :: RunningGateway(cs, m) && m != name ==> RunningGateway(after, m);
    assert forall m, app :: SandboxOf(cs, m, app) ==> SandboxOf(after, m, app);
    assert forall m, app :: RunningSandboxOf(cs, m, app) && m != name ==> RunningSandboxOf(after, m, app);
  }

  /** No container is left that depends on `c`. */
  ghost predicate Removable(cs: Containers, c: Container) {
    && (Rank(c.kind) == 0 ==> forall n :: n in cs ==> cs[n].kind != Sandbox && cs[n].kind != App)
    && (Rank(c.kind) == 1 ==> forall n :: n in cs ==> cs[n].kind != App)
  }

  lemma DeleteKeepsClosed(cs: Containers, name: string)
    requires Closed(cs) && name in cs && Removable(cs, cs[name])
    ensures Closed(cs - {name})
  {
    var after := cs - {name};
    assert forall n :: Gateway(cs, n) && n != name ==> Gateway(after, n);
    assert forall n :: RunningGateway(cs, n) && n != name ==> RunningGateway(after, n);
    assert forall n, app :: SandboxOf(cs, n, app) && n != name ==> SandboxOf(after, n, app);
    assert forall n, app :: RunningSandboxOf(cs, n, app) && n != name ==> RunningSandboxOf(after, n, app);
  }

  lemma CreateKeepsClosed(cs: Containers, name: string, c: Container)
    requires Closed(cs) && name !in cs && !c.running && CanExist(cs, c)
    ensures Closed(cs[name := c])
  {
    var after := cs[name := c];
    assert forall n :: Gateway(cs, n) ==> Gateway(after, n);
    assert forall n :: RunningGateway(cs, n) ==> RunningGateway(after, n);
    assert forall n, app :: SandboxOf(cs, n, app) ==> SandboxOf(after, n, app);
    assert forall n, app :: RunningSandboxOf(cs, n, app) ==> RunningSandboxOf(after, n, app);
  }

  // ----- The engine -----

  datatype Action = Start | Stop | Delete

  /** How a call ends; `Late` takes effect but is reported as an error. */
  datatype Ending = Done | Refused | Late

  function AfterAction(cs: Containers, name: string, action: Action, ending: Ending): Containers {
    if ending == Refused || name !in cs then cs
    else
      match action
      case Start => if cs[name].running then cs else Started(cs, name)
      case Stop => if cs[name].running then Halted(cs, name) else cs
      case Delete => cs - {name}
  }

  /** A missing container counts as success; "already started" and "already stopped" count as errors. */
  predicate ActionOk(cs: Containers, name: string, action: Action, ending: Ending) {
    && ending == Done
    && (name in cs && action == Start ==> !cs[name].running)
    && (name in cs && action == Stop ==> cs[name].running)
  }

  datatype Call =
    | ActionCall(name: string, action: Action)
    | CreateCall(name: string, kind: Kind, app: string)
    | WaitCall(name: string)
    | StateCall(name: string)

  /** What one engine call makes of the containers. */
  function AfterCall(cs: Containers, call: Call, ending: Ending): Containers {
    match call
    case ActionCall(name, action) => AfterAction(cs, name, action, ending)
    case CreateCall(name, kind, app) =>
      if ending != Refused && name !in cs then cs[name := Container(kind, app, false)] else cs
    case WaitCall(name) => if ending != Refused && name in cs then Halted(cs, name) else cs
    case StateCall(_) => cs
  }

  /** What a series of calls makes of the containers. */
  function Replay(start: Containers, log: seq<Call>, plan: nat -> Ending): Containers {
    if log == [] then start
    else AfterCall(Replay(start, log[..|log| - 1], plan), log[|log| - 1], plan(|log| - 1))
  }

  /** Dependency-closed at the start and after every single call. */
  ghost predicate ClosedThroughout(start: Containers, log: seq<Call>, plan: nat -> Ending) {
    forall k :: 0 <= k <= |log| ==> Closed(Replay(start, log[..k], plan))
  }

  lemma OneMoreCall(start: Containers, log: seq<Call>, plan: nat -> Ending, call: Call)
    requires ClosedThroughout(start, log, plan)
    ensures Replay(start, log + [call], plan) == AfterCall(Replay(start, log, plan), call, plan(|log|))
    ensures Closed(Replay(start, log + [call], plan)) ==> ClosedThroughout(start, log + [call], plan)
  {
    hide Closed, AfterCall;
    var more := log + [call];
    assert more[..|more| - 1] == log && more[..|more|] == more;
    assert forall k :: 0 <= k <= |log| ==> more[..k] == log[..k];
  }

  /** The containers are what the logged calls made of them, and were closed all along. */
  ghost predicate Safe(e: Engine)
    reads e
  {
    && |e.log| == e.calls && e.containers == Replay(e.start, e.log, e.plan)
    && ClosedThroughout(e.start, e.log, e.plan)
  }

  class Engine {
    const start: Containers
    const plan: nat -> Ending
    const healthy: nat -> bool
    var containers: Containers
    var calls: nat
    /** Every call made. */
    ghost var log: seq<Call>

    constructor (containers: Containers, plan: nat -> Ending, healthy: nat -> bool)
      ensures this.start == this.containers == containers && this.plan == plan && this.healthy == healthy
      ensures calls == 0 && log == [] && (Closed(containers) ==> Safe(this))
    {
      this.start, this.containers, this.calls, this.plan, this.healthy := containers, containers, 0, plan, healthy;
      log := [];
    }

    method ContainerAction(name: string, action: Action) returns (ok: bool)
      requires Safe(this)
      modifies this
      ensures calls == old(calls) + 1 && log == old(log) + [ActionCall(name, action)]
      ensures containers == AfterAction(old(containers), name, action, plan(old(calls)))
      ensures ok == ActionOk(old(containers), name, action, plan(old(calls)))
      ensures Closed(containers) ==> Safe(this)
    {
      hide Closed, AfterAction, ClosedThroughout, Replay;
      var cs := containers;
      OneMoreCall(start, log, plan, ActionCall(name, action));
      ok := ActionOk(cs, name, action, plan(calls));
      containers := AfterAction(cs, name, action, plan(calls));
      calls := calls + 1;
      log := log + [ActionCall(name, action)];
    }

    /** Asks whether a container runs. */
    method ContainerState(name: string) returns (running: Option<bool>)
      requires Safe(this)
      modifies this`calls, this`log
      ensures calls == old(calls) + 1 && log == old(log) + [StateCall(name)]
      ensures running == if plan(old(calls)) == Done && name in containers then Some(containers[name].running) else None
      ensures Closed(containers) ==> Safe(this)
    {
      hide Closed, ClosedThroughout, Replay;
      OneMoreCall(start, log, plan, StateCall(name));
      running := if plan(calls) == Done && name in containers then Some(containers[name].running) else None;
      calls := calls + 1;
      log := log + [StateCall(name)];
    }

    /** Creates a stopped container, or reuses one of that name if its labels match. */
    method CreateContainer(name: string, kind: Kind, app: string) returns (ok: bool)
      requires Safe(this)
      modifies this
      ensures calls == old(calls) + 1 && log == old(log) + [CreateCall(name, kind, app)]
      ensures containers == if plan(old(calls)) != Refused && name !in old(containers)
                            then old(containers)[name := Container(kind, app, false)] else old(containers)
      ensures ok == (plan(old(calls)) == Done
                     && name in containers && containers[name].kind == kind && containers[name].app == app)
      ensures Closed(containers) ==> Safe(this)
    {
      hide Closed, ClosedThroughout, Replay;
      var cs := containers;
      OneMoreCall(start, log, plan, CreateCall(name, kind, app));
      ok := plan(calls) == Done && (name in cs ==> cs[name].kind == kind && cs[name].app == app);
      if plan(calls) != Refused && name !in cs {
        containers := cs[name := Container(kind, app, false)];
      }
      calls := calls + 1;
      log := log + [CreateCall(name, kind, app)];
    }

    /** Waits for a one-shot container to stop by itself; a refused call returns before it has. */
    method WaitContainer(name: string) returns (ok: bool)
      requires Safe(this)
      modifies this
      ensures calls == old(calls) + 1 && log == old(log) + [WaitCall(name)]
      ensures containers == if plan(old(calls)) != Refused && name in old(containers)
                            then Halted(old(containers), name) else old(containers)
      ensures ok == (plan(old(calls)) == Done && name in old(containers))
      ensures Closed(containers) ==> Safe(this)
    {
      hide Closed, ClosedThroughout, Replay;
      var cs := containers;
      OneMoreCall(start, log, plan, WaitCall(name));
      ok := plan(calls) == Done && name in cs;
      if plan(calls) != Refused && name in cs {
        containers := Halted(cs, name);
      }
      calls := calls + 1;
      log := log + [WaitCall(name)];
    }
  }

  /** Every call succeeds, as far as the containers' own state lets it. */
  ghost predicate Faultless(e: Engine) {
    forall i: nat :: e.plan(i) == Done && e.healthy(i)
  }

  lemma NoFault(e: Engine, i: nat)
    ensures Faultless(e) ==> e.plan(i) == Done && e.healthy(i)
  {
  }

  // ----- Listings and their order -----

  /** A complete listing of the containers. */
  ghost predicate Lists(rs: seq<Resource>, cs: Containers) {
    && (forall i, j :: 0 <= i < j < |rs| ==> rs[i].name != rs[j].name)
    && (forall i :: 0 <= i < |rs| ==> rs[i].name in cs && cs[rs[i].name].kind == rs[i].kind)
    && (forall n :: n in cs ==> Resource(n, cs[n].kind, cs[n].app) in rs)
  }

  predicate Precedes(a: Resource, b: Resource, up: bool) {
    if up then Rank(a.kind) <= Rank(b.kind) else Rank(a.kind) >= Rank(b.kind)
  }

  /** By increasing rank when `up`, by decreasing rank otherwise. */
  predicate Ordered(rs: seq<Resource>, up: bool) {
    forall i, j :: 0 <= i < j < |rs| ==> Precedes(rs[i], rs[j], up)
  }

  ghost predicate DistinctNames(rs: seq<Resource>) {
    forall i, j :: 0 <= i < j < |rs| ==> rs[i].name != rs[j].name
  }

  /** Inserts behind everything that may come first, so equal ranks keep their order. */
  function Insert(r: Resource, rs: seq<Resource>, up: bool): (result: seq<Resource>)
    ensures forall x :: x in result <==> x == r || x in rs
  {
    if rs == [] then [r]
    else if Precedes(rs[0], r, up) then [rs[0]] + Insert(r, rs[1..], up)
    else [r] + rs
  }

  /** `sort.SliceStable` by rank. */
  function Sort(rs: seq<Resource>, up: bool): (result: seq<Resource>)
    ensures forall x :: x in result <==> x in rs
  {
    if rs == [] then [] else Insert(rs[|rs| - 1], Sort(rs[..|rs| - 1], up), up)
  }

  lemma ConsOrdered(r: Resource, rs: seq<Resource>, up: bool)
    requires Ordered(rs, up) && DistinctNames(rs)
    requires forall x :: x in rs ==> Precedes(r, x, up) && x.name != r.name
    ensures Ordered([r] + rs, up) && DistinctNames([r] + rs)
  {
    hide Precedes;
  }

  lemma {:induction false} InsertKeepsOrder(r: Resource, rs: seq<Resource>, up: bool)
    requires Ordered(rs, up) && DistinctNames(rs) && forall x :: x in rs ==> x.name != r.name
    ensures Ordered(Insert(r, rs, up), up) && DistinctNames(Insert(r, rs, up))
  {
    if rs != [] {
      var first, rest := rs[0], rs[1..];
      assert forall x :: x in rest ==> x in rs && Precedes(first, x, up) && x.name != first.name;
      if Precedes(first, r, up) {
        InsertKeepsOrder(r, rest, up);
        ConsOrdered(first, Insert(r, rest, up), up);
      } else {
        ConsOrdered(r, rs, up);
      }
    }
  }

  lemma {:induction false} SortOrders(rs: seq<Resource>, up: bool)
    requires DistinctNames(rs)
    ensures Ordered(Sort(rs, up), up) && DistinctNames(Sort(rs, up))
  {
    hide Precedes, Insert;
    if rs != [] {
      var before, last := rs[..|rs| - 1], rs[|rs| - 1];
      SortOrders(before, up);
      InsertKeepsOrder(last, Sort(before, up), up);
    }
  }

  /** Sorting a complete listing leaves a complete listing, in order. */
  lemma SortedLists(rs: seq<Resource>, cs: Containers, up: bool)
    requires Lists(rs, cs)
    ensures Lists(Sort(rs, up), cs) && Ordered(Sort(rs, up), up)
  {
    SortOrders(rs, up);
    hide Sort, Ordered;
    SameMembersList(rs, Sort(rs, up), cs);
  }

  lemma SameMembersList(rs: seq<Resource>, sorted: seq<Resource>, cs: Containers)
    requires Lists(rs, cs) && DistinctNames(sorted) && forall x :: x in sorted <==> x in rs
    ensures Lists(sorted, cs)
  {
    forall i | 0 <= i < |sorted|
      ensures sorted[i].name in cs && cs[sorted[i].name].kind == sorted[i].kind
    {
      assert sorted[i] in rs;
    }
  }

  lemma ListedIndex(rs: seq<Resource>, cs: Containers, n: string) returns (j: nat)
    requires Lists(rs, cs) && n in cs
    ensures j < |rs| && rs[j].name == n && rs[j].kind == cs[n].kind
  {
    assert Resource(n, cs[n].kind, cs[n].app) in rs;
    j :| 0 <= j < |rs| && rs[j] == Resource(n, cs[n].kind, cs[n].app);
  }

  /** Going up: when everything of lower rank runs, the next one may run. */
  lemma NextMayRun(rs: seq<Resource>, cs: Containers, k: nat)
    requires Lists(rs, cs) && Ordered(rs, true) && Closed(cs) && k < |rs|
    requires forall j :: 0 <= j < k ==> cs[rs[j].name].running
    ensures CanRun(cs, cs[rs[k].name])
  {
    var c := cs[rs[k].name];
    assert CanExist(cs, c);
    if c.kind == Sandbox || c.kind == App {
      var g :| Gateway(cs, g);
      var j := ListedIndex(rs, cs, g);
      assert RunningGateway(cs, g);
    }
    if c.kind == App {
      var b :| SandboxOf(cs, b, c.app);
      var j := ListedIndex(rs, cs, b);
      assert RunningSandboxOf(cs, b, c.app);
    }
  }

  /** Going down: when everything of higher rank has stopped, nothing needs the next one. */
  lemma NextUnneeded(rs: seq<Resource>, cs: Containers, k: nat)
    requires Lists(rs, cs) && Ordered(rs, false) && k < |rs|
    requires forall j :: 0 <= j < k ==> !cs[rs[j].name].running
    ensures Unneeded(cs, cs[rs[k].name])
  {
    forall n | n in cs && cs[n].running
      ensures Rank(cs[n].kind) <= Rank(rs[k].kind)
    {
      var j := ListedIndex(rs, cs, n);
    }
  }

  lemma ListsSameShape(rs: seq<Resource>, cs: Containers, name: string, running: bool)
    requires Lists(rs, cs) && name in cs
    ensures Lists(rs, cs[name := cs[name].(running := running)])
  {
  }

  ghost predicate FirstRun(rs: seq<Resource>, cs: Containers, k: nat, running: bool) {
    k <= |rs| && forall j :: 0 <= j < k ==> rs[j].name in cs && cs[rs[j].name].running == running
  }

  lemma AllListed(rs: seq<Resource>, cs: Containers, running: bool)
    requires Lists(rs, cs) && FirstRun(rs, cs, |rs|, running)
    ensures Uniform(cs, running)
  {
    forall n | n in cs
      ensures cs[n].running == running
    {
      var j := ListedIndex(rs, cs, n);
    }
  }

  /** One turn of the start loop, however the call ends. */
  lemma StartStep(rs: seq<Resource>, cs: Containers, k: nat, ending: Ending)
    requires Lists(rs, cs) && Ordered(rs, true) && Closed(cs) && FirstRun(rs, cs, k, true) && k < |rs|
    ensures
      var after := AfterAction(cs, rs[k].name, Start, ending);
      && Lists(rs, after) && Closed(after)
      && (ActionOk(cs, rs[k].name, Start, ending) ==> FirstRun(rs, after, k + 1, true))
  {
    hide Closed, CanRun, Ordered;
    NextMayRun(rs, cs, k);
    StartKeepsClosed(cs, rs[k].name);
    ListsSameShape(rs, cs, rs[k].name, true);
    hide Lists;
  }

  /** One turn of the stop loop, however the call ends. */
  lemma StopStep(rs: seq<Resource>, cs: Containers, k: nat, ending: Ending)
    requires Lists(rs, cs) && Ordered(rs, false) && Closed(cs) && FirstRun(rs, cs, k, false) && k < |rs|
    ensures
      var after := AfterAction(cs, rs[k].name, Stop, ending);
      && Lists(rs, after) && Closed(after)
      && (ActionOk(cs, rs[k].name, Stop, ending) ==> FirstRun(rs, after, k + 1, false))
    ensures rs[k].name in cs && (!cs[rs[k].name].running ==> FirstRun(rs, cs, k + 1, false))
  {
    hide Closed, Unneeded, Ordered;
    NextUnneeded(rs, cs, k);
    StopKeepsClosed(cs, rs[k].name);
    ListsSameShape(rs, cs, rs[k].name, false);
    hide Lists;
  }

  /** The same containers, of the same kinds; only what runs may differ. */
  ghost predicate SameShape(before: Containers, after: Containers) {
    && after.Keys == before.Keys
    && forall n :: n in after ==> after[n].kind == before[n].kind && after[n].app == before[n].app
  }

  lemma ActionKeepsShape(before: Containers, cs: Containers, name: string, action: Action, ending: Ending)
    requires action != Delete
    ensures SameShape(cs, cs)
    ensures SameShape(before, cs) ==> SameShape(before, AfterAction(cs, name, action, ending))
  {
  }

  /** Every container running, or none. */
  function SetAll(cs: Containers, running: bool): Containers {
    map n | n in cs :: cs[n].(running := running)
  }

  /** Starting what runs, or stopping what does not, changes nothing. */
  lemma NothingToDo(cs: Containers, name: string, action: Action, ending: Ending)
    requires action != Delete && forall n :: n in cs ==> cs[n].running == (action == Start)
    ensures AfterAction(cs, name, action, ending) == cs
  {
  }

  /** The first `k` have changed state to `running`, the others are as they were. */
  ghost predicate Advanced(rs: seq<Resource>, before: Containers, cs: Containers, k: nat, running: bool) {
    && k <= |rs|
    && (forall j :: 0 <= j < k ==> rs[j].name in before && before[rs[j].name].running != running)
    && (forall j :: k <= j < |rs| ==> rs[j].name in before && rs[j].name in cs && cs[rs[j].name] == before[rs[j].name])
  }

  lemma NoneAdvanced(rs: seq<Resource>, cs: Containers, running: bool)
    requires Lists(rs, cs)
    ensures Advanced(rs, cs, cs, 0, running)
  {
  }

  lemma AllAdvanced(rs: seq<Resource>, before: Containers, cs: Containers, running: bool)
    requires Lists(rs, before) && Advanced(rs, before, cs, |rs|, running)
    ensures Uniform(before, !running)
  {
    forall n | n in before
      ensures before[n].running != running
    {
      var j := ListedIndex(rs, before, n);
    }
  }

  /** Without a fault, a start or stop fails only on a container already in that state. */
  lemma ActionAdvances(rs: seq<Resource>, before: Containers, cs: Containers, k: nat, action: Action, ending: Ending)
    requires Lists(rs, cs) && k < |rs| && action != Delete && Advanced(rs, before, cs, k, action == Start)
    ensures rs[k].name in before
    ensures ActionOk(cs, rs[k].name, action, ending) ==>
              Advanced(rs, before, AfterAction(cs, rs[k].name, action, ending), k + 1, action == Start)
    ensures ending == Done && !ActionOk(cs, rs[k].name, action, ending) ==>
              before[rs[k].name].running == (action == Start)
  {
  }

  // ----- The calls that are made -----

  /** The same action on each resource in turn. */
  function ActionCalls(rs: seq<Resource>, action: Action): (calls: seq<Call>)
    ensures |calls| == |rs|
  {
    seq(|rs|, i requires 0 <= i < |rs| => ActionCall(rs[i].name, action))
  }

  lemma ActionCallsNext(rs: seq<Resource>, action: Action, k: nat)
    requires k < |rs|
    ensures ActionCalls(rs, action)[..k] + [ActionCall(rs[k].name, action)] == ActionCalls(rs, action)[..k + 1]
  {
  }

  lemma ActionCallsEnds(rs: seq<Resource>, action: Action)
    ensures ActionCalls(rs, action)[..0] == [] && ActionCalls(rs, action)[..|rs|] == ActionCalls(rs, action)
  {
  }

  /** Asking for the state of each, and stopping those that run. */
  function StopRunningCalls(rs: seq<Resource>, cs: Containers): seq<Call> {
    if rs == [] then []
    else StopRunningCalls(rs[..|rs| - 1], cs) + StopRunningCall(rs[|rs| - 1].name, cs)
  }

  function StopRunningCall(name: string, cs: Containers): seq<Call> {
    [StateCall(name)] + if name in cs && cs[name].running then [ActionCall(name, Stop)] else []
  }

  lemma StopRunningCallsNext(rs: seq<Resource>, cs: Containers, k: nat)
    requires k < |rs|
    ensures StopRunningCalls(rs[..k], cs) + StopRunningCall(rs[k].name, cs) == StopRunningCalls(rs[..k + 1], cs)
    ensures StopRunningCalls(rs[..0], cs) == [] && rs[..|rs|] == rs
  {
    assert rs[..k + 1][..k] == rs[..k];
  }

  /** Deleting those that are to go. */
  function DeleteCalls(rs: seq<Resource>, everything: bool): seq<Call> {
    if rs == [] then []
    else
      var last := rs[|rs| - 1];
      DeleteCalls(rs[..|rs| - 1], everything)
      + if Replaced(last.kind, everything) then [ActionCall(last.name, Delete)] else []
  }

  lemma DeleteCallsNext(rs: seq<Resource>, everything: bool, k: nat)
    requires k < |rs|
    ensures DeleteCalls(rs[..k + 1], everything) ==
            DeleteCalls(rs[..k], everything)
            + if Replaced(rs[k].kind, everything) then [ActionCall(rs[k].name, Delete)] else []
  {
    assert rs[..k + 1][..k] == rs[..k];
  }

  lemma NoCalls(rs: seq<Resource>, cs: Containers, everything: bool)
    ensures StopRunningCalls(rs[..0], cs) == [] && DeleteCalls(rs[..0], everything) == [] && rs[..|rs|] == rs
  {
  }

  /** Calls made one after another. */
  lemma Appended(log: seq<Call>, first: seq<Call>, more: seq<Call>)
    ensures log + first + more == log + (first + more)
    ensures log + [] == log
  {
  }

  lemma Continued(log: seq<Call>, calls: seq<Call>, more: seq<Call>, all: seq<Call>)
    requires more == log + calls && more <= all
    ensures log <= all
  {
    assert all[..|log|] == more[..|log|] == log;
  }

  datatype Progress = Progress(containers: Containers, calls: nat, ok: bool)

  /** Starting the resources from the `k`-th on: up to the first call or health check that fails. */
  function StartFrom(cs: Containers, rs: seq<Resource>, k: nat, plan: nat -> Ending, healthy: nat -> bool, calls: nat)
    : Progress
    decreases |rs| - k
  {
    if k >= |rs| then Progress(cs, calls, true)
    else
      var after := AfterAction(cs, rs[k].name, Start, plan(calls));
      var gateway := rs[k].kind == Vpn || rs[k].kind == Wslan;
      if !ActionOk(cs, rs[k].name, Start, plan(calls)) || (gateway && !healthy(calls + 1)) then
        Progress(after, calls + 1, false)
      else StartFrom(after, rs, k + 1, plan, healthy, calls + 1)
  }

  lemma StartFromNext(cs: Containers, rs: seq<Resource>, k: nat, plan: nat -> Ending, healthy: nat -> bool, calls: nat)
    ensures StartFrom(cs, rs, k, plan, healthy, calls) ==
            if k >= |rs| then Progress(cs, calls, true)
            else
              var after := AfterAction(cs, rs[k].name, Start, plan(calls));
              var gateway := rs[k].kind == Vpn || rs[k].kind == Wslan;
              if !ActionOk(cs, rs[k].name, Start, plan(calls)) || (gateway && !healthy(calls + 1)) then
                Progress(after, calls + 1, false)
              else StartFrom(after, rs, k + 1, plan, healthy, calls + 1)
  {
  }

  /** A start that succeeds made every call without error, and found every gateway healthy after starting it. */
  lemma {:induction false} StartedGatewaysAreHealthy(cs: Containers, rs: seq<Resource>, k: nat, plan: nat -> Ending,
                                                     healthy: nat -> bool, calls: nat, j: nat)
    requires k <= j < |rs| && StartFrom(cs, rs, k, plan, healthy, calls).ok
    ensures plan(calls + (j - k)) == Done
    ensures rs[j].kind == Vpn || rs[j].kind == Wslan ==> healthy(calls + (j - k) + 1)
    decreases |rs| - k
  {
    hide AfterAction;
    if k < j {
      var after := AfterAction(cs, rs[k].name, Start, plan(calls));
      StartedGatewaysAreHealthy(after, rs, k + 1, plan, healthy, calls + 1, j);
    }
  }

  ghost predicate Uniform(cs: Containers, running: bool) {
    forall n :: n in cs ==> cs[n].running == running
  }

  /** What one more start or stop does to a workstation that is to be left as it was. */
  lemma StaysUniform(before: Containers, cs: Containers, name: string, action: Action, ending: Ending)
    requires action != Delete && (Uniform(before, action == Start) ==> cs == before)
    ensures Uniform(before, action == Start) ==> AfterAction(cs, name, action, ending) == before
  {
    if Uniform(before, action == Start) {
      NothingToDo(before, name, action, ending);
    }
  }

  /**
   Without faults, starting succeeds exactly on a workstation of which nothing runs; one that runs
   already is left as it is.
   */
  method StartAll(e: Engine, rs: seq<Resource>) returns (ok: bool)
    requires Lists(rs, e.containers) && Ordered(rs, true) && Closed(e.containers) && Safe(e)
    modifies e
    ensures old(e.log) <= e.log
    ensures Lists(rs, e.containers) && Closed(e.containers) && Safe(e)
    ensures Progress(e.containers, e.calls, ok) == StartFrom(old(e.containers), rs, 0, e.plan, e.healthy, old(e.calls))
    ensures exists k :: 0 <= k <= |rs| && (ok ==> k == |rs|) && e.log == old(e.log) + ActionCalls(rs, Start)[..k]
    ensures SameShape(old(e.containers), e.containers)
    ensures ok ==> Uniform(e.containers, true)
    ensures Uniform(old(e.containers), true) ==> e.containers == old(e.containers)
    ensures Faultless(e) ==> (ok <==> Uniform(old(e.containers), false))
  {
    ghost var before := e.containers;
    ghost var whole := StartFrom(before, rs, 0, e.plan, e.healthy, e.calls);
    StartsStarting(rs, before);
    ActionCallsEnds(rs, Start);
    hide *;
    for k := 0 to |rs|
      invariant e.log == old(e.log) + ActionCalls(rs, Start)[..k] && Closed(e.containers) && Safe(e)
      invariant Starting(rs, before, e.containers, k)
      invariant whole == StartFrom(e.containers, rs, k, e.plan, e.healthy, e.calls)
    {
      ActionCallsNext(rs, Start, k);
      Appended(old(e.log), ActionCalls(rs, Start)[..k], [ActionCall(rs[k].name, Start)]);
      var started := StartNext(e, rs, k, before);
      if !started {
        return false;
      }
    }
    StartFromNext(e.containers, rs, |rs|, e.plan, e.healthy, e.calls);
    AllStarted(rs, before, e.containers);
    return true;
  }

  /** However a start ends: the listing still holds, and a workstation that ran already is as it was. */
  ghost predicate Tried(rs: seq<Resource>, before: Containers, cs: Containers) {
    Lists(rs, cs) && SameShape(before, cs) && (Uniform(before, true) ==> cs == before)
  }

  /** What the start loop keeps. */
  ghost predicate Starting(rs: seq<Resource>, before: Containers, cs: Containers, k: nat) {
    Tried(rs, before, cs) && FirstRun(rs, cs, k, true) && Advanced(rs, before, cs, k, true)
  }

  lemma StartsStarting(rs: seq<Resource>, cs: Containers)
    requires Lists(rs, cs)
    ensures Starting(rs, cs, cs, 0)
  {
    NoneYet(rs, cs);
    NoneAdvanced(rs, cs, true);
    ActionKeepsShape(cs, cs, "", Start, Done);
  }

  lemma AllStarted(rs: seq<Resource>, before: Containers, cs: Containers)
    requires Lists(rs, before) && Starting(rs, before, cs, |rs|)
    ensures Tried(rs, before, cs) && Uniform(cs, true) && Uniform(before, false)
  {
    hide Uniform;
    AllListed(rs, cs, true);
    AllAdvanced(rs, before, cs, true);
  }

  /** One call of the start loop, however it ends. */
  lemma StartingNext(rs: seq<Resource>, before: Containers, cs: Containers, k: nat, ending: Ending)
    requires Starting(rs, before, cs, k) && Ordered(rs, true) && Closed(cs) && k < |rs|
    ensures
      var after := AfterAction(cs, rs[k].name, Start, ending);
      && Tried(rs, before, after) && Closed(after)
      && (ActionOk(cs, rs[k].name, Start, ending) ==> Starting(rs, before, after, k + 1))
      && (ending == Done && !ActionOk(cs, rs[k].name, Start, ending) ==> !Uniform(before, false))
  {
    hide Lists, Ordered, Closed, SameShape, Uniform, FirstRun, Advanced, AfterAction, ActionOk;
    StartStep(rs, cs, k, ending);
    ActionAdvances(rs, before, cs, k, Start, ending);
    ActionKeepsShape(before, cs, rs[k].name, Start, ending);
    StaysUniform(before, cs, rs[k].name, Start, ending);
    NotUniform(before, rs[k].name, false);
  }

  /** One turn of the start loop. */
  method StartNext(e: Engine, rs: seq<Resource>, k: nat, ghost before: Containers) returns (ok: bool)
    requires Starting(rs, before, e.containers, k) && Ordered(rs, true) && Closed(e.containers) && Safe(e) && k < |rs|
    modifies e
    ensures e.log == old(e.log) + [ActionCall(rs[k].name, Start)]
    ensures Closed(e.containers) && Safe(e) && Tried(rs, before, e.containers)
    ensures ok ==> Starting(rs, before, e.containers, k + 1)
    ensures StartFrom(old(e.containers), rs, k, e.plan, e.healthy, old(e.calls)) ==
            if ok then StartFrom(e.containers, rs, k + 1, e.plan, e.healthy, e.calls)
            else Progress(e.containers, e.calls, false)
    ensures Faultless(e) && !ok ==> !Uniform(before, false)
  {
    hide *;
    StartFromNext(e.containers, rs, k, e.plan, e.healthy, e.calls);
    StartingNext(rs, before, e.containers, k, e.plan(e.calls));
    NoFault(e, e.calls);
    ok := e.ContainerAction(rs[k].name, Start);
    NoFault(e, e.calls);
    if ok && (rs[k].kind == Vpn || rs[k].kind == Wslan) {
      ok := e.healthy(e.calls);
    }
  }

  lemma NotUniform(cs: Containers, name: string, running: bool)
    ensures name in cs && cs[name].running != running ==> !Uniform(cs, running)
  {
  }

  lemma NoneYet(rs: seq<Resource>, cs: Containers)
    ensures FirstRun(rs, cs, 0, true) && FirstRun(rs, cs, 0, false)
  {
  }

  /**
   Without faults, stopping succeeds exactly on a workstation of which everything runs; one of which
   nothing runs is left as it is.
   */
  method StopAll(e: Engine, rs: seq<Resource>) returns (ok: bool)
    requires Lists(rs, e.containers) && Ordered(rs, false) && Closed(e.containers) && Safe(e)
    modifies e
    ensures old(e.log) <= e.log
    ensures Lists(rs, e.containers) && Closed(e.containers) && Safe(e)
    ensures exists k :: 0 <= k <= |rs| && (ok ==> k == |rs|) && e.log == old(e.log) + ActionCalls(rs, Stop)[..k]
    ensures SameShape(old(e.containers), e.containers)
    ensures ok ==> Uniform(e.containers, false)
    ensures Uniform(old(e.containers), false) ==> e.containers == old(e.containers)
    ensures Faultless(e) ==> (ok <==> Uniform(old(e.containers), true))
  {
    ghost var before := e.containers;
    NoneYet(rs, e.containers);
    NoneAdvanced(rs, e.containers, false);
    ActionKeepsShape(before, before, "", Stop, Done);
    ActionCallsEnds(rs, Stop);
    hide *;
    for k := 0 to |rs|
      invariant e.log == old(e.log) + ActionCalls(rs, Stop)[..k]
      invariant Lists(rs, e.containers) && Closed(e.containers) && Safe(e)
      invariant SameShape(before, e.containers) && (Uniform(before, false) ==> e.containers == before)
      invariant FirstRun(rs, e.containers, k, false) && Advanced(rs, before, e.containers, k, false)
    {
      StopStep(rs, e.containers, k, e.plan(e.calls));
      ActionAdvances(rs, before, e.containers, k, Stop, e.plan(e.calls));
      NoFault(e, e.calls);
      ActionCallsNext(rs, Stop, k);
      Appended(old(e.log), ActionCalls(rs, Stop)[..k], [ActionCall(rs[k].name, Stop)]);
      ActionKeepsShape(before, e.containers, rs[k].name, Stop, e.plan(e.calls));
      StaysUniform(before, e.containers, rs[k].name, Stop, e.plan(e.calls));
      NotUniform(before, rs[k].name, true);
      var stopped := e.ContainerAction(rs[k].name, Stop);
      if !stopped {
        return false;
      }
    }
    AllListed(rs, e.containers, false);
    AllAdvanced(rs, before, e.containers, false);
    return true;
  }

  /** The resources from the `k`-th on are as they were. */
  ghost predicate RestAsBefore(rs: seq<Resource>, before: Containers, cs: Containers, k: nat) {
    forall j :: k <= j < |rs| ==> rs[j].name in before && rs[j].name in cs && cs[rs[j].name] == before[rs[j].name]
  }

  lemma RestNext(rs: seq<Resource>, before: Containers, cs: Containers, k: nat, ending: Ending)
    requires Lists(rs, cs) && k < |rs|
    requires RestAsBefore(rs, before, cs, k)
    ensures StopRunningCall(rs[k].name, before) == StopRunningCall(rs[k].name, cs)
    ensures RestAsBefore(rs, before, AfterAction(cs, rs[k].name, Stop, ending), k + 1)
    ensures RestAsBefore(rs, before, cs, k + 1)
  {
  }

  lemma AllAsBefore(rs: seq<Resource>, cs: Containers)
    requires Lists(rs, cs)
    ensures RestAsBefore(rs, cs, cs, 0)
  {
  }

  /** What that loop keeps. */
  ghost predicate Halting(rs: seq<Resource>, before: Containers, cs: Containers, k: nat) {
    Lists(rs, cs) && SameShape(before, cs) && FirstRun(rs, cs, k, false) && RestAsBefore(rs, before, cs, k)
  }

  lemma StartsHalting(rs: seq<Resource>, cs: Containers)
    requires Lists(rs, cs)
    ensures Halting(rs, cs, cs, 0) && StopRunningCalls(rs[..0], cs) == [] && rs[..|rs|] == rs
  {
    NoneYet(rs, cs);
    AllAsBefore(rs, cs);
    ActionKeepsShape(cs, cs, "", Stop, Done);
  }

  lemma HaltingMeans(rs: seq<Resource>, before: Containers, cs: Containers, k: nat)
    ensures Halting(rs, before, cs, k) <==>
            Lists(rs, cs) && SameShape(before, cs) && FirstRun(rs, cs, k, false) && RestAsBefore(rs, before, cs, k)
  {
  }

  /** The first half of a restart asks for each container's state and stops the running ones. */
  method StopRunning(e: Engine, rs: seq<Resource>) returns (ok: bool)
    requires Lists(rs, e.containers) && Ordered(rs, false) && Closed(e.containers) && Safe(e)
    modifies e
    ensures old(e.log) <= e.log && (ok ==> e.log == old(e.log) + StopRunningCalls(rs, old(e.containers)))
    ensures Lists(rs, e.containers) && Closed(e.containers) && Safe(e)
    ensures SameShape(old(e.containers), e.containers)
    ensures ok ==> Uniform(e.containers, false)
    ensures Faultless(e) ==> ok
  {
    ghost var before := e.containers;
    StartsHalting(rs, before);
    hide *;
    for k := 0 to |rs|
      invariant e.log == old(e.log) + StopRunningCalls(rs[..k], before)
      invariant Halting(rs, before, e.containers, k) && Closed(e.containers) && Safe(e)
    {
      StopRunningCallsNext(rs, before, k);
      Appended(old(e.log), StopRunningCalls(rs[..k], before), StopRunningCall(rs[k].name, before));
      ghost var log := e.log;
      var stopped := StopNext(e, rs, k, before);
      if !stopped {
        Continued(old(e.log), StopRunningCalls(rs[..k], before), log, e.log);
        return false;
      }
    }
    HaltingMeans(rs, before, e.containers, |rs|);
    AllListed(rs, e.containers, false);
    return true;
  }

  /** One turn of that loop. */
  method StopNext(e: Engine, rs: seq<Resource>, k: nat, ghost before: Containers) returns (ok: bool)
    requires Halting(rs, before, e.containers, k) && Ordered(rs, false) && Closed(e.containers) && Safe(e) && k < |rs|
    modifies e
    ensures old(e.log) <= e.log && (ok ==> e.log == old(e.log) + StopRunningCall(rs[k].name, before))
    ensures Lists(rs, e.containers) && Closed(e.containers) && Safe(e) && SameShape(before, e.containers)
    ensures ok ==> Halting(rs, before, e.containers, k + 1)
    ensures Faultless(e) ==> ok
  {
    hide *;
    HaltingMeans(rs, before, e.containers, k);
    NoFault(e, e.calls);
    StopRunningMeans(rs[k].name, e.containers);
    RestNext(rs, before, e.containers, k, Refused);
    var running := e.ContainerState(rs[k].name);
    StopStep(rs, e.containers, k, e.plan(e.calls));
    if running.None? {
      return false;
    }
    if !running.value {
      HaltingMeans(rs, before, e.containers, k + 1);
      return true;
    }
    NoFault(e, e.calls);
    RunningStops(e.containers, rs[k].name, e.plan(e.calls));
    RestNext(rs, before, e.containers, k, e.plan(e.calls));
    ActionKeepsShape(before, e.containers, rs[k].name, Stop, e.plan(e.calls));
    ok := e.ContainerAction(rs[k].name, Stop);
    HaltingMeans(rs, before, e.containers, k + 1);
  }

  lemma StopRunningMeans(name: string, cs: Containers)
    ensures name in cs && cs[name].running ==> StopRunningCall(name, cs) == [StateCall(name)] + [ActionCall(name, Stop)]
    ensures name in cs && !cs[name].running ==> StopRunningCall(name, cs) == [StateCall(name)]
  {
  }

  lemma RunningStops(cs: Containers, name: string, ending: Ending)
    ensures ending == Done && name in cs && cs[name].running ==> ActionOk(cs, name, Stop, ending)
  {
  }

  datatype Command = StartCommand | StopCommand | RestartCommand

  /** What a command asks of the containers before it can succeed. */
  ghost predicate Accepts(cs: Containers, command: Command) {
    match command
    case StartCommand => Uniform(cs, false)
    case StopCommand => Uniform(cs, true)
    case RestartCommand => true
  }

  /** All calls of a command that succeeds. */
  function CommandCalls(cs: Containers, listing: seq<Resource>, command: Command): seq<Call> {
    match command
    case StartCommand => ActionCalls(Sort(listing, true), Start)
    case StopCommand => ActionCalls(Sort(listing, false), Stop)
    case RestartCommand =>
      var down := Sort(listing, false);
      StopRunningCalls(down, cs) + ActionCalls(Sort(down, true), Start)
  }

  lemma {:induction false} StopsAll(rs: seq<Resource>, cs: Containers)
    ensures forall i :: 0 <= i < |rs| && rs[i].name in cs && cs[rs[i].name].running ==>
              ActionCall(rs[i].name, Stop) in StopRunningCalls(rs, cs)
    ensures forall call :: call in StopRunningCalls(rs, cs) && call.ActionCall? ==> call.action == Stop
  {
    if rs != [] {
      StopsAll(rs[..|rs| - 1], cs);
    }
  }

  /**
   A restart that succeeds first stops every container that runs and starts none, and then starts
   every one of them, in order; whatever runs after it has been started anew.
   */
  lemma RestartStopsThenStarts(cs: Containers, listing: seq<Resource>)
    requires Lists(listing, cs)
    ensures
      var up := Sort(Sort(listing, false), true);
      exists down: seq<Call> ::
        && CommandCalls(cs, listing, RestartCommand) == down + ActionCalls(up, Start)
        && (forall n :: n in cs && cs[n].running ==> ActionCall(n, Stop) in down)
        && (forall n :: ActionCall(n, Start) !in down)
        && (forall n :: n in cs ==> ActionCall(n, Start) in ActionCalls(up, Start))
        && Lists(up, cs) && Ordered(up, true)
  {
    SortedLists(listing, cs, false);
    var stopped := Sort(listing, false);
    SortedLists(stopped, cs, true);
    var up := Sort(stopped, true);
    var down := StopRunningCalls(stopped, cs);
    hide Ordered, Sort, StopRunningCalls;
    StopsAll(stopped, cs);
    forall n | n in cs
      ensures cs[n].running ==> ActionCall(n, Stop) in down
      ensures ActionCall(n, Start) in ActionCalls(up, Start)
    {
      var i := ListedIndex(stopped, cs, n);
      var j := ListedIndex(up, cs, n);
      assert ActionCalls(up, Start)[j] == ActionCall(n, Start);
    }
    assert CommandCalls(cs, listing, RestartCommand) == down + ActionCalls(up, Start);
  }

  /** The worker's start, stop and restart actions over a complete listing. */
  method RunAction(e: Engine, listing: seq<Resource>, command: Command) returns (ok: bool)
    requires Lists(listing, e.containers) && Closed(e.containers) && Safe(e)
    modifies e
    ensures old(e.log) <= e.log
    ensures Closed(e.containers) && Safe(e) && SameShape(old(e.containers), e.containers)
    ensures ok ==> e.containers == SetAll(old(e.containers), command != StopCommand)
    ensures ok ==> e.log == old(e.log) + CommandCalls(old(e.containers), listing, command)
    ensures command == StartCommand && Uniform(old(e.containers), true) ==> e.containers == old(e.containers)
    ensures command == StopCommand && Uniform(old(e.containers), false) ==> e.containers == old(e.containers)
    ensures Faultless(e) ==> (ok <==> Accepts(old(e.containers), command))
  {
    hide Lists, Ordered, Closed, Safe, Sort, Faultless, SameShape, Uniform, SetAll, StartFrom;
    hide ActionCalls, StopRunningCalls;
    ghost var before := e.containers;
    var resources := listing;
    if command == RestartCommand {
      SortedLists(resources, e.containers, false);
      resources := Sort(resources, false);
      ok := StopRunning(e, resources);
      if !ok {
        return;
      }
    }
    ghost var between, log := e.containers, e.log;
    SortedLists(resources, e.containers, command != StopCommand);
    resources := Sort(resources, command != StopCommand);
    if command == StopCommand {
      ok := StopAll(e, resources);
    } else {
      ok := StartAll(e, resources);
    }
    SameShapeTransitive(before, between, e.containers);
    ActionCallsEnds(resources, if command == StopCommand then Stop else Start);
    if ok {
      UniformIsSet(before, e.containers, command != StopCommand);
      Appended(old(e.log), StopRunningCalls(Sort(listing, false), before), ActionCalls(resources, Start));
    }
  }

  lemma UniformIsSet(before: Containers, after: Containers, running: bool)
    requires SameShape(before, after) && Uniform(after, running)
    ensures after == SetAll(before, running)
  {
  }

  lemma SameShapeTransitive(a: Containers, b: Containers, c: Containers)
    ensures SameShape(a, a) && (SameShape(a, b) && SameShape(b, c) ==> SameShape(a, c))
  {
  }

  // ----- Deleting -----

  /** Rebuild spares one-shot containers; delete does not. */
  predicate Replaced(kind: Kind, everything: bool) {
    everything || Rank(kind) < 3
  }

  /** The part of a listing from `k` on that is still there. */
  ghost predicate Remaining(rs: seq<Resource>, cs: Containers, k: nat, everything: bool) {
    && k <= |rs|
    && (forall i, j :: 0 <= i < j < |rs| ==> rs[i].name != rs[j].name)
    && (forall i :: k <= i < |rs| ==> rs[i].name in cs && cs[rs[i].name].kind == rs[i].kind)
    && (forall i :: 0 <= i < k && Replaced(rs[i].kind, everything) ==> rs[i].name !in cs)
    && (forall n :: n in cs ==> Resource(n, cs[n].kind, cs[n].app) in rs)
  }

  lemma NextRemovable(rs: seq<Resource>, cs: Containers, k: nat, everything: bool)
    requires Remaining(rs, cs, k, everything) && Ordered(rs, false) && k < |rs|
    ensures Removable(cs, cs[rs[k].name])
  {
    forall n | n in cs && (cs[n].kind == Sandbox || cs[n].kind == App)
      ensures Rank(cs[n].kind) <= Rank(rs[k].kind)
    {
      assert Resource(n, cs[n].kind, cs[n].app) in rs;
      var j :| 0 <= j < |rs| && rs[j] == Resource(n, cs[n].kind, cs[n].app);
    }
  }

  /** One turn of the delete loop, however the call ends. */
  lemma DeleteStep(rs: seq<Resource>, cs: Containers, k: nat, everything: bool, ending: Ending)
    requires Remaining(rs, cs, k, everything) && Ordered(rs, false) && Closed(cs) && k < |rs|
    ensures
      var after := AfterAction(cs, rs[k].name, Delete, ending);
      && Closed(after) && Kept(cs, after)
      && (ActionOk(cs, rs[k].name, Delete, ending) ==> Remaining(rs, after, k + 1, everything))
    ensures !Replaced(rs[k].kind, everything) ==> Remaining(rs, cs, k + 1, everything)
  {
    hide Closed, Removable, Ordered, Replaced;
    NextRemovable(rs, cs, k, everything);
    DeleteKeepsClosed(cs, rs[k].name);
  }

  /** What is left is what it was. */
  ghost predicate Kept(before: Containers, after: Containers) {
    forall n :: n in after ==> n in before && after[n] == before[n]
  }

  lemma KeptTransitive(a: Containers, b: Containers, c: Containers)
    ensures Kept(a, a) && (Kept(a, b) && Kept(b, c) ==> Kept(a, c))
  {
  }

  lemma NoneRemoved(rs: seq<Resource>, cs: Containers, everything: bool)
    requires Lists(rs, cs)
    ensures Remaining(rs, cs, 0, everything)
  {
  }

  lemma AllRemoved(rs: seq<Resource>, cs: Containers, everything: bool)
    requires Remaining(rs, cs, |rs|, everything)
    ensures forall n :: n in cs ==> !Replaced(cs[n].kind, everything)
  {
    hide Replaced;
  }

  lemma DeleteSucceeds(cs: Containers, name: string, ending: Ending)
    ensures ActionOk(cs, name, Delete, ending) <==> ending == Done
  {
  }

  method DeleteAll(e: Engine, rs: seq<Resource>, everything: bool) returns (ok: bool)
    requires Lists(rs, e.containers) && Ordered(rs, false) && Closed(e.containers) && Safe(e)
    modifies e
    ensures old(e.log) <= e.log
    ensures Closed(e.containers) && Safe(e) && Kept(old(e.containers), e.containers)
    ensures ok ==> e.log == old(e.log) + DeleteCalls(rs, everything)
    ensures ok ==> forall n :: n in e.containers ==> !Replaced(e.containers[n].kind, everything)
    ensures Faultless(e) ==> ok
  {
    NoCalls(rs, e.containers, everything);
    hide *;
    NoneRemoved(rs, e.containers, everything);
    KeptTransitive(e.containers, e.containers, e.containers);
    for k := 0 to |rs|
      invariant e.log == old(e.log) + DeleteCalls(rs[..k], everything)
      invariant Remaining(rs, e.containers, k, everything) && Closed(e.containers) && Safe(e)
      invariant Kept(old(e.containers), e.containers)
    {
      DeleteStep(rs, e.containers, k, everything, e.plan(e.calls));
      NoFault(e, e.calls);
      DeleteSucceeds(e.containers, rs[k].name, e.plan(e.calls));
      DeleteCallsNext(rs, everything, k);
      Appended(old(e.log), DeleteCalls(rs[..k], everything), [ActionCall(rs[k].name, Delete)]);
      Appended(old(e.log), DeleteCalls(rs[..k], everything), []);
      if !Replaced(rs[k].kind, everything) {
        continue;
      }
      ghost var cs := e.containers;
      var deleted := e.ContainerAction(rs[k].name, Delete);
      KeptTransitive(old(e.containers), cs, e.containers);
      if !deleted {
        return false;
      }
    }
    AllRemoved(rs, e.containers, everything);
    return true;
  }

  /** `RemoveWorkstation`. */
  method RemoveWorkstation(e: Engine, listing: seq<Resource>) returns (ok: bool)
    requires Lists(listing, e.containers) && Closed(e.containers) && Safe(e)
    modifies e
    ensures old(e.log) <= e.log
    ensures Closed(e.containers) && Safe(e) && Kept(old(e.containers), e.containers)
    ensures ok ==> e.containers == map[] && e.log == old(e.log) + DeleteCalls(Sort(listing, false), true)
    ensures Faultless(e) ==> ok
  {
    hide *;
    SortedLists(listing, e.containers, false);
    ok := DeleteAll(e, Sort(listing, false), true);
    if ok {
      NothingSpared(e.containers);
    }
  }

  lemma NothingSpared(cs: Containers)
    requires forall n :: n in cs ==> !Replaced(cs[n].kind, true)
    ensures cs == map[]
  {
    assert cs.Keys == {};
  }
}
