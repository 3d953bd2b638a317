/**
 Whole lives of a workstation's containers (internal/dockerworker/service.go): any series of orders,
 one at a time, what they achieve on a faultless engine, and what goes wrong when they overlap.
 */
module Lives {
  import opened Text
  import opened Containers
  import opened Creation

  datatype Order =
    | Provisioning(seeded: bool, apps: seq<AppSpec>)
    | Rebuilding(seeded: bool, apps: seq<AppSpec>)
    | Acting(command: Command)
    | Removing

  /** A function that lists the containers completely. */
  ghost predicate IsLister(list: Containers -> seq<Resource>) {
    forall cs: Containers :: Lists(list(cs), cs)
  }

  lemma ListerLists(list: Containers -> seq<Resource>, cs: Containers)
    requires IsLister(list)
    ensures Lists(list(cs), cs)
  {
  }

  lemma FewerKeepNames(ws: string, before: Containers, after: Containers)
    requires OneShotNames(ws, before)
    ensures SameShape(before, after) || Kept(before, after) ==> OneShotNames(ws, after)
  {
    hide SeedName, InitName;
  }

  // ----- What orders achieve -----

  /** A workstation without left-overs: not there, all running, or all stopped. */
  datatype Life = Absent | Up(apps: seq<AppSpec>) | Down(apps: seq<AppSpec>)

  function StateOf(ws: string, life: Life): Containers {
    match life
    case Absent => map[]
    case Up(apps) => Provisioned(ws, apps)
    case Down(apps) => SetAll(Provisioned(ws, apps), false)
  }

  /** A workstation is provisioned once, and with distinct apps. */
  predicate Fits(life: Life, order: Order) {
    match order
    case Provisioning(_, apps) => life == Absent && DistinctApps(apps)
    case Rebuilding(_, apps) => DistinctApps(apps)
    case Acting(_) => true
    case Removing => true
  }

  function NextLife(life: Life, order: Order): Life {
    match order
    case Provisioning(_, apps) => Up(apps)
    case Rebuilding(_, apps) => Up(apps)
    case Removing => Absent
    case Acting(command) =>
      if life == Absent then Absent else if command == StopCommand then Down(life.apps) else Up(life.apps)
  }

  function LifeAfter(orders: seq<Order>): Life {
    if orders == [] then Absent else NextLife(LifeAfter(orders[..|orders| - 1]), orders[|orders| - 1])
  }

  predicate Orderly(orders: seq<Order>) {
    forall i :: 0 <= i < |orders| ==> Fits(LifeAfter(orders[..i]), orders[i])
  }

  lemma {:induction false} ProvisionedRuns(ws: string, apps: seq<AppSpec>)
    ensures Uniform(Provisioned(ws, apps), true) && NoOneShots(Provisioned(ws, apps))
    ensures GatewayName(ws) in Provisioned(ws, apps)
  {
    hide SandboxName, AppName, GatewayName;
    if apps != [] {
      ProvisionedRuns(ws, apps[..|apps| - 1]);
    }
  }

  lemma LifeShape(ws: string, life: Life)
    ensures NoOneShots(StateOf(ws, life))
    ensures life.Up? ==> Uniform(StateOf(ws, life), true) && StateOf(ws, life) != map[]
    ensures life.Down? ==> Uniform(StateOf(ws, life), false) && StateOf(ws, life) != map[]
    ensures !life.Absent? ==> SetAll(StateOf(ws, life), true) == StateOf(ws, Up(life.apps))
    ensures !life.Absent? ==> SetAll(StateOf(ws, life), false) == StateOf(ws, Down(life.apps))
  {
    if !life.Absent? {
      ProvisionedRuns(ws, life.apps);
      hide Provisioned;
      var up := Provisioned(ws, life.apps);
      assert SetAll(up, true) == up && SetAll(SetAll(up, false), true) == up;
      assert SetAll(SetAll(up, false), false) == SetAll(up, false);
      assert SetAll(up, false).Keys == up.Keys;
    }
  }

  lemma NotBoth(cs: Containers)
    requires cs != map[]
    ensures !(Uniform(cs, true) && Uniform(cs, false))
  {
    var n :| n in cs;
  }

  /** An action takes a workstation without left-overs to the life it is meant for, or finds it there already. */
  lemma ActionReaches(ws: string, life: Life, command: Command, after: Containers, ok: bool)
    requires
      var before := StateOf(ws, life);
      && (ok ==> after == SetAll(before, command != StopCommand))
      && (command == StartCommand && Uniform(before, true) ==> after == before)
      && (command == StopCommand && Uniform(before, false) ==> after == before)
      && (ok <==> Accepts(before, command))
    ensures after == StateOf(ws, NextLife(life, Acting(command)))
  {
    LifeShape(ws, life);
    if life.Absent? {
      assert SetAll(map[], true) == map[] && SetAll(map[], false) == map[];
    }
    hide StateOf, SetAll, Uniform;
    if life.Absent? {
      NothingThere(ws);
    }
  }

  lemma NothingThere(ws: string)
    ensures StateOf(ws, Absent) == map[] && Uniform(map[], true) && Uniform(map[], false)
  {
  }

  /**
   One order; `listed` says whether the listing it needs could be had.  On a faultless engine it takes
   a workstation without left-overs from `life` to the next one, and fails only where an action asks
   for what is already so.
   */
  method Obey(e: Engine, ws: string, list: Containers -> seq<Resource>, listed: bool, order: Order, ghost life: Life)
    returns (ok: bool)
    requires Sane(ws, e) && IsLister(list)
    modifies e
    ensures Sane(ws, e) && old(e.log) <= e.log
    ensures Faultless(e) && listed && old(e.containers) == StateOf(ws, life) && Fits(life, order) ==>
              && e.containers == StateOf(ws, NextLife(life, order))
              && (ok <==> (order.Acting? ==> Accepts(StateOf(ws, life), order.command)))
  {
    hide *;
    ghost var before := e.containers;
    ListerLists(list, before);
    SaneMeans(ws, e);
    LifeShape(ws, life);
    if Fits(life, order) {
      FitsMeans(ws, life, order);
    }
    if !listed && !order.Provisioning? {
      return false;
    }
    match order {
      case Provisioning(seeded, apps) =>
        ok := CreateResources(e, Provision(ws, seeded, apps));
      case Rebuilding(seeded, apps) =>
        ok := RebuildResources(e, Provision(ws, seeded, apps), list(e.containers));
      case Acting(command) =>
        ok := RunAction(e, list(e.containers), command);
        FewerKeepNames(ws, before, e.containers);
        SaneMeans(ws, e);
        if Faultless(e) && before == StateOf(ws, life) {
          ActionReaches(ws, life, command, e.containers, ok);
        }
      case Removing =>
        ok := RemoveWorkstation(e, list(e.containers));
        FewerKeepNames(ws, before, e.containers);
        SaneMeans(ws, e);
    }
  }

  lemma SaneMeans(ws: string, e: Engine)
    ensures Sane(ws, e) <==> Closed(e.containers) && Safe(e) && OneShotNames(ws, e.containers)
  {
  }

  lemma FitsMeans(ws: string, life: Life, order: Order)
    requires Fits(life, order)
    ensures order.Provisioning? ==> StateOf(ws, life) == map[] && DistinctApps(order.apps)
    ensures order.Rebuilding? ==> DistinctApps(order.apps)
    ensures order.Provisioning? || order.Rebuilding? ==>
              StateOf(ws, NextLife(life, order)) == Provisioned(ws, order.apps)
    ensures order.Removing? ==> StateOf(ws, NextLife(life, order)) == map[]
  {
  }

  /**
   From an empty workstation, through any series of orders, each cut short anywhere by any plan of
   failing calls: the containers are what the logged calls made of them, and they were dependency-closed
   after every single call.  On a faultless engine the orders achieve exactly what they are meant to.
   */
  method RunOrders(ws: string, plan: nat -> Ending, healthy: nat -> bool, list: Containers -> seq<Resource>,
                   listed: nat -> bool, orders: seq<Order>) returns (e: Engine)
    requires IsLister(list)
    ensures fresh(e) && e.plan == plan && e.healthy == healthy && Sane(ws, e)
    ensures |e.log| == e.calls && e.containers == Replay(map[], e.log, plan)
    ensures forall k :: 0 <= k <= |e.log| ==> Closed(Replay(map[], e.log[..k], plan))
    ensures Faultless(e) && (forall i :: 0 <= i < |orders| ==> listed(i)) && Orderly(orders) ==>
              e.containers == StateOf(ws, LifeAfter(orders))
  {
    e := new Engine(map[], plan, healthy);
    NothingSane(ws, e);
    NothingThere(ws);
    ghost var exact := Faultless(e) && (forall i :: 0 <= i < |orders| ==> listed(i)) && Orderly(orders);
    assert orders[..0] == [] && LifeAfter([]) == Absent;
    ghost var engine := e;
    for i := 0 to |orders|
      invariant e == engine && Sane(ws, e)
      invariant exact ==> e.containers == StateOf(ws, LifeAfter(orders[..i]))
    {
      hide Sane, StateOf, Closed, Replay, Faultless;
      var _ := Obey(e, ws, list, listed(i), orders[i], LifeAfter(orders[..i]));
      assert orders[..i + 1][..i] == orders[..i];
    }
    assert orders[..|orders|] == orders;
    LogMeans(ws, e);
  }

  lemma NothingSane(ws: string, e: Engine)
    requires e.containers == map[] && (Closed(map[]) ==> Safe(e))
    ensures Sane(ws, e)
  {
  }

  lemma LogMeans(ws: string, e: Engine)
    requires Sane(ws, e)
    ensures |e.log| == e.calls && e.containers == Replay(e.start, e.log, e.plan)
    ensures forall k :: 0 <= k <= |e.log| ==> Closed(Replay(e.start, e.log[..k], e.plan))
  {
    hide Closed, Replay;
  }

  // ----- Stuck half-way -----

  lemma TwoListed(rs: seq<Resource>, cs: Containers, a: string, b: string)
    requires Lists(rs, cs) && a in cs && b in cs && a != b
    ensures |rs| >= 2
  {
    var i := ListedIndex(rs, cs, a);
    var j := ListedIndex(rs, cs, b);
  }

  /** A start whose second call is refused leaves the first container running alone. */
  lemma SecondRefused(cs: Containers, rs: seq<Resource>, plan: nat -> Ending, healthy: nat -> bool)
    requires Lists(rs, cs) && |rs| >= 2 && Uniform(cs, false)
    requires plan(0) == Done && plan(1) == Refused && healthy(1)
    ensures
      var after := StartFrom(cs, rs, 0, plan, healthy, 0);
      !after.ok && !Uniform(after.containers, true) && !Uniform(after.containers, false)
  {
    StartFromNext(cs, rs, 0, plan, healthy, 0);
    var first := AfterAction(cs, rs[0].name, Start, Done);
    StartFromNext(first, rs, 1, plan, healthy, 1);
    hide StartFrom;
    assert rs[0].name != rs[1].name;
    assert first[rs[0].name].running && !first[rs[1].name].running;
  }

  /**
   From a provisioned and stopped workstation, a start cut short by one refused call leaves a
   workstation that even a faultless engine neither starts nor stops; only a restart gets it out.
   */
  method CutStartIsStuck(ws: string, app: AppSpec, list: Containers -> seq<Resource>) returns (e: Engine)
    requires IsLister(list)
    ensures fresh(e) && Sane(ws, e) && e.start == StateOf(ws, Down([app]))
    ensures !Accepts(e.containers, StartCommand) && !Accepts(e.containers, StopCommand)
    ensures Accepts(e.containers, RestartCommand)
  {
    hide *;
    var cs := ProvisionAndStop(ws, app, list);
    e := new Engine(cs, i => if i == 1 then Refused else Done, _ => true);
    ListerLists(list, cs);
    SortedLists(list(cs), cs, true);
    var rs := Sort(list(cs), true);
    LifeShape(ws, Down([app]));
    AppAndGateway(ws, app);
    TwoListed(rs, cs, GatewayName(ws), AppName(ws, app.id));
    SecondRefused(cs, rs, e.plan, e.healthy);
    var ok := StartAll(e, rs);
    FewerKeepNames(ws, cs, e.containers);
    SaneMeans(ws, e);
    AcceptsMeans(e.containers);
  }

  lemma AcceptsMeans(cs: Containers)
    ensures Accepts(cs, StartCommand) <==> Uniform(cs, false)
    ensures Accepts(cs, StopCommand) <==> Uniform(cs, true)
    ensures Accepts(cs, RestartCommand)
  {
  }

  method ProvisionAndStop(ws: string, app: AppSpec, list: Containers -> seq<Resource>) returns (cs: Containers)
    requires IsLister(list)
    ensures cs == StateOf(ws, Down([app])) && Closed(cs) && OneShotNames(ws, cs)
  {
    LivesOfTwo(app);
    var e := RunOrders(ws, _ => Done, _ => true, list, _ => true, [Provisioning(false, [app]), Acting(StopCommand)]);
    hide Closed, Safe, OneShotNames, StateOf, Orderly, LifeAfter, Replay;
    cs := e.containers;
  }

  lemma LivesOfTwo(app: AppSpec)
    ensures
      var orders := [Provisioning(false, [app]), Acting(StopCommand)];
      Orderly(orders) && LifeAfter(orders) == Down([app])
  {
    var one, two := Provisioning(false, [app]), Acting(StopCommand);
    assert [one, two][..1] == [one] && [one, two][..0] == [] && [one][..0] == [];
    assert LifeAfter([one]) == Up([app]);
  }

  lemma AppAndGateway(ws: string, app: AppSpec)
    ensures GatewayName(ws) in StateOf(ws, Down([app])) && AppName(ws, app.id) in StateOf(ws, Down([app]))
    ensures GatewayName(ws) != AppName(ws, app.id)
  {
    NamesDiffer(ws, app.id, app.id);
    ProvisionedRuns(ws, [app]);
    hide GatewayName, AppName, SandboxName;
    assert Provisioned(ws, [app]) == WithApp(ws, Provisioned(ws, [app][..0]), app.id);
  }

  // ----- Overlapping orders -----

  /**
   Orders are taken one at a time.  Were a removal to list the containers while an app is still being
   created, it would delete the gateway from under the app's running sandbox: the calls of the two,
   interleaved, with a listing that was complete when it was made.
   */
  lemma OverlapBreaksClosure(ws: string, app: string, plan: nat -> Ending)
    requires forall i: nat :: plan(i) == Done
    ensures
      var gateway, sandbox := GatewayName(ws), SandboxName(ws, app);
      var creating := [CreateCall(gateway, Wslan, ""), ActionCall(gateway, Start)];
      var more := [CreateCall(sandbox, Sandbox, app), ActionCall(sandbox, Start)];
      var removing := [ActionCall(gateway, Delete)];
      && Lists([Resource(gateway, Wslan, "")], Replay(map[], creating, plan))
      && Closed(Replay(map[], creating + more, plan))
      && !Closed(Replay(map[], creating + more + removing, plan))
  {
    NamesDiffer(ws, app, app);
    var gateway, sandbox := GatewayName(ws), SandboxName(ws, app);
    hide GatewayName, SandboxName;
    var creating := [CreateCall(gateway, Wslan, ""), ActionCall(gateway, Start)];
    var more := [CreateCall(sandbox, Sandbox, app), ActionCall(sandbox, Start)];
    var up := Container(Wslan, "", true);
    var one: Containers := map[gateway := up];
    var two: Containers := map[gateway := up, sandbox := Container(Sandbox, app, true)];
    ReplayTwo(map[], [], creating[0], creating[1], plan);
    assert [] + creating == creating;
    assert Replay(map[], creating, plan) == one;
    ReplayTwo(map[], creating, more[0], more[1], plan);
    assert Replay(map[], creating + more, plan) == two;
    ReplayOne(map[], creating + more, ActionCall(gateway, Delete), plan);
    hide Replay;
    Orphaned(gateway, sandbox, app);
  }

  lemma Orphaned(gateway: string, sandbox: string, app: string)
    requires gateway != sandbox
    ensures
      var two: Containers := map[gateway := Container(Wslan, "", true), sandbox := Container(Sandbox, app, true)];
      Closed(two) && !Closed(two - {gateway})
  {
    var two: Containers := map[gateway := Container(Wslan, "", true), sandbox := Container(Sandbox, app, true)];
    assert RunningGateway(two, gateway) && Gateway(two, gateway);
    assert sandbox in two - {gateway} && forall n :: !Gateway(two - {gateway}, n);
  }

  lemma ReplayOne(start: Containers, log: seq<Call>, call: Call, plan: nat -> Ending)
    ensures Replay(start, log + [call], plan) == AfterCall(Replay(start, log, plan), call, plan(|log|))
  {
    hide AfterCall;
    assert (log + [call])[..|log + [call]| - 1] == log;
  }

  lemma ReplayTwo(start: Containers, log: seq<Call>, a: Call, b: Call, plan: nat -> Ending)
    ensures Replay(start, log + [a, b], plan) ==
            AfterCall(AfterCall(Replay(start, log, plan), a, plan(|log|)), b, plan(|log| + 1))
  {
    hide AfterCall, Replay;
    assert log + [a, b] == log + [a] + [b];
    ReplayOne(start, log, a, plan);
    ReplayOne(start, log + [a], b, plan);
  }
}
