/**
 Creating and rebuilding a workstation's containers (internal/dockerworker/service.go): the gateway, a
 network sandbox and a container per app, and the one-shot containers that prepare storage.
 */
module Creation {
  import opened Text
  import opened Containers

  function Name(workstation: string, suffix: string): string {
    "wm-" + workstation + "-" + suffix
  }

  function SeedName(ws: string): string { Name(ws, "seed-workspace") }
  function GatewayName(ws: string): string { Name(ws, "wslan") }
  function SandboxName(ws: string, app: string): string { Name(ws, "net-" + app) }
  function AppName(ws: string, app: string): string { Name(ws, "app-" + app) }
  function InitName(ws: string, app: string): string { Name(ws, "init-" + app) }

  lemma NamesDiffer(ws: string, a: string, b: string)
    ensures SeedName(ws) != SandboxName(ws, b) && SeedName(ws) != AppName(ws, b)
    ensures SeedName(ws) != GatewayName(ws) && SeedName(ws) != SandboxName(ws, a) && SeedName(ws) != AppName(ws, a)
    ensures SeedName(ws) != InitName(ws, a) && InitName(ws, a) != GatewayName(ws)
    ensures InitName(ws, a) != SandboxName(ws, b) && InitName(ws, a) != AppName(ws, b)
    ensures SandboxName(ws, a) != AppName(ws, b)
    ensures GatewayName(ws) != SandboxName(ws, a) && GatewayName(ws) != AppName(ws, a)
  {
    var at := 3 + |ws| + 1;
    assert SeedName(ws)[at] == 's' && GatewayName(ws)[at] == 'w' && SandboxName(ws, a)[at] == 'n';
    assert AppName(ws, a)[at] == 'a' && InitName(ws, a)[at] == 'i';
    assert SandboxName(ws, b)[at] == 'n' && AppName(ws, b)[at] == 'a';
  }

  /** The names of one-shot containers are used for nothing else. */
  ghost predicate OneShotNames(ws: string, cs: Containers) {
    && (SeedName(ws) in cs ==> cs[SeedName(ws)].kind == Seed)
    && (forall app :: InitName(ws, app) in cs ==> cs[InitName(ws, app)].kind == Init)
  }

  datatype AppSpec = AppSpec(id: string, ownsStorage: bool, probed: bool)

  datatype Provision = Provision(workstation: string, seeded: bool, apps: seq<AppSpec>)

  // ----- The calls of a creation -----

  function OneShotCalls(name: string, kind: Kind): seq<Call> {
    [CreateCall(name, kind, ""), ActionCall(name, Start), WaitCall(name), ActionCall(name, Delete)]
  }

  function SeedCalls(ws: string): seq<Call> {
    [ActionCall(SeedName(ws), Delete)] + OneShotCalls(SeedName(ws), Seed)
  }

  function UpCalls(name: string, kind: Kind, app: string): seq<Call> {
    [CreateCall(name, kind, app), ActionCall(name, Start)]
  }

  /** The app's network first, then whatever prepares its storage, then the app. */
  function AppCalls(ws: string, app: AppSpec): seq<Call> {
    UpCalls(SandboxName(ws, app.id), Sandbox, app.id)
    + (if app.ownsStorage then OneShotCalls(InitName(ws, app.id), Init) else [])
    + UpCalls(AppName(ws, app.id), App, app.id)
  }

  function AllAppCalls(ws: string, apps: seq<AppSpec>): seq<Call> {
    if apps == [] then [] else AllAppCalls(ws, apps[..|apps| - 1]) + AppCalls(ws, apps[|apps| - 1])
  }

  function CreationCalls(request: Provision): seq<Call> {
    var ws := request.workstation;
    (if request.seeded then SeedCalls(ws) else [])
    + UpCalls(GatewayName(ws), Wslan, "") + AllAppCalls(ws, request.apps)
  }

  lemma AllAppCallsNext(ws: string, apps: seq<AppSpec>, k: nat)
    requires k < |apps|
    ensures AllAppCalls(ws, apps[..k]) + AppCalls(ws, apps[k]) == AllAppCalls(ws, apps[..k + 1])
    ensures AllAppCalls(ws, apps[..0]) == []
  {
    hide AppCalls;
    assert apps[..k + 1][..k] == apps[..k];
  }

  lemma NoAppCalls(ws: string)
    ensures AllAppCalls(ws, []) == []
  {
  }

  /** What creating keeps at every call. */
  ghost predicate Sane(ws: string, e: Engine)
    reads e
  {
    Closed(e.containers) && Safe(e) && OneShotNames(ws, e.containers)
  }

  lemma OneShotFree(cs: Containers, name: string)
    requires Closed(cs) && name in cs && Rank(cs[name].kind) == 3
    ensures Closed(Started(cs, name)) && Closed(Halted(cs, name)) && Closed(cs - {name})
  {
    hide Closed;
    StartKeepsClosed(cs, name);
    StopKeepsClosed(cs, name);
    DeleteKeepsClosed(cs, name);
  }

  lemma NamesAfterCreate(ws: string, cs: Containers, name: string, c: Container)
    requires OneShotNames(ws, cs)
    requires name == SeedName(ws) ==> c.kind == Seed
    requires forall app :: name == InitName(ws, app) ==> c.kind == Init
    ensures OneShotNames(ws, cs[name := c])
  {
    hide SeedName, InitName;
  }

  method Create(e: Engine, ws: string, name: string, kind: Kind, app: string) returns (ok: bool)
    requires Sane(ws, e) && CanExist(e.containers, Container(kind, app, false))
    requires name == SeedName(ws) ==> kind == Seed
    requires forall a :: name == InitName(ws, a) ==> kind == Init
    modifies e
    ensures old(e.log) <= e.log
    ensures Sane(ws, e) && e.log == old(e.log) + [CreateCall(name, kind, app)]
    ensures ok ==> name in e.containers && e.containers[name].kind == kind && e.containers[name].app == app
    ensures forall n :: n in old(e.containers) ==> n in e.containers && e.containers[n] == old(e.containers)[n]
    ensures Faultless(e) && name !in old(e.containers) ==>
              ok && e.containers == old(e.containers)[name := Container(kind, app, false)]
  {
    hide Closed, Safe, OneShotNames, CanExist, SeedName, InitName, Faultless;
    NoFault(e, e.calls);
    ghost var cs := e.containers;
    var c := Container(kind, app, false);
    if name !in cs {
      CreateKeepsClosed(cs, name, c);
      NamesAfterCreate(ws, cs, name, c);
    }
    ok := e.CreateContainer(name, kind, app);
  }

  method StartOne(e: Engine, ws: string, name: string) returns (ok: bool)
    requires Sane(ws, e) && name in e.containers && CanRun(e.containers, e.containers[name])
    modifies e
    ensures old(e.log) <= e.log
    ensures Sane(ws, e) && e.log == old(e.log) + [ActionCall(name, Start)]
    ensures name in e.containers && e.containers == old(e.containers)[name := e.containers[name]]
    ensures e.containers[name].kind == old(e.containers)[name].kind
    ensures e.containers[name].app == old(e.containers)[name].app
    ensures ok || old(e.containers)[name].running ==> e.containers[name].running
    ensures Faultless(e) && !old(e.containers)[name].running ==> ok
  {
    hide Closed, Safe, CanRun, SeedName, InitName, Faultless;
    NoFault(e, e.calls);
    ghost var cs := e.containers;
    StartKeepsClosed(cs, name);
    ok := e.ContainerAction(name, Start);
  }

  /** Whatever ran for good still runs, unchanged. */
  ghost predicate KeepsUp(before: Containers, after: Containers) {
    forall n :: n in before && before[n].running && Rank(before[n].kind) < 3 ==> n in after && after[n] == before[n]
  }

  /** A one-shot container: create, start, wait, remove.  Touches nothing else. */
  method RunOnce(e: Engine, ws: string, name: string, kind: Kind, app: string) returns (ok: bool)
    requires Sane(ws, e) && Rank(kind) == 3
    requires name == SeedName(ws) ==> kind == Seed
    requires forall a :: name == InitName(ws, a) ==> kind == Init
    modifies e
    ensures old(e.log) <= e.log
    ensures Sane(ws, e) && KeepsUp(old(e.containers), e.containers)
    ensures ok ==> name !in e.containers
    ensures ok && app == "" ==> e.log == old(e.log) + OneShotCalls(name, kind)
    ensures Faultless(e) && name !in old(e.containers) ==> ok && e.containers == old(e.containers)
  {
    hide Closed, Safe, SeedName, InitName, Faultless, OneShotNames;
    ghost var before := e.containers;
    ok := Create(e, ws, name, kind, app);
    if !ok {
      return;
    }
    ok := StartOne(e, ws, name);
    if !ok {
      return;
    }
    ghost var cs := e.containers;
    ok := FinishOneShot(e, ws, name);
    SameElsewhere(cs, e.containers, name);
    SameElsewhere(before, e.containers, name);
  }

  lemma SameElsewhere(a: Containers, b: Containers, name: string)
    ensures a - {name} == b - {name} ==> forall n :: n in a && n != name ==> n in b && b[n] == a[n]
    ensures a - {name} == b - {name} && name !in a && name !in b ==> a == b
  {
    forall n | n in a && n != name && a - {name} == b - {name}
      ensures n in b && b[n] == a[n]
    {
      assert n in a - {name} && (a - {name})[n] == a[n] && (b - {name})[n] == a[n];
    }
    if a - {name} == b - {name} && name !in a && name !in b {
      assert a == a - {name} && b == b - {name};
    }
  }

  /** Waits for a one-shot container and removes it. */
  method FinishOneShot(e: Engine, ws: string, name: string) returns (ok: bool)
    requires Sane(ws, e) && name in e.containers && Rank(e.containers[name].kind) == 3
    modifies e
    ensures old(e.log) <= e.log
    ensures Sane(ws, e)
    ensures ok ==> e.log == old(e.log) + [WaitCall(name), ActionCall(name, Delete)]
    ensures e.containers - {name} == old(e.containers) - {name}
    ensures ok ==> name !in e.containers
    ensures Faultless(e) ==> ok
  {
    hide Closed, Safe, SeedName, InitName, Faultless;
    ghost var cs := e.containers;
    OneShotFree(cs, name);
    NoFault(e, e.calls);
    ok := e.WaitContainer(name);
    if ok {
      ok := DeleteOne(e, ws, name);
    }
  }

  method DeleteOne(e: Engine, ws: string, name: string) returns (ok: bool)
    requires Sane(ws, e) && (name in e.containers ==> Rank(e.containers[name].kind) == 3)
    modifies e
    ensures old(e.log) <= e.log
    ensures Sane(ws, e) && e.log == old(e.log) + [ActionCall(name, Delete)]
    ensures e.containers - {name} == old(e.containers) - {name}
    ensures ok ==> name !in e.containers
    ensures Faultless(e) ==> ok
  {
    hide Closed, Safe, SeedName, InitName, Faultless;
    NoFault(e, e.calls);
    ghost var cs := e.containers;
    if name in cs {
      OneShotFree(cs, name);
    }
    ok := e.ContainerAction(name, Delete);
  }

  method SeedWorkspace(e: Engine, ws: string) returns (ok: bool)
    requires Sane(ws, e)
    modifies e
    ensures old(e.log) <= e.log
    ensures Sane(ws, e)
    ensures ok ==> SeedName(ws) !in e.containers && e.log == old(e.log) + SeedCalls(ws)
    ensures Faultless(e) ==> ok && e.containers == old(e.containers) - {SeedName(ws)}
  {
    hide Closed, Safe, SeedName, InitName, Faultless;
    forall a ensures SeedName(ws) != InitName(ws, a) {
      NamesDiffer(ws, a, a);
    }
    Appended(e.log, [ActionCall(SeedName(ws), Delete)], OneShotCalls(SeedName(ws), Seed));
    hide OneShotCalls;
    ok := DeleteOne(e, ws, SeedName(ws));
    if ok {
      ok := RunOnce(e, ws, SeedName(ws), Seed, "");
    }
  }

  ghost predicate GatewayIsUp(ws: string, cs: Containers) {
    RunningGateway(cs, GatewayName(ws))
  }

  lemma UpMayExistAndRun(ws: string, cs: Containers, app: string)
    requires GatewayIsUp(ws, cs)
    ensures CanExist(cs, Container(Sandbox, app, false)) && CanRun(cs, Container(Sandbox, app, false))
    ensures RunningSandboxOf(cs, SandboxName(ws, app), app) ==>
              CanExist(cs, Container(App, app, false)) && CanRun(cs, Container(App, app, false))
  {
    assert RunningGateway(cs, GatewayName(ws)) && Gateway(cs, GatewayName(ws));
    if RunningSandboxOf(cs, SandboxName(ws, app), app) {
      assert SandboxOf(cs, SandboxName(ws, app), app);
    }
  }

  ghost predicate AppIsUp(ws: string, cs: Containers, app: string) {
    AppName(ws, app) in cs && cs[AppName(ws, app)] == Container(App, app, true)
  }

  /** Create and start one container of a workstation whose gateway is up. */
  method BringUp(e: Engine, ws: string, name: string, kind: Kind, app: string) returns (ok: bool)
    requires Sane(ws, e) && CanExist(e.containers, Container(kind, app, false))
    requires CanRun(e.containers, Container(kind, app, false)) && (kind == Sandbox || kind == App)
    requires name != SeedName(ws) && forall a :: name != InitName(ws, a)
    modifies e
    ensures old(e.log) <= e.log
    ensures Sane(ws, e) && KeepsUp(old(e.containers), e.containers)
    ensures ok ==> e.log == old(e.log) + UpCalls(name, kind, app)
    ensures ok ==> name in e.containers && e.containers[name] == Container(kind, app, true)
    ensures Faultless(e) && name !in old(e.containers) ==>
              ok && e.containers == old(e.containers)[name := Container(kind, app, true)]
  {
    hide Closed, Safe, OneShotNames, SeedName, InitName, Faultless;
    ghost var cs := e.containers;
    ok := Create(e, ws, name, kind, app);
    if !ok {
      return;
    }
    StillRunnable(cs, e.containers, e.containers[name]);
    ok := StartOne(e, ws, name);
  }

  lemma StillRunnable(before: Containers, after: Containers, c: Container)
    requires KeepsUp(before, after) && CanRun(before, c.(running := false))
    ensures CanRun(after, c)
  {
    assert forall n :: RunningGateway(before, n) ==> RunningGateway(after, n);
    assert forall n, app :: RunningSandboxOf(before, n, app) ==> RunningSandboxOf(after, n, app);
  }

  lemma KeepsUpTransitive(a: Containers, b: Containers, c: Containers)
    ensures KeepsUp(a, a) && (KeepsUp(a, b) && KeepsUp(b, c) ==> KeepsUp(a, c))
  {
  }

  predicate NamesFree(ws: string, cs: Containers, app: string) {
    SandboxName(ws, app) !in cs && AppName(ws, app) !in cs && InitName(ws, app) !in cs
  }

  /** With an app's sandbox and the app itself running. */
  function WithApp(ws: string, cs: Containers, app: string): Containers {
    cs[SandboxName(ws, app) := Container(Sandbox, app, true)][AppName(ws, app) := Container(App, app, true)]
  }

  lemma AppCallsInOrder(log: seq<Call>, ws: string, app: AppSpec)
    ensures
      var first := log + UpCalls(SandboxName(ws, app.id), Sandbox, app.id);
      var second := if app.ownsStorage then first + OneShotCalls(InitName(ws, app.id), Init) else first;
      second + UpCalls(AppName(ws, app.id), App, app.id) == log + AppCalls(ws, app)
  {
    hide UpCalls, OneShotCalls;
    var up, app' := UpCalls(SandboxName(ws, app.id), Sandbox, app.id), UpCalls(AppName(ws, app.id), App, app.id);
    var init := if app.ownsStorage then OneShotCalls(InitName(ws, app.id), Init) else [];
    Appended(log, up, init);
    Appended(log, up + init, app');
    Appended(log + up, [], []);
  }

  method CreateAppResources(e: Engine, ws: string, app: AppSpec) returns (ok: bool)
    requires Sane(ws, e) && GatewayIsUp(ws, e.containers)
    modifies e
    ensures old(e.log) <= e.log
    ensures Sane(ws, e) && KeepsUp(old(e.containers), e.containers)
    ensures ok ==> AppIsUp(ws, e.containers, app.id) && e.log == old(e.log) + AppCalls(ws, app)
    ensures ok && app.probed ==> e.healthy(e.calls)
    ensures Faultless(e) && NamesFree(ws, old(e.containers), app.id) ==>
              ok && e.containers == WithApp(ws, old(e.containers), app.id)
  {
    hide Closed, Safe, OneShotNames, CanRun, CanExist, KeepsUp, Faultless;
    hide SeedName, InitName, SandboxName, AppName, GatewayName;
    forall a
      ensures SandboxName(ws, app.id) != InitName(ws, a) && AppName(ws, app.id) != InitName(ws, a)
    {
      NamesDiffer(ws, a, app.id);
    }
    NamesDiffer(ws, app.id, app.id);
    AppCallsInOrder(e.log, ws, app);
    hide UpCalls, OneShotCalls, AppCalls;
    var sandbox, name := SandboxName(ws, app.id), AppName(ws, app.id);
    UpMayExistAndRun(ws, e.containers, app.id);
    ghost var cs0 := e.containers;
    ok := BringUp(e, ws, sandbox, Sandbox, app.id);
    if !ok {
      return;
    }
    ghost var cs1 := e.containers;
    if app.ownsStorage {
      ok := RunOnce(e, ws, InitName(ws, app.id), Init, "");
      KeepsUpTransitive(cs0, cs1, e.containers);
      if !ok {
        return;
      }
    }
    KeepsUpTransitive(cs1, cs1, cs1);
    GatewayStays(ws, cs0, e.containers);
    SandboxStays(cs1, e.containers, sandbox, app.id);
    UpMayExistAndRun(ws, e.containers, app.id);
    ghost var cs2 := e.containers;
    ok := BringUp(e, ws, name, App, app.id);
    KeepsUpTransitive(cs0, cs2, e.containers);
    NoFault(e, e.calls);
    if ok && app.probed {
      ok := e.healthy(e.calls);
    }
  }

  lemma SandboxStays(before: Containers, after: Containers, name: string, app: string)
    requires KeepsUp(before, after) && RunningSandboxOf(before, name, app)
    ensures RunningSandboxOf(after, name, app)
  {
  }

  lemma AppStays(ws: string, before: Containers, after: Containers, app: string)
    requires KeepsUp(before, after) && AppIsUp(ws, before, app)
    ensures AppIsUp(ws, after, app)
  {
  }

  lemma GatewayStays(ws: string, before: Containers, after: Containers)
    requires KeepsUp(before, after) && GatewayIsUp(ws, before)
    ensures GatewayIsUp(ws, after)
  {
  }

  method CreateGateway(e: Engine, ws: string) returns (ok: bool)
    requires Sane(ws, e)
    modifies e
    ensures old(e.log) <= e.log
    ensures Sane(ws, e)
    ensures ok ==> GatewayIsUp(ws, e.containers) && e.healthy(e.calls)
    ensures ok ==> e.log == old(e.log) + UpCalls(GatewayName(ws), Wslan, "")
    ensures Faultless(e) && GatewayName(ws) !in old(e.containers) ==>
              ok && e.containers == old(e.containers)[GatewayName(ws) := Container(Wslan, "", true)]
  {
    hide Closed, Safe, OneShotNames, SeedName, InitName, GatewayName, Faultless;
    forall a ensures SeedName(ws) != GatewayName(ws) && InitName(ws, a) != GatewayName(ws) {
      NamesDiffer(ws, a, a);
    }
    NamesDiffer(ws, "", "");
    ok := Create(e, ws, GatewayName(ws), Wslan, "");
    if !ok {
      return;
    }
    ok := StartOne(e, ws, GatewayName(ws));
    NoFault(e, e.calls);
    if ok {
      ok := e.healthy(e.calls);
    }
  }

  /** Exactly what a workstation consists of: its gateway, and a sandbox and a container per app, all running. */
  function Provisioned(ws: string, apps: seq<AppSpec>): Containers {
    if apps == [] then map[GatewayName(ws) := Container(Wslan, "", true)]
    else WithApp(ws, Provisioned(ws, apps[..|apps| - 1]), apps[|apps| - 1].id)
  }

  predicate DistinctApps(apps: seq<AppSpec>) {
    forall i, j :: 0 <= i < j < |apps| ==> apps[i].id != apps[j].id
  }

  lemma SameSuffix(ws: string, prefix: string, a: string, b: string)
    requires Name(ws, prefix + a) == Name(ws, prefix + b)
    ensures a == b
  {
    var at := 3 + |ws| + 1 + |prefix|;
    assert Name(ws, prefix + a)[at..] == a && Name(ws, prefix + b)[at..] == b;
  }

  lemma AppsApart(ws: string, a: string, b: string)
    requires a != b
    ensures SandboxName(ws, a) != SandboxName(ws, b) && AppName(ws, a) != AppName(ws, b)
  {
    hide Name;
    if SandboxName(ws, a) == SandboxName(ws, b) {
      SameSuffix(ws, "net-", a, b);
    }
    if AppName(ws, a) == AppName(ws, b) {
      SameSuffix(ws, "app-", a, b);
    }
  }

  /** The names of another app are still free. */
  lemma {:induction false} OthersFree(ws: string, apps: seq<AppSpec>, app: string)
    requires forall i :: 0 <= i < |apps| ==> apps[i].id != app
    ensures NamesFree(ws, Provisioned(ws, apps), app)
  {
    hide SandboxName, AppName, InitName, GatewayName;
    NamesDiffer(ws, app, app);
    if apps != [] {
      var last := apps[|apps| - 1].id;
      OthersFree(ws, apps[..|apps| - 1], app);
      NamesDiffer(ws, app, last);
      NamesDiffer(ws, last, app);
      AppsApart(ws, app, last);
    }
  }

  lemma NextProvisioned(ws: string, apps: seq<AppSpec>, k: nat)
    requires k < |apps| && DistinctApps(apps)
    ensures NamesFree(ws, Provisioned(ws, apps[..k]), apps[k].id)
    ensures Provisioned(ws, apps[..k + 1]) == WithApp(ws, Provisioned(ws, apps[..k]), apps[k].id)
  {
    hide WithApp, NamesFree;
    OthersFree(ws, apps[..k], apps[k].id);
    assert apps[..k + 1][..k] == apps[..k];
  }

  lemma NoAppsProvisioned(ws: string)
    ensures Provisioned(ws, []) == map[GatewayName(ws) := Container(Wslan, "", true)]
  {
  }

  function PrepareCalls(ws: string, seeded: bool): seq<Call> {
    if seeded then SeedCalls(ws) else []
  }

  /** Seeds the workspace, if there is an image to seed it from. */
  method PrepareWorkspace(e: Engine, ws: string, seeded: bool) returns (ok: bool)
    requires Sane(ws, e)
    modifies e
    ensures old(e.log) <= e.log && (ok ==> e.log == old(e.log) + PrepareCalls(ws, seeded))
    ensures Sane(ws, e)
    ensures Faultless(e) ==> ok
    ensures Faultless(e) && old(e.containers) == map[] ==> e.containers == map[]
  {
    hide Closed, Safe, OneShotNames, SeedName, SeedCalls, Faultless;
    ok := true;
    if seeded {
      ok := SeedWorkspace(e, ws);
    }
  }

  lemma CreationCallsInOrder(log: seq<Call>, request: Provision)
    ensures
      var ws := request.workstation;
      log + PrepareCalls(ws, request.seeded) + UpCalls(GatewayName(ws), Wslan, "") + AllAppCalls(ws, request.apps) ==
      log + CreationCalls(request)
  {
    hide SeedCalls, UpCalls, AllAppCalls;
    var ws := request.workstation;
    var seed, up := PrepareCalls(ws, request.seeded), UpCalls(GatewayName(ws), Wslan, "");
    Appended(log, seed, up);
    Appended(log, seed + up, AllAppCalls(ws, request.apps));
  }

  /** Volumes, networks and file copies change no container; `e.healthy` stands for their success as well. */
  method CreateResources(e: Engine, request: Provision) returns (ok: bool)
    requires Sane(request.workstation, e)
    modifies e
    ensures old(e.log) <= e.log
    ensures Sane(request.workstation, e)
    ensures ok ==> GatewayIsUp(request.workstation, e.containers)
    ensures ok ==> e.log == old(e.log) + CreationCalls(request)
    ensures ok ==>
              forall j :: 0 <= j < |request.apps| ==> AppIsUp(request.workstation, e.containers, request.apps[j].id)
    ensures Faultless(e) && old(e.containers) == map[] && DistinctApps(request.apps) ==>
              ok && e.containers == Provisioned(request.workstation, request.apps)
  {
    ghost var exact := Faultless(e) && e.containers == map[] && DistinctApps(request.apps);
    var ws := request.workstation;
    NoAppsProvisioned(ws);
    CreationCallsInOrder(e.log, request);
    hide *;
    ghost var log0, prepare, up := e.log, PrepareCalls(ws, request.seeded), UpCalls(GatewayName(ws), Wslan, "");
    Appended(log0, prepare, up);
    ok := PrepareWorkspace(e, ws, request.seeded);
    if !ok {
      return;
    }
    ghost var log1 := e.log;
    ok := CreateGateway(e, ws);
    if !ok {
      Continued(log0, prepare, log1, e.log);
      return;
    }
    ghost var log2 := e.log;
    ok := CreateApps(e, ws, request.apps);
    Continued(log0, prepare + up, log2, e.log);
  }

  method CreateApps(e: Engine, ws: string, apps: seq<AppSpec>) returns (ok: bool)
    requires Sane(ws, e) && GatewayIsUp(ws, e.containers)
    modifies e
    ensures old(e.log) <= e.log
    ensures Sane(ws, e) && GatewayIsUp(ws, e.containers)
    ensures ok ==> e.log == old(e.log) + AllAppCalls(ws, apps)
    ensures ok ==> forall j :: 0 <= j < |apps| ==> AppIsUp(ws, e.containers, apps[j].id)
    ensures Faultless(e) && old(e.containers) == Provisioned(ws, []) && DistinctApps(apps) ==>
              ok && e.containers == Provisioned(ws, apps)
  {
    hide *;
    ghost var exact := Faultless(e) && e.containers == Provisioned(ws, []) && DistinctApps(apps);
    assert apps[..0] == [];
    NoAppCalls(ws);
    for k := 0 to |apps|
      invariant e.log == old(e.log) + AllAppCalls(ws, apps[..k])
      invariant Sane(ws, e) && GatewayIsUp(ws, e.containers)
      invariant forall j :: 0 <= j < k ==> AppIsUp(ws, e.containers, apps[j].id)
      invariant exact ==> e.containers == Provisioned(ws, apps[..k])
    {
      ghost var before := e.containers;
      AllAppCallsNext(ws, apps, k);
      Appended(old(e.log), AllAppCalls(ws, apps[..k]), AppCalls(ws, apps[k]));
      if exact {
        NextProvisioned(ws, apps, k);
      }
      ok := CreateAppResources(e, ws, apps[k]);
      GatewayStays(ws, before, e.containers);
      AppsStay(ws, before, e.containers, apps[..k]);
      if !ok {
        return;
      }
    }
    assert apps[..|apps|] == apps;
    return true;
  }

  lemma AppsStay(ws: string, before: Containers, after: Containers, apps: seq<AppSpec>)
    requires KeepsUp(before, after)
    ensures forall j :: 0 <= j < |apps| && AppIsUp(ws, before, apps[j].id) ==> AppIsUp(ws, after, apps[j].id)
  {
    hide KeepsUp, AppIsUp;
    forall j | 0 <= j < |apps| && AppIsUp(ws, before, apps[j].id)
      ensures AppIsUp(ws, after, apps[j].id)
    {
      AppStays(ws, before, after, apps[j].id);
    }
  }

  /** All calls of a rebuild that succeeds. */
  function RebuildCalls(request: Provision, listing: seq<Resource>): seq<Call> {
    DeleteCalls(Sort(listing, false), false) + CreationCalls(request)
  }

  lemma {:induction false} DeletesAll(rs: seq<Resource>, everything: bool)
    ensures forall i :: 0 <= i < |rs| && Replaced(rs[i].kind, everything) ==>
              ActionCall(rs[i].name, Delete) in DeleteCalls(rs, everything)
    ensures forall call :: call in DeleteCalls(rs, everything) ==> call.ActionCall? && call.action == Delete
  {
    hide Replaced;
    if rs != [] {
      DeletesAll(rs[..|rs| - 1], everything);
    }
  }

  lemma MakesApp(ws: string, app: AppSpec)
    ensures CreateCall(AppName(ws, app.id), App, app.id) in AppCalls(ws, app)
    ensures ActionCall(AppName(ws, app.id), Start) in AppCalls(ws, app)
  {
    hide AppName, SandboxName, InitName;
    var up := UpCalls(AppName(ws, app.id), App, app.id);
    assert up[0] in AppCalls(ws, app) && up[1] in AppCalls(ws, app);
  }

  lemma {:induction false} StartsApps(ws: string, apps: seq<AppSpec>)
    ensures forall i :: 0 <= i < |apps| ==>
              && CreateCall(AppName(ws, apps[i].id), App, apps[i].id) in AllAppCalls(ws, apps)
              && ActionCall(AppName(ws, apps[i].id), Start) in AllAppCalls(ws, apps)
  {
    hide AppName, AppCalls;
    if apps != [] {
      StartsApps(ws, apps[..|apps| - 1]);
      MakesApp(ws, apps[|apps| - 1]);
    }
  }

  /**
   A rebuild that succeeds first deletes every gateway, sandbox and app there was, and then creates and
   starts each requested app anew.
   */
  lemma RebuildDeletesThenCreates(cs: Containers, request: Provision, listing: seq<Resource>)
    requires Lists(listing, cs)
    ensures exists gone: seq<Call>, made: seq<Call> ::
              && RebuildCalls(request, listing) == gone + made
              && (forall n :: n in cs && Rank(cs[n].kind) < 3 ==> ActionCall(n, Delete) in gone)
              && (forall call :: call in gone ==> call.ActionCall? && call.action == Delete)
              && (forall i :: 0 <= i < |request.apps| ==>
                    && CreateCall(AppName(request.workstation, request.apps[i].id), App, request.apps[i].id) in made
                    && ActionCall(AppName(request.workstation, request.apps[i].id), Start) in made)
  {
    SortedLists(listing, cs, false);
    var rs := Sort(listing, false);
    var gone, made := DeleteCalls(rs, false), CreationCalls(request);
    DeletesAll(rs, false);
    StartsApps(request.workstation, request.apps);
    hide Sort, Ordered, DeleteCalls, AllAppCalls, AppName, UpCalls, SeedCalls;
    forall n | n in cs && Rank(cs[n].kind) < 3
      ensures ActionCall(n, Delete) in gone
    {
      var i := ListedIndex(rs, cs, n);
    }
    hide CreationCalls;
    assert RebuildCalls(request, listing) == gone + made;
  }

  /** Replaces every container but left-over one-shot ones; with none of those, exactly as if created anew. */
  method RebuildResources(e: Engine, request: Provision, listing: seq<Resource>) returns (ok: bool)
    requires Sane(request.workstation, e) && Lists(listing, e.containers)
    modifies e
    ensures old(e.log) <= e.log
    ensures Sane(request.workstation, e)
    ensures ok ==> GatewayIsUp(request.workstation, e.containers)
    ensures ok ==> e.log == old(e.log) + RebuildCalls(request, listing)
    ensures ok ==>
              forall j :: 0 <= j < |request.apps| ==> AppIsUp(request.workstation, e.containers, request.apps[j].id)
    ensures Faultless(e) && NoOneShots(old(e.containers)) && DistinctApps(request.apps) ==>
              ok && e.containers == Provisioned(request.workstation, request.apps)
  {
    hide Closed, Safe, SeedName, InitName, GatewayIsUp, AppIsUp, Faultless, DistinctApps, Provisioned, Sort;
    ghost var before := e.containers;
    hide CreationCalls, DeleteCalls;
    Appended(e.log, DeleteCalls(Sort(listing, false), false), CreationCalls(request));
    SortedLists(listing, e.containers, false);
    ok := DeleteAll(e, Sort(listing, false), false);
    if ok {
      NothingLeft(before, e.containers);
      ok := CreateResources(e, request);
    }
  }

  ghost predicate NoOneShots(cs: Containers) {
    forall n :: n in cs ==> Rank(cs[n].kind) < 3
  }

  lemma NothingLeft(before: Containers, after: Containers)
    requires Kept(before, after) && forall n :: n in after ==> !Replaced(after[n].kind, false)
    ensures NoOneShots(before) ==> after == map[]
  {
    if NoOneShots(before) {
      assert forall n :: n !in after;
    }
  }
}
