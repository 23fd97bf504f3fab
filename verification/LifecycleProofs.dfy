/** The order of the calls that a group's `Run` and `Close` make, whatever fails. */
module LifecycleProofs {
  import opened GoStrings
  import opened Daemon
  import opened Lifecycle

  /** The events a step added. */
  function Added(w: World, w': World): seq<Event>
    requires w.trace <= w'.trace
  {
    w'.trace[|w.trace|..]
  }

  lemma AddedParts(w: World, w1: World, w2: World)
    requires w.trace <= w1.trace <= w2.trace
    ensures w.trace <= w2.trace && Added(w, w2) == Added(w, w1) + Added(w1, w2)
  {
  }

  // ----- plans -----

  /** The failing call that ended these events, if one did. */
  function ErrorIn(es: seq<Event>): Option<Call> {
    if es != [] && !es[|es| - 1].ok then Some(es[|es| - 1].call) else None
  }

  /** The calls made are those of the plan, in order, up to the first failure; they fall short of it only by one. */
  ghost predicate Attempts(es: seq<Event>, plan: seq<Call>) {
    && |es| <= |plan|
    && (forall k :: 0 <= k < |es| ==> es[k].call == plan[k])
    && (forall k :: 0 <= k < |es| - 1 ==> es[k].ok)
    && (|es| < |plan| ==> ErrorIn(es).Some?)
  }

  /** A step attempted this plan, and returned the failing call that stopped it. */
  ghost predicate Follows(w: World, w': World, err: Option<Call>, plan: seq<Call>) {
    w.trace <= w'.trace && Attempts(Added(w, w'), plan) && err == ErrorIn(Added(w, w'))
  }

  lemma DoFollows(w: World, o: Oracle, c: Call)
    ensures Follows(w, Do(w, o, c).0, if Do(w, o, c).1 then None else Some(c), [c])
  {
  }

  lemma FollowsNothing(w: World)
    ensures Follows(w, w, None, [])
  {
  }

  lemma AttemptsThen(a: seq<Event>, b: seq<Event>, p: seq<Call>, q: seq<Call>)
    requires Attempts(a, p) && ErrorIn(a) == None && Attempts(b, q)
    ensures Attempts(a + b, p + q) && ErrorIn(a + b) == ErrorIn(b)
  {
    assert b == [] ==> a + b == a;
  }

  lemma FollowsThen(w: World, w1: World, w2: World, err: Option<Call>, p: seq<Call>, q: seq<Call>)
    requires Follows(w, w1, None, p) && Follows(w1, w2, err, q)
    ensures Follows(w, w2, err, p + q)
  {
    AddedParts(w, w1, w2);
    AttemptsThen(Added(w, w1), Added(w1, w2), p, q);
  }

  lemma FollowsStop(w: World, w1: World, err: Option<Call>, p: seq<Call>, q: seq<Call>)
    requires Follows(w, w1, err, p) && err.Some?
    ensures Follows(w, w1, err, p + q)
  {
  }

  // ----- the order of Run's calls -----

  function HookPlan(app: nat, stage: Stage, k: nat, n: nat): seq<Call>
    requires k <= n
    decreases n - k
  {
    if k == n then [] else [Hook(app, stage, k)] + HookPlan(app, stage, k + 1, n)
  }

  /** Without a network there is nothing to connect to. */
  function StartPlan(net: Id, id: Id): seq<Call> {
    if net == 0 then [ContainerStart(id)] else [NetworkConnect(net, id), ContainerStart(id)]
  }

  function ContainerPlan(net: Id, id: Id): seq<Call> {
    [ImagePull, Configure, ContainerCreate] + StartPlan(net, id)
  }

  function AppPlan(app: nat, hooks: nat, net: Id, id: Id): seq<Call> {
    HookPlan(app, BeforeRun, 0, hooks) + (ContainerPlan(net, id) + HookPlan(app, AfterRun, 0, hooks))
  }

  /** Applications from `i` on; their containers get the identifiers from `id` on. */
  function AppsPlan<K>(apps: seq<App<K>>, i: nat, net: Id, id: Id): seq<Call>
    requires i <= |apps|
    decreases |apps| - i
  {
    if i == |apps| then [] else AppPlan(i, apps[i].hooks, net, id) + AppsPlan(apps, i + 1, net, id + 1)
  }

  lemma {:induction false} HooksFollow(w: World, o: Oracle, app: nat, stage: Stage, k: nat, n: nat)
    requires k <= n
    ensures var (w', err) := RunHooks(w, o, app, stage, k, n);
      Follows(w, w', err, HookPlan(app, stage, k, n)) && w'.facts == w.facts && w'.next == w.next
    decreases n - k
  {
    hide Follows;
    if k == n {
      FollowsNothing(w);
    } else {
      var c := Hook(app, stage, k);
      DoFollows(w, o, c);
      var (w1, ok) := Do(w, o, c);
      if ok {
        HooksFollow(w1, o, app, stage, k + 1, n);
        var (w2, err) := RunHooks(w1, o, app, stage, k + 1, n);
        FollowsThen(w, w1, w2, err, [c], HookPlan(app, stage, k + 1, n));
      } else {
        FollowsStop(w, w1, Some(c), [c], HookPlan(app, stage, k + 1, n));
      }
    }
  }

  /** The daemon with one more container, running and linked to the network, if there is one. */
  function WithRunning(f: Facts, net: Id, id: Id): Facts {
    f.(containers := f.containers[id := Running], links := f.links + if net == 0 then {} else {(net, id)})
  }

  lemma ConnectFollows(w: World, o: Oracle, c: Ctr)
    ensures var (w', c', err) := ConnectAndStart(w, o, c);
      && Follows(w, w', err, StartPlan(c.net, c.id))
      && (err == None ==> c' == c && w'.next == w.next && w'.facts == WithRunning(w.facts, c.net, c.id))
  {
    hide Follows;
    var connect, start := NetworkConnect(c.net, c.id), ContainerStart(c.id);
    if c.net == 0 {
      DoFollows(w, o, start);
      assert w.facts.links + {} == w.facts.links;
    } else {
      DoFollows(w, o, connect);
      var (w1, ok) := Do(w, o, connect);
      assert [connect] + [start] == [connect, start];
      if ok {
        DoFollows(w1, o, start);
        var (w2, _, err) := StartContainer(w1, o, c);
        FollowsThen(w, w1, w2, err, [connect], [start]);
      } else {
        FollowsStop(w, w1, Some(connect), [connect], [start]);
      }
    }
  }

  lemma CreateFollows(w: World, o: Oracle, c: Ctr)
    ensures var (w', c', err) := CreateAndStart(w, o, c);
      && Follows(w, w', err, [ContainerCreate] + StartPlan(c.net, w.next))
      && (err == None ==> c' == c.(id := w.next) && w'.next == w.next + 1
                          && w'.facts == WithRunning(w.facts, c.net, w.next))
  {
    hide Follows, ConnectAndStart, StartPlan;
    var tail := StartPlan(c.net, w.next);
    DoFollows(w, o, ContainerCreate);
    var (w1, created) := Do(w, o, ContainerCreate);
    if created {
      ConnectFollows(w1, o, c.(id := w.next));
      var (w2, _, err) := ConnectAndStart(w1, o, c.(id := w.next));
      FollowsThen(w, w1, w2, err, [ContainerCreate], tail);
      CreatedThenRunning(w.facts, w1.facts, c.net, w.next);
    } else {
      FollowsStop(w, w1, Some(ContainerCreate), [ContainerCreate], tail);
    }
  }

  lemma CreatedThenRunning(f: Facts, g: Facts, net: Id, id: Id)
    requires g == f.(containers := f.containers[id := Created])
    ensures WithRunning(g, net, id) == WithRunning(f, net, id)
  {
    assert g.containers[id := Running] == f.containers[id := Running];
  }

  /** A container run makes these calls, with the next free identifier, up to the first failure, on a network or
      without one; if nothing fails, the container runs and the object holds its identifier. */
  lemma ContainerRunFollows(w: World, o: Oracle, c: Ctr)
    ensures var (w', c', err) := ContainerRun(w, o, c);
      && Follows(w, w', err, ContainerPlan(c.net, w.next))
      && (err == None ==> c' == c.(id := w.next) && w'.next == w.next + 1
                          && w'.facts == WithRunning(w.facts, c.net, w.next))
  {
    hide Follows, CreateAndStart, StartPlan;
    var create := [ContainerCreate] + StartPlan(c.net, w.next);
    assert ContainerPlan(c.net, w.next) == [ImagePull] + ([Configure] + create);
    DoFollows(w, o, ImagePull);
    var (w1, pulled) := Do(w, o, ImagePull);
    if pulled {
      DoFollows(w1, o, Configure);
      var (w2, configured) := Do(w1, o, Configure);
      if configured {
        CreateFollows(w2, o, c);
        var (w3, _, err) := CreateAndStart(w2, o, c);
        FollowsThen(w1, w2, w3, err, [Configure], create);
        FollowsThen(w, w1, w3, err, [ImagePull], [Configure] + create);
      } else {
        FollowsStop(w1, w2, Some(Configure), [Configure], create);
        FollowsThen(w, w1, w2, Some(Configure), [ImagePull], [Configure] + create);
      }
    } else {
      FollowsStop(w, w1, Some(ImagePull), [ImagePull], [Configure] + create);
    }
  }

  /** Without an error, the application's container object holds the new container, which runs on the network. */
  lemma RunAppFollows<K>(w: World, o: Oracle, net: Id, apps: seq<App<K>>, store: map<K, Ctr>, i: nat)
    requires i < |apps| && Known(apps, store) && net != 0
    ensures var r := RunApp(w, o, net, apps, store, i);
      && Follows(w, r.world, r.err, AppPlan(i, apps[i].hooks, net, w.next))
      && (r.err == None ==> r.store == store[apps[i].key := Ctr(w.next, net)] && r.world.next == w.next + 1
                            && r.world.facts == WithRunning(w.facts, net, w.next))
  {
    hide Follows, ContainerRun, RunHooks, HookPlan;
    var app := apps[i];
    var before, after := HookPlan(i, BeforeRun, 0, app.hooks), HookPlan(i, AfterRun, 0, app.hooks);
    var run := ContainerPlan(net, w.next);
    var c := store[app.key].(net := net);
    HooksFollow(w, o, i, BeforeRun, 0, app.hooks);
    var (w1, e1) := RunHooks(w, o, i, BeforeRun, 0, app.hooks);
    if e1.Some? {
      FollowsStop(w, w1, e1, before, run + after);
    } else {
      ContainerRunFollows(w1, o, c);
      var (w2, _, e2) := ContainerRun(w1, o, c);
      if e2.Some? {
        FollowsStop(w1, w2, e2, run, after);
        FollowsThen(w, w1, w2, e2, before, run + after);
      } else {
        HooksFollow(w2, o, i, AfterRun, 0, app.hooks);
        var (w3, e3) := RunHooks(w2, o, i, AfterRun, 0, app.hooks);
        FollowsThen(w1, w2, w3, e3, run, after);
        FollowsThen(w, w1, w3, e3, before, run + after);
      }
    }
  }

  lemma {:induction false} RunAppsFollow<K>(w: World, o: Oracle, net: Id, apps: seq<App<K>>, store: map<K, Ctr>, i: nat)
    requires i <= |apps| && Known(apps, store) && net != 0
    ensures var r := RunApps(w, o, net, apps, store, i); Follows(w, r.world, r.err, AppsPlan(apps, i, net, w.next))
    decreases |apps| - i
  {
    hide Follows, AppPlan, RunApp;
    if i < |apps| {
      RunAppFollows(w, o, net, apps, store, i);
      var r := RunApp(w, o, net, apps, store, i);
      var first, rest := AppPlan(i, apps[i].hooks, net, w.next), AppsPlan(apps, i + 1, net, w.next + 1);
      if r.err.Some? {
        FollowsStop(w, r.world, r.err, first, rest);
      } else {
        assert r.err == None;
        RunAppsFollow(r.world, o, net, apps, r.store, i + 1);
        var r2 := RunApps(r.world, o, net, apps, r.store, i + 1);
        FollowsThen(w, r.world, r2.world, r2.err, first, rest);
      }
    } else {
      FollowsNothing(w);
    }
  }

  /** `Run` makes the calls of one fixed plan, up to the first failure, and returns nil exactly when the plan is
      complete: the network first, then per application BeforeRun hooks, pull, configure, create, connect to that
      network, start, AfterRun hooks. The identifiers in the plan are those the daemon gives out in turn. */
  lemma RunTrace<K>(w: World, o: Oracle, net: Id, apps: seq<App<K>>, store: map<K, Ctr>)
    requires Known(apps, store) && w.next > 0
    ensures var r := GroupRun(w, o, net, apps, store);
      var plan := [NetworkCreate] + AppsPlan(apps, 0, w.next, w.next + 1);
      && Follows(w, r.world, r.err, plan)
      && (r.err == None <==> |Added(w, r.world)| == |plan| && forall e :: e in Added(w, r.world) ==> e.ok)
  {
    hide RunApps, AppsPlan;
    DoFollows(w, o, NetworkCreate);
    var (w1, created) := Do(w, o, NetworkCreate);
    var rest := AppsPlan(apps, 0, w.next, w.next + 1);
    if created {
      RunAppsFollow(w1, o, w.next, apps, store, 0);
      var r := RunApps(w1, o, w.next, apps, store, 0);
      FollowsThen(w, w1, r.world, r.err, [NetworkCreate], rest);
    } else {
      FollowsStop(w, w1, Some(NetworkCreate), [NetworkCreate], rest);
    }
  }

  // ----- the documented order of hooks -----

  /** The architecture document's order: a BeforeRun hook comes after the creation of its container. */
  ghost predicate CreatedBeforeHooks(es: seq<Event>) {
    forall k :: 0 <= k < |es| && es[k].call.Hook? && es[k].call.stage == BeforeRun ==>
      exists j :: 0 <= j < k && es[j].call == ContainerCreate
  }

  /** The promise of the hooks' own documentation: a BeforeRun hook comes before the start of its container, and an
      AfterRun hook after it. */
  ghost predicate StartedBetweenHooks(es: seq<Event>) {
    forall k :: 0 <= k < |es| && es[k].call.ContainerStart? ==>
      && (forall j :: k < j < |es| && es[j].call.Hook? ==> es[j].call.stage == AfterRun)
      && (forall j :: 0 <= j < k && es[j].call.Hook? ==> es[j].call.stage == BeforeRun)
  }

  lemma {:induction false} HookPlanStage(app: nat, stage: Stage, k: nat, n: nat)
    requires k <= n
    ensures |HookPlan(app, stage, k, n)| == n - k
    ensures forall j :: 0 <= j < n - k ==> HookPlan(app, stage, k, n)[j] == Hook(app, stage, k + j)
    decreases n - k
  {
    if k < n {
      HookPlanStage(app, stage, k + 1, n);
    }
  }

  /** Running an application keeps the documentation's promise about the start always, and the architecture document's
      about the creation if and only if it has no hooks. */
  lemma HookOrderExactly<K>(w: World, o: Oracle, net: Id, apps: seq<App<K>>, store: map<K, Ctr>, i: nat)
    requires i < |apps| && Known(apps, store) && net != 0
    ensures var r := RunApp(w, o, net, apps, store, i);
      && w.trace <= r.world.trace && StartedBetweenHooks(Added(w, r.world))
      && (CreatedBeforeHooks(Added(w, r.world)) <==> apps[i].hooks == 0)
  {
    hide RunApp, HookPlan;
    RunAppFollows(w, o, net, apps, store, i);
    HookPlanStage(i, BeforeRun, 0, apps[i].hooks);
    HookPlanStage(i, AfterRun, 0, apps[i].hooks);
    var es := Added(w, RunApp(w, o, net, apps, store, i).world);
    PlannedStart(es, i, apps[i].hooks, net, w.next);
    PlannedCreation(es, i, apps[i].hooks, net, w.next);
  }

  lemma PlannedStart(es: seq<Event>, app: nat, hooks: nat, net: Id, id: Id)
    requires Attempts(es, AppPlan(app, hooks, net, id))
    ensures StartedBetweenHooks(es)
  {
    hide HookPlan;
    HookPlanStage(app, BeforeRun, 0, hooks);
    HookPlanStage(app, AfterRun, 0, hooks);
    var plan := AppPlan(app, hooks, net, id);
    forall k | 0 <= k < |plan| ensures plan[k].ContainerStart? ==> k == hooks + if net == 0 then 3 else 4 {
    }
  }

  lemma PlannedCreation(es: seq<Event>, app: nat, hooks: nat, net: Id, id: Id)
    requires Attempts(es, AppPlan(app, hooks, net, id))
    ensures CreatedBeforeHooks(es) <==> hooks == 0
  {
    hide HookPlan;
    HookPlanStage(app, BeforeRun, 0, hooks);
    HookPlanStage(app, AfterRun, 0, hooks);
    var plan := AppPlan(app, hooks, net, id);
    if hooks > 0 {
      assert es != [] && es[0].call == plan[0] == Hook(app, BeforeRun, 0);
    } else {
      forall k | 0 <= k < |es| ensures !(es[k].call.Hook? && es[k].call.stage == BeforeRun) {
        assert es[k].call == plan[k];
      }
    }
  }

  /** One application with one hook, on a network of an empty daemon that never fails: the hook is called first. */
  lemma HookBeforeCreation()
    ensures var w := World(Facts({1}, map[], {}), 2, []);
      var o: Oracle := (c: Call, n: nat) => true;
      var es := RunApp(w, o, 1, [App(0, 1)], map[0 := Ctr(0, 0)], 0).world.trace;
      es != [] && es[0].call == Hook(0, BeforeRun, 0) && !CreatedBeforeHooks(es)
  {
    var w := World(Facts({1}, map[], {}), 2, []);
    var o: Oracle := (c: Call, n: nat) => true;
    var apps, store := [App(0, 1)], map[0 := Ctr(0, 0)];
    var w' := RunApp(w, o, 1, apps, store, 0).world;
    HookOrderExactly(w, o, 1, apps, store, 0);
    RunAppFollows(w, o, 1, apps, store, 0);
    HookPlanStage(0, BeforeRun, 0, 1);
    assert Added(w, w') == w'.trace;
    assert w'.trace != [];
  }

  // ----- the order of Close's calls -----

  /** The calls that failed, in order. */
  function Failures(es: seq<Event>): seq<Call> {
    if es == [] then []
    else Failures(es[..|es| - 1]) + if es[|es| - 1].ok then [] else [es[|es| - 1].call]
  }

  lemma {:induction false} FailuresConcat(a: seq<Event>, b: seq<Event>)
    ensures Failures(a + b) == Failures(a) + Failures(b)
  {
    if b == [] {
      assert a + b == a;
    } else {
      FailuresConcat(a, b[..|b| - 1]);
      assert (a + b)[..|a + b| - 1] == a + b[..|b| - 1];
    }
  }

  lemma {:induction false} NoFailures(es: seq<Event>)
    requires forall k :: 0 <= k < |es| ==> es[k].ok
    ensures Failures(es) == []
  {
    if es != [] {
      NoFailures(es[..|es| - 1]);
    }
  }

  /** One plan after the other is attempted: a failure skips the rest of its own plan and nothing else. */
  ghost predicate Stages(es: seq<Event>, plans: seq<seq<Call>>)
    decreases |plans|
  {
    if plans == [] then es == []
    else exists k :: 0 <= k <= |es| && Attempts(es[..k], plans[0]) && Stages(es[k..], plans[1..])
  }

  lemma StagesCons(a: seq<Event>, b: seq<Event>, plan: seq<Call>, plans: seq<seq<Call>>)
    requires Attempts(a, plan) && Stages(b, plans)
    ensures Stages(a + b, [plan] + plans)
  {
    hide Attempts;
    assert (a + b)[..|a|] == a && (a + b)[|a|..] == b;
    assert ([plan] + plans)[1..] == plans;
  }

  lemma Halves<T>(a: seq<T>, b: seq<T>, k: nat)
    requires k <= |a|
    ensures a + b == a[..k] + (a[k..] + b)
  {
  }

  lemma {:induction false} StagesConcat(a: seq<Event>, b: seq<Event>, ps: seq<seq<Call>>, qs: seq<seq<Call>>)
    requires Stages(a, ps) && Stages(b, qs)
    ensures Stages(a + b, ps + qs)
    decreases |ps|
  {
    hide Attempts;
    if ps == [] {
      assert a + b == b && ps + qs == qs;
    } else {
      var k :| 0 <= k <= |a| && Attempts(a[..k], ps[0]) && Stages(a[k..], ps[1..]);
      var rest, plans := a[k..] + b, ps[1..] + qs;
      StagesConcat(a[k..], b, ps[1..], qs);
      StagesCons(a[..k], rest, ps[0], plans);
      Halves(a, b, k);
      Halves(ps, qs, 1);
      assert ps[..1] == [ps[0]];
    }
  }

  /** Nothing else fits: what stages do is determined by their plans and by which calls succeed. */
  lemma {:induction false} StagesDetermined(a: seq<Event>, b: seq<Event>, plans: seq<seq<Call>>)
    requires Stages(a, plans) && Stages(b, plans)
    requires forall k :: 0 <= k < |a| && k < |b| ==> a[k].ok == b[k].ok
    ensures |a| == |b| && forall k :: 0 <= k < |a| ==> a[k].call == b[k].call
    decreases |plans|
  {
    hide Attempts;
    if plans != [] {
      var k :| 0 <= k <= |a| && Attempts(a[..k], plans[0]) && Stages(a[k..], plans[1..]);
      var m :| 0 <= m <= |b| && Attempts(b[..m], plans[0]) && Stages(b[m..], plans[1..]);
      AttemptsDetermined(a[..k], b[..m], plans[0]);
      StagesDetermined(a[k..], b[k..], plans[1..]);
      assert a == a[..k] + a[k..] && b == b[..k] + b[k..];
    }
  }

  lemma AttemptsDetermined(a: seq<Event>, b: seq<Event>, plan: seq<Call>)
    requires Attempts(a, plan) && Attempts(b, plan)
    requires forall k :: 0 <= k < |a| && k < |b| ==> a[k].ok == b[k].ok
    ensures |a| == |b| && forall k :: 0 <= k < |a| ==> a[k].call == b[k].call
  {
  }

  /** A step went through these stages and returned exactly its failing calls. */
  ghost predicate Reports(w: World, w': World, errs: seq<Call>, plans: seq<seq<Call>>) {
    w.trace <= w'.trace && Stages(Added(w, w'), plans) && errs == Failures(Added(w, w'))
  }

  lemma FollowsReports(w: World, w': World, err: Option<Call>, plan: seq<Call>)
    requires Follows(w, w', err, plan)
    ensures Reports(w, w', ErrorOf(err), [plan])
  {
    var es := Added(w, w');
    assert es[..|es|] == es && Stages(es[|es|..], [plan][1..]);
    if es != [] {
      NoFailures(es[..|es| - 1]);
    }
  }

  lemma ReportsThen(w: World, w1: World, w2: World, e1: seq<Call>, e2: seq<Call>,
        ps: seq<seq<Call>>, qs: seq<seq<Call>>)
    requires Reports(w, w1, e1, ps) && Reports(w1, w2, e2, qs)
    ensures Reports(w, w2, e1 + e2, ps + qs)
  {
    AddedParts(w, w1, w2);
    FailuresConcat(Added(w, w1), Added(w1, w2));
    StagesConcat(Added(w, w1), Added(w1, w2), ps, qs);
  }

  lemma NothingReported(w: World)
    ensures Reports(w, w, [], [])
  {
  }

  /** Stop and remove; nothing for an object that never got a container. */
  function StopPlan(c: Ctr): seq<Call> {
    if c.id == 0 then [] else [ContainerStop(c.id), ContainerRemove(c.id)]
  }

  lemma ContainerCloseFollows(w: World, o: Oracle, c: Ctr)
    ensures var (w', err) := ContainerClose(w, o, c); Follows(w, w', err, StopPlan(c))
  {
    if c.id == 0 {
      FollowsNothing(w);
    } else {
      var stop, remove := ContainerStop(c.id), ContainerRemove(c.id);
      assert StopPlan(c) == [stop] + [remove];
      DoFollows(w, o, stop);
      var (w1, stopped) := Do(w, o, stop);
      if stopped {
        DoFollows(w1, o, remove);
        var (w2, err) := ContainerClose(w, o, c);
        FollowsThen(w, w1, w2, err, [stop], [remove]);
      } else {
        FollowsStop(w, w1, Some(stop), [stop], [remove]);
      }
    }
  }

  /** The three stages of closing one application. */
  function ClosePlan(app: nat, hooks: nat, c: Ctr): seq<seq<Call>> {
    [HookPlan(app, BeforeClose, 0, hooks), StopPlan(c), HookPlan(app, AfterClose, 0, hooks)]
  }

  /** Applications `i - 1` down to 0. */
  ghost function ClosePlans<K>(apps: seq<App<K>>, store: map<K, Ctr>, i: nat): seq<seq<Call>>
    requires i <= |apps| && Known(apps, store)
    decreases i
  {
    if i == 0 then []
    else ClosePlan(i - 1, apps[i - 1].hooks, store[apps[i - 1].key]) + ClosePlans(apps, store, i - 1)
  }

  lemma CloseAppReports(w: World, o: Oracle, app: nat, hooks: nat, c: Ctr)
    ensures var (w', errs) := CloseApp(w, o, app, hooks, c); Reports(w, w', errs, ClosePlan(app, hooks, c))
  {
    hide Reports, Follows, ContainerClose, RunHooks, HookPlan, StopPlan;
    var (w1, e1) := RunHooks(w, o, app, BeforeClose, 0, hooks);
    var (w2, e2) := ContainerClose(w1, o, c);
    var (w3, e3) := RunHooks(w2, o, app, AfterClose, 0, hooks);
    HooksFollow(w, o, app, BeforeClose, 0, hooks);
    ContainerCloseFollows(w1, o, c);
    HooksFollow(w2, o, app, AfterClose, 0, hooks);
    var p1, p2, p3 := HookPlan(app, BeforeClose, 0, hooks), StopPlan(c), HookPlan(app, AfterClose, 0, hooks);
    FollowsReports(w, w1, e1, p1);
    FollowsReports(w1, w2, e2, p2);
    FollowsReports(w2, w3, e3, p3);
    ReportsThen(w, w1, w2, ErrorOf(e1), ErrorOf(e2), [p1], [p2]);
    ReportsThen(w, w2, w3, ErrorOf(e1) + ErrorOf(e2), ErrorOf(e3), [p1] + [p2], [p3]);
    assert ClosePlan(app, hooks, c) == [p1] + [p2] + [p3];
  }

  lemma {:induction false} CloseAppsReport<K>(w: World, o: Oracle, apps: seq<App<K>>, store: map<K, Ctr>, i: nat)
    requires i <= |apps| && Known(apps, store)
    ensures var (w', errs) := CloseApps(w, o, apps, store, i); Reports(w, w', errs, ClosePlans(apps, store, i))
    decreases i
  {
    hide Reports, CloseApp, ClosePlan;
    if i == 0 {
      NothingReported(w);
    } else {
      CloseAppReports(w, o, i - 1, apps[i - 1].hooks, store[apps[i - 1].key]);
      var r := CloseApp(w, o, i - 1, apps[i - 1].hooks, store[apps[i - 1].key]);
      CloseAppsReport(r.0, o, apps, store, i - 1);
      var rest := CloseApps(r.0, o, apps, store, i - 1);
      ReportsThen(w, r.0, rest.0, r.1, rest.1,
                  ClosePlan(i - 1, apps[i - 1].hooks, store[apps[i - 1].key]), ClosePlans(apps, store, i - 1));
    }
  }

  /** Whatever fails, `Close` goes through all stages of all applications, last application first: BeforeClose hooks,
      stop and remove, AfterClose hooks, each up to its own first failure; it removes the network as its very last
      call, and returns exactly its failing calls, in order. */
  lemma CloseTrace<K>(w: World, o: Oracle, net: Id, apps: seq<App<K>>, store: map<K, Ctr>)
    requires Known(apps, store)
    ensures var (w', errs) := GroupClose(w, o, net, apps, store);
      && w.trace <= w'.trace && Stages(Added(w, w'), ClosePlans(apps, store, |apps|) + [[NetworkRemove(net)]])
      && errs == Failures(Added(w, w'))
      && Added(w, w') != [] && Added(w, w')[|Added(w, w')| - 1].call == NetworkRemove(net)
  {
    CloseAppsReport(w, o, apps, store, |apps|);
    var (w1, errs) := CloseApps(w, o, apps, store, |apps|);
    var last := NetworkRemove(net);
    var (w2, removed) := Do(w1, o, last);
    DoFollows(w1, o, last);
    FollowsReports(w1, w2, if removed then None else Some(last), [last]);
    ReportsThen(w, w1, w2, errs, if removed then [] else [last], ClosePlans(apps, store, |apps|), [[last]]);
    AddedParts(w, w1, w2);
  }
}
