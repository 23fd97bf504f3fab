/** The results about one `Run` of a group followed by one `Close`, for every oracle. */
module GroupTheorems {
  import opened GoStrings
  import opened Daemon
  import opened Lifecycle
  import LifecycleProofs
  import opened ConservationProofs

  /** The group was never run: its network does not exist. The store is that of the applications' container
      objects, which hold only identifiers given out in the past. */
  ghost predicate NeverRun<K>(w: World, net: Id, apps: seq<App<K>>, store: map<K, Ctr>) {
    && Sane(w) && Known(apps, store) && net !in w.facts.networks
    && (forall k :: k in store ==> store[k].id < w.next)
    && (forall k :: k in store ==> exists j :: 0 <= j < |apps| && apps[j].key == k)
  }

  /** No application's container is alive, e.g. because none was ever run. */
  ghost predicate NoneAlive<K>(w: World, apps: seq<App<K>>, store: map<K, Ctr>)
    requires Known(apps, store)
  {
    forall j :: 0 <= j < |apps| ==> store[apps[j].key].id !in w.facts.containers
  }

  ghost predicate Ready<K>(w: World, net: Id, apps: seq<App<K>>, store: map<K, Ctr>) {
    NeverRun(w, net, apps, store) && Distinct(apps) && NoneAlive(w, apps, store)
  }

  /** The state one `Run` and one `Close` leave behind. */
  ghost function RunThenClose<K>(w: World, o: Oracle, net: Id, apps: seq<App<K>>, store: map<K, Ctr>): World
    requires Known(apps, store)
  {
    var r := GroupRun(w, o, net, apps, store);
    if Known(apps, r.store) then GroupClose(r.world, o, r.net, apps, r.store).0 else r.world
  }

  lemma RunAppKeys<K>(w: World, o: Oracle, net: Id, apps: seq<App<K>>, store: map<K, Ctr>, i: nat)
    requires i < |apps| && Known(apps, store)
    ensures RunApp(w, o, net, apps, store, i).store.Keys == store.Keys
    ensures RunApp(w, o, net, apps, store, i).net == net
  {
  }

  lemma {:induction false} RunAppsKeys<K>(w: World, o: Oracle, net: Id, apps: seq<App<K>>, store: map<K, Ctr>, i: nat)
    requires i <= |apps| && Known(apps, store)
    ensures RunApps(w, o, net, apps, store, i).store.Keys == store.Keys
    ensures RunApps(w, o, net, apps, store, i).net == net
    decreases |apps| - i
  {
    hide RunApp;
    if i < |apps| {
      RunAppKeys(w, o, net, apps, store, i);
      var r := RunApp(w, o, net, apps, store, i);
      if r.err.None? {
        RunAppsKeys(r.world, o, net, apps, r.store, i + 1);
      }
    }
  }

  // ----- a run that succeeds -----

  function Numbers(first: Id, n: nat): seq<Id> {
    seq(n, k => first + k)
  }

  /** `f` with these containers as well, all running and linked to the network. */
  function AllUp(f: Facts, net: Id, ids: seq<Id>): Facts {
    f.(containers := f.containers + map c | c in ids :: Running, links := f.links + set c | c in ids :: (net, c))
  }

  lemma AllUpMore(f: Facts, net: Id, id: Id, ids: seq<Id>)
    requires net != 0
    ensures AllUp(LifecycleProofs.WithRunning(f, net, id), net, ids) == AllUp(f, net, [id] + ids)
  {
    var more := [id] + ids;
    assert forall c :: c in more <==> c == id || c in ids;
    var a, b := AllUp(LifecycleProofs.WithRunning(f, net, id), net, ids), AllUp(f, net, more);
    assert a.containers.Keys == b.containers.Keys;
    assert a.links == b.links;
  }

  lemma AllUpUnfold(f: Facts, net: Id, first: Id, n: nat)
    requires net != 0
    ensures AllUp(LifecycleProofs.WithRunning(f, net, first), net, Numbers(first + 1, n))
         == AllUp(f, net, Numbers(first, n + 1))
  {
    AllUpMore(f, net, first, Numbers(first + 1, n));
    assert Numbers(first, n + 1) == [first] + Numbers(first + 1, n);
  }

  lemma AllUpNone(f: Facts, net: Id, first: Id)
    ensures AllUp(f, net, Numbers(first, 0)) == f
  {
    assert Numbers(first, 0) == [];
    assert AllUp(f, net, []).containers == f.containers && AllUp(f, net, []).links == f.links;
  }

  /** No later application holds the container object of application `j`. */
  ghost predicate LastUse<K>(apps: seq<App<K>>, j: nat)
    requires j < |apps|
  {
    forall k :: j < k < |apps| ==> apps[k].key != apps[j].key
  }

  lemma {:induction false} RunAppsUp<K>(w: World, o: Oracle, net: Id, apps: seq<App<K>>, store: map<K, Ctr>, i: nat)
    requires i <= |apps| && Known(apps, store) && net != 0
    requires RunApps(w, o, net, apps, store, i).err == None
    ensures RunApps(w, o, net, apps, store, i).world.facts == AllUp(w.facts, net, Numbers(w.next, |apps| - i))
    decreases |apps| - i
  {
    hide RunApp, AllUp, Numbers, LifecycleProofs.Follows, LifecycleProofs.WithRunning;
    if i == |apps| {
      AllUpNone(w.facts, net, w.next);
    } else {
      LifecycleProofs.RunAppFollows(w, o, net, apps, store, i);
      var r := RunApp(w, o, net, apps, store, i);
      RunAppsUp(r.world, o, net, apps, r.store, i + 1);
      AllUpUnfold(w.facts, net, w.next, |apps| - i - 1);
    }
  }

  /** What the rest of a run does to the container objects: one no application holds is left alone. */
  lemma {:induction false} RunAppsSpare<K>(w: World, o: Oracle, net: Id, apps: seq<App<K>>, store: map<K, Ctr>,
        i: nat, k: K)
    requires i <= |apps| && Known(apps, store) && net != 0 && k in store
    requires RunApps(w, o, net, apps, store, i).err == None
    requires forall j :: i <= j < |apps| ==> apps[j].key != k
    ensures k in RunApps(w, o, net, apps, store, i).store && RunApps(w, o, net, apps, store, i).store[k] == store[k]
    decreases |apps| - i
  {
    hide RunApp, LifecycleProofs.Follows, LifecycleProofs.WithRunning;
    if i < |apps| {
      LifecycleProofs.RunAppFollows(w, o, net, apps, store, i);
      var r := RunApp(w, o, net, apps, store, i);
      RunAppsSpare(r.world, o, net, apps, r.store, i + 1, k);
    }
  }

  /** And each of the others holds what its last application gave it. */
  lemma {:induction false} RunAppsHeld<K>(w: World, o: Oracle, net: Id, apps: seq<App<K>>, store: map<K, Ctr>,
        i: nat, j: nat)
    requires i <= j < |apps| && Known(apps, store) && net != 0 && LastUse(apps, j)
    requires RunApps(w, o, net, apps, store, i).err == None
    ensures var held := RunApps(w, o, net, apps, store, i).store;
      apps[j].key in held && held[apps[j].key] == Ctr(w.next + (j - i), net)
    decreases |apps| - i
  {
    hide RunApp, LifecycleProofs.Follows, LifecycleProofs.WithRunning;
    LifecycleProofs.RunAppFollows(w, o, net, apps, store, i);
    var r := RunApp(w, o, net, apps, store, i);
    if i < j {
      RunAppsHeld(r.world, o, net, apps, r.store, i + 1, j);
    } else {
      RunAppsSpare(r.world, o, net, apps, r.store, i + 1, apps[j].key);
    }
  }

  /** A `Run` that returns nil leaves the daemon with exactly one more network and one more container per application,
      all running and linked to that network; every container object holds the identifier of its own container. */
  lemma SuccessfulRun<K>(w: World, o: Oracle, net: Id, apps: seq<App<K>>, store: map<K, Ctr>)
    requires Known(apps, store) && w.next > 0
    requires GroupRun(w, o, net, apps, store).err == None
    ensures var r := GroupRun(w, o, net, apps, store);
      && r.net == w.next && r.store.Keys == store.Keys
      && r.world.facts == AllUp(w.facts.(networks := w.facts.networks + {r.net}), r.net, Numbers(w.next + 1, |apps|))
      && (forall j :: 0 <= j < |apps| && LastUse(apps, j) ==> r.store[apps[j].key] == Ctr(w.next + 1 + j, r.net))
  {
    hide AllUp, RunApps;
    var (w1, created) := Do(w, o, NetworkCreate);
    RunAppsKeys(w1, o, w.next, apps, store, 0);
    RunAppsUp(w1, o, w.next, apps, store, 0);
    forall j | 0 <= j < |apps| && LastUse(apps, j)
      ensures RunApps(w1, o, w.next, apps, store, 0).store[apps[j].key] == Ctr(w.next + 1 + j, w.next)
    {
      RunAppsHeld(w1, o, w.next, apps, store, 0, j);
    }
  }

  // ----- live prefix -----

  /** The network was created by this `Run`. */
  predicate NetworkMade(w: World, o: Oracle) {
    Do(w, o, NetworkCreate).1
  }

  lemma NetworkNotMade<K>(w: World, o: Oracle, net: Id, apps: seq<App<K>>, store: map<K, Ctr>)
    requires Ready(w, net, apps, store) && !NetworkMade(w, o)
    ensures var r := GroupRun(w, o, net, apps, store);
      r.err.Some? && r.net == net && r.store == store && r.world.facts == w.facts && Sane(r.world)
  {
  }

  lemma NetworkStart<K>(w: World, o: Oracle, net: Id, apps: seq<App<K>>, store: map<K, Ctr>)
    requires Ready(w, net, apps, store) && NetworkMade(w, o)
    ensures var w1 := Do(w, o, NetworkCreate).0;
      Live(w.facts, w1, w.next, apps, store, 0) && Throughout(w.facts, w, w1, w.next, apps, store, 0)
  {
    var w1 := Do(w, o, NetworkCreate).0;
    assert Ids(apps, store, 0) == {};
    assert Grown(w.facts, w1.facts, {}, w.next);
    assert w1.trace[|w.trace|].after == w1.facts;
  }

  /** At every moment of `Run`, from the network's creation on, the group's containers are exactly those of the
      first so many applications; `p` is how far it got at the end. */
  lemma RunLivePrefix<K>(w: World, o: Oracle, net: Id, apps: seq<App<K>>, store: map<K, Ctr>) returns (p: nat)
    requires Ready(w, net, apps, store) && NetworkMade(w, o)
    ensures var r := GroupRun(w, o, net, apps, store);
      && r.net == w.next && (r.err.None? ==> p == |apps|)
      && Live(w.facts, r.world, r.net, apps, r.store, p)
      && Throughout(w.facts, w, r.world, r.net, apps, r.store, p)
  {
    hide PrefixLive, Grown, Frontier;
    var w1 := Do(w, o, NetworkCreate).0;
    NetworkStart(w, o, net, apps, store);
    p := RunAppsLive(w1, o, w.facts, w.next, apps, store, 0);
    RunAppsKeys(w1, o, w.next, apps, store, 0);
    var r := RunApps(w1, o, w.next, apps, store, 0);
    ThroughoutSame(w.facts, w, w1, w.next, apps, store, r.store, 0, p);
    ThroughoutThen(w.facts, w, w1, r.world, w.next, apps, r.store, p);
  }

  lemma LiveCloses<K>(base: World, w: World, net: Id, apps: seq<App<K>>, store: map<K, Ctr>, p: nat)
    requires Sane(base) && Live(base.facts, w, net, apps, store, p)
    ensures Closing(base.facts, w, net, apps, store, p, |apps|)
  {
    GrownKeys(base.facts, w.facts, Ids(apps, store, p), net);
  }

  /** If everything that exists can be stopped and removed, `Close` too shows a live prefix at every moment; when
      the network's turn comes no container of the group is left, so the daemon has no reason to refuse. */
  lemma {:induction false} CloseLivePrefix<K>(w: World, o: Oracle, net: Id, apps: seq<App<K>>, store: map<K, Ctr>)
    requires Ready(w, net, apps, store) && Obedient(o) && NetworkMade(w, o)
    ensures var r := GroupRun(w, o, net, apps, store);
      && Known(apps, r.store) && r.net == w.next
      && var w1 := CloseApps(r.world, o, apps, r.store, |apps|).0;
      && Throughout(w.facts, r.world, w1, r.net, apps, r.store, |apps|)
      && w1.facts.containers == w.facts.containers && w1.facts.links == w.facts.links
      && w1.facts.networks == w.facts.networks + {r.net}
      && Possible(w1.facts, NetworkRemove(r.net))
  {
    var p := RunLivePrefix(w, o, net, apps, store);
    var r := GroupRun(w, o, net, apps, store);
    LiveCloses(w, r.world, r.net, apps, r.store, p);
    CloseAppsLive(r.world, o, w.facts, r.net, apps, r.store, p, |apps|);
    var w1 := CloseApps(r.world, o, apps, r.store, |apps|).0;
    ThroughoutSame(w.facts, r.world, w1, r.net, apps, r.store, r.store, p, |apps|);
    assert Ids(apps, r.store, 0) == {};
    GrownByNothing(w.facts, w1.facts, r.net);
  }

  lemma GrownByNothing(base: Facts, f: Facts, net: Id)
    requires Grown(base, f, {}, net)
    ensures f.containers == base.containers && f.links == base.links && f.networks == base.networks + {net}
  {
    assert f.containers.Keys == base.containers.Keys;
  }

  // ----- conservation -----

  lemma {:induction false} CloseAppsIdle<K>(w: World, o: Oracle, apps: seq<App<K>>, store: map<K, Ctr>, i: nat)
    requires i <= |apps| && Known(apps, store) && Sane(w)
    requires forall j :: 0 <= j < i ==> store[apps[j].key].id !in w.facts.containers
    ensures CloseApps(w, o, apps, store, i).0.facts == w.facts
    decreases i
  {
    if i > 0 {
      CloseAppEffect(w, o, i - 1, apps[i - 1].hooks, store[apps[i - 1].key]);
      var w1 := CloseApp(w, o, i - 1, apps[i - 1].hooks, store[apps[i - 1].key]).0;
      assert w1.facts.containers == w.facts.containers;
      CloseAppsIdle(w1, o, apps, store, i - 1);
    }
  }

  /** One `Run` that fails or succeeds at any step, then one `Close` in which hooks may fail but existing things
      can be stopped and removed: the daemon is back in exactly the state it started from. */
  lemma Conservation<K>(w: World, o: Oracle, net: Id, apps: seq<App<K>>, store: map<K, Ctr>)
    requires Ready(w, net, apps, store) && Obedient(o)
    ensures Known(apps, GroupRun(w, o, net, apps, store).store)
    ensures RunThenClose(w, o, net, apps, store).facts == w.facts
  {
    if NetworkMade(w, o) {
      CloseLivePrefix(w, o, net, apps, store);
      var r := GroupRun(w, o, net, apps, store);
      var w1 := CloseApps(r.world, o, apps, r.store, |apps|).0;
      assert o(NetworkRemove(r.net), |w1.trace|);
      assert w1.facts.networks - {r.net} == w.facts.networks;
    } else {
      NetworkNotMade(w, o, net, apps, store);
      var r := GroupRun(w, o, net, apps, store);
      CloseAppsIdle(r.world, o, apps, r.store, |apps|);
    }
  }

  // ----- survivors, when stops and removals may fail -----

  lemma {:induction false} CloseAppsShrink<K>(w: World, o: Oracle, apps: seq<App<K>>, store: map<K, Ctr>, i: nat)
    requires i <= |apps| && Known(apps, store) && Sane(w)
    ensures var w' := CloseApps(w, o, apps, store, i).0;
      && w.trace <= w'.trace && Sane(w') && w'.facts.networks == w.facts.networks
      && w'.facts.containers.Keys <= w.facts.containers.Keys
    decreases i
  {
    hide CloseApp, FailedOn;
    if i > 0 {
      CloseAppEffect(w, o, i - 1, apps[i - 1].hooks, store[apps[i - 1].key]);
      CloseAppsShrink(CloseApp(w, o, i - 1, apps[i - 1].hooks, store[apps[i - 1].key]).0, o, apps, store, i - 1);
    }
  }

  /** Who survives the backward loop of `Close`, when `Run` got as far as `p`. */
  lemma CloseAppsSurvivor<K>(base: World, w: World, o: Oracle, net: Id, apps: seq<App<K>>, store: map<K, Ctr>,
        p: nat, c: Id)
    requires Sane(base) && Live(base.facts, w, net, apps, store, p)
    ensures var w' := CloseApps(w, o, apps, store, |apps|).0;
      && (c in w'.facts.containers <==>
            c in base.facts.containers || (c in w.facts.containers && FailedOn(c, w, w')))
      && (c in base.facts.containers ==>
            c in w'.facts.containers && w'.facts.containers[c] == base.facts.containers[c])
  {
    hide FailedOn;
    var own := Ids(apps, store, p);
    GrownKeys(base.facts, w.facts, own, net);
    CloseAppsShrink(w, o, apps, store, |apps|);
    if c in base.facts.containers {
      CloseAppsOther(w, o, apps, store, |apps|, c);
    } else if c in w.facts.containers {
      var m :| 0 <= m < p && store[apps[m].key].id == c;
      CloseAppsExact(w, o, apps, store, |apps|, m);
    }
  }

  lemma RemovalFailsNothing(c: Id, w: World, w1: World, o: Oracle, net: Id)
    requires w.trace <= w1.trace
    ensures FailedOn(c, w, Do(w1, o, NetworkRemove(net)).0) <==> FailedOn(c, w, w1)
  {
    var w2 := Do(w1, o, NetworkRemove(net)).0;
    FailedThen(c, w, w1, w2);
  }

  /** For every oracle: after one `Run` and one `Close`, what was there before is there unchanged, and of the
      containers the run created exactly those remain whose stop or removal failed. The network remains exactly
      if it was created and its removal, the last call, failed. */
  lemma Survivors<K>(w: World, o: Oracle, net: Id, apps: seq<App<K>>, store: map<K, Ctr>)
    requires Ready(w, net, apps, store)
    ensures var r := GroupRun(w, o, net, apps, store); var w' := RunThenClose(w, o, net, apps, store);
      && Known(apps, r.store) && r.world.trace < w'.trace
      && (forall c :: c in w'.facts.containers <==>
            c in w.facts.containers || (c in r.world.facts.containers && FailedOn(c, r.world, w')))
      && (forall c :: c in w.facts.containers ==> w'.facts.containers[c] == w.facts.containers[c])
      && w'.facts.networks == w.facts.networks
           + if NetworkMade(w, o) && !w'.trace[|w'.trace| - 1].ok then {r.net} else {}
  {
    var r := GroupRun(w, o, net, apps, store);
    if NetworkMade(w, o) {
      var p := RunLivePrefix(w, o, net, apps, store);
      var w1 := CloseApps(r.world, o, apps, r.store, |apps|).0;
      CloseAppsShrink(r.world, o, apps, r.store, |apps|);
      var w' := RunThenClose(w, o, net, apps, store);
      forall c: Id
        ensures c in w1.facts.containers <==>
          c in w.facts.containers || (c in r.world.facts.containers && FailedOn(c, r.world, w'))
        ensures c in w.facts.containers ==> w1.facts.containers[c] == w.facts.containers[c]
      {
        CloseAppsSurvivor(w, r.world, o, r.net, apps, r.store, p, c);
        RemovalFailsNothing(c, r.world, w1, o, r.net);
      }
      NetworkAfter(w, r.world, o, r.net, w1);
    } else {
      NetworkNotMade(w, o, net, apps, store);
      CloseAppsIdle(r.world, o, apps, r.store, |apps|);
      CloseAppsShrink(r.world, o, apps, r.store, |apps|);
    }
  }

  lemma NetworkAfter(w: World, r: World, o: Oracle, net: Id, w1: World)
    requires net !in w.facts.networks && w1.facts.networks == w.facts.networks + {net}
    ensures var w2 := Do(w1, o, NetworkRemove(net)).0;
      && w2.facts.containers == w1.facts.containers
      && w2.facts.networks == w.facts.networks + if !w2.trace[|w2.trace| - 1].ok then {net} else {}
  {
  }

  // ----- exactly when nothing is left or lost -----

  /** However hooks and `Run` fail, `Close` restores the daemon, as long as what exists can be removed. */
  ghost predicate AlwaysConserved<K>(w: World, net: Id, apps: seq<App<K>>, store: map<K, Ctr>)
    requires Known(apps, store)
  {
    forall o: Oracle :: Obedient(o) ==> RunThenClose(w, o, net, apps, store).facts == w.facts
  }

  lemma {:induction false} ObedientRemoves<K>(w: World, o: Oracle, apps: seq<App<K>>, store: map<K, Ctr>,
        i: nat, j: nat)
    requires j < i <= |apps| && Known(apps, store) && Sane(w) && Obedient(o)
    ensures store[apps[j].key].id !in CloseApps(w, o, apps, store, i).0.facts.containers
    decreases i
  {
    hide CloseApp, FailedOn;
    var w1 := CloseApp(w, o, i - 1, apps[i - 1].hooks, store[apps[i - 1].key]).0;
    CloseAppEffect(w, o, i - 1, apps[i - 1].hooks, store[apps[i - 1].key]);
    if j == i - 1 {
      CloseAppsShrink(w1, o, apps, store, i - 1);
    } else {
      ObedientRemoves(w1, o, apps, store, i - 1, j);
    }
  }

  /** `Run` fails at once, and `Close` then takes away a container that was there before. */
  lemma AliveIsLost<K>(w: World, net: Id, apps: seq<App<K>>, store: map<K, Ctr>, j: nat)
    requires NeverRun(w, net, apps, store) && j < |apps| && store[apps[j].key].id in w.facts.containers
    ensures !AlwaysConserved(w, net, apps, store)
  {
    hide CloseApps, RunApps;
    var o: Oracle := (c: Call, n: nat) => !c.NetworkCreate?;
    assert Obedient(o);
    var w1 := Do(w, o, NetworkCreate).0;
    assert GroupRun(w, o, net, apps, store) == RunResult(w1, net, store, Some(NetworkCreate));
    ObedientRemoves(w1, o, apps, store, |apps|, j);
    var w2 := CloseApps(w1, o, apps, store, |apps|).0;
    assert RunThenClose(w, o, net, apps, store).facts.containers == w2.facts.containers;
  }

  const ALWAYS: Oracle := (c: Call, n: nat) => true

  lemma {:induction false} HooksSucceed(w: World, app: nat, stage: Stage, k: nat, n: nat)
    requires k <= n
    ensures RunHooks(w, ALWAYS, app, stage, k, n).1 == None
    decreases n - k
  {
    if k < n {
      HooksSucceed(Do(w, ALWAYS, Hook(app, stage, k)).0, app, stage, k + 1, n);
    }
  }

  /** With nothing failing, each application adds one container and holds its identifier. */
  lemma RunAppSucceeds<K>(w: World, net: Id, apps: seq<App<K>>, store: map<K, Ctr>, i: nat)
    requires i < |apps| && Known(apps, store) && Sane(w) && net in w.facts.networks
    requires store[apps[i].key].id < w.next
    ensures var r := RunApp(w, ALWAYS, net, apps, store, i);
      && r.err == None && r.store == store[apps[i].key := Ctr(w.next, net)] && r.world.next == w.next + 1
      && Sane(r.world) && r.world.facts.networks == w.facts.networks
      && r.world.facts.containers.Keys == w.facts.containers.Keys + {w.next}
  {
    var c := store[apps[i].key].(net := net);
    var w1 := RunHooks(w, ALWAYS, i, BeforeRun, 0, apps[i].hooks).0;
    HooksSucceed(w, i, BeforeRun, 0, apps[i].hooks);
    HooksQuiet(w, ALWAYS, i, BeforeRun, 0, apps[i].hooks);
    ContainerRunEffect(w1, ALWAYS, c);
    var w2 := ContainerRun(w1, ALWAYS, c).0;
    HooksSucceed(w2, i, AfterRun, 0, apps[i].hooks);
    HooksQuiet(w2, ALWAYS, i, AfterRun, 0, apps[i].hooks);
  }

  /** Container `c` is alive and nobody holds it. */
  ghost predicate Orphan<K>(c: Id, w: World, store: map<K, Ctr>) {
    c in w.facts.containers && forall k :: k in store ==> store[k].id != c
  }

  lemma {:induction false} OrphanStays<K>(w: World, net: Id, apps: seq<App<K>>, store: map<K, Ctr>, i: nat, c: Id)
    requires i <= |apps| && Known(apps, store) && Sane(w) && net in w.facts.networks && Orphan(c, w, store)
    requires forall k :: k in store ==> store[k].id < w.next
    ensures var r := RunApps(w, ALWAYS, net, apps, store, i); Orphan(c, r.world, r.store) && Sane(r.world)
    decreases |apps| - i
  {
    hide RunApp;
    if i < |apps| {
      RunAppSucceeds(w, net, apps, store, i);
      var r := RunApp(w, ALWAYS, net, apps, store, i);
      OrphanStays(r.world, net, apps, r.store, i + 1, c);
    }
  }

  /** Live identifiers are held by one container object each. */
  ghost predicate LiveOnce<K>(w: World, store: map<K, Ctr>) {
    forall k, l :: k in store && l in store && k != l && store[k].id in w.facts.containers ==>
      store[k].id != store[l].id
  }

  /** From `i` on, some container object is still to be run while it holds a live container, or twice. */
  ghost predicate ToRerun<K>(w: World, apps: seq<App<K>>, store: map<K, Ctr>, i: nat)
    requires Known(apps, store)
  {
    || (exists j :: i <= j < |apps| && store[apps[j].key].id in w.facts.containers)
    || (exists j, k :: i <= j < k < |apps| && apps[j].key == apps[k].key)
  }

  lemma NothingToRerun<K>(w: World, apps: seq<App<K>>, store: map<K, Ctr>, i: nat)
    requires Known(apps, store) && ToRerun(w, apps, store, i)
    ensures i < |apps|
  {
  }

  lemma ToRerunLater<K>(w: World, apps: seq<App<K>>, store: map<K, Ctr>, i: nat, w': World, store': map<K, Ctr>, c: Ctr)
    requires i < |apps| && Known(apps, store) && ToRerun(w, apps, store, i)
    requires store[apps[i].key].id !in w.facts.containers && store' == store[apps[i].key := c]
    requires w'.facts.containers.Keys == w.facts.containers.Keys + {c.id}
    ensures Known(apps, store') && ToRerun(w', apps, store', i + 1)
  {
    if j :| i <= j < |apps| && store[apps[j].key].id in w.facts.containers {
      assert store'[apps[j].key].id in w'.facts.containers;
    } else {
      var j, k :| i <= j < k < |apps| && apps[j].key == apps[k].key;
      assert j == i ==> store'[apps[k].key].id in w'.facts.containers;
    }
  }

  /** Running a container object that already holds a live container orphans that container. */
  lemma {:induction false} RerunOrphans<K>(w: World, net: Id, apps: seq<App<K>>, store: map<K, Ctr>, i: nat, lo: Id)
      returns (c: Id)
    requires i <= |apps| && Known(apps, store) && Sane(w) && net in w.facts.networks && LiveOnce(w, store)
    requires forall k :: k in store ==> store[k].id < w.next
    requires forall k :: k in store && store[k].id in w.facts.containers ==> lo <= store[k].id
    requires lo <= w.next
    requires ToRerun(w, apps, store, i)
    ensures var r := RunApps(w, ALWAYS, net, apps, store, i); lo <= c && Orphan(c, r.world, r.store) && Sane(r.world)
    decreases |apps| - i
  {
    hide RunApp, Sane, ToRerun;
    NothingToRerun(w, apps, store, i);
    RunAppSucceeds(w, net, apps, store, i);
    var r := RunApp(w, ALWAYS, net, apps, store, i);
    var key := apps[i].key;
    SaneNext(w);
    if store[key].id in w.facts.containers {
      c := store[key].id;
      OrphanStays(r.world, net, apps, r.store, i + 1, c);
    } else {
      ToRerunLater(w, apps, store, i, r.world, r.store, Ctr(w.next, net));
      c := RerunOrphans(r.world, net, apps, r.store, i + 1, lo);
    }
  }

  lemma SaneNext(w: World)
    requires Sane(w)
    ensures w.next !in w.facts.containers
  {
  }

  /** `Run` succeeds, and a container object run twice leaves its first container behind. */
  lemma SharedLeaks<K>(w: World, net: Id, apps: seq<App<K>>, store: map<K, Ctr>)
    requires NeverRun(w, net, apps, store) && NoneAlive(w, apps, store) && !Distinct(apps)
    ensures !AlwaysConserved(w, net, apps, store)
  {
    hide RunApps, CloseApps;
    assert Obedient(ALWAYS);
    var w1 := Do(w, ALWAYS, NetworkCreate).0;
    var c := RerunOrphans(w1, w.next, apps, store, 0, w.next);
    RunAppsKeys(w1, ALWAYS, w.next, apps, store, 0);
    var r := GroupRun(w, ALWAYS, net, apps, store);
    assert c !in Ids(apps, r.store, |apps|);
    CloseAppsOther(r.world, ALWAYS, apps, r.store, |apps|, c);
    var w2 := CloseApps(r.world, ALWAYS, apps, r.store, |apps|).0;
    assert RunThenClose(w, ALWAYS, net, apps, store).facts.containers == w2.facts.containers;
  }

  /** Nothing is ever left behind or taken away if and only if the applications hold distinct container objects
      and none of them holds a live container. */
  lemma ConservationExactly<K>(w: World, net: Id, apps: seq<App<K>>, store: map<K, Ctr>)
    requires NeverRun(w, net, apps, store)
    ensures AlwaysConserved(w, net, apps, store) <==> Distinct(apps) && NoneAlive(w, apps, store)
  {
    if !NoneAlive(w, apps, store) {
      var j :| 0 <= j < |apps| && store[apps[j].key].id in w.facts.containers;
      AliveIsLost(w, net, apps, store, j);
    } else if !Distinct(apps) {
      SharedLeaks(w, net, apps, store);
    } else {
      forall o: Oracle | Obedient(o) ensures RunThenClose(w, o, net, apps, store).facts == w.facts {
        Conservation(w, o, net, apps, store);
      }
    }
  }

  /** Closing applications whose containers are gone fails once for each that ever got one. */
  lemma {:induction false} CloseAppsGone<K>(w: World, o: Oracle, apps: seq<App<K>>, store: map<K, Ctr>, i: nat)
    requires i <= |apps| && Known(apps, store) && Sane(w)
    requires forall j :: 0 <= j < i ==> store[apps[j].key].id !in w.facts.containers
    ensures forall j :: 0 <= j < i && store[apps[j].key].id != 0 ==>
      ContainerStop(store[apps[j].key].id) in CloseApps(w, o, apps, store, i).1
    decreases i
  {
    hide CloseApp;
    if i > 0 {
      var r := CloseApp(w, o, i - 1, apps[i - 1].hooks, store[apps[i - 1].key]);
      CloseAppGone(w, o, i - 1, apps[i - 1].hooks, store[apps[i - 1].key]);
      CloseAppsGone(r.0, o, apps, store, i - 1);
    }
  }

  lemma CloseAppGone(w: World, o: Oracle, app: nat, hooks: nat, c: Ctr)
    requires Sane(w) && c.id !in w.facts.containers
    ensures var r := CloseApp(w, o, app, hooks, c);
      && Sane(r.0) && r.0.facts.containers == w.facts.containers
      && (c.id != 0 ==> ContainerStop(c.id) in r.1)
  {
    CloseAppEffect(w, o, app, hooks, c);
    HooksQuiet(w, o, app, BeforeClose, 0, hooks);
  }

  /** `Close` never clears the identifiers: closing again changes nothing, and reports an error for the network
      and for every application that ever got a container. */
  lemma SecondClose<K>(w: World, o: Oracle, net: Id, apps: seq<App<K>>, store: map<K, Ctr>)
    requires Ready(w, net, apps, store) && Obedient(o)
    ensures var r := GroupRun(w, o, net, apps, store);
      && Known(apps, r.store)
      && var (w', errs) := GroupClose(RunThenClose(w, o, net, apps, store), o, r.net, apps, r.store);
      && w'.facts == w.facts && NetworkRemove(r.net) in errs
      && forall j :: 0 <= j < |apps| && r.store[apps[j].key].id != 0 ==> ContainerStop(r.store[apps[j].key].id) in errs
  {
    hide RunApps, CloseApps, Frontier;
    Conservation(w, o, net, apps, store);
    var r := GroupRun(w, o, net, apps, store);
    var w1 := RunThenClose(w, o, net, apps, store);
    if NetworkMade(w, o) {
      var p := RunLivePrefix(w, o, net, apps, store);
      LiveCloses(w, r.world, r.net, apps, r.store, p);
      GrownKeys(w.facts, r.world.facts, Ids(apps, r.store, p), r.net);
    } else {
      NetworkNotMade(w, o, net, apps, store);
    }
    CloseAppsShrink(r.world, o, apps, r.store, |apps|);
    assert Sane(w1);
    CloseAppsIdle(w1, o, apps, r.store, |apps|);
    CloseAppsGone(w1, o, apps, r.store, |apps|);
  }
}
