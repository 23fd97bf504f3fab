/** The objects of container.go and group.go: their methods update their own fields and call the daemon, and
    do to both what the functions of module Lifecycle say. */
module Objects {
  import opened GoStrings
  import opened Daemon
  import opened Lifecycle

  /** The client every container and group talks through, to one daemon. */
  class Docker {
    const oracle: Oracle
    var world: World

    constructor (oracle: Oracle, world: World)
      ensures this.oracle == oracle && this.world == world
    {
      this.oracle := oracle;
      this.world := world;
    }

    method Perform(c: Call) returns (ok: bool)
      modifies this
      ensures (world, ok) == Do(old(world), oracle, c)
    {
      var r := Do(world, oracle, c);
      world, ok := r.0, r.1;
    }
  }

  class Container {
    const cli: Docker
    var containerID: Id
    var networkID: Id
    /** How often `Close` has been called. */
    ghost var closes: nat

    constructor (cli: Docker)
      ensures this.cli == cli && State() == Ctr(0, 0) && closes == 0
    {
      this.cli := cli;
      containerID, networkID, closes := 0, 0, 0;
    }

    function State(): Ctr
      reads this
    {
      Ctr(containerID, networkID)
    }

    method NetworkAttach(networkID: Id)
      modifies this`networkID
      ensures State() == old(State()).(net := networkID)
    {
      this.networkID := networkID;
    }

    method Run() returns (err: Option<Call>)
      modifies this`containerID, cli
      ensures (cli.world, State(), err) == ContainerRun(old(cli.world), cli.oracle, old(State()))
    {
      var ok := cli.Perform(ImagePull);
      if !ok {
        return Some(ImagePull);
      }
      ok := cli.Perform(Configure);
      if !ok {
        return Some(Configure);
      }
      var id := cli.world.next;
      ok := cli.Perform(ContainerCreate);
      if !ok {
        return Some(ContainerCreate);
      }
      containerID := id;
      if networkID != 0 {
        ok := cli.Perform(NetworkConnect(networkID, containerID));
        if !ok {
          return Some(NetworkConnect(networkID, containerID));
        }
      }
      ok := cli.Perform(ContainerStart(containerID));
      return if ok then None else Some(ContainerStart(containerID));
    }

    /** Keeps `containerID`, whatever happens. */
    method Close() returns (err: Option<Call>)
      modifies this`closes, cli
      ensures (cli.world, err) == ContainerClose(old(cli.world), cli.oracle, old(State()))
      ensures State() == old(State()) && closes == old(closes) + 1
    {
      closes := closes + 1;
      if containerID == 0 {
        return None;
      }
      var ok := cli.Perform(ContainerStop(containerID));
      if !ok {
        return Some(ContainerStop(containerID));
      }
      ok := cli.Perform(ContainerRemove(containerID));
      return if ok then None else Some(ContainerRemove(containerID));
    }
  }

  datatype Application = Application(container: Container, hooks: nat)

  class Group {
    const cli: Docker
    const apps: seq<Application>
    var networkID: Id

    constructor (cli: Docker, apps: seq<Application>)
      requires forall a :: a in apps ==> a.container.cli == cli
      ensures this.cli == cli && this.apps == apps && networkID == 0
    {
      this.cli := cli;
      this.apps := apps;
      networkID := 0;
    }

    ghost function Containers(): set<Container> {
      set a | a in apps :: a.container
    }

    ghost function Apps(): seq<App<Container>> {
      seq(|apps|, i requires 0 <= i < |apps| => App(apps[i].container, apps[i].hooks))
    }

    ghost function Store(): (store: map<Container, Ctr>)
      reads Containers()
      ensures Known(Apps(), store)
    {
      map c | c in Containers() :: c.State()
    }

    ghost predicate SameClient() {
      forall a :: a in apps ==> a.container.cli == cli
    }

    method RunHooks(app: nat, stage: Stage) returns (err: Option<Call>)
      requires app < |apps|
      modifies cli
      ensures (cli.world, err) == Lifecycle.RunHooks(old(cli.world), cli.oracle, app, stage, 0, apps[app].hooks)
    {
      for k := 0 to apps[app].hooks
        invariant Lifecycle.RunHooks(cli.world, cli.oracle, app, stage, k, apps[app].hooks)
               == Lifecycle.RunHooks(old(cli.world), cli.oracle, app, stage, 0, apps[app].hooks)
      {
        var ok := cli.Perform(Hook(app, stage, k));
        if !ok {
          return Some(Hook(app, stage, k));
        }
      }
      return None;
    }

    method RunOne(i: nat) returns (err: Option<Call>)
      requires SameClient() && i < |apps|
      modifies cli, apps[i].container
      ensures RunResult(cli.world, networkID, Store(), err)
           == RunApp(old(cli.world), cli.oracle, networkID, Apps(), old(Store()), i)
    {
      hide ContainerRun, Lifecycle.RunHooks;
      var c := apps[i].container;
      assert c in Containers() && c.cli == cli;
      c.NetworkAttach(networkID);
      err := RunHooks(i, BeforeRun);
      if err.Some? {
        return;
      }
      err := c.Run();
      if err.Some? {
        return;
      }
      err := RunHooks(i, AfterRun);
    }

    method Run() returns (err: Option<Call>)
      requires SameClient()
      modifies this`networkID, cli, Containers()
      ensures RunResult(cli.world, networkID, Store(), err)
           == GroupRun(old(cli.world), cli.oracle, old(networkID), Apps(), old(Store()))
    {
      var id := cli.world.next;
      var ok := cli.Perform(NetworkCreate);
      if !ok {
        return Some(NetworkCreate);
      }
      networkID := id;
      ghost var created := cli.world;
      for i := 0 to |apps|
        invariant networkID == id
        invariant RunApps(cli.world, cli.oracle, id, Apps(), Store(), i)
               == RunApps(created, cli.oracle, id, Apps(), old(Store()), 0)
      {
        assert apps[i] in apps;
        err := RunOne(i);
        if err.Some? {
          return;
        }
      }
      return None;
    }

    method CloseOne(i: nat) returns (errs: seq<Call>)
      requires SameClient() && i < |apps|
      modifies cli, apps[i].container`closes
      ensures (cli.world, errs)
           == CloseApp(old(cli.world), cli.oracle, i, apps[i].hooks, old(apps[i].container.State()))
      ensures Store() == old(Store())
    {
      var c := apps[i].container;
      assert apps[i] in apps && c.cli == cli;
      errs := [];
      var before := RunHooks(i, BeforeClose);
      if before.Some? { errs := errs + [before.value]; }
      var err := c.Close();
      if err.Some? { errs := errs + [err.value]; }
      var after := RunHooks(i, AfterClose);
      if after.Some? { errs := errs + [after.value]; }
      assert errs == ErrorOf(before) + ErrorOf(err) + ErrorOf(after);
    }

    /** The backward loop of `Close`. */
    method CloseContainers() returns (errs: seq<Call>)
      requires SameClient()
      modifies cli, Containers()
      ensures (cli.world, errs) == CloseApps(old(cli.world), cli.oracle, Apps(), old(Store()), |apps|)
      ensures Store() == old(Store())
    {
      hide CloseApps, CloseApp;
      errs := [];
      ghost var list, store := Apps(), Store();
      ghost var all := CloseApps(cli.world, cli.oracle, list, store, |list|);
      assert [] + all.1 == all.1;
      var i := |apps|;
      while i > 0
        invariant 0 <= i <= |apps| && Store() == store
        invariant CloseApps(cli.world, cli.oracle, list, store, i).0 == all.0
        invariant errs + CloseApps(cli.world, cli.oracle, list, store, i).1 == all.1
      {
        ghost var w, before := cli.world, errs;
        i := i - 1;
        assert apps[i] in apps && apps[i].container.State() == store[apps[i].container];
        var more := CloseOne(i);
        CloseStep(w, cli.oracle, list, store, i + 1, before, more, cli.world);
        errs := errs + more;
      }
      ClosedAll(cli.world, cli.oracle, list, store);
      assert errs + [] == errs;
    }

    lemma ClosedAll(w: World, o: Oracle, list: seq<App<Container>>, store: map<Container, Ctr>)
      requires Known(list, store)
      ensures CloseApps(w, o, list, store, 0) == (w, [])
    {
    }

    lemma CloseStep(w: World, o: Oracle, list: seq<App<Container>>, store: map<Container, Ctr>, i: nat,
                    before: seq<Call>, more: seq<Call>, w': World)
      requires 0 < i <= |list| && Known(list, store)
      requires (w', more) == CloseApp(w, o, i - 1, list[i - 1].hooks, store[list[i - 1].key])
      ensures CloseApps(w, o, list, store, i).0 == CloseApps(w', o, list, store, i - 1).0
      ensures before + CloseApps(w, o, list, store, i).1 == before + more + CloseApps(w', o, list, store, i - 1).1
    {
      hide CloseApp;
      var rest := CloseApps(w', o, list, store, i - 1).1;
      assert CloseApps(w, o, list, store, i).1 == more + rest;
      assert before + (more + rest) == before + more + rest;
    }

    method Close() returns (errs: seq<Call>)
      requires SameClient()
      modifies cli, Containers()
      ensures (cli.world, errs) == GroupClose(old(cli.world), cli.oracle, networkID, Apps(), old(Store()))
      ensures Store() == old(Store())
    {
      errs := CloseContainers();
      var ok := cli.Perform(NetworkRemove(networkID));
      if !ok {
        errs := errs + [NetworkRemove(networkID)];
      }
      assert ok ==> errs + [] == errs;
    }
  }
}
