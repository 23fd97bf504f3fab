/** Containers and groups (container.go, group.go). The functions say what each operation does to the daemon,
    for every oracle; the classes of module Objects carry them out on their fields. */
module Lifecycle {
  import opened GoStrings
  import opened Daemon

  /** A container object's own fields. */
  datatype Ctr = Ctr(id: Id, net: Id)

  function StartContainer(w: World, o: Oracle, c: Ctr): (World, Ctr, Option<Call>) {
    var (w', ok) := Do(w, o, ContainerStart(c.id));
    (w', c, if ok then None else Some(ContainerStart(c.id)))
  }

  function ConnectAndStart(w: World, o: Oracle, c: Ctr): (World, Ctr, Option<Call>) {
    if c.net != 0 then
      var (w', ok) := Do(w, o, NetworkConnect(c.net, c.id));
      if ok then StartContainer(w', o, c) else (w', c, Some(NetworkConnect(c.net, c.id)))
    else StartContainer(w, o, c)
  }

  /** The identifier is kept as soon as the container exists, before connecting and starting it. */
  function CreateAndStart(w: World, o: Oracle, c: Ctr): (World, Ctr, Option<Call>) {
    var (w1, created) := Do(w, o, ContainerCreate);
    if created then ConnectAndStart(w1, o, c.(id := w.next)) else (w1, c, Some(ContainerCreate))
  }

  /** A panic while the environment is evaluated leaves `Run`, and whoever called it, just as an error would. */
  function ContainerRun(w: World, o: Oracle, c: Ctr): (World, Ctr, Option<Call>) {
    var (w1, pulled) := Do(w, o, ImagePull);
    if !pulled then (w1, c, Some(ImagePull))
    else
      var (w2, configured) := Do(w1, o, Configure);
      if configured then CreateAndStart(w2, o, c) else (w2, c, Some(Configure))
  }

  function ContainerClose(w: World, o: Oracle, c: Ctr): (World, Option<Call>) {
    if c.id == 0 then (w, None)
    else
      var (w1, stopped) := Do(w, o, ContainerStop(c.id));
      if !stopped then (w1, Some(ContainerStop(c.id)))
      else
        var (w2, removed) := Do(w1, o, ContainerRemove(c.id));
        (w2, if removed then None else Some(ContainerRemove(c.id)))
  }

  /** Hooks `k..n` of one stage; the first failure ends the stage. */
  function RunHooks(w: World, o: Oracle, app: nat, stage: Stage, k: nat, n: nat): (World, Option<Call>)
    requires k <= n
    decreases n - k
  {
    if k == n then (w, None)
    else
      var (w', ok) := Do(w, o, Hook(app, stage, k));
      if ok then RunHooks(w', o, app, stage, k + 1, n) else (w', Some(Hook(app, stage, k)))
  }

  /** An application: which container object it holds, and how many hooks. Two may hold the same object. */
  datatype App<K> = App(key: K, hooks: nat)

  ghost predicate Known<K>(apps: seq<App<K>>, store: map<K, Ctr>) {
    forall a :: a in apps ==> a.key in store
  }

  datatype RunResult<K> = RunResult(world: World, net: Id, store: map<K, Ctr>, err: Option<Call>)

  /** One application: attach, BeforeRun hooks, container, AfterRun hooks. */
  ghost function RunApp<K>(w: World, o: Oracle, net: Id, apps: seq<App<K>>, store: map<K, Ctr>, i: nat): RunResult<K>
    requires i < |apps| && Known(apps, store)
  {
    var app := apps[i];
    var attached := store[app.key].(net := net);
    var (w1, e1) := RunHooks(w, o, i, BeforeRun, 0, app.hooks);
    if e1.Some? then RunResult(w1, net, store[app.key := attached], e1)
    else
      var (w2, c, e2) := ContainerRun(w1, o, attached);
      if e2.Some? then RunResult(w2, net, store[app.key := c], e2)
      else
        var (w3, e3) := RunHooks(w2, o, i, AfterRun, 0, app.hooks);
        RunResult(w3, net, store[app.key := c], e3)
  }

  ghost function RunApps<K>(w: World, o: Oracle, net: Id, apps: seq<App<K>>, store: map<K, Ctr>, i: nat): RunResult<K>
    requires i <= |apps| && Known(apps, store)
    decreases |apps| - i
  {
    if i == |apps| then RunResult(w, net, store, None)
    else
      var r := RunApp(w, o, net, apps, store, i);
      if r.err.Some? then r else RunApps(r.world, o, net, apps, r.store, i + 1)
  }

  ghost function GroupRun<K>(w: World, o: Oracle, net: Id, apps: seq<App<K>>, store: map<K, Ctr>): RunResult<K>
    requires Known(apps, store)
  {
    var (w1, created) := Do(w, o, NetworkCreate);
    if created then RunApps(w1, o, w.next, apps, store, 0) else RunResult(w1, net, store, Some(NetworkCreate))
  }

  function ErrorOf(e: Option<Call>): seq<Call> {
    if e.Some? then [e.value] else []
  }

  /** BeforeClose hooks, container, AfterClose hooks, whatever fails. */
  function CloseApp(w: World, o: Oracle, app: nat, hooks: nat, c: Ctr): (World, seq<Call>) {
    var (w1, e1) := RunHooks(w, o, app, BeforeClose, 0, hooks);
    var (w2, e2) := ContainerClose(w1, o, c);
    var (w3, e3) := RunHooks(w2, o, app, AfterClose, 0, hooks);
    (w3, ErrorOf(e1) + ErrorOf(e2) + ErrorOf(e3))
  }

  /** Applications `i - 1` down to 0. */
  ghost function CloseApps<K>(w: World, o: Oracle, apps: seq<App<K>>, store: map<K, Ctr>, i: nat): (World, seq<Call>)
    requires i <= |apps| && Known(apps, store)
    decreases i
  {
    if i == 0 then (w, [])
    else
      var (w1, errs1) := CloseApp(w, o, i - 1, apps[i - 1].hooks, store[apps[i - 1].key]);
      var (w2, errs2) := CloseApps(w1, o, apps, store, i - 1);
      (w2, errs1 + errs2)
  }

  ghost function GroupClose<K>(w: World, o: Oracle, net: Id, apps: seq<App<K>>, store: map<K, Ctr>): (World, seq<Call>)
    requires Known(apps, store)
  {
    var (w1, errs) := CloseApps(w, o, apps, store, |apps|);
    var (w2, removed) := Do(w1, o, NetworkRemove(net));
    (w2, errs + if removed then [] else [NetworkRemove(net)])
  }
}
