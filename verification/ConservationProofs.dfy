/** What is alive at every moment of a group's run and close, and that nothing is left at the end. */
module ConservationProofs {
  import opened Daemon
  import opened Lifecycle

  /** No two applications hold the same container object. */
  ghost predicate Distinct<K>(apps: seq<App<K>>) {
    forall i, j :: 0 <= i < j < |apps| ==> apps[i].key != apps[j].key
  }

  /** The identifiers held by the containers of the first `p` applications. */
  ghost function Ids<K>(apps: seq<App<K>>, store: map<K, Ctr>, p: nat): set<Id>
    requires p <= |apps| && Known(apps, store)
  {
    set j | 0 <= j < p :: store[apps[j].key].id
  }

  /** `f` is `base` plus the network `net` and the containers `own`, linked to nothing but `net`. */
  ghost predicate Grown(base: Facts, f: Facts, own: set<Id>, net: Id) {
    && f.networks == base.networks + {net}
    && f.containers.Keys == base.containers.Keys + own
    && base.containers.Keys !! own
    && (forall c :: c in base.containers ==> f.containers[c] == base.containers[c])
    && (forall l :: l in base.links ==> l in f.links)
    && (forall l :: l in f.links ==> l in base.links || (l.0 == net && l.1 in own))
  }

  /** `g` is `f` plus the one container `id`. */
  ghost predicate Adds(f: Facts, g: Facts, id: Id, net: Id) {
    && g.networks == f.networks
    && g.containers.Keys == f.containers.Keys + {id} && id !in f.containers
    && (forall c :: c in f.containers ==> g.containers[c] == f.containers[c])
    && (forall l :: l in f.links ==> l in g.links)
    && (forall l :: l in g.links ==> l in f.links || l == (net, id))
  }

  lemma GrownAdds(base: Facts, f: Facts, g: Facts, own: set<Id>, net: Id, id: Id)
    requires Grown(base, f, own, net) && Adds(f, g, id, net)
    ensures Grown(base, g, own + {id}, net)
  {
    assert base.containers.Keys <= f.containers.Keys;
  }

  /** The facts are those of a live prefix, at most `b` long, of the applications. */
  ghost predicate PrefixLive<K>(base: Facts, f: Facts, net: Id, apps: seq<App<K>>, store: map<K, Ctr>, b: nat)
    requires b <= |apps| && Known(apps, store)
  {
    exists q :: 0 <= q <= b && Grown(base, f, Ids(apps, store, q), net)
  }

  /** The first `p` applications hold identifiers given out in their own order; the others hold nothing alive. */
  ghost predicate Frontier<K>(w: World, apps: seq<App<K>>, store: map<K, Ctr>, p: nat)
    requires p <= |apps| && Known(apps, store)
  {
    && (forall j :: 0 <= j < p ==> 0 < store[apps[j].key].id < w.next)
    && (forall j, k :: 0 <= j < k < p ==> store[apps[j].key].id < store[apps[k].key].id)
    && (forall j :: p <= j < |apps| ==> store[apps[j].key].id < w.next && store[apps[j].key].id !in w.facts.containers)
  }

  // ----- steps -----

  /** Only the trace changed. */
  ghost predicate Quiet(w: World, w': World) {
    && w.trace <= w'.trace && w'.facts == w.facts && w'.next == w.next
    && forall t :: |w.trace| <= t < |w'.trace| ==> w'.trace[t].after == w.facts
  }

  lemma {:induction false} HooksQuiet(w: World, o: Oracle, app: nat, stage: Stage, k: nat, n: nat)
    requires k <= n
    ensures Quiet(w, RunHooks(w, o, app, stage, k, n).0)
    decreases n - k
  {
    if k < n {
      var (w1, ok) := Do(w, o, Hook(app, stage, k));
      if ok {
        HooksQuiet(w1, o, app, stage, k + 1, n);
      }
    }
  }

  /** A container run either leaves everything as it was, or adds one container with the next identifier. */
  ghost predicate RunEffect(w: World, c: Ctr, w': World, c': Ctr) {
    && w.trace <= w'.trace && Sane(w')
    && (if c' == c then Quiet(w, w')
        else c' == c.(id := w.next) && w'.next == w.next + 1 && Adds(w.facts, w'.facts, w.next, c.net))
    && forall t :: |w.trace| <= t < |w'.trace| ==>
         w'.trace[t].after == w.facts || (c' != c && Adds(w.facts, w'.trace[t].after, w.next, c.net))
  }

  /** Once created, a container stays the only addition while it is connected and started. */
  lemma ConnectAndStartEffect(before: Facts, w: World, o: Oracle, c: Ctr)
    requires Sane(w) && Adds(before, w.facts, c.id, c.net) && (c.net == 0 || c.net in w.facts.networks)
    ensures var (w', c', _) := ConnectAndStart(w, o, c);
      && c' == c && w.trace <= w'.trace && w'.next == w.next && Sane(w') && Adds(before, w'.facts, c.id, c.net)
      && forall t :: |w.trace| <= t < |w'.trace| ==> Adds(before, w'.trace[t].after, c.id, c.net)
  {
    if c.net == 0 {
      StartEffect(before, w, o, c);
    } else {
      var (w1, connected) := Do(w, o, NetworkConnect(c.net, c.id));
      assert Adds(before, w1.facts, c.id, c.net);
      if connected {
        StartEffect(before, w1, o, c);
      }
    }
  }

  lemma StartEffect(before: Facts, w: World, o: Oracle, c: Ctr)
    requires Sane(w) && Adds(before, w.facts, c.id, c.net)
    ensures var (w', c', _) := StartContainer(w, o, c);
      && c' == c && |w'.trace| == |w.trace| + 1 && w.trace <= w'.trace && w'.next == w.next && Sane(w')
      && Adds(before, w'.facts, c.id, c.net) && w'.trace[|w.trace|].after == w'.facts
  {
  }

  lemma ContainerRunEffect(w: World, o: Oracle, c: Ctr)
    requires Sane(w) && c.id < w.next && (c.net == 0 || c.net in w.facts.networks)
    ensures var (w', c', err) := ContainerRun(w, o, c);
      RunEffect(w, c, w', c') && (err.None? ==> c' != c)
  {
    var (w1, pulled) := Do(w, o, ImagePull);
    if pulled {
      var (w2, configured) := Do(w1, o, Configure);
      if configured {
        var (w3, created) := Do(w2, o, ContainerCreate);
        if created {
          assert Adds(w.facts, w3.facts, w.next, c.net);
          ConnectAndStartEffect(w.facts, w3, o, c.(id := w.next));
        }
      }
    }
  }

  // ----- Run -----

  /** The daemon holds `base`, the group's network, and the containers of exactly the first `p` applications. */
  ghost predicate Live<K>(base: Facts, w: World, net: Id, apps: seq<App<K>>, store: map<K, Ctr>, p: nat) {
    && p <= |apps| && Known(apps, store) && Sane(w)
    && Grown(base, w.facts, Ids(apps, store, p), net) && Frontier(w, apps, store, p)
  }

  /** Every moment between `w` and `w'` shows a live prefix. */
  ghost predicate Throughout<K>(base: Facts, w: World, w': World, net: Id, apps: seq<App<K>>,
        store: map<K, Ctr>, b: nat)
  {
    && b <= |apps| && Known(apps, store) && w.trace <= w'.trace
    && forall t :: |w.trace| <= t < |w'.trace| ==> PrefixLive(base, w'.trace[t].after, net, apps, store, b)
  }

  ghost predicate SameIds<K>(apps: seq<App<K>>, s1: map<K, Ctr>, s2: map<K, Ctr>, b: nat)
    requires b <= |apps| && Known(apps, s1) && Known(apps, s2)
  {
    forall j :: 0 <= j < b ==> s1[apps[j].key].id == s2[apps[j].key].id
  }

  lemma IdsSame<K>(apps: seq<App<K>>, s1: map<K, Ctr>, s2: map<K, Ctr>, b: nat)
    requires b <= |apps| && Known(apps, s1) && Known(apps, s2) && SameIds(apps, s1, s2, b)
    ensures Ids(apps, s1, b) == Ids(apps, s2, b)
  {
  }

  lemma ThroughoutSame<K>(base: Facts, w: World, w': World, net: Id, apps: seq<App<K>>,
        s1: map<K, Ctr>, s2: map<K, Ctr>, b: nat, b': nat)
    requires Throughout(base, w, w', net, apps, s1, b) && Known(apps, s2) && SameIds(apps, s1, s2, b)
    requires b <= b' <= |apps|
    ensures Throughout(base, w, w', net, apps, s2, b')
  {
    hide Grown;
    forall t | |w.trace| <= t < |w'.trace|
      ensures PrefixLive(base, w'.trace[t].after, net, apps, s2, b')
    {
      var q :| 0 <= q <= b && Grown(base, w'.trace[t].after, Ids(apps, s1, q), net);
      IdsSame(apps, s1, s2, q);
    }
  }

  lemma ThroughoutThen<K>(base: Facts, w: World, w1: World, w2: World, net: Id, apps: seq<App<K>>,
        store: map<K, Ctr>, b: nat)
    requires Throughout(base, w, w1, net, apps, store, b) && Throughout(base, w1, w2, net, apps, store, b)
    ensures Throughout(base, w, w2, net, apps, store, b)
  {
    hide PrefixLive;
  }

  lemma QuietLive<K>(base: Facts, w: World, w': World, net: Id, apps: seq<App<K>>, store: map<K, Ctr>,
        store': map<K, Ctr>, p: nat)
    requires Live(base, w, net, apps, store, p) && Quiet(w, w')
    requires Known(apps, store') && SameIds(apps, store, store', |apps|)
    ensures Live(base, w', net, apps, store', p) && Throughout(base, w, w', net, apps, store', p)
  {
    IdsSame(apps, store, store', p);
  }

  lemma AddsLive<K>(base: Facts, w: World, w': World, c: Ctr, net: Id, apps: seq<App<K>>, store: map<K, Ctr>, i: nat)
    requires Distinct(apps) && i < |apps| && Live(base, w, net, apps, store, i)
    requires c.net == net && RunEffect(w, c, w', c.(id := w.next)) && c.id < w.next
    ensures var store' := store[apps[i].key := c.(id := w.next)];
      Live(base, w', net, apps, store', i + 1) && Throughout(base, w, w', net, apps, store', i + 1)
  {
    hide Grown, Adds, Sane, Frontier;
    var store' := store[apps[i].key := c.(id := w.next)];
    IdsSame(apps, store, store', i);
    assert Ids(apps, store', i + 1) == Ids(apps, store', i) + {w.next};
    GrownAdds(base, w.facts, w'.facts, Ids(apps, store, i), net, w.next);
    AddsKeys(w.facts, w'.facts, w.next, net);
    FrontierMoves(w, w', c, apps, store, i);
    forall t | |w.trace| <= t < |w'.trace|
      ensures PrefixLive(base, w'.trace[t].after, net, apps, store', i + 1)
    {
      if w'.trace[t].after == w.facts {
        assert Grown(base, w.facts, Ids(apps, store', i), net);
      } else {
        GrownAdds(base, w.facts, w'.trace[t].after, Ids(apps, store, i), net, w.next);
      }
    }
  }

  lemma AddsKeys(f: Facts, g: Facts, id: Id, net: Id)
    requires Adds(f, g, id, net)
    ensures g.containers.Keys == f.containers.Keys + {id}
  {
  }

  lemma FrontierMoves<K>(w: World, w': World, c: Ctr, apps: seq<App<K>>, store: map<K, Ctr>, i: nat)
    requires Distinct(apps) && i < |apps| && Known(apps, store) && Frontier(w, apps, store, i) && Sane(w)
    requires w'.next == w.next + 1 && w'.facts.containers.Keys == w.facts.containers.Keys + {w.next}
    ensures Frontier(w', apps, store[apps[i].key := c.(id := w.next)], i + 1)
  {
  }

  lemma GrownNetwork(base: Facts, f: Facts, own: set<Id>, net: Id)
    requires Grown(base, f, own, net)
    ensures net in f.networks
  {
  }

  /** One application moves the frontier by one, or leaves it where it was. */
  lemma RunAppLive<K>(w: World, o: Oracle, base: Facts, net: Id, apps: seq<App<K>>, store: map<K, Ctr>, i: nat)
      returns (p: nat)
    requires Distinct(apps) && i < |apps| && Live(base, w, net, apps, store, i)
    ensures var r := RunApp(w, o, net, apps, store, i);
      && i <= p <= i + 1 && (r.err.None? ==> p == i + 1)
      && Live(base, r.world, net, apps, r.store, p) && Throughout(base, w, r.world, net, apps, r.store, p)
      && SameIds(apps, store, r.store, i)
  {
    hide Grown, Adds, RunHooks, ContainerRun;
    var app := apps[i];
    var c := store[app.key].(net := net);
    var r := RunApp(w, o, net, apps, store, i);
    HooksQuiet(w, o, i, BeforeRun, 0, app.hooks);
    var (w1, e1) := RunHooks(w, o, i, BeforeRun, 0, app.hooks);
    var s1 := store[app.key := c];
    QuietLive(base, w, w1, net, apps, store, s1, i);
    if e1.Some? {
      return i;
    }
    GrownNetwork(base, w1.facts, Ids(apps, s1, i), net);
    ContainerRunEffect(w1, o, c);
    var (w2, c', e2) := ContainerRun(w1, o, c);
    if c' == c {
      QuietLive(base, w1, w2, net, apps, s1, s1, i);
      ThroughoutThen(base, w, w1, w2, net, apps, s1, i);
      return i;
    }
    var s2 := store[app.key := c'];
    assert s2 == s1[app.key := c'];
    AddsLive(base, w1, w2, c, net, apps, s1, i);
    ThroughoutSame(base, w, w1, net, apps, s1, s2, i, i + 1);
    ThroughoutThen(base, w, w1, w2, net, apps, s2, i + 1);
    if e2.None? {
      HooksQuiet(w2, o, i, AfterRun, 0, app.hooks);
      QuietLive(base, w2, r.world, net, apps, s2, s2, i + 1);
      ThroughoutThen(base, w, w2, r.world, net, apps, s2, i + 1);
    }
    return i + 1;
  }

  lemma {:induction false} RunAppsLive<K>(w: World, o: Oracle, base: Facts, net: Id, apps: seq<App<K>>,
        store: map<K, Ctr>, i: nat)
      returns (p: nat)
    requires Distinct(apps) && i <= |apps| && Live(base, w, net, apps, store, i)
    ensures var r := RunApps(w, o, net, apps, store, i);
      && i <= p <= |apps| && (r.err.None? ==> p == |apps|)
      && Live(base, r.world, net, apps, r.store, p) && Throughout(base, w, r.world, net, apps, r.store, p)
      && SameIds(apps, store, r.store, i)
    decreases |apps| - i
  {
    hide Grown, Frontier, PrefixLive, RunApp;
    if i == |apps| {
      return i;
    }
    var q := RunAppLive(w, o, base, net, apps, store, i);
    var r := RunApp(w, o, net, apps, store, i);
    if r.err.Some? {
      return q;
    }
    p := RunAppsLive(r.world, o, base, net, apps, r.store, i + 1);
    var r2 := RunApps(r.world, o, net, apps, r.store, i + 1);
    ThroughoutSame(base, w, r.world, net, apps, r.store, r2.store, i + 1, p);
    ThroughoutThen(base, w, r.world, r2.world, net, apps, r2.store, p);
  }

  // ----- Close -----

  /** `g` is `f` with container `id` gone, and its links with it. */
  ghost predicate Removes(f: Facts, g: Facts, id: Id) {
    && g.networks == f.networks
    && g.containers.Keys == f.containers.Keys - {id}
    && (forall c :: c in g.containers ==> g.containers[c] == f.containers[c])
    && (forall l :: l in g.links <==> l in f.links && l.1 != id)
  }

  /** `g` is `f` but perhaps for the status of container `id`. */
  ghost predicate Keeps(f: Facts, g: Facts, id: Id) {
    && g.networks == f.networks && g.links == f.links
    && g.containers.Keys == f.containers.Keys
    && (forall c :: c in f.containers && c != id ==> g.containers[c] == f.containers[c])
  }

  /** A stop or removal of this container failed between two moments. */
  ghost predicate FailedOn(id: Id, w: World, w': World) {
    exists t :: |w.trace| <= t < |w'.trace| && !w'.trace[t].ok
                && (w'.trace[t].call == ContainerStop(id) || w'.trace[t].call == ContainerRemove(id))
  }

  /** No call between two moments concerns this container. */
  ghost predicate Untouched(id: Id, w: World, w': World) {
    forall t :: |w.trace| <= t < |w'.trace| ==>
      w'.trace[t].call != ContainerStop(id) && w'.trace[t].call != ContainerRemove(id)
  }

  /** What closing a container with this identifier does. */
  ghost predicate CloseEffect(w: World, w': World, id: Id) {
    && w.trace <= w'.trace && Sane(w') && w'.next == w.next
    && (if id in w.facts.containers && !FailedOn(id, w, w') then Removes(w.facts, w'.facts, id)
        else Keeps(w.facts, w'.facts, id))
    && (forall c :: c != id ==> Untouched(c, w, w'))
    && (forall t :: |w.trace| <= t < |w'.trace| ==>
          Keeps(w.facts, w'.trace[t].after, id) || Removes(w.facts, w'.trace[t].after, id))
  }

  /** Stops and removals of things that exist succeed; hooks may fail as they like. */
  ghost predicate Obedient(o: Oracle) {
    forall id: Id, n: nat :: o(ContainerStop(id), n) && o(ContainerRemove(id), n) && o(NetworkRemove(id), n)
  }

  lemma ContainerCloseEffect(w: World, o: Oracle, c: Ctr)
    requires Sane(w)
    ensures var (w', err) := ContainerClose(w, o, c);
      CloseEffect(w, w', c.id) && (Obedient(o) && c.id in w.facts.containers ==> !FailedOn(c.id, w, w'))
  {
    if c.id != 0 {
      var (w1, stopped) := Do(w, o, ContainerStop(c.id));
      assert w1.trace[|w.trace|].ok == stopped;
      assert Keeps(w.facts, w1.facts, c.id);
      if stopped {
        StoppedThenRemoved(w, w1, o, c.id);
      }
    }
  }

  lemma StoppedThenRemoved(w: World, w1: World, o: Oracle, id: Id)
    requires Sane(w) && (w1, true) == Do(w, o, ContainerStop(id))
    ensures var w2 := Do(w1, o, ContainerRemove(id)).0;
      CloseEffect(w, w2, id) && (Obedient(o) ==> !FailedOn(id, w, w2))
  {
    var (w2, removed) := Do(w1, o, ContainerRemove(id));
    assert w2.trace[|w.trace|] == w1.trace[|w.trace|] && w1.trace[|w.trace|].ok;
    assert w2.trace[|w.trace| + 1].ok == removed;
    assert removed ==> Removes(w.facts, w2.facts, id);
    assert !removed ==> Keeps(w.facts, w2.facts, id);
  }

  lemma {:induction false} HooksUntouched(w: World, o: Oracle, app: nat, stage: Stage, k: nat, n: nat)
    requires k <= n
    ensures var w' := RunHooks(w, o, app, stage, k, n).0;
      w.trace <= w'.trace && forall t :: |w.trace| <= t < |w'.trace| ==> w'.trace[t].call.Hook?
    decreases n - k
  {
    if k < n {
      var (w1, ok) := Do(w, o, Hook(app, stage, k));
      if ok {
        HooksUntouched(w1, o, app, stage, k + 1, n);
      }
    }
  }

  /** Hooks before the close, and after it, change nothing but the trace. */
  lemma HooksThenClose(w: World, w1: World, w2: World, id: Id)
    requires Sane(w) && Quiet(w, w1) && CloseEffect(w1, w2, id)
    requires forall t :: |w.trace| <= t < |w1.trace| ==> w1.trace[t].call.Hook?
    ensures CloseEffect(w, w2, id) && (FailedOn(id, w, w2) <==> FailedOn(id, w1, w2))
  {
    assert forall t :: |w.trace| <= t < |w1.trace| ==> w2.trace[t] == w1.trace[t];
    forall c | c != id ensures Untouched(c, w, w2) {
      assert Untouched(c, w1, w2);
    }
  }

  lemma CloseThenHooks(w: World, w1: World, w2: World, id: Id)
    requires Sane(w) && CloseEffect(w, w1, id) && Quiet(w1, w2)
    requires forall t :: |w1.trace| <= t < |w2.trace| ==> w2.trace[t].call.Hook?
    ensures CloseEffect(w, w2, id) && (FailedOn(id, w, w2) <==> FailedOn(id, w, w1))
  {
    assert forall t :: |w.trace| <= t < |w1.trace| ==> w2.trace[t] == w1.trace[t];
    forall c | c != id ensures Untouched(c, w, w2) {
      assert Untouched(c, w, w1);
    }
  }

  lemma CloseAppEffect(w: World, o: Oracle, app: nat, hooks: nat, c: Ctr)
    requires Sane(w)
    ensures var w' := CloseApp(w, o, app, hooks, c).0;
      CloseEffect(w, w', c.id) && (Obedient(o) && c.id in w.facts.containers ==> !FailedOn(c.id, w, w'))
  {
    hide CloseEffect, FailedOn;
    var w1 := RunHooks(w, o, app, BeforeClose, 0, hooks).0;
    var w2 := ContainerClose(w1, o, c).0;
    HooksQuiet(w, o, app, BeforeClose, 0, hooks);
    HooksUntouched(w, o, app, BeforeClose, 0, hooks);
    ContainerCloseEffect(w1, o, c);
    HooksQuiet(w2, o, app, AfterClose, 0, hooks);
    HooksUntouched(w2, o, app, AfterClose, 0, hooks);
    HooksThenClose(w, w1, w2, c.id);
    CloseThenHooks(w, w2, CloseApp(w, o, app, hooks, c).0, c.id);
  }

  lemma FailedThen(id: Id, w: World, w1: World, w2: World)
    requires w.trace <= w1.trace <= w2.trace
    ensures FailedOn(id, w, w2) <==> FailedOn(id, w, w1) || FailedOn(id, w1, w2)
  {
    assert forall t :: |w.trace| <= t < |w1.trace| ==> w2.trace[t] == w1.trace[t];
  }

  /** A container apart from the closed one keeps its place and its status. */
  ghost predicate Spared(c: Id, w: World, w': World) {
    && w.trace <= w'.trace && Sane(w') && w'.next == w.next && w'.facts.networks == w.facts.networks
    && (c in w.facts.containers <==> c in w'.facts.containers)
    && (c in w.facts.containers ==> w'.facts.containers[c] == w.facts.containers[c])
    && !FailedOn(c, w, w')
  }

  lemma EffectSpares(w: World, w': World, id: Id, c: Id)
    requires CloseEffect(w, w', id) && c != id
    ensures Spared(c, w, w')
  {
    assert Untouched(c, w, w');
  }

  lemma SparedThen(c: Id, w: World, w1: World, w2: World)
    requires Spared(c, w, w1) && Spared(c, w1, w2)
    ensures Spared(c, w, w2)
  {
    FailedThen(c, w, w1, w2);
  }

  /** A container no closed application holds is neither touched nor changed. */
  lemma {:induction false} CloseAppsOther<K>(w: World, o: Oracle, apps: seq<App<K>>, store: map<K, Ctr>, i: nat, c: Id)
    requires i <= |apps| && Known(apps, store) && Sane(w) && c !in Ids(apps, store, i)
    ensures Spared(c, w, CloseApps(w, o, apps, store, i).0)
    decreases i
  {
    hide CloseEffect, FailedOn, CloseApp;
    if i > 0 {
      var id := store[apps[i - 1].key].id;
      var w1 := CloseApp(w, o, i - 1, apps[i - 1].hooks, store[apps[i - 1].key]).0;
      CloseAppEffect(w, o, i - 1, apps[i - 1].hooks, store[apps[i - 1].key]);
      assert id in Ids(apps, store, i);
      EffectSpares(w, w1, id, c);
      CloseAppsOther(w1, o, apps, store, i - 1, c);
      SparedThen(c, w, w1, CloseApps(w, o, apps, store, i).0);
    } else {
      assert !FailedOn(c, w, w) by { NoneFailed(c, w); }
    }
  }

  lemma NoneFailed(c: Id, w: World)
    ensures !FailedOn(c, w, w)
  {
  }

  lemma EffectOnSelf(w: World, w': World, id: Id)
    requires CloseEffect(w, w', id) && id in w.facts.containers
    ensures w.trace <= w'.trace && Sane(w') && (id in w'.facts.containers <==> FailedOn(id, w, w'))
  {
  }

  /** A live container held by exactly one of the closed applications survives if and only if its stop or its
      removal failed. */
  lemma {:induction false} CloseAppsExact<K>(w: World, o: Oracle, apps: seq<App<K>>, store: map<K, Ctr>, i: nat, m: nat)
    requires m < i <= |apps| && Known(apps, store) && Sane(w)
    requires store[apps[m].key].id in w.facts.containers
    requires forall j :: 0 <= j < i && j != m ==> store[apps[j].key].id != store[apps[m].key].id
    ensures var w' := CloseApps(w, o, apps, store, i).0; var c := store[apps[m].key].id;
      w.trace <= w'.trace && (c in w'.facts.containers <==> FailedOn(c, w, w'))
    decreases i
  {
    hide CloseEffect, FailedOn, CloseApp;
    var c := store[apps[m].key].id;
    var w1 := CloseApp(w, o, i - 1, apps[i - 1].hooks, store[apps[i - 1].key]).0;
    var w' := CloseApps(w, o, apps, store, i).0;
    CloseAppEffect(w, o, i - 1, apps[i - 1].hooks, store[apps[i - 1].key]);
    if m == i - 1 {
      EffectOnSelf(w, w1, c);
      CloseAppsOther(w1, o, apps, store, i - 1, c);
    } else {
      EffectSpares(w, w1, store[apps[i - 1].key].id, c);
      CloseAppsExact(w1, o, apps, store, i - 1, m);
    }
    FailedThen(c, w, w1, w');
  }

  // ----- Close, when what exists can be removed -----

  /** While closing: applications from `i` on are gone, `p` is how far `Run` got. */
  ghost predicate Closing<K>(base: Facts, w: World, net: Id, apps: seq<App<K>>, store: map<K, Ctr>, p: nat, i: nat) {
    && p <= |apps| && i <= |apps| && Known(apps, store) && Sane(w)
    && Grown(base, w.facts, Ids(apps, store, if i < p then i else p), net)
    && (forall l :: l in base.links ==> l.1 in base.containers)
    && (forall j, k :: 0 <= j < k < p ==> store[apps[j].key].id < store[apps[k].key].id)
    && (forall j :: p <= j < |apps| ==>
          store[apps[j].key].id !in base.containers && store[apps[j].key].id !in Ids(apps, store, p))
  }

  lemma GrownKeeps(base: Facts, f: Facts, g: Facts, own: set<Id>, net: Id, id: Id)
    requires Grown(base, f, own, net) && Keeps(f, g, id) && id !in base.containers
    ensures Grown(base, g, own, net)
  {
    assert base.containers.Keys <= f.containers.Keys;
  }

  lemma GrownRemoves(base: Facts, f: Facts, g: Facts, own: set<Id>, net: Id, id: Id)
    requires Grown(base, f, own, net) && Removes(f, g, id) && id !in base.containers
    requires forall l :: l in base.links ==> l.1 in base.containers
    ensures Grown(base, g, own - {id}, net)
  {
    assert base.containers.Keys <= f.containers.Keys;
  }

  lemma CloseAppLive<K>(w: World, o: Oracle, base: Facts, net: Id, apps: seq<App<K>>, store: map<K, Ctr>,
        p: nat, i: nat)
    requires 0 < i && Obedient(o) && Closing(base, w, net, apps, store, p, i)
    ensures var w' := CloseApp(w, o, i - 1, apps[i - 1].hooks, store[apps[i - 1].key]).0;
      Closing(base, w', net, apps, store, p, i - 1) && Throughout(base, w, w', net, apps, store, p)
  {
    hide Grown, CloseApp, FailedOn, CloseEffect;
    var id := store[apps[i - 1].key].id;
    var w' := CloseApp(w, o, i - 1, apps[i - 1].hooks, store[apps[i - 1].key]).0;
    CloseAppEffect(w, o, i - 1, apps[i - 1].hooks, store[apps[i - 1].key]);
    var own, own' := Ids(apps, store, if i < p then i else p), Ids(apps, store, if i - 1 < p then i - 1 else p);
    GrownKeys(base, w.facts, own, net);
    assert i - 1 < p ==> id in own;
    assert own' == own - {id};
    CloseEffectGrown(base, w, w', own, net, id);
    CloseEffectSane(w, w', id);
    forall t | |w.trace| <= t < |w'.trace| ensures PrefixLive(base, w'.trace[t].after, net, apps, store, p) {
      assert Grown(base, w'.trace[t].after, own, net) || Grown(base, w'.trace[t].after, own', net);
    }
  }

  lemma CloseEffectSane(w: World, w': World, id: Id)
    requires CloseEffect(w, w', id)
    ensures w.trace <= w'.trace && Sane(w')
  {
  }

  /** Closing one container of the group, with its removal honoured, leaves the others. */
  lemma CloseEffectGrown(base: Facts, w: World, w': World, own: set<Id>, net: Id, id: Id)
    requires Grown(base, w.facts, own, net) && CloseEffect(w, w', id) && id !in base.containers
    requires forall l :: l in base.links ==> l.1 in base.containers
    requires id in w.facts.containers ==> !FailedOn(id, w, w')
    ensures Grown(base, w'.facts, own - {id}, net)
    ensures forall t :: |w.trace| <= t < |w'.trace| ==>
      Grown(base, w'.trace[t].after, own, net) || Grown(base, w'.trace[t].after, own - {id}, net)
  {
    hide Grown, Keeps, Removes, FailedOn, Untouched;
    forall t | |w.trace| <= t < |w'.trace|
      ensures Grown(base, w'.trace[t].after, own, net) || Grown(base, w'.trace[t].after, own - {id}, net)
    {
      if Keeps(w.facts, w'.trace[t].after, id) {
        GrownKeeps(base, w.facts, w'.trace[t].after, own, net, id);
      } else {
        GrownRemoves(base, w.facts, w'.trace[t].after, own, net, id);
      }
    }
    GrownKeys(base, w.facts, own, net);
    if id in w.facts.containers {
      GrownRemoves(base, w.facts, w'.facts, own, net, id);
    } else {
      GrownKeeps(base, w.facts, w'.facts, own, net, id);
      assert own - {id} == own;
    }
  }

  lemma GrownKeys(base: Facts, f: Facts, own: set<Id>, net: Id)
    requires Grown(base, f, own, net)
    ensures f.containers.Keys == base.containers.Keys + own && base.containers.Keys !! own
  {
  }

  lemma {:induction false} CloseAppsLive<K>(w: World, o: Oracle, base: Facts, net: Id, apps: seq<App<K>>,
        store: map<K, Ctr>, p: nat, i: nat)
    requires Obedient(o) && Closing(base, w, net, apps, store, p, i)
    ensures var w' := CloseApps(w, o, apps, store, i).0;
      Closing(base, w', net, apps, store, p, 0) && Throughout(base, w, w', net, apps, store, p)
    decreases i
  {
    hide Grown, PrefixLive, CloseApp;
    if i > 0 {
      var w1 := CloseApp(w, o, i - 1, apps[i - 1].hooks, store[apps[i - 1].key]).0;
      CloseAppLive(w, o, base, net, apps, store, p, i);
      CloseAppsLive(w1, o, base, net, apps, store, p, i - 1);
      ThroughoutThen(base, w, w1, CloseApps(w, o, apps, store, i).0, net, apps, store, p);
    }
  }
}
