/** Groups that are run and closed any number of times, in any order. */
module GroupHistories {
  import opened Daemon
  import opened Lifecycle
  import ConservationProofs
  import opened GroupTheorems

  datatype Op = Run | Close

  /** The daemon, the group's network, and the group's container objects. */
  datatype State<K> = State(world: World, net: Id, store: map<K, Ctr>)

  ghost function After<K>(s: State<K>, o: Oracle, apps: seq<App<K>>, op: Op): (t: State<K>)
    requires Known(apps, s.store)
    ensures Known(apps, t.store)
  {
    match op
    case Run =>
      RunKeys(s, o, apps);
      var r := GroupRun(s.world, o, s.net, apps, s.store);
      State(r.world, r.net, r.store)
    case Close => s.(world := GroupClose(s.world, o, s.net, apps, s.store).0)
  }

  lemma RunKeys<K>(s: State<K>, o: Oracle, apps: seq<App<K>>)
    requires Known(apps, s.store)
    ensures GroupRun(s.world, o, s.net, apps, s.store).store.Keys == s.store.Keys
  {
    hide RunApps;
    RunAppsKeys(Do(s.world, o, NetworkCreate).0, o, s.world.next, apps, s.store, 0);
  }

  ghost function AfterAll<K>(s: State<K>, o: Oracle, apps: seq<App<K>>, ops: seq<Op>): (t: State<K>)
    requires Known(apps, s.store)
    ensures Known(apps, t.store)
    decreases |ops|
  {
    if ops == [] then s else AfterAll(After(s, o, apps, ops[0]), o, apps, ops[1..])
  }

  ghost predicate ReadyState<K>(s: State<K>, apps: seq<App<K>>) {
    Ready(s.world, s.net, apps, s.store) && s.net < s.world.next
  }

  // ----- what each call keeps -----

  lemma {:induction false} RunAppsSane<K>(w: World, o: Oracle, net: Id, apps: seq<App<K>>, store: map<K, Ctr>, i: nat)
    requires i <= |apps| && Known(apps, store) && Sane(w) && net in w.facts.networks
    requires forall k :: k in store ==> store[k].id < w.next
    ensures var r := RunApps(w, o, net, apps, store, i);
      && Sane(r.world) && w.next <= r.world.next && r.world.facts.networks == w.facts.networks
      && forall k :: k in r.store ==> r.store[k].id < r.world.next
    decreases |apps| - i
  {
    hide RunApp;
    if i < |apps| {
      RunAppSane(w, o, net, apps, store, i);
      var r := RunApp(w, o, net, apps, store, i);
      if r.err.None? {
        RunAppsSane(r.world, o, net, apps, r.store, i + 1);
      }
    }
  }

  lemma RunAppSane<K>(w: World, o: Oracle, net: Id, apps: seq<App<K>>, store: map<K, Ctr>, i: nat)
    requires i < |apps| && Known(apps, store) && Sane(w) && net in w.facts.networks
    requires forall k :: k in store ==> store[k].id < w.next
    ensures var r := RunApp(w, o, net, apps, store, i);
      && Known(apps, r.store) && Sane(r.world) && w.next <= r.world.next && r.world.facts.networks == w.facts.networks
      && forall k :: k in r.store ==> r.store[k].id < r.world.next
  {
    hide RunHooks, ContainerRun;
    var c := store[apps[i].key].(net := net);
    ConservationProofs.HooksQuiet(w, o, i, BeforeRun, 0, apps[i].hooks);
    var w1 := RunHooks(w, o, i, BeforeRun, 0, apps[i].hooks).0;
    ConservationProofs.ContainerRunEffect(w1, o, c);
    var w2 := ContainerRun(w1, o, c).0;
    ConservationProofs.HooksQuiet(w2, o, i, AfterRun, 0, apps[i].hooks);
  }

  /** Identifiers the group knows were given out in the past. */
  ghost predicate Sound<K>(s: State<K>, apps: seq<App<K>>) {
    && Known(apps, s.store) && Sane(s.world) && s.net < s.world.next
    && forall k :: k in s.store ==> s.store[k].id < s.world.next
  }

  /** A run adds at most one network, under the next identifier, which becomes the group's; a close removes at most
      the group's network. */
  lemma AfterNetworks<K>(s: State<K>, o: Oracle, apps: seq<App<K>>, op: Op)
    requires Sound(s, apps)
    ensures var t := After(s, o, apps, op);
      && Sound(t, apps) && s.world.next <= t.world.next && t.store.Keys == s.store.Keys
      && match op
         case Run => if NetworkMade(s.world, o)
                     then t.net == s.world.next && t.world.facts.networks == s.world.facts.networks + {t.net}
                     else t.net == s.net && t.world.facts.networks == s.world.facts.networks
         case Close => t.net == s.net && t.world.next == s.world.next
                       && s.world.facts.networks - {s.net} <= t.world.facts.networks <= s.world.facts.networks
  {
    hide RunApps, CloseApps;
    RunKeys(s, o, apps);
    match op
    case Run =>
      if NetworkMade(s.world, o) {
        RunAppsKeys(Do(s.world, o, NetworkCreate).0, o, s.world.next, apps, s.store, 0);
        RunAppsSane(Do(s.world, o, NetworkCreate).0, o, s.world.next, apps, s.store, 0);
      }
    case Close =>
      CloseAppsShrink(s.world, o, apps, s.store, |apps|);
      ClosedNext(s.world, o, apps, s.store, |apps|);
  }

  lemma {:induction false} ClosedNext<K>(w: World, o: Oracle, apps: seq<App<K>>, store: map<K, Ctr>, i: nat)
    requires i <= |apps| && Known(apps, store) && Sane(w)
    ensures CloseApps(w, o, apps, store, i).0.next == w.next
    decreases i
  {
    hide CloseApp;
    if i > 0 {
      ConservationProofs.CloseAppEffect(w, o, i - 1, apps[i - 1].hooks, store[apps[i - 1].key]);
      ClosedNext(CloseApp(w, o, i - 1, apps[i - 1].hooks, store[apps[i - 1].key]).0, o, apps, store, i - 1);
    }
  }

  // ----- what is lost -----

  /** A network the group no longer refers to is never removed, whatever it does later and whatever fails. */
  lemma {:induction false} ForgottenNetworkStays<K>(s: State<K>, o: Oracle, apps: seq<App<K>>, ops: seq<Op>, n: Id)
    requires Sound(s, apps) && n in s.world.facts.networks && n != s.net
    ensures n in AfterAll(s, o, apps, ops).world.facts.networks
    decreases |ops|
  {
    hide After, Sound;
    SoundNetworks(s, apps);
    if ops != [] {
      var t := After(s, o, apps, ops[0]);
      AfterNetworks(s, o, apps, ops[0]);
      ForgottenNetworkStays(t, o, apps, ops[1..], n);
    }
  }

  lemma SoundNetworks<K>(s: State<K>, apps: seq<App<K>>)
    requires Sound(s, apps)
    ensures forall n :: n in s.world.facts.networks ==> n < s.world.next
    ensures s.net < s.world.next && Known(apps, s.store)
  {
  }

  /** A second run that creates its network makes the group forget the first one. */
  lemma SecondRunForgets<K>(s: State<K>, o: Oracle, apps: seq<App<K>>, ops: seq<Op>)
    requires Sound(s, apps) && NetworkMade(s.world, o)
    requires NetworkMade(After(s, o, apps, Run).world, o)
    ensures s.world.next in AfterAll(s, o, apps, [Run, Run] + ops).world.facts.networks
  {
    hide After, Sound, NetworkMade;
    SoundNetworks(s, apps);
    var t := After(s, o, apps, Run);
    AfterNetworks(s, o, apps, Run);
    SoundNetworks(t, apps);
    var u := After(t, o, apps, Run);
    AfterNetworks(t, o, apps, Run);
    ForgottenNetworkStays(u, o, apps, ops, s.world.next);
    assert ([Run, Run] + ops)[1..] == [Run] + ops && ([Run] + ops)[1..] == ops;
  }

  // ----- what is restored -----

  lemma RunCloseReady<K>(s: State<K>, o: Oracle, apps: seq<App<K>>)
    requires ReadyState(s, apps) && ConservationProofs.Obedient(o)
    ensures var t := After(After(s, o, apps, Run), o, apps, Close);
      t.world.facts == s.world.facts && ReadyState(t, apps)
  {
    var r := After(s, o, apps, Run);
    var t := After(r, o, apps, Close);
    Conservation(s.world, o, s.net, apps, s.store);
    AfterNetworks(s, o, apps, Run);
    AfterNetworks(r, o, apps, Close);
    hide GroupClose, RunApps, After;
    assert t.world.facts == s.world.facts;
    HeldAfterRun(s, o, apps);
  }

  /** After a run, a container object holds what it held before or something new. */
  lemma HeldAfterRun<K>(s: State<K>, o: Oracle, apps: seq<App<K>>)
    requires ReadyState(s, apps)
    ensures forall j :: 0 <= j < |apps| ==>
      After(s, o, apps, Run).store[apps[j].key].id !in s.world.facts.containers
  {
    if NetworkMade(s.world, o) {
      var p := RunLivePrefix(s.world, o, s.net, apps, s.store);
      var r := GroupRun(s.world, o, s.net, apps, s.store);
      LiveCloses(s.world, r.world, r.net, apps, r.store, p);
      ConservationProofs.GrownKeys(s.world.facts, r.world.facts, ConservationProofs.Ids(apps, r.store, p), r.net);
    } else {
      NetworkNotMade(s.world, o, s.net, apps, s.store);
    }
  }

  lemma CloseReady<K>(s: State<K>, o: Oracle, apps: seq<App<K>>)
    requires ReadyState(s, apps)
    ensures var t := After(s, o, apps, Close); t.world.facts == s.world.facts && ReadyState(t, apps)
  {
    hide CloseApps;
    CloseAppsIdle(s.world, o, apps, s.store, |apps|);
    AfterNetworks(s, o, apps, Close);
  }

  /** Every run is followed at once by a close. */
  predicate Paired(ops: seq<Op>) {
    forall k :: 0 <= k < |ops| && ops[k].Run? ==> k + 1 < |ops| && ops[k + 1].Close?
  }

  lemma {:induction false} PairedRestores<K>(s: State<K>, o: Oracle, apps: seq<App<K>>, ops: seq<Op>)
    requires ReadyState(s, apps) && ConservationProofs.Obedient(o) && Paired(ops)
    ensures AfterAll(s, o, apps, ops).world.facts == s.world.facts
    decreases |ops|
  {
    hide After, ReadyState;
    ReadyIsSound(s, apps);
    if ops == [] {
    } else if ops[0].Close? {
      CloseReady(s, o, apps);
      PairedRestores(After(s, o, apps, Close), o, apps, ops[1..]);
    } else {
      RunCloseReady(s, o, apps);
      assert ops[1..][1..] == ops[2..] && ops[1..][0] == Close;
      PairedRestores(After(After(s, o, apps, Run), o, apps, Close), o, apps, ops[2..]);
    }
  }

  lemma ReadyIsSound<K>(s: State<K>, apps: seq<App<K>>)
    requires ReadyState(s, apps)
    ensures Sound(s, apps) && Known(apps, s.store)
  {
  }

  // ----- exactly -----

  lemma {:induction false} AfterAllSplit<K>(s: State<K>, o: Oracle, apps: seq<App<K>>, a: seq<Op>, b: seq<Op>)
    requires Known(apps, s.store)
    ensures AfterAll(s, o, apps, a + b) == AfterAll(AfterAll(s, o, apps, a), o, apps, b)
    decreases |a|
  {
    hide After;
    if a == [] {
      assert a + b == b;
    } else {
      AfterAllSplit(After(s, o, apps, a[0]), o, apps, a[1..], b);
      assert (a + b)[1..] == a[1..] + b;
    }
  }

  lemma {:induction false} AfterAllSound<K>(s: State<K>, o: Oracle, apps: seq<App<K>>, ops: seq<Op>)
    requires Sound(s, apps)
    ensures Sound(AfterAll(s, o, apps, ops), apps) && s.world.next <= AfterAll(s, o, apps, ops).world.next
    decreases |ops|
  {
    hide After, Sound;
    SoundNetworks(s, apps);
    if ops != [] {
      AfterNetworks(s, o, apps, ops[0]);
      AfterAllSound(After(s, o, apps, ops[0]), o, apps, ops[1..]);
    }
  }

  /** With nothing failing, a run that no close follows leaves its network behind. */
  lemma {:induction false} UnpairedLeaks<K>(s: State<K>, apps: seq<App<K>>, ops: seq<Op>, k: nat)
    requires Sound(s, apps) && k < |ops| && ops[k].Run? && (k + 1 < |ops| ==> ops[k + 1].Run?)
    ensures AfterAll(s, ALWAYS, apps, ops).world.facts.networks != s.world.facts.networks
  {
    hide After, Sound, AfterAll;
    SoundNetworks(s, apps);
    var t := AfterAll(s, ALWAYS, apps, ops[..k]);
    AfterAllSound(s, ALWAYS, apps, ops[..k]);
    AfterAllSplit(s, ALWAYS, apps, ops[..k], ops[k..]);
    assert ops == ops[..k] + ops[k..];
    RunLeaks(t, apps, ops[k..]);
  }

  lemma {:induction false} RunLeaks<K>(t: State<K>, apps: seq<App<K>>, ops: seq<Op>)
    requires Sound(t, apps) && ops != [] && ops[0].Run? && (|ops| > 1 ==> ops[1].Run?)
    ensures t.world.next in AfterAll(t, ALWAYS, apps, ops).world.facts.networks
  {
    hide After;
    AfterNetworks(t, ALWAYS, apps, Run);
    if |ops| == 1 {
      assert ops[1..] == [];
    } else {
      SecondRunForgets(t, ALWAYS, apps, ops[2..]);
      assert ops == [Run, Run] + ops[2..];
    }
  }

  /** However hooks, pulls and starts fail, these calls leave the daemon as it was, as long as what exists can be
      removed. */
  ghost predicate AlwaysRestores<K>(s: State<K>, apps: seq<App<K>>, ops: seq<Op>)
    requires Known(apps, s.store)
  {
    forall o: Oracle :: ConservationProofs.Obedient(o) ==> AfterAll(s, o, apps, ops).world.facts == s.world.facts
  }

  /** A history of runs and closes always restores the daemon if and only if every run in it is followed at once by
      a close. */
  lemma RestoredExactly<K>(s: State<K>, apps: seq<App<K>>, ops: seq<Op>)
    requires ReadyState(s, apps)
    ensures Known(apps, s.store) && (AlwaysRestores(s, apps, ops) <==> Paired(ops))
  {
    hide AfterAll, ReadyState, Sound;
    ReadyIsSound(s, apps);
    if Paired(ops) {
      forall o: Oracle | ConservationProofs.Obedient(o) ensures AfterAll(s, o, apps, ops).world.facts == s.world.facts {
        PairedRestores(s, o, apps, ops);
      }
    } else {
      var k :| 0 <= k < |ops| && ops[k].Run? && !(k + 1 < |ops| && ops[k + 1].Close?);
      UnpairedLeaks(s, apps, ops, k);
      assert ConservationProofs.Obedient(ALWAYS);
    }
  }

  /** A group without applications, run twice and closed once on an empty daemon that never fails: the first network
      remains. */
  lemma RunTwiceCloseOnce()
    ensures var s: State<int> := State(World(Facts({}, map[], {}), 1, []), 0, map[]);
      1 in AfterAll(s, ALWAYS, [], [Run, Run, Close]).world.facts.networks
  {
    var s: State<int> := State(World(Facts({}, map[], {}), 1, []), 0, map[]);
    SecondRunForgets(s, ALWAYS, [], [Close]);
    assert [Run, Run] + [Close] == [Run, Run, Close];
  }
}
