/** The constructors of the service wrappers (memcache.go, postgres.go, kafka.go): the deferred clean-up closes the
    container unless the `started` flag was set. What the clients of the services answer is a parameter. */
module StartGuard {
  import opened GoStrings
  import opened Daemon
  import opened Lifecycle
  import opened ConservationProofs
  import LifecycleProofs
  import opened Objects

  const FRESH := Ctr(0, 0)

  /** What a constructor leaves behind: a container that ran and was never closed, or one closed exactly once. */
  twostate predicate Guarded(cli: Docker, new c: Container, started: bool)
    reads cli, c
  {
    var (w, ctr, err) := ContainerRun(old(cli.world), cli.oracle, FRESH);
    && c.State() == ctr && c.closes == (if started then 0 else 1)
    && cli.world == (if started then w else ContainerClose(w, cli.oracle, ctr).0)
    && (started ==> err == None)
  }

  /** Did the container come up? */
  predicate Runs(w: World, o: Oracle) {
    ContainerRun(w, o, FRESH).2 == None
  }

  /** Within thirty tries some ping succeeds before any cancellation is seen. */
  ghost predicate ReadyInTime(cancelled: nat -> bool, ping: nat -> bool) {
    exists i: nat :: i < 30 && ping(i) && forall j: nat :: j <= i ==> !cancelled(j)
  }

  method NewMemcache(cli: Docker, urlFound: bool, cancelled: nat -> bool, ping: nat -> bool)
      returns (c: Container, started: bool)
    modifies cli
    ensures fresh(c) && Guarded(cli, c, started)
    ensures !started && Sane(old(cli.world)) && Obedient(cli.oracle) ==> cli.world.facts == old(cli.world.facts)
    ensures started <==> Runs(old(cli.world), cli.oracle) && urlFound && ReadyInTime(cancelled, ping)
  {
    hide ContainerRun, ContainerClose;
    c := new Container(cli);
    started := false;
    label body: {
      var err := c.Run();
      if err.Some? {
        break body;
      }
      if !urlFound {
        break body;
      }
      for i := 0 to 30
        invariant forall j: nat :: j < i ==> !cancelled(j) && !ping(j)
        invariant !started && c.closes == 0
        invariant (cli.world, c.State(), None) == ContainerRun(old(cli.world), cli.oracle, FRESH)
      {
        if cancelled(i) {
          break body;
        }
        if ping(i) {
          started := true;
          break body;
        }
      }
    }
    if !started {
      NothingLeft(old(cli.world), cli.oracle);
      var _ := c.Close();
    }
  }

  /** The retry loop gives up only on a cancellation seen after a failed try; it does not report that it never
      connected. */
  ghost predicate NotCancelledFirst(cancelled: nat -> bool, connect: nat -> bool) {
    forall i: nat :: i < 30 && cancelled(i) ==> exists j: nat :: j <= i && connect(j)
  }

  /** Within thirty tries some connection is made, and no cancellation is seen after an earlier try. */
  ghost predicate ConnectsInTime(cancelled: nat -> bool, connect: nat -> bool) {
    exists i: nat :: i < 30 && connect(i) && forall j: nat :: j < i ==> !cancelled(j)
  }

  /** All thirty tries fail, and nobody cancels. */
  ghost predicate NeverAnswered(cancelled: nat -> bool, connect: nat -> bool) {
    forall i: nat :: i < 30 ==> !connect(i) && !cancelled(i)
  }

  /** The loop lets the constructor succeed in exactly two ways: it connected in time, or nothing ever answered. */
  lemma StartsConnectedOrUnanswered(cancelled: nat -> bool, connect: nat -> bool)
    ensures NotCancelledFirst(cancelled, connect) <==>
      ConnectsInTime(cancelled, connect) || NeverAnswered(cancelled, connect)
    ensures !(ConnectsInTime(cancelled, connect) && NeverAnswered(cancelled, connect))
  {
    if exists i: nat :: i < 30 && connect(i) {
      var first := FirstTry(connect, 29);
      if NotCancelledFirst(cancelled, connect) {
        forall j: nat | j < first ensures !cancelled(j) {
        }
      }
    }
  }

  lemma {:induction false} FirstTry(connect: nat -> bool, n: nat) returns (first: nat)
    requires exists i: nat :: i <= n && connect(i)
    ensures first <= n && connect(first) && forall j: nat :: j < first ==> !connect(j)
  {
    if exists i: nat :: i < n && connect(i) {
      first := FirstTry(connect, n - 1);
    } else {
      first := n;
    }
  }

  /** What a started constructor promises its caller: that it has been connected to the database. */
  ghost predicate StartedMeansConnected(cancelled: nat -> bool, connect: nat -> bool) {
    NotCancelledFirst(cancelled, connect) ==> ConnectsInTime(cancelled, connect)
  }

  /** The promise holds unless all thirty tries fail and nobody cancels, and only then it does not. */
  lemma StartedMeansConnectedExactly(cancelled: nat -> bool, connect: nat -> bool)
    ensures StartedMeansConnected(cancelled, connect) <==> exists i: nat :: i < 30 && (connect(i) || cancelled(i))
  {
    StartsConnectedOrUnanswered(cancelled, connect);
  }

  /** A database that never answers, and a caller that never cancels. */
  lemma NeverConnectedStillStarts()
    ensures var never := (i: nat) => false; NotCancelledFirst(never, never) && !StartedMeansConnected(never, never)
  {
    var never := (i: nat) => false;
    StartedMeansConnectedExactly(never, never);
  }

  /** `connected` is true when the loop was left by a connection. */
  method NewPostgres(cli: Docker, awaited: bool, urlFound: bool, cancelled: nat -> bool, connect: nat -> bool)
      returns (c: Container, started: bool, ghost connected: bool)
    modifies cli
    ensures fresh(c) && Guarded(cli, c, started)
    ensures !started && Sane(old(cli.world)) && Obedient(cli.oracle) ==> cli.world.facts == old(cli.world.facts)
    ensures started <==>
      Runs(old(cli.world), cli.oracle) && awaited && urlFound && NotCancelledFirst(cancelled, connect)
    ensures connected <==>
      Runs(old(cli.world), cli.oracle) && awaited && urlFound && ConnectsInTime(cancelled, connect)
    ensures started && !connected <==>
      Runs(old(cli.world), cli.oracle) && awaited && urlFound && NeverAnswered(cancelled, connect)
  {
    hide ContainerRun, ContainerClose;
    StartsConnectedOrUnanswered(cancelled, connect);
    c := new Container(cli);
    started, connected := false, false;
    label body: {
      var err := c.Run();
      if err.Some? {
        break body;
      }
      if !awaited {
        break body;
      }
      if !urlFound {
        break body;
      }
      for i := 0 to 30
        invariant !connected && forall j: nat :: j < i ==> !connect(j) && !cancelled(j)
      {
        if connect(i) {
          connected := true;
          break;
        }
        if cancelled(i) {
          break body;
        }
      }
      started := true;
    }
    if !started {
      NothingLeft(old(cli.world), cli.oracle);
      var _ := c.Close();
    }
  }

  method NewKafka(cli: Docker, awaited: bool) returns (c: Container, started: bool)
    modifies cli
    ensures fresh(c) && Guarded(cli, c, started)
    ensures !started && Sane(old(cli.world)) && Obedient(cli.oracle) ==> cli.world.facts == old(cli.world.facts)
    ensures started <==> Runs(old(cli.world), cli.oracle) && awaited
  {
    hide ContainerRun, ContainerClose;
    c := new Container(cli);
    started := false;
    label body: {
      var err := c.Run();
      if err.Some? {
        break body;
      }
      if !awaited {
        break body;
      }
      started := true;
    }
    if !started {
      NothingLeft(old(cli.world), cli.oracle);
      var _ := c.Close();
    }
  }

  lemma NothingLeft(w: World, o: Oracle)
    ensures Sane(w) && Obedient(o) ==>
      var (w1, ctr, _) := ContainerRun(w, o, FRESH); ContainerClose(w1, o, ctr).0.facts == w.facts
  {
    if Sane(w) && Obedient(o) {
      FailedStartLeavesNothing(w, o);
    }
  }

  /** Wherever a start fails, one close leaves the daemon as it was, if what exists can be removed. */
  lemma FailedStartLeavesNothing(w: World, o: Oracle)
    requires Sane(w) && Obedient(o)
    ensures var (w1, ctr, _) := ContainerRun(w, o, FRESH); ContainerClose(w1, o, ctr).0.facts == w.facts
  {
    hide ContainerRun, ContainerClose, FailedOn;
    var (w1, ctr, _) := ContainerRun(w, o, FRESH);
    ContainerRunEffect(w, o, FRESH);
    ContainerCloseEffect(w1, o, ctr);
    var w2 := ContainerClose(w1, o, ctr).0;
    if ctr != FRESH {
      AddedThenRemoved(w.facts, w1.facts, w2.facts, w.next);
    } else {
      assert w2.facts.containers == w.facts.containers;
    }
  }

  lemma AddedThenRemoved(f: Facts, g: Facts, h: Facts, id: Id)
    requires Adds(f, g, id, 0) && Removes(g, h, id)
    requires forall l :: l in f.links ==> l.1 in f.containers
    ensures h == f
  {
    assert h.containers.Keys == f.containers.Keys;
    assert h.links == f.links;
  }

  /** The container of a wrapper comes up if and only if the daemon honours these four calls, made in this order. */
  lemma RunsExactly(w: World, o: Oracle)
    ensures Runs(w, o) <==>
      && o(ImagePull, |w.trace|) && o(Configure, |w.trace| + 1) && o(ContainerCreate, |w.trace| + 2)
      && o(ContainerStart(w.next), |w.trace| + 3)
  {
  }

  /** A successful start makes these four calls and no other, adds one running container and changes nothing else. */
  lemma StartedRuns(w: World, o: Oracle)
    requires Runs(w, o)
    ensures var (w1, ctr, _) := ContainerRun(w, o, FRESH);
      && LifecycleProofs.Follows(w, w1, None, [ImagePull, Configure, ContainerCreate, ContainerStart(w.next)])
      && ctr == Ctr(w.next, 0) && w1.next == w.next + 1
      && w1.facts == w.facts.(containers := w.facts.containers[w.next := Running])
  {
    hide ContainerRun, LifecycleProofs.Follows;
    LifecycleProofs.ContainerRunFollows(w, o, FRESH);
    assert LifecycleProofs.ContainerPlan(0, w.next) == [ImagePull, Configure, ContainerCreate, ContainerStart(w.next)];
    assert w.facts.links + {} == w.facts.links;
  }
}
