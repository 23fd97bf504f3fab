/** The results about groups, carried over to the objects: a test runs a group and closes it, come what may. */
module GroupUse {
  import GoStrings
  import Daemon
  import Lifecycle
  import ConservationProofs
  import GroupTheorems
  import opened Objects

  /** A group over distinct, new container objects, before its first run. */
  ghost predicate Fresh(g: Group)
    reads g, g.cli, g.Containers()
  {
    && g.SameClient() && g.networkID == 0 && Daemon.Sane(g.cli.world)
    && (forall i, j :: 0 <= i < j < |g.apps| ==> g.apps[i].container != g.apps[j].container)
    && forall a :: a in g.apps ==> a.container.containerID == 0
  }

  lemma FreshIsReady(g: Group)
    requires Fresh(g)
    ensures GroupTheorems.Ready(g.cli.world, g.networkID, g.Apps(), g.Store())
  {
    var apps, store := g.Apps(), g.Store();
    forall k | k in store ensures store[k].id == 0 && exists j :: 0 <= j < |apps| && apps[j].key == k {
      var a :| a in g.apps && a.container == k;
      var j :| 0 <= j < |g.apps| && g.apps[j] == a;
      assert apps[j].key == k;
    }
    assert forall j :: 0 <= j < |apps| ==> apps[j].key in store;
  }

  /** Whether `Run` succeeds or fails, and wherever it fails: after `Close` the daemon is exactly as before. */
  method RunAndClose(g: Group) returns (err: GoStrings.Option<Daemon.Call>, errs: seq<Daemon.Call>)
    requires Fresh(g) && ConservationProofs.Obedient(g.cli.oracle)
    modifies g, g.cli, g.Containers()
    ensures g.cli.world.facts == old(g.cli.world.facts)
  {
    ghost var w, o, net, apps, store := g.cli.world, g.cli.oracle, g.networkID, g.Apps(), g.Store();
    FreshIsReady(g);
    GroupTheorems.Conservation(w, o, net, apps, store);
    err := g.Run();
    ghost var r := Lifecycle.GroupRun(w, o, net, apps, store);
    assert g.Store() == r.store && g.networkID == r.net && g.cli.world == r.world;
    errs := g.Close();
    assert g.cli.world == GroupTheorems.RunThenClose(w, o, net, apps, store);
  }
}
