/** What a container's port table and options become in the daemon's configuration (ports.go, container.go). */
module HostConfigs {
  import opened Ports

  datatype ContainerOption = WithPrivileged | WithTmpfs(tmpfs: map<string, string>) | WithBinds(binds: seq<string>)

  datatype HostConfig = HostConfig(
    networkMode: string,
    portBindings: map<string, seq<Binding>>,
    privileged: bool,
    tmpfs: map<string, string>,
    binds: seq<string>)

  function Apply(hc: HostConfig, opt: ContainerOption): HostConfig {
    match opt
    case WithPrivileged => hc.(privileged := true)
    case WithTmpfs(m) => hc.(tmpfs := m)
    case WithBinds(b) => hc.(binds := b)
  }

  /** The argument of the last `WithTmpfs`, if any. */
  function LastTmpfs(opts: seq<ContainerOption>): map<string, string> {
    if opts == [] then map[]
    else if opts[|opts| - 1].WithTmpfs? then opts[|opts| - 1].tmpfs else LastTmpfs(opts[..|opts| - 1])
  }

  function LastBinds(opts: seq<ContainerOption>): seq<string> {
    if opts == [] then []
    else if opts[|opts| - 1].WithBinds? then opts[|opts| - 1].binds else LastBinds(opts[..|opts| - 1])
  }

  /** The keys that have bindings, with all of them, in order. */
  function Bound(bindings: map<string, seq<Binding>>): map<string, seq<Binding>> {
    map k | k in bindings && bindings[k] != [] :: bindings[k]
  }

  /** Copies the bindings key by key, in whatever order the map is walked. */
  method PortMap(bindings: map<string, seq<Binding>>) returns (pm: map<string, seq<Binding>>)
    ensures pm == Bound(bindings)
  {
    pm := map[];
    var todo := bindings.Keys;
    while todo != {}
      invariant todo <= bindings.Keys
      invariant forall k :: k in pm <==> k in bindings && k !in todo && bindings[k] != []
      invariant forall k :: k in pm ==> pm[k] == bindings[k]
      decreases |todo|
    {
      var k :| k in todo;
      var v := bindings[k];
      ghost var before := pm;
      for i := 0 to |v|
        invariant i == 0 ==> pm == before
        invariant i > 0 ==> pm == before[k := v[..i]]
      {
        pm := pm[k := (if k in pm then pm[k] else []) + [v[i]]];
        assert v[..i + 1] == v[..i] + [v[i]];
      }
      assert v[..|v|] == v;
      todo := todo - {k};
    }
  }

  /** Option `k` is the last of its kind. */
  ghost predicate LastTmpfsAt(opts: seq<ContainerOption>, k: nat) {
    k < |opts| && opts[k].WithTmpfs? && forall j :: k < j < |opts| ==> !opts[j].WithTmpfs?
  }

  ghost predicate LastBindsAt(opts: seq<ContainerOption>, k: nat) {
    k < |opts| && opts[k].WithBinds? && forall j :: k < j < |opts| ==> !opts[j].WithBinds?
  }

  lemma {:induction false} LastOptions(opts: seq<ContainerOption>)
    ensures (forall o :: o in opts ==> !o.WithTmpfs?) ==> LastTmpfs(opts) == map[]
    ensures (forall o :: o in opts ==> !o.WithBinds?) ==> LastBinds(opts) == []
    ensures forall k: nat :: LastTmpfsAt(opts, k) ==> LastTmpfs(opts) == opts[k].tmpfs
    ensures forall k: nat :: LastBindsAt(opts, k) ==> LastBinds(opts) == opts[k].binds
  {
    if opts != [] {
      var init, last := opts[..|opts| - 1], opts[|opts| - 1];
      assert last in opts;
      LastOptions(init);
      assert forall k: nat :: LastTmpfsAt(opts, k) && k < |init| ==> LastTmpfsAt(init, k);
      assert forall k: nat :: LastBindsAt(opts, k) && k < |init| ==> LastBindsAt(init, k);
    }
  }

  method NewHostConfig(bindings: map<string, seq<Binding>>, opts: seq<ContainerOption>) returns (hc: HostConfig)
    ensures hc.portBindings == Bound(bindings) && hc.networkMode == "default"
    ensures hc.privileged <==> WithPrivileged in opts
    ensures (forall o :: o in opts ==> !o.WithTmpfs?) ==> hc.tmpfs == map[]
    ensures (forall o :: o in opts ==> !o.WithBinds?) ==> hc.binds == []
    ensures forall k: nat :: LastTmpfsAt(opts, k) ==> hc.tmpfs == opts[k].tmpfs
    ensures forall k: nat :: LastBindsAt(opts, k) ==> hc.binds == opts[k].binds
  {
    LastOptions(opts);
    var pm := PortMap(bindings);
    hc := HostConfig("default", pm, false, map[], []);
    for i := 0 to |opts|
      invariant hc.portBindings == pm && hc.networkMode == "default"
      invariant hc.privileged <==> WithPrivileged in opts[..i]
      invariant hc.tmpfs == LastTmpfs(opts[..i]) && hc.binds == LastBinds(opts[..i])
    {
      assert opts[..i + 1] == opts[..i] + [opts[i]];
      hc := Apply(hc, opts[i]);
    }
    assert opts[..|opts|] == opts;
  }

  /** The keys to expose, in whatever order the map is walked. */
  method PortSet(bindings: map<string, seq<Binding>>) returns (ps: set<string>)
    ensures ps == bindings.Keys
  {
    ps := {};
    var todo := bindings.Keys;
    while todo != {}
      invariant todo <= bindings.Keys && ps == bindings.Keys - todo
      decreases |todo|
    {
      var b :| b in todo;
      ps := ps + {b};
      todo := todo - {b};
    }
  }

  /** For every table that declarations can build, the port map is the whole table, so that what is bound on the
      host is exactly what the container exposes. */
  lemma BoundIsExposed(ds: seq<Declaration>)
    ensures Bound(TableOf(ds).bindings) == TableOf(ds).bindings
  {
    forall k | k in TableOf(ds).bindings ensures TableOf(ds).bindings[k] != [] {
      TableShape(ds, k);
    }
  }
}
