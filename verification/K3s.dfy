/** The k3s wrapper (k3s.go): its start guard, the kubeconfig file it writes, and what closing it again and again
    does to that file and to the container. */
module K3sWrapper {
  import opened GoStrings
  import opened Daemon
  import opened Lifecycle
  import ConservationProofs
  import opened Objects
  import StartGuard
  import Kubeconfig
  import Ports

  /** The directories and files on the test's own disk, by path. */
  datatype Disk = Disk(dirs: set<string>, files: map<string, string>)

  class FileSystem {
    var disk: Disk

    constructor (disk: Disk)
      ensures this.disk == disk
    {
      this.disk := disk;
    }
  }

  /** The file lies directly in the directory. */
  function PathIn(dir: string): (path: string)
    ensures path != "" && dir + "/" < path && '/' !in path[|dir| + 1..]
  {
    dir + "/kubeconfig.yaml"
  }

  /** `os.WriteFile` writes everything, or fails and leaves nothing or some other content. */
  datatype Write = Whole | Failed(left: Option<string>)

  function Written(d: Disk, path: string, write: Write, text: string): Disk {
    match write
    case Whole => d.(files := d.files[path := text])
    case Failed(None) => d
    case Failed(Some(left)) => d.(files := d.files[path := left])
  }

  /** `os.MkdirTemp` and what follows it, if a directory was made. */
  function DiskAfterRewrite(d: Disk, dir: Option<string>, write: Write, text: string): Disk {
    if dir.None? then d else Written(d.(dirs := d.dirs + {dir.value}), PathIn(dir.value), write, text)
  }

  // ----- closing, on values -----

  /** The file named by a recorded path is removed, if it is there and the system allows it. */
  predicate Removes(d: Disk, path: string, allowed: bool) {
    path != "" && path in d.files && allowed
  }

  /** If there is a recorded path and its file cannot be removed, the container is not closed. */
  function WrapperClose(w: World, o: Oracle, d: Disk, path: string, c: Ctr, allowed: bool): (World, Disk, bool) {
    if path != "" && !Removes(d, path, allowed) then (w, d, false)
    else
      var (w', err) := ContainerClose(w, o, c);
      (w', d.(files := d.files - if path == "" then {} else {path}), err.None?)
  }

  /** One close after the other; whether the system allows a removal is given for each. */
  function WrapperCloses(w: World, o: Oracle, d: Disk, path: string, c: Ctr, allowed: seq<bool>):
      (World, Disk, seq<bool>)
    decreases |allowed|
  {
    if allowed == [] then (w, d, [])
    else
      var (w1, d1, ok) := WrapperClose(w, o, d, path, c, allowed[0]);
      var (w2, d2, oks) := WrapperCloses(w1, o, d1, path, c, allowed[1..]);
      (w2, d2, [ok] + oks)
  }

  // ----- the object -----

  class K3s {
    const c: Container
    const fs: FileSystem
    var kubeconfigData: string
    /** Empty until a kubeconfig has been written; never cleared. */
    var kubeconfigPath: string

    constructor (c: Container, fs: FileSystem, kubeconfigData: string)
      ensures this.c == c && this.fs == fs && this.kubeconfigData == kubeconfigData && kubeconfigPath == ""
    {
      this.c, this.fs, this.kubeconfigData := c, fs, kubeconfigData;
      kubeconfigPath := "";
    }

    /** The path is recorded exactly when every step succeeded; what a failed write left behind stays there. */
    method RewriteKubeconfig(url: Option<Ports.HostPort>, dir: Option<string>, write: Write) returns (ok: bool)
      modifies this`kubeconfigPath, fs
      ensures ok <==> url.Some? && dir.Some? && write.Whole?
      ensures kubeconfigPath == if ok then PathIn(dir.value) else old(kubeconfigPath)
      ensures fs.disk == if url.None? then old(fs.disk)
                         else DiskAfterRewrite(old(fs.disk), dir, write, Kubeconfig.Rewrite(kubeconfigData, url.value))
      ensures url.Some? && dir.Some? ==> fs.disk.dirs == old(fs.disk.dirs) + {dir.value}
      ensures ok ==> kubeconfigPath in fs.disk.files
                     && fs.disk.files[kubeconfigPath] == Kubeconfig.Rewrite(kubeconfigData, url.value)
    {
      if url.None? {
        return false;
      }
      var serverAddr := Kubeconfig.ServerAddr(url.value);
      var rewritten := ReplaceAll(kubeconfigData, Kubeconfig.LOOPBACK, serverAddr);
      rewritten := ReplaceAll(rewritten, Kubeconfig.LOCALHOST, serverAddr);
      if dir.None? {
        return false;
      }
      fs.disk := fs.disk.(dirs := fs.disk.dirs + {dir.value});
      fs.disk := Written(fs.disk, PathIn(dir.value), write, rewritten);
      if !write.Whole? {
        return false;
      }
      kubeconfigPath := PathIn(dir.value);
      return true;
    }

    /** Only the file goes; its directory and the recorded path stay. */
    method Close(allowed: bool) returns (ok: bool)
      modifies c`closes, c.cli, fs
      ensures (c.cli.world, fs.disk, ok) == WrapperClose(old(c.cli.world), c.cli.oracle, old(fs.disk), kubeconfigPath,
                                                         old(c.State()), allowed)
      ensures ok <==> (kubeconfigPath == "" || Removes(old(fs.disk), kubeconfigPath, allowed))
                      && ContainerClose(old(c.cli.world), c.cli.oracle, old(c.State())).1 == None
      ensures c.closes == old(c.closes)
                          + if kubeconfigPath == "" || Removes(old(fs.disk), kubeconfigPath, allowed) then 1 else 0
      ensures c.State() == old(c.State())
    {
      if kubeconfigPath != "" {
        if kubeconfigPath !in fs.disk.files || !allowed {
          return false;
        }
        fs.disk := fs.disk.(files := fs.disk.files - {kubeconfigPath});
      } else {
        assert fs.disk.files - {} == fs.disk.files;
      }
      var err := c.Close();
      return err.None?;
    }
  }

  /** The steps that can fail before anything is written: the container's run, the wait, the reading of the kubeconfig
      inside the container, and the lookup of its address. */
  ghost predicate ReachesRewrite(w: World, o: Oracle, awaited: bool, data: Option<string>,
        url: Option<Ports.HostPort>)
  {
    StartGuard.Runs(w, o) && awaited && data.Some? && url.Some?
  }

  /** Without a daemon client there is not even a container. */
  method NewK3s(cli: Docker, fs: FileSystem, clientMade: bool, awaited: bool, data: Option<string>,
        url: Option<Ports.HostPort>, dir: Option<string>, write: Write)
      returns (c: Container?, k: K3s?, started: bool)
    modifies cli, fs
    ensures c != null <==> clientMade
    ensures c != null ==> fresh(c) && StartGuard.Guarded(cli, c, started)
    ensures c == null ==> !started && cli.world == old(cli.world) && fs.disk == old(fs.disk)
    ensures !started && Sane(old(cli.world)) && ConservationProofs.Obedient(cli.oracle) ==>
      cli.world.facts == old(cli.world.facts)
    ensures started <==> clientMade && ReachesRewrite(old(cli.world), cli.oracle, awaited, data, url)
                         && dir.Some? && write.Whole?
    ensures started <==> k != null
    ensures k != null ==> fresh(k) && k.c == c && k.fs == fs && k.kubeconfigPath == PathIn(dir.value)
    ensures fs.disk ==
            if clientMade && ReachesRewrite(old(cli.world), cli.oracle, awaited, data, url)
            then DiskAfterRewrite(old(fs.disk), dir, write, Kubeconfig.Rewrite(data.value, url.value)) else old(fs.disk)
  {
    hide ContainerRun, ContainerClose;
    c, k, started := null, null, false;
    if !clientMade {
      return;
    }
    var made := new Container(cli);
    c := made;
    label body: {
      var err := made.Run();
      if err.Some? {
        break body;
      }
      if !awaited {
        break body;
      }
      if data.None? {
        break body;
      }
      var wrapper := new K3s(made, fs, data.value);
      var ok := wrapper.RewriteKubeconfig(url, dir, write);
      if !ok {
        break body;
      }
      started := true;
      k := wrapper;
    }
    if !started {
      StartGuard.NothingLeft(old(cli.world), cli.oracle);
      var _ := made.Close();
    }
  }

  // ----- closing more than once -----

  /** Once the file is gone, closing always fails, and never gets as far as the container. */
  lemma {:induction false} ClosesInVain(w: World, o: Oracle, d: Disk, path: string, c: Ctr, allowed: seq<bool>)
    requires path != "" && path !in d.files
    ensures WrapperCloses(w, o, d, path, c, allowed) == (w, d, seq(|allowed|, _ => false))
  {
    if allowed != [] {
      ClosesInVain(w, o, d, path, c, allowed[1..]);
      assert [false] + seq(|allowed| - 1, _ => false) == seq(|allowed|, _ => false);
    } else {
      assert seq(0, _ => false) == [];
    }
  }

  /** However often one closes: no directory is removed, and of the files at most the recorded one. */
  lemma {:induction false} ClosesKeepTheRest(w: World, o: Oracle, d: Disk, path: string, c: Ctr, allowed: seq<bool>)
    ensures var d' := WrapperCloses(w, o, d, path, c, allowed).1;
      && d'.dirs == d.dirs
      && forall p :: p != path ==> (p in d'.files <==> p in d.files) && (p in d.files ==> d'.files[p] == d.files[p])
    decreases |allowed|
  {
    hide ContainerClose;
    if allowed != [] {
      var (w1, d1, ok) := WrapperClose(w, o, d, path, c, allowed[0]);
      ClosesKeepTheRest(w1, o, d1, path, c, allowed[1..]);
    }
  }

  /** The first close of a started wrapper that gets past the file decides: if it could not remove the container, no
      later close will, however often it is tried, and all of them fail. */
  lemma FailedStopIsFinal(w: World, o: Oracle, d: Disk, path: string, c: Ctr, allowed: seq<bool>)
    requires Sane(w) && c.id in w.facts.containers && Removes(d, path, true)
    ensures var (w1, d1, ok) := WrapperClose(w, o, d, path, c, true);
      var (w2, d2, oks) := WrapperCloses(w1, o, d1, path, c, allowed);
      && (forall k :: 0 <= k < |oks| ==> !oks[k])
      && w2 == w1 && (c.id in w2.facts.containers <==> !ok) && (ok <==> Honoured(w, o, c.id))
  {
    var (w1, d1, ok) := WrapperClose(w, o, d, path, c, true);
    ClosesInVain(w1, o, d1, path, c, allowed);
    RemovedIffClosed(w, o, c);
  }

  /** The daemon honours the stop and the removal that a close would ask for now. */
  predicate Honoured(w: World, o: Oracle, id: Id) {
    o(ContainerStop(id), |w.trace|) && o(ContainerRemove(id), |w.trace| + 1)
  }

  lemma RemovedIffClosed(w: World, o: Oracle, c: Ctr)
    requires Sane(w) && c.id in w.facts.containers
    ensures var (w', err) := ContainerClose(w, o, c);
      (c.id in w'.facts.containers <==> err.Some?) && (err.None? <==> Honoured(w, o, c.id))
  {
  }

  /** For any number of closes: once the file has been there, the container is removed if and only if the first close
      that may remove the file finds the daemon willing; before that nothing happens at all. */
  lemma {:induction false} ClosedExactly(w: World, o: Oracle, d: Disk, path: string, c: Ctr, allowed: seq<bool>)
    requires Sane(w) && c.id in w.facts.containers && path != "" && path in d.files
    ensures var w' := WrapperCloses(w, o, d, path, c, allowed).0;
      c.id !in w'.facts.containers <==> true in allowed && Honoured(w, o, c.id)
  {
    if allowed != [] {
      if allowed[0] {
        var (w1, d1, ok) := WrapperClose(w, o, d, path, c, true);
        ClosesInVain(w1, o, d1, path, c, allowed[1..]);
        RemovedIffClosed(w, o, c);
      } else {
        ClosedExactly(w, o, d, path, c, allowed[1..]);
        assert allowed == [allowed[0]] + allowed[1..];
      }
    }
  }

  /** A daemon that refuses only its first stop: the container of a wrapper closed four times goes on running. */
  lemma StopRefusedOnce()
    ensures var w := World(Facts({}, map[1 := Running], {}), 2, []);
      var o: Oracle := (c: Call, n: nat) => n > 0;
      var d := Disk({"/tmp/k3s"}, map[PathIn("/tmp/k3s") := "apiVersion: v1"]);
      var r := WrapperCloses(w, o, d, PathIn("/tmp/k3s"), Ctr(1, 0), [true, true, true, true]);
      r.0.facts == w.facts && r.2 == [false, false, false, false]
  {
    var w := World(Facts({}, map[1 := Running], {}), 2, []);
    var o: Oracle := (c: Call, n: nat) => n > 0;
    StopRefused(w, o, "/tmp/k3s", "apiVersion: v1", Ctr(1, 0), [true, true, true]);
  }

  lemma {:induction false} StopRefused(w: World, o: Oracle, dir: string, text: string, c: Ctr, allowed: seq<bool>)
    requires c.id != 0 && !o(ContainerStop(c.id), |w.trace|)
    ensures var d := Disk({dir}, map[PathIn(dir) := text]);
      var r := WrapperCloses(w, o, d, PathIn(dir), c, [true] + allowed);
      r.0.facts == w.facts && r.2 == seq(|allowed| + 1, _ => false)
  {
    var d := Disk({dir}, map[PathIn(dir) := text]);
    var (w1, d1, ok) := WrapperClose(w, o, d, PathIn(dir), c, true);
    assert !ok && w1.facts == w.facts && PathIn(dir) !in d1.files;
    ClosesInVain(w1, o, d1, PathIn(dir), c, allowed);
    assert ([true] + allowed)[1..] == allowed;
    assert [false] + seq(|allowed|, _ => false) == seq(|allowed| + 1, _ => false);
  }
}
