/** `split_test_groups`: import paths in, groups of `go test` patterns out. The methods follow the
    program's loops; each is tied to a simple function, about which SplitterProofs states the results. */
module Splitter {
  import opened GoStrings

  const MODULE := "github.com/teran/go-docker-testsuite"

  datatype Group = Group(name: string, packages: string, checkCoverage: bool, timeoutMinutes: int)

  datatype Entry = Entry(importPath: string, relDir: string, app: string)

  function RelPath(pkg: string): string {
    if pkg == MODULE then "." else "./" + TrimPrefix(pkg, MODULE + "/")
  }

  function AppName(rel: string): string {
    var parts := SplitN(TrimPrefix(rel, "./"), '/', 3);
    if |parts| >= 2 && parts[0] == "applications" then parts[1] else "misc"
  }

  function EntryOf(pkg: string): Entry {
    Entry(pkg, RelPath(pkg), AppName(RelPath(pkg)))
  }

  /** Directories the core group answers for. */
  predicate CoreDir(rel: string) {
    rel == "." || "./internal/" <= rel
  }

  // ----- the simple group-by: recursion on the last element follows the loops -----

  function Rest(es: seq<Entry>): seq<Entry> {
    if es == [] then []
    else Rest(es[..|es| - 1]) + if CoreDir(es[|es| - 1].relDir) then [] else [es[|es| - 1]]
  }

  /** Application names in the order they first appear. */
  function Names(es: seq<Entry>): seq<string> {
    if es == [] then []
    else
      var before := Names(es[..|es| - 1]);
      if es[|es| - 1].app in before then before else before + [es[|es| - 1].app]
  }

  /** The directories of one application, in order. */
  function DirsOf(es: seq<Entry>, app: string): seq<string> {
    if es == [] then []
    else DirsOf(es[..|es| - 1], app) + if es[|es| - 1].app == app then [es[|es| - 1].relDir] else []
  }

  // ----- collapse -----

  function Segments(dir: string): seq<string> {
    Split(TrimPrefix(dir, "./"), '/')
  }

  /** Three segments or more: what the program takes for a version sub-package. */
  predicate Deep(dir: string) {
    |Segments(dir)| >= 3
  }

  /** The first two segments, e.g. `applications/postgres`. */
  function AppPath(dir: string): string
    requires Deep(dir)
  {
    Segments(dir)[0] + "/" + Segments(dir)[1]
  }

  function Home(dir: string): string
    requires Deep(dir)
  {
    "./" + AppPath(dir)
  }

  function DeepDirs(dirs: seq<string>): (deep: seq<string>)
    ensures forall d :: d in deep <==> d in dirs && Deep(d)
  {
    if dirs == [] then []
    else
      assert dirs == dirs[..|dirs| - 1] + [dirs[|dirs| - 1]];
      DeepDirs(dirs[..|dirs| - 1]) + if Deep(dirs[|dirs| - 1]) then [dirs[|dirs| - 1]] else []
  }

  predicate SameHome(dirs: seq<string>) {
    forall d, e :: d in dirs && e in dirs && Deep(d) && Deep(e) ==> AppPath(d) == AppPath(e)
  }

  /** At least three directories, two of them deep, and all deep ones with the same home. */
  predicate Rewritable(dirs: seq<string>) {
    |dirs| >= 3 && |DeepDirs(dirs)| >= 2 && SameHome(dirs)
  }

  function Parent(dirs: seq<string>): string
    requires Rewritable(dirs)
  {
    Home(DeepDirs(dirs)[0])
  }

  function Collapsed(dirs: seq<string>): seq<string> {
    if Rewritable(dirs) then
      (if Parent(dirs) in dirs then [Parent(dirs)] else []) + [Parent(dirs) + "/versions/..."]
    else dirs
  }

  method CommonParent(dirs: seq<string>) returns (parent: string)
    ensures parent != "" <==> |DeepDirs(dirs)| >= 2 && SameHome(dirs)
    ensures parent != "" ==> forall d :: d in dirs && Deep(d) ==> parent == Home(d)
  {
    var subDirs := VersionDirs(dirs);
    if |subDirs| < 2 {
      return "";
    }
    var app := AppPath(subDirs[0]);
    for i := 1 to |subDirs|
      invariant forall k :: 0 <= k < i ==> AppPath(subDirs[k]) == app
    {
      if AppPath(subDirs[i]) != app {
        assert subDirs[0] in subDirs && subDirs[i] in subDirs;
        return "";
      }
    }
    forall d | d in dirs && Deep(d) ensures AppPath(d) == app {
      assert d in DeepDirs(dirs);
    }
    return "./" + app;
  }

  method VersionDirs(dirs: seq<string>) returns (subDirs: seq<string>)
    ensures subDirs == DeepDirs(dirs)
  {
    subDirs := [];
    for i := 0 to |dirs|
      invariant subDirs == DeepDirs(dirs[..i])
    {
      assert dirs[..i + 1][..i] == dirs[..i];
      var parts := Split(TrimPrefix(dirs[i], "./"), '/');
      if |parts| >= 3 {
        subDirs := subDirs + [dirs[i]];
      }
    }
    assert dirs[..|dirs|] == dirs;
  }

  method Has(dirs: seq<string>, dir: string) returns (found: bool)
    ensures found <==> dir in dirs
  {
    found := false;
    for i := 0 to |dirs|
      invariant !found && dir !in dirs[..i]
    {
      if dirs[i] == dir {
        return true;
      }
    }
  }

  method Collapse(dirs: seq<string>) returns (result: seq<string>)
    ensures result == Collapsed(dirs)
  {
    if |dirs| <= 2 {
      return dirs;
    }
    var parent := CommonParent(dirs);
    if parent != "" {
      assert DeepDirs(dirs)[0] in DeepDirs(dirs);
      result := [];
      var hasParent := Has(dirs, parent);
      if hasParent {
        result := result + [parent];
      }
      return result + [parent + "/versions/..."];
    }
    return dirs;
  }

  // ----- the whole program -----

  function CoreGroup(): Group {
    Group("core", Join([".", "./internal/..."], ' '), true, 10)
  }

  function AppGroup(name: string, dirs: seq<string>): Group {
    Group(name, Join(Collapsed(dirs), ' '), false, 25)
  }

  function Entries(pkgs: seq<string>): seq<Entry> {
    seq(|pkgs|, i requires 0 <= i < |pkgs| => EntryOf(pkgs[i]))
  }

  predicate SortedByDir(es: seq<Entry>) {
    forall i, j :: 0 <= i < j < |es| ==> !Less(es[j].relDir, es[i].relDir)
  }

  function Insert(e: Entry, es: seq<Entry>): (r: seq<Entry>)
    requires SortedByDir(es)
    ensures SortedByDir(r) && multiset(r) == multiset{e} + multiset(es)
  {
    if es == [] || Less(e.relDir, es[0].relDir) then
      InsertFirst(e, es);
      [e] + es
    else
      var r := Insert(e, es[1..]);
      InsertLater(e, es, r);
      [es[0]] + r
  }

  lemma InsertLater(e: Entry, es: seq<Entry>, r: seq<Entry>)
    requires SortedByDir(es) && es != [] && !Less(e.relDir, es[0].relDir)
    requires SortedByDir(r) && multiset(r) == multiset{e} + multiset(es[1..])
    ensures SortedByDir([es[0]] + r) && multiset([es[0]] + r) == multiset{e} + multiset(es)
  {
    assert es == [es[0]] + es[1..];
    forall j | 0 <= j < |r| ensures !Less(r[j].relDir, es[0].relDir) {
      assert r[j] in multiset(r);
      if r[j] != e {
        assert r[j] in es[1..];
      }
    }
  }

  lemma InsertFirst(e: Entry, es: seq<Entry>)
    requires SortedByDir(es) && (es == [] || Less(e.relDir, es[0].relDir))
    ensures SortedByDir([e] + es)
  {
    forall j | 0 <= j < |es| ensures !Less(es[j].relDir, e.relDir) {
      LessTotal(e.relDir, es[0].relDir);
      LessTotal(e.relDir, es[j].relDir);
      if Less(es[j].relDir, e.relDir) {
        LessTransitive(es[j].relDir, e.relDir, es[0].relDir);
      }
    }
  }

  /** `sort.Slice` by relative directory. */
  function SortByDir(es: seq<Entry>): (r: seq<Entry>)
    ensures SortedByDir(r) && multiset(r) == multiset(es)
  {
    if es == [] then []
    else
      assert es == [es[0]] + es[1..];
      Insert(es[0], SortByDir(es[1..]))
  }

  function AppGroups(rest: seq<Entry>, names: seq<string>): seq<Group> {
    seq(|names|, i requires 0 <= i < |names| => AppGroup(names[i], DirsOf(rest, names[i])))
  }

  /** The groups for a list of entries: core first, then one per application. */
  function GroupsFor(es: seq<Entry>): seq<Group> {
    [CoreGroup()] + AppGroups(Rest(es), Names(Rest(es)))
  }

  /** What the program computes, without its index map and shared buckets. */
  function MatrixOf(pkgs: seq<string>): seq<Group> {
    GroupsFor(SortByDir(Entries(pkgs)))
  }

  class Bucket {
    const name: string
    var dirs: seq<string>

    constructor (name: string)
      ensures this.name == name && dirs == []
    {
      this.name := name;
      dirs := [];
    }
  }

  /** The list and the map hold the same bucket objects, one per name, each with that name's directories. */
  ghost predicate Grouped(names: seq<string>, es: seq<Entry>, buckets: seq<Bucket>, index: map<string, Bucket>)
    reads buckets
  {
    && |buckets| == |names|
    && (forall i :: 0 <= i < |buckets| ==> buckets[i].name == names[i] && buckets[i].dirs == DirsOf(es, names[i]))
    && (forall name :: name in index <==> name in names)
    && (forall i :: 0 <= i < |buckets| ==> index[names[i]] == buckets[i])
  }

  lemma {:induction false} NamesDistinct(es: seq<Entry>)
    ensures forall i, j :: 0 <= i < j < |Names(es)| ==> Names(es)[i] != Names(es)[j]
  {
    if es != [] {
      NamesDistinct(es[..|es| - 1]);
    }
  }

  lemma {:induction false} DirsOfAbsent(es: seq<Entry>, name: string)
    requires name !in Names(es)
    ensures DirsOf(es, name) == []
  {
    if es != [] {
      DirsOfAbsent(es[..|es| - 1], name);
    }
  }

  /** The bucket for `app`, added to the list and the map when it is not there yet. */
  method FindOrAdd(ghost es: seq<Entry>, app: string, buckets: seq<Bucket>, index: map<string, Bucket>)
    returns (b: Bucket, buckets': seq<Bucket>, index': map<string, Bucket>)
    requires Grouped(Names(es), es, buckets, index)
    ensures forall e: Entry :: e.app == app ==> Grouped(Names(es + [e]), es, buckets', index')
    ensures app in index' && index'[app] == b && b in buckets'
    ensures forall x :: x in buckets' ==> x in buckets || fresh(x)
  {
    assert forall e: Entry :: (es + [e])[..|es|] == es;
    if app !in index {
      DirsOfAbsent(es, app);
      b := new Bucket(app);
      return b, buckets + [b], index[app := b];
    }
    return index[app], buckets, index;
  }

  method Append(ghost es: seq<Entry>, e: Entry, b: Bucket, ghost buckets: seq<Bucket>, ghost index: map<string, Bucket>)
    requires Grouped(Names(es + [e]), es, buckets, index) && e.app in index && index[e.app] == b
    modifies b
    ensures Grouped(Names(es + [e]), es + [e], buckets, index)
  {
    NamesDistinct(es + [e]);
    assert (es + [e])[..|es|] == es;
    b.dirs := b.dirs + [e.relDir];
  }

  method GroupByApp(rest: seq<Entry>) returns (appBuckets: seq<Bucket>, appIndex: map<string, Bucket>)
    ensures Grouped(Names(rest), rest, appBuckets, appIndex)
    ensures forall k :: 0 <= k < |appBuckets| ==> fresh(appBuckets[k])
  {
    appBuckets, appIndex := [], map[];
    for i := 0 to |rest|
      invariant Grouped(Names(rest[..i]), rest[..i], appBuckets, appIndex)
      invariant forall b :: b in appBuckets ==> fresh(b)
    {
      var b;
      b, appBuckets, appIndex := FindOrAdd(rest[..i], rest[i].app, appBuckets, appIndex);
      assert rest[..i + 1] == rest[..i] + [rest[i]];
      Append(rest[..i], rest[i], b, appBuckets, appIndex);
    }
    assert rest[..|rest|] == rest;
    forall k | 0 <= k < |appBuckets| ensures fresh(appBuckets[k]) {
      assert appBuckets[k] in appBuckets;
    }
  }

  method Categorise(allPkgs: seq<string>) returns (entries: seq<Entry>)
    ensures entries == Entries(allPkgs)
  {
    hide RelPath, AppName;
    entries := [];
    for i := 0 to |allPkgs|
      invariant entries == Entries(allPkgs)[..i]
    {
      var rel := RelPath(allPkgs[i]);
      entries := entries + [Entry(allPkgs[i], rel, AppName(rel))];
    }
  }

  method DropCore(entries: seq<Entry>) returns (rest: seq<Entry>)
    ensures rest == Rest(entries)
  {
    rest := [];
    for i := 0 to |entries|
      invariant rest == Rest(entries[..i])
    {
      assert entries[..i + 1][..i] == entries[..i];
      if CoreDir(entries[i].relDir) {
        continue;
      }
      rest := rest + [entries[i]];
    }
    assert entries[..|entries|] == entries;
  }

  /** Collapses every bucket in place. */
  method CollapseBuckets(appBuckets: seq<Bucket>, ghost dirs: seq<seq<string>>)
    requires forall i, j :: 0 <= i < j < |appBuckets| ==> appBuckets[i] != appBuckets[j]
    requires |dirs| == |appBuckets| && forall k :: 0 <= k < |dirs| ==> appBuckets[k].dirs == dirs[k]
    modifies appBuckets
    ensures forall k :: 0 <= k < |dirs| ==> appBuckets[k].dirs == Collapsed(dirs[k])
  {
    hide Collapsed;
    for i := 0 to |appBuckets|
      invariant forall k :: 0 <= k < i ==> appBuckets[k].dirs == Collapsed(dirs[k])
      invariant forall k :: i <= k < |appBuckets| ==> appBuckets[k].dirs == dirs[k]
    {
      var collapsed := Collapse(appBuckets[i].dirs);
      appBuckets[i].dirs := collapsed;
    }
  }

  method Assemble(appBuckets: seq<Bucket>, ghost dirs: seq<seq<string>>) returns (groups: seq<Group>)
    requires |dirs| == |appBuckets| && forall k :: 0 <= k < |dirs| ==> appBuckets[k].dirs == Collapsed(dirs[k])
    ensures |groups| == |dirs| + 1 && groups[0] == CoreGroup()
    ensures forall k :: 0 <= k < |dirs| ==> groups[1..][k] == AppGroup(appBuckets[k].name, dirs[k])
  {
    groups := [CoreGroup()];
    for i := 0 to |appBuckets|
      invariant |groups| == i + 1 && groups[0] == CoreGroup()
      invariant forall k :: 0 <= k < i ==> groups[1..][k] == AppGroup(appBuckets[k].name, dirs[k])
    {
      var b := appBuckets[i];
      groups := groups + [Group(b.name, Join(b.dirs, ' '), false, 25)];
    }
  }

  method BuildMatrix(allPkgs: seq<string>) returns (groups: seq<Group>)
    ensures groups == MatrixOf(allPkgs)
  {
    var entries := Categorise(allPkgs);
    entries := SortByDir(entries);
    groups := BuildGroups(entries);
  }

  method BuildGroups(entries: seq<Entry>) returns (groups: seq<Group>)
    ensures groups == GroupsFor(entries)
  {
    var rest := DropCore(entries);
    var appBuckets, appIndex := GroupByApp(rest);
    ghost var names := Names(rest);
    ghost var dirs := seq(|names|, k requires 0 <= k < |names| => DirsOf(rest, names[k]));
    NamesDistinct(rest);
    assert forall k :: 0 <= k < |names| ==> appBuckets[k].name == names[k] && appBuckets[k].dirs == dirs[k];
    CollapseBuckets(appBuckets, dirs);
    groups := Assemble(appBuckets, dirs);
    FirstAndRest(groups, CoreGroup(), AppGroups(rest, names));
  }

  lemma FirstAndRest<T>(xs: seq<T>, first: T, rest: seq<T>)
    requires |xs| == |rest| + 1 && xs[0] == first && forall k :: 0 <= k < |rest| ==> xs[1..][k] == rest[k]
    ensures xs == [first] + rest
  {
    assert xs == [xs[0]] + xs[1..];
    assert xs[1..] == rest;
  }
}
