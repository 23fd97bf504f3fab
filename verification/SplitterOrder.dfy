/** The order in which the matrix lists its groups and their packages, and what it lists. */
module SplitterOrder {
  import opened GoStrings
  import opened Patterns
  import opened Splitter
  import opened SplitterProofs

  /** `a` does not come after `b`. */
  ghost predicate AtMost(a: string, b: string) {
    a == b || Before(a, b)
  }

  lemma NotLess(a: string, b: string)
    ensures !Less(b, a) <==> AtMost(a, b)
    ensures !(Before(a, b) && a == b)
  {
    LessTotal(a, b);
    LessIsBefore(a, b);
    LessIsBefore(b, a);
  }

  ghost predicate Upwards(list: seq<string>) {
    forall i, k :: 0 <= i < k < |list| ==> AtMost(list[i], list[k])
  }

  ghost predicate StrictlyUpwards(list: seq<string>) {
    forall i, k :: 0 <= i < k < |list| ==> Before(list[i], list[k])
  }

  // ----- the group-by keeps the order -----

  lemma {:induction false} RestSorted(es: seq<Entry>)
    requires SortedByDir(es)
    ensures SortedByDir(Rest(es))
  {
    if es != [] {
      var init, e := es[..|es| - 1], es[|es| - 1];
      RestSorted(init);
      forall f | f in Rest(init) ensures !Less(e.relDir, f.relDir) {
        RestMembers(init, f);
      }
    }
  }

  lemma {:induction false} DirsUpwards(es: seq<Entry>, app: string)
    requires SortedByDir(es)
    ensures Upwards(DirsOf(es, app))
  {
    hide AtMost;
    if es != [] {
      var init, e := es[..|es| - 1], es[|es| - 1];
      var before := DirsOf(init, app);
      DirsUpwards(init, app);
      forall i | 0 <= i < |before| ensures AtMost(before[i], e.relDir) {
        DirsOfMembers(init, app, before[i]);
        NotLess(before[i], e.relDir);
      }
    }
  }

  lemma ParentBeforeVersions(parent: string)
    ensures Before(parent, parent + "/versions/...")
  {
    var v := "/versions/...";
    assert |v| > 0 && (parent + v)[..|parent|] == parent == parent[..|parent|];
    assert PartsAt(parent, parent + v, |parent|);
  }

  lemma CollapsedUpwards(dirs: seq<string>)
    requires Upwards(dirs)
    ensures Upwards(Collapsed(dirs))
  {
    hide Rewritable, Parent, Before;
    if Rewritable(dirs) {
      ParentBeforeVersions(Parent(dirs));
    }
  }

  lemma CorePatterns()
    ensures Split(CoreGroup().packages, ' ') == [".", "./internal/..."]
    ensures Before(".", "./internal/...")
  {
    var dot, glob := ".", "./internal/...";
    assert ' ' !in dot && ' ' !in glob;
    SplitJoin([dot, glob], ' ');
    assert dot[..1] == glob[..1] && PartsAt(dot, glob, 1);
  }

  /** Each group's string, split again at its spaces, lists its patterns upwards. */
  lemma {:induction false} GroupsUpwards(pkgs: seq<string>, j: nat)
    requires (forall p :: p in pkgs ==> Plain(p)) && j < |MatrixOf(pkgs)|
    ensures Upwards(Split(MatrixOf(pkgs)[j].packages, ' '))
  {
    var es := SortByDir(Entries(pkgs));
    hide MatrixOf, Upwards, Plain;
    if j == 0 {
      CorePatterns();
      FirstIsCore(pkgs);
      TwoUpwards(".", "./internal/...");
    } else {
      EntriesGood(pkgs);
      GroupIs(pkgs, j);
      var app := MatrixOf(pkgs)[j].name;
      RestSorted(es);
      DirsUpwards(Rest(es), app);
      CollapsedUpwards(BucketOf(es, app));
      PatternsOf(es, app);
    }
  }

  lemma FirstIsCore(pkgs: seq<string>)
    ensures |MatrixOf(pkgs)| >= 1 && MatrixOf(pkgs)[0] == CoreGroup()
  {
  }

  lemma TwoUpwards(a: string, b: string)
    requires Before(a, b)
    ensures Upwards([a, b])
  {
  }

  /** Every later group is that of an application that has entries. */
  lemma GroupIs(pkgs: seq<string>, j: nat)
    requires 1 <= j < |MatrixOf(pkgs)|
    ensures var es := SortByDir(Entries(pkgs)); var names := Names(Rest(es)); var g := MatrixOf(pkgs)[j];
      && j <= |names| && g.name == names[j - 1]
      && g == AppGroup(g.name, BucketOf(es, g.name)) && BucketOf(es, g.name) != []
  {
    GroupAt(SortByDir(Entries(pkgs)), j);
  }

  lemma GroupName(pkgs: seq<string>, j: nat)
    requires 1 <= j < |MatrixOf(pkgs)|
    ensures var names := Names(Rest(SortByDir(Entries(pkgs))));
      j <= |names| && MatrixOf(pkgs)[j].name == names[j - 1]
  {
    hide BucketOf, Collapsed, Names, Rest, MatrixOf, Entries;
    GroupIs(pkgs, j);
  }

  lemma PatternsOf(es: seq<Entry>, app: string)
    requires Good(es) && BucketOf(es, app) != []
    ensures Split(AppGroup(app, BucketOf(es, app)).packages, ' ') == Collapsed(BucketOf(es, app))
  {
    hide Collapsed, BucketOf;
    var dirs := BucketOf(es, app);
    BucketPlain(es, app);
    CollapsedNoSpace(dirs);
    SplitJoin(Collapsed(dirs), ' ');
  }

  // ----- what a group lists -----

  /** `d` is the directory of a package of this application outside the core. */
  ghost predicate OwnDir(pkgs: seq<string>, app: string, d: string) {
    exists p :: p in pkgs && RelPath(p) == d && AppName(d) == app && !CoreDir(d)
  }

  lemma {:induction false} BucketHolds(pkgs: seq<string>, app: string, d: string)
    ensures d in BucketOf(SortByDir(Entries(pkgs)), app) <==> OwnDir(pkgs, app, d)
  {
    hide RelPath, AppName, CoreDir;
    var es := SortByDir(Entries(pkgs));
    BucketMembers(es, app, d);
    forall e: Entry ensures e in es <==> exists p :: p in pkgs && e == EntryOf(p) {
      SortedMembers(pkgs, e);
    }
    forall p | p in pkgs ensures EntryOf(p) in es {
    }
  }

  /** A group that is not rewritten lists exactly the directories of its own application. */
  lemma {:induction false} GroupHolds(pkgs: seq<string>, j: nat, d: string)
    requires (forall p :: p in pkgs ==> Plain(p)) && 1 <= j < |MatrixOf(pkgs)|
    requires !Rewritable(BucketOf(SortByDir(Entries(pkgs)), MatrixOf(pkgs)[j].name))
    ensures d in Split(MatrixOf(pkgs)[j].packages, ' ') <==> OwnDir(pkgs, MatrixOf(pkgs)[j].name, d)
  {
    var es := SortByDir(Entries(pkgs));
    hide MatrixOf, Plain, Rewritable, BucketOf, AppGroup;
    EntriesGood(pkgs);
    GroupIs(pkgs, j);
    PatternsOf(es, MatrixOf(pkgs)[j].name);
    BucketHolds(pkgs, MatrixOf(pkgs)[j].name, d);
  }

  ghost predicate DistinctDirs(es: seq<Entry>) {
    forall i, k :: 0 <= i < k < |es| ==> es[i].relDir != es[k].relDir
  }

  lemma AppendDistinct(es: seq<Entry>, e: Entry)
    requires DistinctDirs(es) && forall i :: 0 <= i < |es| ==> es[i].relDir != e.relDir
    ensures DistinctDirs(es + [e])
  {
  }

  lemma {:induction false} CountBelow(es: seq<Entry>, names: seq<string>, d: string)
    requires DistinctDirs(es)
    ensures CountIn(es, names, d) <= 1
    ensures CountIn(es, names, d) == 1 ==> exists e :: e in es && e.relDir == d
  {
    if es != [] {
      CountBelow(es[..|es| - 1], names, d);
      if CountIn(es[..|es| - 1], names, d) == 1 {
        var e :| e in es[..|es| - 1] && e.relDir == d;
        var i :| 0 <= i < |es| - 1 && es[i] == e;
        assert e in es && es[i].relDir != es[|es| - 1].relDir;
      } else {
        assert es[|es| - 1] in es;
      }
    }
  }

  lemma {:induction false} RestDistinct(es: seq<Entry>)
    requires DistinctDirs(es)
    ensures DistinctDirs(Rest(es))
  {
    if es != [] {
      var init, last := es[..|es| - 1], es[|es| - 1];
      var before := Rest(init);
      assert DistinctDirs(init);
      RestDistinct(init);
      forall i | 0 <= i < |before| ensures before[i].relDir != last.relDir {
        assert before[i] in before;
        RestMembers(init, before[i]);
        var m :| 0 <= m < |init| && init[m] == before[i];
        assert es[m] == before[i] && es[m].relDir != es[|es| - 1].relDir;
      }
      AppendDistinct(before, last);
    }
  }

  lemma OnceEach(list: seq<string>)
    requires forall d :: multiset(list)[d] <= 1
    ensures forall i, k :: 0 <= i < k < |list| ==> list[i] != list[k]
  {
    forall i, k | 0 <= i < k < |list| ensures list[i] != list[k] {
      assert list == list[..k] + [list[k]] + list[k + 1..];
      assert list[i] in list[..k];
      assert multiset(list)[list[k]] == multiset(list[..k])[list[k]] + 1 + multiset(list[k + 1..])[list[k]];
    }
  }

  lemma PairIn(s: seq<Entry>, i: nat, k: nat)
    requires i < k < |s|
    ensures multiset{s[i], s[k]} <= multiset(s)
  {
    var a, b := s[..k], s[k + 1..];
    assert s == a + [s[k]] + b && a[i] == s[i];
    assert multiset(s) == multiset(a) + multiset{s[k]} + multiset(b);
    assert s[i] in multiset(a);
  }

  lemma SortedDistinct(es: seq<Entry>)
    requires DistinctDirs(es)
    ensures DistinctDirs(SortByDir(es))
  {
    var s := SortByDir(es);
    assert multiset(s) == multiset(es);
    hide SortByDir;
    forall i, k | 0 <= i < k < |s| ensures s[i].relDir != s[k].relDir {
      PairIn(s, i, k);
      TwoPlaces(es, s[i], s[k]);
    }
  }

  lemma WithoutOne(es: seq<Entry>, i: nat)
    requires i < |es|
    ensures multiset(es) == multiset(es[..i] + es[i + 1..]) + multiset{es[i]}
  {
    assert es == es[..i] + [es[i]] + es[i + 1..];
  }

  lemma OtherPlace(es: seq<Entry>, i: nat, f: Entry) returns (k: nat)
    requires i < |es| && f in es[..i] + es[i + 1..]
    ensures k < |es| && k != i && es[k] == f
  {
    var others := es[..i] + es[i + 1..];
    var m :| 0 <= m < |others| && others[m] == f;
    k := if m < i then m else m + 1;
  }

  /** Two entries that both occur stand at different places. */
  lemma {:induction false} TwoPlaces(es: seq<Entry>, e: Entry, f: Entry)
    requires multiset{e, f} <= multiset(es)
    ensures exists i, k :: 0 <= i < |es| && 0 <= k < |es| && i != k && es[i] == e && es[k] == f
  {
    assert e in multiset(es);
    var i :| 0 <= i < |es| && es[i] == e;
    WithoutOne(es, i);
    assert multiset{e, f} == multiset{e} + multiset{f};
    assert f in multiset(es[..i] + es[i + 1..]);
    var k := OtherPlace(es, i, f);
  }

  /** With distinct directories no group lists anything twice. */
  lemma {:induction false} GroupsStrict(pkgs: seq<string>, j: nat)
    requires (forall p :: p in pkgs ==> Plain(p)) && 1 <= j < |MatrixOf(pkgs)|
    requires forall i, k :: 0 <= i < k < |pkgs| ==> RelPath(pkgs[i]) != RelPath(pkgs[k])
    ensures StrictlyUpwards(Split(MatrixOf(pkgs)[j].packages, ' '))
  {
    var es := SortByDir(Entries(pkgs));
    hide MatrixOf, Plain, RelPath, Before, Rewritable, Parent;
    EntriesGood(pkgs);
    GroupIs(pkgs, j);
    var app := MatrixOf(pkgs)[j].name;
    var dirs := BucketOf(es, app);
    PatternsOf(es, app);
    if Rewritable(dirs) {
      ParentBeforeVersions(Parent(dirs));
    } else {
      GroupsUpwards(pkgs, j);
      SortedDistinct(Entries(pkgs));
      RestDistinct(es);
      forall d ensures multiset(dirs)[d] <= 1 {
        CountDirs(Rest(es), app, d);
        CountBelow(Rest(es), [app], d);
      }
      OnceEach(dirs);
    }
  }

  // ----- the groups -----

  lemma {:induction false} FirstExists(es: seq<Entry>, name: string, k: nat) returns (a: nat)
    requires k < |es| && es[k].app == name
    ensures a <= k && FirstAt(es, name, a)
  {
    if m :| 0 <= m < k && es[m].app == name {
      a := FirstExists(es, name, m);
    } else {
      a := k;
    }
  }

  lemma {:induction false} NameHasEntry(es: seq<Entry>, i: nat) returns (k: nat)
    requires i < |Names(es)|
    ensures k < |es| && es[k].app == Names(es)[i]
  {
    NamesCover(es, Names(es)[i]);
    var e :| e in es && e.app == Names(es)[i];
    k :| 0 <= k < |es| && es[k] == e;
  }

  lemma {:induction false} EarlierName(es: seq<Entry>, i: nat, j: nat, m: nat) returns (a: nat)
    requires SortedByDir(es) && i < j < |Names(es)| && m < |es| && es[m].app == Names(es)[j]
    ensures a < m && es[a].app == Names(es)[i] && AtMost(es[a].relDir, es[m].relDir)
  {
    var k := NameHasEntry(es, i);
    a := FirstExists(es, Names(es)[i], k);
    var b := FirstExists(es, Names(es)[j], m);
    NamesInFirstAppearanceOrder(es, i, j, a, b);
    NotLess(es[a].relDir, es[m].relDir);
  }

  lemma {:induction false} EarlierDir(es: seq<Entry>, i: nat, j: nat, d: string) returns (e: string)
    requires SortedByDir(es) && i < j < |Names(es)| && d in DirsOf(es, Names(es)[j])
    ensures e in DirsOf(es, Names(es)[i]) && AtMost(e, d)
  {
    hide AtMost;
    DirsOfMembers(es, Names(es)[j], d);
    var f :| f in es && f.app == Names(es)[j] && f.relDir == d;
    var m :| 0 <= m < |es| && es[m] == f;
    var a := EarlierName(es, i, j, m);
    e := es[a].relDir;
    assert es[a] in es;
    DirsOfMembers(es, Names(es)[i], e);
  }

  /** The application has a directory that comes before `d`. */
  ghost predicate HasBefore(pkgs: seq<string>, app: string, d: string) {
    exists e :: OwnDir(pkgs, app, e) && Before(e, d)
  }

  lemma {:induction false} OwnEarlier(pkgs: seq<string>, rest: seq<Entry>, i: nat, j: nat, d: string)
    requires rest == Rest(SortByDir(Entries(pkgs))) && i < j < |Names(rest)| && OwnDir(pkgs, Names(rest)[j], d)
    ensures HasBefore(pkgs, Names(rest)[i], d)
  {
    NamesDistinct(rest);
    RestSorted(SortByDir(Entries(pkgs)));
    var x, y := Names(rest)[i], Names(rest)[j];
    assert x != y;
    hide Before, Names, DirsOf, Rest, SortByDir, Entries, RelPath, AppName;
    BucketHolds(pkgs, y, d);
    var e := EarlierDir(rest, i, j, d);
    BucketHolds(pkgs, x, e);
    assert OwnDir(pkgs, x, e) && e != d;
  }

  lemma {:induction false} LaterGroup(pkgs: seq<string>, i: nat, j: nat, d: string)
    requires 1 <= i < j < |MatrixOf(pkgs)| && OwnDir(pkgs, MatrixOf(pkgs)[j].name, d)
    ensures HasBefore(pkgs, MatrixOf(pkgs)[i].name, d)
  {
    hide *;
    GroupName(pkgs, i);
    GroupName(pkgs, j);
    OwnEarlier(pkgs, Rest(SortByDir(Entries(pkgs))), i - 1, j - 1, d);
  }

  /** The groups come in the order of their smallest directories: for every directory of a later group, the earlier
      group has a smaller one. */
  lemma {:induction false} GroupsInOrder(pkgs: seq<string>)
    ensures forall i: nat, j: nat, d :: 1 <= i < j < |MatrixOf(pkgs)| && OwnDir(pkgs, MatrixOf(pkgs)[j].name, d) ==>
      HasBefore(pkgs, MatrixOf(pkgs)[i].name, d)
  {
    hide *;
    forall i: nat, j: nat, d | 1 <= i < j < |MatrixOf(pkgs)| && OwnDir(pkgs, MatrixOf(pkgs)[j].name, d)
      ensures HasBefore(pkgs, MatrixOf(pkgs)[i].name, d)
    {
      LaterGroup(pkgs, i, j, d);
    }
  }

  /** The first group is the core's, with its two patterns; the others are those of the applications that have
      directories outside the core, one each. */
  lemma {:induction false} GroupsAre(pkgs: seq<string>, app: string)
    ensures var groups := MatrixOf(pkgs);
      && groups[0] == Group("core", ". ./internal/...", true, 10)
      && (forall j :: 1 <= j < |groups| ==> !groups[j].checkCoverage && groups[j].timeoutMinutes == 25)
      && ((exists j :: 1 <= j < |groups| && groups[j].name == app) <==> exists d :: OwnDir(pkgs, app, d))
      && (forall i, j :: 1 <= i < j < |groups| ==> groups[i].name != groups[j].name)
  {
    var es := SortByDir(Entries(pkgs));
    var names, groups := Names(Rest(es)), MatrixOf(pkgs);
    CoreIs();
    FirstIsCore(pkgs);
    hide OwnDir;
    NamesCover(Rest(es), app);
    NamesDistinct(Rest(es));
    assert |groups| == |names| + 1;
    forall j | 1 <= j < |groups| ensures groups[j].name == names[j - 1] && !groups[j].checkCoverage {
      GroupIs(pkgs, j);
    }
    if app in names {
      var k :| 0 <= k < |names| && names[k] == app;
      assert groups[k + 1].name == app;
      var e :| e in Rest(es) && e.app == app;
      DirsOfMembers(Rest(es), app, e.relDir);
      BucketHolds(pkgs, app, e.relDir);
    }
    if d :| OwnDir(pkgs, app, d) {
      BucketHolds(pkgs, app, d);
      DirsOfMembers(Rest(es), app, d);
    }
  }

  lemma CoreIs()
    ensures CoreGroup() == Group("core", ". ./internal/...", true, 10)
  {
    var dot, glob := ".", "./internal/...";
    assert [dot, glob][1..] == [glob];
    assert dot + " " + glob == ". ./internal/...";
  }

  /** `d` is the one directory of the application. */
  ghost predicate OnlyDir(pkgs: seq<string>, app: string, d: string) {
    OwnDir(pkgs, app, d) && forall e :: OwnDir(pkgs, app, e) ==> e == d
  }

  /** Of two applications with one directory each, the one with the smaller directory comes first. */
  lemma {:induction false} SmallerFirst(pkgs: seq<string>, i: nat, j: nat, d: string, e: string)
    requires 1 <= i < |MatrixOf(pkgs)| && 1 <= j < |MatrixOf(pkgs)|
    requires OnlyDir(pkgs, MatrixOf(pkgs)[i].name, d) && OnlyDir(pkgs, MatrixOf(pkgs)[j].name, e) && Before(d, e)
    ensures i < j
  {
    hide MatrixOf, OwnDir;
    NotLess(d, e);
    LessIsBefore(d, e);
    LessIsBefore(e, d);
    LessTotal(d, e);
    if j < i {
      GroupsInOrder(pkgs);
    }
  }

  lemma AppRoot(app: string)
    requires '/' !in app
    ensures IsAppDir("./applications/" + app, app) && "./" + ("applications/" + app) == "./applications/" + app
  {
    assert "./" + "applications/" == "./applications/";
  }

  lemma ApplicationPackage(p: string, app: string, d: string)
    requires '/' !in app && p == MODULE + "/" + ("applications/" + app) && d == "./applications/" + app
    ensures RelPath(p) == d && AppName(d) == app && !CoreDir(d)
  {
    hide *;
    RelPathBelow("applications/" + app);
    AppRoot(app);
    AppDirName(d, app);
  }

  lemma KafkaBeforeMysqlDirs()
    ensures Before("./applications/kafka", "./applications/mysql")
    ensures "kafka" != "mysql" && '/' !in "kafka" && '/' !in "mysql"
  {
    var a, b, root := "kafka", "mysql", "./applications/";
    assert a[0] < b[0];
    assert root + a == "./applications/kafka" && root + b == "./applications/mysql";
    assert (root + a)[..|root|] == root == (root + b)[..|root|];
    assert PartsAt(root + a, root + b, |root|);
  }

  lemma OneDirEach(p: string, q: string, a: string, b: string, d: string, e: string)
    requires RelPath(p) == d && AppName(d) == a && !CoreDir(d) && RelPath(q) == e && AppName(e) == b && !CoreDir(e)
    requires a != b
    ensures OnlyDir([p, q], a, d) && OnlyDir([p, q], b, e)
  {
    hide RelPath, AppName, CoreDir;
    assert p in [p, q] && q in [p, q];
  }

  lemma {:induction false} TwoApplications(p: string, q: string, a: string, b: string, d: string, e: string)
    requires RelPath(p) == d && AppName(d) == a && !CoreDir(d) && RelPath(q) == e && AppName(e) == b && !CoreDir(e)
    requires a != b && Before(d, e)
    ensures var groups := MatrixOf([p, q]);
      exists i, j :: 1 <= i < j < |groups| && groups[i].name == a && groups[j].name == b
  {
    var pkgs := [p, q];
    assert OwnDir(pkgs, a, d) && OwnDir(pkgs, b, e) by {
      OneDirEach(p, q, a, b, d, e);
    }
    hide *;
    OneDirEach(p, q, a, b, d, e);
    GroupsAre(pkgs, a);
    GroupsAre(pkgs, b);
    var i :| 1 <= i < |MatrixOf(pkgs)| && MatrixOf(pkgs)[i].name == a;
    var j :| 1 <= j < |MatrixOf(pkgs)| && MatrixOf(pkgs)[j].name == b;
    SmallerFirst(pkgs, i, j, d, e);
  }

  /** Kafka's group comes before MySQL's. */
  lemma {:induction false} KafkaBeforeMysql()
    ensures var groups := MatrixOf([MODULE + "/" + ("applications/" + "kafka"),
                                    MODULE + "/" + ("applications/" + "mysql")]);
      exists i, j :: 1 <= i < j < |groups| && groups[i].name == "kafka" && groups[j].name == "mysql"
  {
    hide *;
    var a, b, d, e := "kafka", "mysql", "./applications/kafka", "./applications/mysql";
    var p, q := MODULE + "/" + ("applications/" + a), MODULE + "/" + ("applications/" + b);
    KafkaBeforeMysqlDirs();
    assert d == "./applications/" + a && e == "./applications/" + b;
    ApplicationPackage(p, a, d);
    ApplicationPackage(q, b, e);
    TwoApplications(p, q, a, b, d, e);
  }

  // ----- rewriting, by position -----

  lemma {:induction false} SomeDeep(dirs: seq<string>)
    ensures |DeepDirs(dirs)| >= 1 <==> exists i :: 0 <= i < |dirs| && Deep(dirs[i])
  {
    hide Deep;
    if dirs != [] {
      SomeDeep(dirs[..|dirs| - 1]);
    }
  }

  lemma {:induction false} TwoDeep(dirs: seq<string>)
    ensures |DeepDirs(dirs)| >= 2 <==> exists i, k :: 0 <= i < k < |dirs| && Deep(dirs[i]) && Deep(dirs[k])
  {
    hide Deep;
    if dirs != [] {
      SomeDeep(dirs[..|dirs| - 1]);
      TwoDeep(dirs[..|dirs| - 1]);
    }
  }

  lemma GlobEmitted(dirs: seq<string>)
    requires PlainDirs(dirs)
    ensures (exists k :: 0 <= k < |Collapsed(dirs)| && !Plain(Collapsed(dirs)[k])) <==> Rewritable(dirs)
  {
    hide Rewritable, Parent, Plain;
    if Rewritable(dirs) {
      var c := Collapsed(dirs);
      GlobNotPlain(Parent(dirs));
      assert c[|c| - 1] == Parent(dirs) + "/versions/...";
    } else {
      forall k | 0 <= k < |dirs| ensures Plain(dirs[k]) {
        assert dirs[k] in dirs;
      }
    }
  }

  /** A glob is emitted exactly for a list of three or more directories, at two places deep ones, all deep ones with the
      same first two segments. */
  lemma {:induction false} RewrittenExactly(dirs: seq<string>)
    requires PlainDirs(dirs)
    ensures (exists k :: 0 <= k < |Collapsed(dirs)| && !Plain(Collapsed(dirs)[k])) <==>
      && |dirs| >= 3
      && (exists i, k :: 0 <= i < k < |dirs| && Deep(dirs[i]) && Deep(dirs[k]))
      && (forall d, e :: d in dirs && e in dirs && Deep(d) && Deep(e) ==> Segments(d)[..2] == Segments(e)[..2])
  {
    GlobEmitted(dirs);
    TwoDeep(dirs);
    hide Collapsed, Plain, DeepDirs, Segments, AppPath;
    forall d, e | d in dirs && e in dirs && Deep(d) && Deep(e)
      ensures AppPath(d) == AppPath(e) <==> Segments(d)[..2] == Segments(e)[..2]
    {
      SamePath(d, e);
    }
  }

  lemma GlobNotPlain(parent: string)
    ensures !Plain(parent + "/versions/...")
  {
    var v := "/versions/...";
    assert v[10] == '.' && v[11] == '.' && v[12] == '.' && |v| == 13;
    assert DotsAt(parent + v, |parent| + 10);
  }

  lemma TwoParts(a: string, b: string, x: string, y: string)
    requires '/' !in a && '/' !in b && '/' !in x && '/' !in y && a + "/" + b == x + "/" + y
    ensures a == x && b == y
  {
    hide Split;
    SplitCons(a, '/', b);
    SplitCons(x, '/', y);
    SplitCons(b, '/', "");
    SplitCons(y, '/', "");
    assert ([a] + [b])[0] == a && ([a] + [b])[1] == b && ([x] + [y])[0] == x && ([x] + [y])[1] == y;
  }

  lemma SamePath(d: string, e: string)
    requires Deep(d) && Deep(e)
    ensures AppPath(d) == AppPath(e) <==> Segments(d)[..2] == Segments(e)[..2]
  {
    SegmentsNoSlash(d);
    SegmentsNoSlash(e);
    hide Segments;
    var a, b, x, y := Segments(d)[0], Segments(d)[1], Segments(e)[0], Segments(e)[1];
    assert Segments(d)[..2] == [a, b] && Segments(e)[..2] == [x, y];
    if AppPath(d) == AppPath(e) {
      TwoParts(a, b, x, y);
    }
  }
}
