/** What the matrix splitter's output means: which group runs which package. */
module SplitterProofs {
  import opened GoStrings
  import opened Patterns
  import opened Splitter

  /** `go test` is given the group's packages string, split at spaces. */
  ghost predicate Runs(g: Group, dir: string) {
    exists k :: 0 <= k < |Split(g.packages, ' ')| && Matches(Split(g.packages, ' ')[k], dir)
  }

  ghost predicate RunByExactlyOne(groups: seq<Group>, dir: string) {
    exists i :: 0 <= i < |groups| && Runs(groups[i], dir)
                && forall j :: 0 <= j < |groups| && Runs(groups[j], dir) ==> j == i
  }

  /** The directory survives its bucket's collapse. */
  predicate Kept(dirs: seq<string>, dir: string) {
    Rewritable(dirs) ==> dir == Parent(dirs) || AtOrBelow(dir, Parent(dirs) + "/versions")
  }

  // ----- order -----

  /** `relPath` embeds in-module import paths strictly into the order of directories. */
  lemma {:induction false} RelPathEmbedsOrder(p: string, q: string)
    requires p == MODULE || MODULE + "/" <= p
    requires q == MODULE || MODULE + "/" <= q
    ensures Less(p, q) <==> Less(RelPath(p), RelPath(q))
    ensures p == MODULE + RelPath(p)[1..] && q == MODULE + RelPath(q)[1..]
  {
    ModuleForm(p);
    ModuleForm(q);
    var a, b := p[|MODULE|..], q[|MODULE|..];
    assert p == MODULE + a && q == MODULE + b;
    LessCommonPrefix(MODULE, a, b);
    assert RelPath(p) == "." + a && RelPath(q) == "." + b;
    LessCommonPrefix(".", a, b);
    assert RelPath(p)[1..] == a && RelPath(q)[1..] == b;
  }

  lemma ModuleForm(p: string)
    requires p == MODULE || MODULE + "/" <= p
    ensures MODULE <= p && RelPath(p) == "." + p[|MODULE|..]
  {
    if p != MODULE {
      UnderPrefix(MODULE, p);
    }
  }

  lemma UnderPrefix(m: string, p: string)
    requires m + "/" <= p
    ensures m <= p && p != m && "./" + TrimPrefix(p, m + "/") == "." + p[|m|..]
  {
    var tail := p[|m| + 1..];
    assert p == m + "/" + tail;
    Assoc(m, "/", tail);
    Assoc(".", "/", tail);
    assert p[|m|..] == "/" + tail && "." + "/" == "./";
  }

  lemma Assoc(a: string, b: string, c: string)
    ensures a + b + c == a + (b + c)
  {
  }

  ghost predicate StrictByDir(es: seq<Entry>) {
    forall i, j :: 0 <= i < j < |es| ==> Less(es[i].relDir, es[j].relDir)
  }

  lemma FirstAgree(xs: seq<Entry>, ys: seq<Entry>)
    requires StrictByDir(xs) && SortedByDir(ys) && xs != [] && ys != []
    requires xs[0] in ys && ys[0] in xs
    ensures xs[0] == ys[0]
  {
    var k :| 0 <= k < |ys| && ys[k] == xs[0];
    LessIrreflexive(xs[0].relDir);
  }

  lemma {:induction false} SortedPermutationUnique(xs: seq<Entry>, ys: seq<Entry>)
    requires StrictByDir(xs) && SortedByDir(ys) && multiset(xs) == multiset(ys)
    ensures xs == ys
  {
    assert |multiset(xs)| == |xs| && |multiset(ys)| == |ys|;
    if xs != [] {
      assert ys[0] in multiset(xs) && xs[0] in multiset(ys);
      FirstAgree(xs, ys);
      TailMultiset(xs);
      TailMultiset(ys);
      assert StrictByDir(xs[1..]) && SortedByDir(ys[1..]);
      SortedPermutationUnique(xs[1..], ys[1..]);
    }
  }

  lemma TailMultiset<T>(xs: seq<T>)
    requires xs != []
    ensures xs == [xs[0]] + xs[1..] && multiset(xs[1..]) == multiset(xs) - multiset{xs[0]}
  {
    assert xs == [xs[0]] + xs[1..];
  }

  /** Whatever sorted permutation `sort.Slice` picks, it leaves `discover`'s order as it was. */
  lemma {:induction false} SortKeepsDiscoverOrder(pkgs: seq<string>, sorted: seq<Entry>)
    requires forall p :: p in pkgs ==> p == MODULE || MODULE + "/" <= p
    requires forall i, j :: 0 <= i < j < |pkgs| ==> Less(pkgs[i], pkgs[j])
    requires SortedByDir(sorted) && multiset(sorted) == multiset(Entries(pkgs))
    ensures sorted == Entries(pkgs) == SortByDir(Entries(pkgs))
  {
    var es := Entries(pkgs);
    forall i, j | 0 <= i < j < |es| ensures Less(es[i].relDir, es[j].relDir) {
      assert pkgs[i] in pkgs && pkgs[j] in pkgs;
      RelPathEmbedsOrder(pkgs[i], pkgs[j]);
    }
    SortedPermutationUnique(es, sorted);
    SortedPermutationUnique(es, SortByDir(es));
  }

  // ----- the group-by -----

  lemma {:induction false} RestMembers(es: seq<Entry>, e: Entry)
    ensures e in Rest(es) <==> e in es && !CoreDir(e.relDir)
  {
    if es != [] {
      RestMembers(es[..|es| - 1], e);
      assert es == es[..|es| - 1] + [es[|es| - 1]];
    }
  }

  lemma {:induction false} NamesCover(es: seq<Entry>, name: string)
    ensures name in Names(es) <==> exists e :: e in es && e.app == name
  {
    if es != [] {
      NamesCover(es[..|es| - 1], name);
      assert es == es[..|es| - 1] + [es[|es| - 1]];
    }
  }

  lemma {:induction false} DirsOfMembers(es: seq<Entry>, name: string, dir: string)
    ensures dir in DirsOf(es, name) <==> exists e :: e in es && e.app == name && e.relDir == dir
  {
    if es != [] {
      DirsOfMembers(es[..|es| - 1], name, dir);
      assert es == es[..|es| - 1] + [es[|es| - 1]];
    }
  }

  function AllDirs(es: seq<Entry>, names: seq<string>): seq<string> {
    if names == [] then [] else DirsOf(es, names[0]) + AllDirs(es, names[1..])
  }

  /** How often a directory occurs among the entries whose name is listed. */
  function CountIn(es: seq<Entry>, names: seq<string>, dir: string): nat {
    if es == [] then 0
    else
      var e := es[|es| - 1];
      CountIn(es[..|es| - 1], names, dir) + if e.app in names && e.relDir == dir then 1 else 0
  }

  lemma {:induction false} CountDirs(es: seq<Entry>, name: string, dir: string)
    ensures multiset(DirsOf(es, name))[dir] == CountIn(es, [name], dir)
  {
    if es != [] {
      CountDirs(es[..|es| - 1], name, dir);
    }
  }

  lemma {:induction false} CountSplit(es: seq<Entry>, names: seq<string>, dir: string)
    requires names != [] && names[0] !in names[1..]
    ensures CountIn(es, names, dir) == CountIn(es, [names[0]], dir) + CountIn(es, names[1..], dir)
  {
    if es != [] {
      CountSplit(es[..|es| - 1], names, dir);
      assert names == [names[0]] + names[1..];
    }
  }

  lemma {:induction false} CountAll(es: seq<Entry>, names: seq<string>, dir: string)
    requires forall i, j :: 0 <= i < j < |names| ==> names[i] != names[j]
    ensures multiset(AllDirs(es, names))[dir] == CountIn(es, names, dir)
  {
    if names == [] {
      CountNone(es, dir);
    } else {
      CountAll(es, names[1..], dir);
      CountDirs(es, names[0], dir);
      CountSplit(es, names, dir);
    }
  }

  lemma {:induction false} CountNone(es: seq<Entry>, dir: string)
    ensures CountIn(es, [], dir) == 0
  {
    if es != [] {
      CountNone(es[..|es| - 1], dir);
    }
  }

  function RelDirs(es: seq<Entry>): seq<string> {
    if es == [] then [] else RelDirs(es[..|es| - 1]) + [es[|es| - 1].relDir]
  }

  lemma {:induction false} CountEvery(es: seq<Entry>, names: seq<string>, dir: string)
    requires forall e :: e in es ==> e.app in names
    ensures CountIn(es, names, dir) == multiset(RelDirs(es))[dir]
  {
    if es != [] {
      assert es[|es| - 1] in es;
      CountEvery(es[..|es| - 1], names, dir);
    }
  }

  /** The buckets together hold every directory of `rest`, as often as it occurs there, and nothing else. */
  lemma BucketsArePermutation(es: seq<Entry>)
    ensures multiset(AllDirs(es, Names(es))) == multiset(RelDirs(es))
  {
    NamesDistinct(es);
    forall e | e in es ensures e.app in Names(es) {
      NamesCover(es, e.app);
    }
    forall dir ensures multiset(AllDirs(es, Names(es)))[dir] == multiset(RelDirs(es))[dir] {
      CountAll(es, Names(es), dir);
      CountEvery(es, Names(es), dir);
    }
  }

  /** Entry `k` is the first with this name. */
  predicate FirstAt(es: seq<Entry>, name: string, k: nat) {
    k < |es| && es[k].app == name && forall m :: 0 <= m < k ==> es[m].app != name
  }

  lemma FirstAtWithin(es: seq<Entry>, name: string, k: nat)
    requires es != [] && FirstAt(es, name, k)
    ensures k < |es| - 1 <==> name in Names(es[..|es| - 1])
    ensures k < |es| - 1 ==> FirstAt(es[..|es| - 1], name, k)
  {
    var init := es[..|es| - 1];
    NamesCover(init, name);
    if k < |init| {
      assert init[k] in init;
    } else {
      assert forall m :: 0 <= m < |init| ==> init[m] == es[m];
    }
  }

  /** Names come in the order of their first appearance. */
  lemma {:induction false} NamesInFirstAppearanceOrder(es: seq<Entry>, i: nat, j: nat, a: nat, b: nat)
    requires i < j < |Names(es)|
    requires FirstAt(es, Names(es)[i], a) && FirstAt(es, Names(es)[j], b)
    ensures a < b
  {
    var before := Names(es[..|es| - 1]);
    assert before <= Names(es);
    FirstAtWithin(es, Names(es)[i], a);
    FirstAtWithin(es, Names(es)[j], b);
    if j < |before| {
      assert before[i] in before && before[j] in before;
      NamesInFirstAppearanceOrder(es[..|es| - 1], i, j, a, b);
    } else {
      NamesDistinct(es);
      assert before[i] in before && Names(es)[j] !in before;
    }
  }

  // ----- one directory, one application -----

  lemma AppNameSegments(rel: string)
    ensures AppName(rel) == if |Segments(rel)| >= 2 && Segments(rel)[0] == "applications"
                            then Segments(rel)[1] else "misc"
  {
    SplitNPrefix(TrimPrefix(rel, "./"), '/', 3);
  }

  lemma TrimDot(tail: string)
    ensures TrimPrefix("./" + tail, "./") == tail
  {
    assert ("./" + tail)[2..] == tail;
  }

  lemma Regroup(a: string, b: string, tail: string)
    ensures "./" + a + "/" + b == "./" + (a + "/" + b)
    ensures "./" + a + "/" + b + "/" + tail == "./" + (a + "/" + (b + "/" + tail))
  {
    var dot, slash := "./", "/";
    Assoc(dot, a, slash);
    Assoc(dot, a + slash, b);
    Assoc(dot + a + slash, b, slash);
    Assoc(dot + a + slash, b + slash, tail);
    Assoc(dot, a + slash, b + slash + tail);
  }

  lemma SegmentsOf(a: string, b: string, tail: string)
    requires '/' !in a && '/' !in b
    ensures Segments("./" + a + "/" + b + "/" + tail) == [a, b] + Split(tail, '/')
    ensures Segments("./" + a + "/" + b) == [a, b]
  {
    Regroup(a, b, tail);
    var long := a + "/" + (b + "/" + tail);
    TrimDot(long);
    assert Split(long, '/') == [a, b] + Split(tail, '/') by { SplitTwo(a, b, tail); }
    TrimDot(a + "/" + b);
    SplitCons(a, '/', b);
    SplitCons(b, '/', "");
  }

  lemma SplitTwo(a: string, b: string, tail: string)
    requires '/' !in a && '/' !in b
    ensures Split(a + "/" + (b + "/" + tail), '/') == [a, b] + Split(tail, '/')
  {
    SplitCons(a, '/', b + "/" + tail);
    SplitCons(b, '/', tail);
  }

  lemma JoinThree(s: seq<string>)
    requires |s| >= 3
    ensures Join(s, '/') == s[0] + "/" + (s[1] + "/" + Join(s[2..], '/'))
  {
    assert s[1..][1..] == s[2..];
    assert Join(s[1..], '/') == s[1] + "/" + Join(s[2..], '/');
  }

  lemma HomeForm(dir: string)
    requires Deep(dir)
    ensures Home(dir) == "./" + Segments(dir)[0] + "/" + Segments(dir)[1]
  {
    Regroup(Segments(dir)[0], Segments(dir)[1], "");
  }

  lemma PrefixOfParts(whole: string, part: string, tail: string)
    requires whole == part + tail
    ensures part <= whole
  {
  }

  /** A deep directory starts with its home. */
  lemma HomePrefix(dir: string)
    requires Deep(dir) && "./" <= dir
    ensures Home(dir) + "/" <= dir
  {
    var t := TrimPrefix(dir, "./");
    var s := Segments(dir);
    var a, b, rest := s[0], s[1], Join(s[2..], '/');
    assert t == a + "/" + (b + "/" + rest) by {
      JoinSplit(t, '/');
      JoinThree(s);
    }
    assert dir == "./" + t;
    Regroup(a, b, rest);
    HomeForm(dir);
    PrefixOfParts(dir, "./" + a + "/" + b + "/", rest);
  }

  lemma SegmentsNoSlash(dir: string)
    ensures forall s :: s in Segments(dir) ==> '/' !in s
  {
  }

  lemma BelowParts(dir: string, other: string, a: string, b: string)
    requires '/' !in a && '/' !in b && dir == "./" + a + "/" + b && (other == dir || dir + "/" <= other)
    ensures |Segments(other)| >= 2 && Segments(other)[0] == a && Segments(other)[1] == b
  {
    var tail := if other == dir then "" else other[|dir| + 1..];
    assert other == dir || other == dir + "/" + tail;
    hide Segments;
    SegmentsOf(a, b, tail);
  }

  /** What lies below a home has the home's first two segments, so the same application. */
  lemma BelowHome(dir: string, other: string)
    requires Deep(dir) && (other == Home(dir) || Home(dir) + "/" <= other)
    ensures |Segments(other)| >= 2
    ensures Segments(other)[0] == Segments(dir)[0] && Segments(other)[1] == Segments(dir)[1]
    ensures AppName(other) == AppName(dir)
  {
    hide Segments, AppName, Home;
    SegmentsNoSlash(dir);
    HomeForm(dir);
    BelowParts(Home(dir), other, Segments(dir)[0], Segments(dir)[1]);
    AppNameSegments(dir);
    AppNameSegments(other);
  }

  // ----- collapse -----

  ghost predicate PlainDirs(dirs: seq<string>) {
    forall d :: d in dirs ==> Plain(d) && "./" <= d
  }

  lemma ParentIsHome(dirs: seq<string>) returns (deep: string)
    requires Rewritable(dirs)
    ensures deep in dirs && Deep(deep) && Home(deep) == Parent(dirs)
  {
    deep := DeepDirs(dirs)[0];
    assert deep in DeepDirs(dirs);
  }

  lemma PlainHead(a: string, b: string)
    requires a + "/" <= b && Plain(b)
    ensures Plain(a)
  {
    assert b[0..|a|] == (a + "/")[..|a|] == a;
    PlainPart(b, 0, |a|);
  }

  lemma VersionsPlain()
    ensures Plain("/versions") && "/versions"[0] == '/'
  {
    var v := "/versions";
    assert v == ['/', 'v', 'e', 'r', 's', 'i', 'o', 'n', 's'];
  }

  lemma ParentPlain(dirs: seq<string>)
    requires Rewritable(dirs) && PlainDirs(dirs)
    ensures Plain(Parent(dirs)) && Plain(Parent(dirs) + "/versions")
  {
    var deep := ParentIsHome(dirs);
    hide Rewritable, Deep, Home, Plain;
    HomePrefix(deep);
    PlainHead(Home(deep), deep);
    VersionsPlain();
    var v := "/versions";
    PlainConcat(Parent(dirs), v);
  }

  ghost predicate MatchedBy(patterns: seq<string>, dir: string) {
    exists k :: 0 <= k < |patterns| && Matches(patterns[k], dir)
  }

  lemma ListMatches(dirs: seq<string>, dir: string)
    requires PlainDirs(dirs)
    ensures MatchedBy(dirs, dir) <==> dir in dirs
  {
    forall k | 0 <= k < |dirs| ensures Matches(dirs[k], dir) <==> dirs[k] == dir {
      assert dirs[k] in dirs;
      MatchesPlain(dirs[k], dir);
    }
  }

  lemma VersionsGlob(parent: string, dir: string)
    requires Plain(parent + "/versions")
    ensures Matches(parent + "/versions/...", dir) <==> AtOrBelow(dir, parent + "/versions")
  {
    Assoc(parent, "/versions", "/...");
    assert "/versions" + "/..." == "/versions/...";
    MatchesBelow(parent + "/versions", dir);
  }

  /** Exactly what the collapsed patterns match, for every directory. */
  lemma CollapsedMatches(dirs: seq<string>, dir: string)
    requires PlainDirs(dirs)
    ensures MatchedBy(Collapsed(dirs), dir) <==>
      if Rewritable(dirs) then
        (dir == Parent(dirs) && dir in dirs) || AtOrBelow(dir, Parent(dirs) + "/versions")
      else dir in dirs
  {
    hide Rewritable, Parent, Plain, Matches, AtOrBelow;
    var c := Collapsed(dirs);
    if Rewritable(dirs) {
      ParentPlain(dirs);
      MatchesPlain(Parent(dirs), dir);
      VersionsGlob(Parent(dirs), dir);
      assert c[|c| - 1] == Parent(dirs) + "/versions/...";
      assert Parent(dirs) in dirs ==> c[0] == Parent(dirs);
    } else {
      ListMatches(dirs, dir);
    }
  }

  /** `collapse` loses one of its own directories exactly when it rewrites the list and the directory is
      neither the parent nor at or below `parent/versions`. */
  lemma CollapseExact(dirs: seq<string>, dir: string)
    requires PlainDirs(dirs) && dir in dirs
    ensures MatchedBy(Collapsed(dirs), dir) <==> Kept(dirs, dir)
  {
    CollapsedMatches(dirs, dir);
  }

  /** For distinct directories of one application, rewriting happens exactly from three directories on. */
  lemma OneApplicationRewritten(dirs: seq<string>, app: string)
    requires '/' !in app
    requires forall i, j :: 0 <= i < j < |dirs| ==> dirs[i] != dirs[j]
    requires forall d :: d in dirs ==> AtOrBelow(d, "./applications/" + app)
    ensures Rewritable(dirs) <==> |dirs| >= 3
    ensures Rewritable(dirs) ==> Parent(dirs) == "./applications/" + app
  {
    var root := "./applications/" + app;
    assert root == "./" + "applications" + "/" + app;
    forall d | d in dirs ensures if d == root then !Deep(d) else Deep(d) && Home(d) == root {
      var tail := if d == root then "" else d[|root| + 1..];
      assert d == root || d == root + "/" + tail;
      assert '/' !in "applications";
      SegmentsOf("applications", app, tail);
      if d != root {
        HomeForm(d);
      }
    }
    DeepCount(dirs, root);
    if Rewritable(dirs) {
      var deep := ParentIsHome(dirs);
    }
  }

  lemma {:induction false} DeepCount(dirs: seq<string>, root: string)
    requires forall i, j :: 0 <= i < j < |dirs| ==> dirs[i] != dirs[j]
    requires forall d :: d in dirs ==> (d == root <==> !Deep(d))
    ensures |DeepDirs(dirs)| == if root in dirs then |dirs| - 1 else |dirs|
  {
    if dirs != [] {
      assert dirs == dirs[..|dirs| - 1] + [dirs[|dirs| - 1]];
      DeepCount(dirs[..|dirs| - 1], root);
    }
  }

  // ----- coverage, over entries -----

  /** The directories the group-by puts together for one application. */
  function BucketOf(es: seq<Entry>, app: string): seq<string> {
    DirsOf(Rest(es), app)
  }

  /** What entry building guarantees: plain directories, and applications decided by the first two segments. */
  ghost predicate Good(es: seq<Entry>) {
    && (forall e :: e in es ==> Plain(e.relDir) && (e.relDir == "." || "./" <= e.relDir))
    && (forall e, f :: e in es && f in es && e.relDir == f.relDir ==> e.app == f.app)
    && (forall e, f :: e in es && f in es && Deep(e.relDir) && Home(e.relDir) + "/" <= f.relDir ==>
          e.app == f.app && (CoreDir(f.relDir) ==> CoreDir(e.relDir)))
  }

  lemma BucketMembers(es: seq<Entry>, app: string, dir: string)
    ensures dir in BucketOf(es, app) <==>
      exists e :: e in es && e.app == app && e.relDir == dir && !CoreDir(dir)
  {
    DirsOfMembers(Rest(es), app, dir);
    forall e: Entry ensures e in Rest(es) <==> e in es && !CoreDir(e.relDir) {
      RestMembers(es, e);
    }
  }

  lemma BucketPlain(es: seq<Entry>, app: string)
    requires Good(es)
    ensures PlainDirs(BucketOf(es, app))
  {
    forall d | d in BucketOf(es, app) ensures Plain(d) && "./" <= d {
      BucketMembers(es, app, d);
    }
  }

  /** The space-joined string carries the patterns unchanged. */
  lemma {:induction false} RunsPatterns(g: Group, patterns: seq<string>, dir: string)
    requires g.packages == Join(patterns, ' ') && |patterns| >= 1
    requires forall k :: 0 <= k < |patterns| ==> ' ' !in patterns[k]
    ensures Runs(g, dir) <==> MatchedBy(patterns, dir)
  {
    SplitJoin(patterns, ' ');
  }

  lemma CollapsedNoSpace(dirs: seq<string>)
    requires PlainDirs(dirs)
    ensures forall k :: 0 <= k < |Collapsed(dirs)| ==> ' ' !in Collapsed(dirs)[k]
    ensures dirs != [] ==> |Collapsed(dirs)| >= 1
  {
    if Rewritable(dirs) {
      ParentPlain(dirs);
      assert ' ' !in "/versions/...";
    } else {
      forall k | 0 <= k < |dirs| ensures ' ' !in dirs[k] {
        assert dirs[k] in dirs;
      }
    }
  }

  /** An application's group runs exactly what its collapsed patterns match. */
  lemma AppRuns(es: seq<Entry>, app: string, dir: string)
    requires Good(es) && BucketOf(es, app) != []
    ensures Runs(AppGroup(app, BucketOf(es, app)), dir) <==> MatchedBy(Collapsed(BucketOf(es, app)), dir)
  {
    var dirs := BucketOf(es, app);
    BucketPlain(es, app);
    CollapsedNoSpace(dirs);
    RunsPatterns(AppGroup(app, dirs), Collapsed(dirs), dir);
  }

  lemma MatchedByTwo(p: string, q: string, dir: string)
    ensures MatchedBy([p, q], dir) <==> Matches(p, dir) || Matches(q, dir)
  {
    var patterns := [p, q];
    assert patterns[0] == p && patterns[1] == q;
  }

  lemma DotPlain()
    ensures Plain(".")
  {
  }

  lemma {:induction false} CoreRuns(dir: string)
    ensures Runs(CoreGroup(), dir) <==> CoreDir(dir) || dir == "./internal"
  {
    hide Runs, MatchedBy, Matches, Plain;
    var dot, glob := ".", "./internal/...";
    assert ' ' !in dot && ' ' !in glob;
    RunsPatterns(CoreGroup(), [dot, glob], dir);
    MatchedByTwo(dot, glob, dir);
    DotPlain();
    MatchesPlain(dot, dir);
    CoreGlob(glob, dir);
  }

  lemma CoreGlob(glob: string, dir: string)
    requires glob == "./internal/..."
    ensures Matches(glob, dir) <==> "./internal/" <= dir || dir == "./internal"
  {
    var root := "./internal";
    assert root[1] == '/' && forall k :: 1 <= k < |root| ==> root[k] != '.';
    assert Plain(root) by {
      assert ' ' !in root;
      forall k: nat ensures !DotsAt(root, k) { }
    }
    assert glob == root + "/...";
    assert root + "/" == "./internal/";
    MatchesBelow(root, dir);
  }

  lemma BelowVersions(parent: string, dir: string)
    requires AtOrBelow(dir, parent + "/versions")
    ensures parent + "/" <= dir
  {
    var v := parent + "/versions";
    assert v <= dir;
    assert parent + "/" <= v by {
      assert "/versions"[0] == '/';
      assert v[..|parent| + 1] == parent + "/";
    }
  }

  /** An application's group runs an entry's directory only if it is that application's and not the core's. */
  lemma AppRunsOwn(es: seq<Entry>, app: string, f: Entry)
    requires Good(es) && f in es && BucketOf(es, app) != []
    requires Runs(AppGroup(app, BucketOf(es, app)), f.relDir)
    ensures f.app == app && !CoreDir(f.relDir)
  {
    var dirs := BucketOf(es, app);
    AppRuns(es, app, f.relDir);
    BucketPlain(es, app);
    CollapsedMatches(dirs, f.relDir);
    if f.relDir in dirs {
      BucketMembers(es, app, f.relDir);
    } else {
      var deep := ParentIsHome(dirs);
      BucketMembers(es, app, deep);
      BelowVersions(Parent(dirs), f.relDir);
    }
  }

  lemma {:induction false} OwnGroupRuns(es: seq<Entry>, f: Entry)
    requires Good(es) && f in es && !CoreDir(f.relDir)
    ensures BucketOf(es, f.app) != []
    ensures Runs(AppGroup(f.app, BucketOf(es, f.app)), f.relDir) <==> Kept(BucketOf(es, f.app), f.relDir)
  {
    BucketMembers(es, f.app, f.relDir);
    BucketPlain(es, f.app);
    AppRuns(es, f.app, f.relDir);
    CollapseExact(BucketOf(es, f.app), f.relDir);
  }

  lemma GroupAt(es: seq<Entry>, j: nat)
    requires 1 <= j < |GroupsFor(es)|
    ensures j <= |Names(Rest(es))|
    ensures GroupsFor(es)[j] == AppGroup(Names(Rest(es))[j - 1], BucketOf(es, Names(Rest(es))[j - 1]))
    ensures BucketOf(es, Names(Rest(es))[j - 1]) != []
  {
    var rest := Rest(es);
    var app := Names(rest)[j - 1];
    NamesCover(rest, app);
    var e :| e in rest && e.app == app;
    DirsOfMembers(rest, app, e.relDir);
  }

  /** The one group besides core that may run an entry, and whether it does. */
  lemma {:induction false} AppGroupRuns(es: seq<Entry>, f: Entry) returns (j: nat)
    requires Good(es) && f in es && !CoreDir(f.relDir)
    ensures 1 <= j < |GroupsFor(es)|
    ensures Runs(GroupsFor(es)[j], f.relDir) <==> Kept(BucketOf(es, f.app), f.relDir)
    ensures forall i :: 1 <= i < |GroupsFor(es)| && Runs(GroupsFor(es)[i], f.relDir) ==> i == j
  {
    var names := Names(Rest(es));
    OwnGroupRuns(es, f);
    RestMembers(es, f);
    NamesCover(Rest(es), f.app);
    var k :| 0 <= k < |names| && names[k] == f.app;
    j := k + 1;
    GroupAt(es, j);
    NamesDistinct(Rest(es));
    forall i | 1 <= i < |GroupsFor(es)| && Runs(GroupsFor(es)[i], f.relDir) ensures i == j {
      GroupAt(es, i);
      AppRunsOwn(es, names[i - 1], f);
    }
  }

  lemma CoreOnly(es: seq<Entry>, f: Entry)
    requires Good(es) && f in es && CoreDir(f.relDir)
    ensures forall i :: 1 <= i < |GroupsFor(es)| ==> !Runs(GroupsFor(es)[i], f.relDir)
  {
    forall i | 1 <= i < |GroupsFor(es)| ensures !Runs(GroupsFor(es)[i], f.relDir) {
      GroupAt(es, i);
      if Runs(GroupsFor(es)[i], f.relDir) {
        AppRunsOwn(es, Names(Rest(es))[i - 1], f);
      }
    }
  }

  /** The core's own directories are safe. Any other is safe when its bucket's collapse keeps it, except that
      `./internal`, which the core pattern also matches, is safe when the collapse drops it. */
  predicate Safe(es: seq<Entry>, f: Entry) {
    CoreDir(f.relDir) || (Kept(BucketOf(es, f.app), f.relDir) != (f.relDir == "./internal"))
  }

  lemma FirstOnly(groups: seq<Group>, dir: string)
    requires groups != [] && forall i :: 1 <= i < |groups| ==> !Runs(groups[i], dir)
    ensures RunByExactlyOne(groups, dir) <==> Runs(groups[0], dir)
  {
  }

  lemma FirstOrOne(groups: seq<Group>, dir: string, j: nat)
    requires 1 <= j < |groups| && forall i :: 1 <= i < |groups| && Runs(groups[i], dir) ==> i == j
    ensures RunByExactlyOne(groups, dir) <==> (Runs(groups[0], dir) != Runs(groups[j], dir))
  {
  }

  lemma {:induction false} EntryCoverage(es: seq<Entry>, f: Entry)
    requires Good(es) && f in es
    ensures RunByExactlyOne(GroupsFor(es), f.relDir) <==> Safe(es, f)
  {
    CoreRuns(f.relDir);
    if CoreDir(f.relDir) {
      CoreOnly(es, f);
      FirstOnly(GroupsFor(es), f.relDir);
    } else {
      var j := AppGroupRuns(es, f);
      FirstOrOne(GroupsFor(es), f.relDir, j);
    }
  }

  // ----- coverage, over packages -----

  lemma RelPathForm(p: string)
    ensures RelPath(p) == "." || "./" <= RelPath(p)
    ensures Plain(p) ==> Plain(RelPath(p))
  {
    if p != MODULE {
      var tail := TrimPrefix(p, MODULE + "/");
      var k := |p| - |tail|;
      assert p[k..|p|] == tail;
      if Plain(p) {
        PlainPart(p, k, |p|);
        PlainDotted(tail);
      }
    } else {
      assert RelPath(p) == ".";
    }
  }

  lemma PlainDotted(tail: string)
    requires Plain(tail)
    ensures Plain("./" + tail)
  {
    var r := "./" + tail;
    assert r[1] == '/';
    forall k: nat ensures !DotsAt(r, k) {
      assert k >= 2 ==> !DotsAt(tail, k - 2);
    }
  }

  lemma InternalSegment(dir: string)
    requires "./internal/" <= dir
    ensures Segments(dir)[0] == "internal"
  {
    var core, internal := "./internal/", "internal";
    var tail := dir[|core|..];
    assert dir == core + tail;
    assert core == "./" + (internal + "/");
    Assoc("./", internal + "/", tail);
    TrimDot(internal + "/" + tail);
    assert '/' !in internal;
    SplitCons(internal, '/', tail);
  }

  lemma InternalCore()
    ensures "./internal/" == "./" + "internal" + "/"
  {
  }

  lemma InternalHome(deep: string)
    requires Deep(deep) && "./" <= deep && Segments(deep)[0] == "internal"
    ensures "./internal/" <= deep
  {
    HomeForm(deep);
    HomePrefix(deep);
    var core := "./internal/";
    InternalCore();
    PrefixOfParts(Home(deep), core, Segments(deep)[1]);
    PrefixTransitive(core, Home(deep), Home(deep) + "/");
    PrefixTransitive(core, Home(deep) + "/", deep);
  }

  lemma PrefixTransitive(a: string, b: string, c: string)
    requires a <= b <= c
    ensures a <= c
  {
  }

  lemma CoreAboveCore(deep: string, dir: string)
    requires Deep(deep) && "./" <= deep && Home(deep) + "/" <= dir && CoreDir(dir)
    requires |Segments(dir)| >= 1 && Segments(dir)[0] == Segments(deep)[0]
    ensures CoreDir(deep)
  {
    assert |Home(deep)| >= 2;
    InternalSegment(dir);
    InternalHome(deep);
  }

  /** The program's entries, sorted, are good whatever the packages are. */
  lemma {:induction false} EntriesGood(pkgs: seq<string>)
    requires forall p :: p in pkgs ==> Plain(p)
    ensures Good(SortByDir(Entries(pkgs)))
    ensures forall e :: e in SortByDir(Entries(pkgs)) <==> exists p :: p in pkgs && e == EntryOf(p)
  {
    var es := SortByDir(Entries(pkgs));
    forall e ensures e in es <==> exists p :: p in pkgs && e == EntryOf(p) {
      SortedMembers(pkgs, e);
    }
    forall e | e in es ensures e.app == AppName(e.relDir) && Plain(e.relDir) && (e.relDir == "." || "./" <= e.relDir) {
      var p :| p in pkgs && e == EntryOf(p);
      RelPathForm(p);
    }
    forall e, f | e in es && f in es && Deep(e.relDir) && Home(e.relDir) + "/" <= f.relDir
      ensures e.app == f.app && (CoreDir(f.relDir) ==> CoreDir(e.relDir))
    {
      BelowHome(e.relDir, f.relDir);
      DeepNotRoot(e.relDir);
      if CoreDir(f.relDir) {
        CoreAboveCore(e.relDir, f.relDir);
      }
    }
  }

  lemma DeepNotRoot(dir: string)
    requires Deep(dir)
    ensures dir != "."
  {
    var dot := ".";
    assert '/' !in dot;
    SplitCons(dot, '/', "");
  }

  lemma EntriesMembers(pkgs: seq<string>, e: Entry)
    ensures e in Entries(pkgs) <==> exists p :: p in pkgs && e == EntryOf(p)
  {
    hide EntryOf;
    var es := Entries(pkgs);
    if e in es {
      var i :| 0 <= i < |es| && es[i] == e;
      assert e == EntryOf(pkgs[i]) && pkgs[i] in pkgs;
    }
    forall p | p in pkgs ensures EntryOf(p) in es {
      var i :| 0 <= i < |pkgs| && pkgs[i] == p;
      assert es[i] == EntryOf(p);
    }
  }

  lemma {:induction false} SortedMembers(pkgs: seq<string>, e: Entry)
    ensures e in SortByDir(Entries(pkgs)) <==> exists p :: p in pkgs && e == EntryOf(p)
  {
    hide EntryOf, Entries;
    EntriesMembers(pkgs, e);
    var es := Entries(pkgs);
    assert e in SortByDir(es) <==> e in multiset(SortByDir(es));
  }

  /** A package is run by exactly one group of the matrix if and only if its entry is `Safe`: for every list
      of packages, in any order, whatever directories they live in. */
  lemma {:induction false} CoverageExact(pkgs: seq<string>, p: string)
    requires (forall q :: q in pkgs ==> Plain(q)) && p in pkgs
    ensures RunByExactlyOne(MatrixOf(pkgs), RelPath(p)) <==> Safe(SortByDir(Entries(pkgs)), EntryOf(p))
  {
    EntriesGood(pkgs);
    EntryCoverage(SortByDir(Entries(pkgs)), EntryOf(p));
  }

  /** The layout the program is written for: the root, `internal/...`, applications and their versions. */
  ghost predicate Shaped(dir: string) {
    CoreDir(dir) || exists app :: IsAppDir(dir, app)
  }

  ghost predicate IsAppDir(dir: string, app: string) {
    '/' !in app && (dir == "./applications/" + app || AtOrBelow(dir, "./applications/" + app + "/versions"))
  }

  lemma ApplicationsRoot(app: string)
    ensures "./applications/" + app == "./" + "applications" + "/" + app
  {
    assert "./applications/" == "./" + "applications" + "/";
  }

  lemma AppDirName(dir: string, app: string)
    requires IsAppDir(dir, app)
    ensures AppName(dir) == app && !CoreDir(dir) && dir != "./internal"
    ensures Deep(dir) ==> Home(dir) == "./applications/" + app
  {
    var apps := "applications";
    var root := "./applications/" + app;
    ApplicationsRoot(app);
    if dir != root {
      BelowVersions(root, dir);
    }
    var tail := if dir == root then "" else dir[|root| + 1..];
    assert dir == root || dir == root + "/" + tail;
    assert '/' !in apps;
    SegmentsOf(apps, app, tail);
    AppNameSegments(dir);
    if Deep(dir) {
      HomeForm(dir);
    }
    NotInternal(dir);
  }

  lemma NotInternal(dir: string)
    requires Segments(dir)[0] == "applications" && |dir| > 1
    ensures !CoreDir(dir) && dir != "./internal"
  {
    if "./internal/" <= dir {
      InternalSegment(dir);
    }
    InternalIsShallow();
  }

  lemma InternalIsShallow()
    ensures Segments("./internal") == ["internal"] && AppName("./internal") == "misc"
    ensures !CoreDir("./internal") && !Deep("./internal")
  {
    var internal := "internal";
    TrimDot(internal);
    assert '/' !in internal;
    SplitCons(internal, '/', "");
    assert "./" + internal == "./internal";
    AppNameSegments("./internal");
  }

  lemma ShapedSafe(es: seq<Entry>, f: Entry, app: string)
    requires f in es && f.app == app && IsAppDir(f.relDir, app)
    requires forall e :: e in es && e.app == app && !CoreDir(e.relDir) ==> IsAppDir(e.relDir, app)
    ensures Safe(es, f)
  {
    var dirs := BucketOf(es, app);
    AppDirName(f.relDir, app);
    if Rewritable(dirs) {
      var deep := ParentIsHome(dirs);
      BucketMembers(es, app, deep);
      AppDirName(deep, app);
    }
  }

  /** In that layout every package is run by exactly one group. */
  lemma Coverage(pkgs: seq<string>)
    requires forall p :: p in pkgs ==> Plain(p) && Shaped(RelPath(p))
    ensures forall p :: p in pkgs ==> RunByExactlyOne(MatrixOf(pkgs), RelPath(p))
  {
    var es := SortByDir(Entries(pkgs));
    EntriesGood(pkgs);
    forall e | e in es && !CoreDir(e.relDir) ensures IsAppDir(e.relDir, e.app) {
      var p :| p in pkgs && e == EntryOf(p);
      var app :| IsAppDir(RelPath(p), app);
      AppDirName(RelPath(p), app);
    }
    forall p | p in pkgs ensures RunByExactlyOne(MatrixOf(pkgs), RelPath(p)) {
      var f := EntryOf(p);
      if !CoreDir(f.relDir) {
        ShapedSafe(es, f, f.app);
      }
      CoverageExact(pkgs, p);
    }
  }

  // ----- the two ways coverage fails -----

  ghost predicate RunByNone(groups: seq<Group>, dir: string) {
    forall i :: 0 <= i < |groups| ==> !Runs(groups[i], dir)
  }

  lemma FirstOrNone(groups: seq<Group>, dir: string, j: nat)
    requires 1 <= j < |groups| && forall i :: 1 <= i < |groups| && Runs(groups[i], dir) ==> i == j
    ensures RunByNone(groups, dir) <==> !Runs(groups[0], dir) && !Runs(groups[j], dir)
  {
  }

  /** The core does not answer for the entry, its pattern does not match it by accident, and the bucket's collapse
      drops it. */
  predicate Dropped(es: seq<Entry>, f: Entry) {
    !CoreDir(f.relDir) && f.relDir != "./internal" && !Kept(BucketOf(es, f.app), f.relDir)
  }

  lemma {:induction false} EntryLost(es: seq<Entry>, f: Entry)
    requires Good(es) && f in es
    ensures RunByNone(GroupsFor(es), f.relDir) <==> Dropped(es, f)
  {
    hide Kept, Good, CoreDir, BucketOf;
    CoreRuns(f.relDir);
    assert GroupsFor(es)[0] == CoreGroup();
    if !CoreDir(f.relDir) {
      var j := AppGroupRuns(es, f);
      FirstOrNone(GroupsFor(es), f.relDir, j);
    }
  }

  /** A package is run by no group at all if and only if its entry is `Dropped`, for every list of packages. */
  lemma {:induction false} LostExactly(pkgs: seq<string>, p: string)
    requires (forall q :: q in pkgs ==> Plain(q)) && p in pkgs
    ensures RunByNone(MatrixOf(pkgs), RelPath(p)) <==> Dropped(SortByDir(Entries(pkgs)), EntryOf(p))
  {
    EntriesGood(pkgs);
    EntryLost(SortByDir(Entries(pkgs)), EntryOf(p));
  }

  lemma InternalNotKept(dirs: seq<string>)
    requires PlainDirs(dirs)
    ensures Kept(dirs, "./internal") <==> !Rewritable(dirs)
  {
    var internal := "./internal";
    InternalIsShallow();
    if Rewritable(dirs) && Kept(dirs, internal) {
      var deep := ParentIsHome(dirs);
      if internal != Parent(dirs) {
        BelowVersions(Parent(dirs), internal);
      }
      BelowHome(deep, internal);
      assert false;
    }
  }

  /** A test package in `internal` itself is run by exactly one group if and only if the misc bucket gets rewritten;
      otherwise the core group runs it and so does the group of the misc bucket. */
  lemma {:induction false} InternalRunTwice(pkgs: seq<string>, p: string)
    requires (forall q :: q in pkgs ==> Plain(q)) && p in pkgs && RelPath(p) == "./internal"
    ensures var misc := BucketOf(SortByDir(Entries(pkgs)), "misc");
      && (RunByExactlyOne(MatrixOf(pkgs), "./internal") <==> Rewritable(misc))
      && (!Rewritable(misc) ==> Runs(MatrixOf(pkgs)[0], "./internal"))
      && (!Rewritable(misc) ==> exists j :: 1 <= j < |MatrixOf(pkgs)| && Runs(MatrixOf(pkgs)[j], "./internal"))
  {
    var es := SortByDir(Entries(pkgs));
    InternalIsShallow();
    EntriesGood(pkgs);
    BucketPlain(es, "misc");
    InternalNotKept(BucketOf(es, "misc"));
    CoverageExact(pkgs, p);
    CoreRuns("./internal");
    var j := AppGroupRuns(es, EntryOf(p));
    assert MatrixOf(pkgs)[0] == CoreGroup();
  }

  function ThirdLevel(a: string, b: string, x: string): string {
    "./" + a + "/" + b + "/" + x
  }

  lemma ThirdLevelDir(a: string, b: string, x: string)
    requires '/' !in a && '/' !in b && '/' !in x && a != "applications" && a != "internal"
    ensures var d := ThirdLevel(a, b, x);
      Deep(d) && AppPath(d) == a + "/" + b && AppName(d) == "misc" && !CoreDir(d) && d != "./internal"
  {
    var d := ThirdLevel(a, b, x);
    SegmentsOf(a, b, x);
    SplitCons(x, '/', "");
    AppNameSegments(d);
    if "./internal/" <= d {
      InternalSegment(d);
    }
    InternalIsShallow();
    assert |d| > 2;
  }

  lemma NotInVersions(home: string, x: string)
    requires '/' !in x && x != "versions"
    ensures home + "/" + x != home && !AtOrBelow(home + "/" + x, home + "/versions")
  {
    var d, v := home + "/" + x, "versions";
    assert home + "/versions" == home + "/" + v by { Assoc(home, "/", v); assert "/" + v == "/versions"; }
    SuffixDiffers(home + "/", x, v);
    var below := home + "/" + v + "/";
    assert below[|below| - 1] == '/';
    assert |x| > |v| ==> d[|below| - 1] == x[|v|];
  }

  lemma SuffixDiffers(p: string, x: string, y: string)
    requires x != y
    ensures p + x != p + y
  {
    assert (p + x)[|p|..] == x && (p + y)[|p|..] == y;
  }

  lemma AtLeastThree(s: seq<string>, a: string, b: string, c: string)
    requires a in s && b in s && c in s && a != b && b != c && a != c
    ensures |s| >= 3
  {
  }

  lemma {:induction false} ThreeSideBySide(dirs: seq<string>, a: string, b: string, x: string, y: string, z: string)
    requires '/' !in a && '/' !in b && a != "applications" && a != "internal"
    requires '/' !in x && '/' !in y && '/' !in z && x != y && y != z && x != z && x != "versions"
    requires ThirdLevel(a, b, x) in dirs && ThirdLevel(a, b, y) in dirs && ThirdLevel(a, b, z) in dirs
    requires forall d :: d in dirs && Deep(d) ==> AppPath(d) == a + "/" + b
    ensures !Kept(dirs, ThirdLevel(a, b, x))
  {
    var home := "./" + a + "/" + b;
    ThirdLevelDir(a, b, x); ThirdLevelDir(a, b, y); ThirdLevelDir(a, b, z);
    SuffixDiffers(home + "/", x, y); SuffixDiffers(home + "/", y, z); SuffixDiffers(home + "/", x, z);
    AtLeastThree(dirs, ThirdLevel(a, b, x), ThirdLevel(a, b, y), ThirdLevel(a, b, z));
    AtLeastThree(DeepDirs(dirs), ThirdLevel(a, b, x), ThirdLevel(a, b, y), ThirdLevel(a, b, z));
    var deep := ParentIsHome(dirs);
    Regroup(a, b, x);
    NotInVersions(home, x);
  }

  lemma {:induction false} SideInBucket(pkgs: seq<string>, p: string, a: string, b: string, x: string)
    requires (forall q :: q in pkgs ==> Plain(q)) && p in pkgs && RelPath(p) == ThirdLevel(a, b, x)
    requires '/' !in a && '/' !in b && '/' !in x && a != "applications" && a != "internal"
    ensures ThirdLevel(a, b, x) in BucketOf(SortByDir(Entries(pkgs)), "misc")
  {
    ThirdLevelDir(a, b, x);
    EntriesGood(pkgs);
    var e := EntryOf(p);
    assert e in SortByDir(Entries(pkgs));
    BucketMembers(SortByDir(Entries(pkgs)), "misc", e.relDir);
  }

  /** Three packages side by side on the third level outside `applications/` and `internal/` (say `./tools/cmd/x`,
      `/y`, `/z`) are run by no group at all, when every other deep directory outside them lies there too. */
  lemma {:induction false} SidePackagesLost(pkgs: seq<string>, p: string, a: string, b: string, x: string,
        y: string, z: string)
    requires (forall q :: q in pkgs ==> Plain(q)) && p in pkgs && RelPath(p) == ThirdLevel(a, b, x)
    requires exists q :: q in pkgs && RelPath(q) == ThirdLevel(a, b, y)
    requires exists q :: q in pkgs && RelPath(q) == ThirdLevel(a, b, z)
    requires forall q :: q in pkgs && AppName(RelPath(q)) == "misc" && Deep(RelPath(q)) && !CoreDir(RelPath(q)) ==>
      AppPath(RelPath(q)) == a + "/" + b
    requires '/' !in a && '/' !in b && a != "applications" && a != "internal"
    requires '/' !in x && '/' !in y && '/' !in z && x != y && y != z && x != z && x != "versions"
    ensures RunByNone(MatrixOf(pkgs), RelPath(p))
  {
    var es := SortByDir(Entries(pkgs));
    var dirs := BucketOf(es, "misc");
    EntriesGood(pkgs);
    var q :| q in pkgs && RelPath(q) == ThirdLevel(a, b, y);
    var r :| r in pkgs && RelPath(r) == ThirdLevel(a, b, z);
    SideInBucket(pkgs, p, a, b, x); SideInBucket(pkgs, q, a, b, y); SideInBucket(pkgs, r, a, b, z);
    forall d | d in dirs && Deep(d) ensures AppPath(d) == a + "/" + b {
      BucketMembers(es, "misc", d);
    }
    ThreeSideBySide(dirs, a, b, x, y, z);
    ThirdLevelDir(a, b, x);
    LostExactly(pkgs, p);
  }

  // ----- both ways, at an input -----

  lemma RelPathBelow(tail: string)
    ensures RelPath(MODULE + "/" + tail) == "./" + tail
  {
    hide MODULE;
    var p := MODULE + "/" + tail;
    assert p[|MODULE + "/"|..] == tail;
    assert |p| > |MODULE|;
  }

  lemma ModulePlain()
    ensures Plain(MODULE)
  {
    assert MODULE[6] == '.' && forall k :: 0 <= k < |MODULE| && MODULE[k] == '.' ==> k == 6;
    assert ' ' !in MODULE;
    forall k: nat ensures !DotsAt(MODULE, k) {
    }
  }

  /** Text without dots and spaces, below the module. */
  lemma BelowModulePlain(tail: string)
    requires ' ' !in tail && '.' !in tail
    ensures Plain(MODULE + "/" + tail)
  {
    ModulePlain();
    hide MODULE;
    forall k: nat ensures !DotsAt("/" + tail, k) {
    }
    PlainConcat(MODULE, "/" + tail);
    Assoc(MODULE, "/", tail);
  }

  lemma {:induction false} FewRest(es: seq<Entry>)
    ensures |Rest(es)| <= |es|
  {
    if es != [] {
      FewRest(es[..|es| - 1]);
    }
  }

  lemma {:induction false} FewDirs(es: seq<Entry>, app: string)
    ensures |DirsOf(es, app)| <= |es|
  {
    if es != [] {
      FewDirs(es[..|es| - 1], app);
    }
  }

  lemma {:induction false} InternalOnly(p: string)
    requires Plain(p) && RelPath(p) == "./internal"
    ensures var groups := MatrixOf([p]);
      Runs(groups[0], "./internal") && exists j :: 1 <= j < |groups| && Runs(groups[j], "./internal")
  {
    hide MatrixOf, Runs, RunByExactlyOne;
    var es := SortByDir(Entries([p]));
    assert |multiset(es)| == |multiset(Entries([p]))| == 1;
    FewRest(es);
    FewDirs(Rest(es), "misc");
    InternalRunTwice([p], p);
  }

  /** The module with one package with tests, `internal`: two groups run it. */
  lemma {:induction false} InternalAlone()
    ensures var groups := MatrixOf([MODULE + "/" + "internal"]);
      Runs(groups[0], "./internal") && exists j :: 1 <= j < |groups| && Runs(groups[j], "./internal")
  {
    hide MatrixOf, Runs, MODULE;
    var internal := "internal";
    BelowModulePlain(internal);
    RelPathBelow(internal);
    assert "./" + internal == "./internal";
    InternalOnly(MODULE + "/" + internal);
  }

  lemma {:induction false} OneOfThree(pkgs: seq<string>, p: string, q: string, r: string, a: string, b: string,
        x: string, y: string, z: string)
    requires p in pkgs && q in pkgs && r in pkgs && forall d :: d in pkgs ==> Plain(d) && (d == p || d == q || d == r)
    requires RelPath(p) == ThirdLevel(a, b, x) && RelPath(q) == ThirdLevel(a, b, y) && RelPath(r) == ThirdLevel(a, b, z)
    requires '/' !in a && '/' !in b && a != "applications" && a != "internal"
    requires '/' !in x && '/' !in y && '/' !in z && x != y && y != z && x != z && x != "versions"
    ensures RunByNone(MatrixOf(pkgs), RelPath(p))
  {
    hide RunByNone, MatrixOf, ThirdLevel, RelPath, AppName, Deep, AppPath, CoreDir, Plain;
    ThirdLevelDir(a, b, x); ThirdLevelDir(a, b, y); ThirdLevelDir(a, b, z);
    SidePackagesLost(pkgs, p, a, b, x, y, z);
  }

  lemma ToolsPackage(x: char, tail: string)
    requires tail == "tools/cmd/" + [x] && x != '.' && x != ' ' && x != '/'
    ensures Plain(MODULE + "/" + tail) && RelPath(MODULE + "/" + tail) == ThirdLevel("tools", "cmd", [x])
  {
    assert ' ' !in "tools/cmd/" && '.' !in "tools/cmd/";
    BelowModulePlain(tail);
    RelPathBelow(tail);
    Regroup("tools", "cmd", [x]);
    assert "tools" + "/" + ("cmd" + "/" + [x]) == tail;
  }

  /** Three commands side by side, as the only packages with tests: no group runs any of them. */
  lemma {:induction false} ToolsLost()
    ensures var pkgs := [MODULE + "/" + "tools/cmd/x", MODULE + "/" + "tools/cmd/y", MODULE + "/" + "tools/cmd/z"];
      forall p :: p in pkgs ==> RunByNone(MatrixOf(pkgs), RelPath(p))
  {
    hide RunByNone, MatrixOf, ThirdLevel, RelPath, Plain, MODULE;
    var x, y, z := "tools/cmd/x", "tools/cmd/y", "tools/cmd/z";
    ToolsPackage('x', x); ToolsPackage('y', y); ToolsPackage('z', z);
    var a, b, vx, vy, vz := "tools", "cmd", ['x'], ['y'], ['z'];
    assert |"versions"| == 8 && |"applications"| == 12 && |"internal"| == 8;
    var p, q, r := MODULE + "/" + x, MODULE + "/" + y, MODULE + "/" + z;
    var pkgs := [p, q, r];
    OneOfThree(pkgs, p, q, r, a, b, vx, vy, vz);
    OneOfThree(pkgs, q, p, r, a, b, vy, vx, vz);
    OneOfThree(pkgs, r, p, q, a, b, vz, vx, vy);
  }

  // ----- the names of the jobs -----

  /** Coverage is checked in the first group only; and the groups' names differ pairwise unless some application
      is itself called `core`. */
  lemma MatrixNamesExactly(es: seq<Entry>)
    ensures forall i :: 0 <= i < |GroupsFor(es)| ==> (GroupsFor(es)[i].checkCoverage <==> i == 0)
    ensures (forall i, j :: 0 <= i < j < |GroupsFor(es)| ==> GroupsFor(es)[i].name != GroupsFor(es)[j].name) <==>
            !exists e :: e in es && !CoreDir(e.relDir) && e.app == "core"
  {
    var groups, names := GroupsFor(es), Names(Rest(es));
    forall i | 1 <= i < |groups| ensures groups[i].name == names[i - 1] && !groups[i].checkCoverage {
      assert groups[i] == AppGroup(names[i - 1], DirsOf(Rest(es), names[i - 1]));
    }
    NamesDistinct(Rest(es));
    NamesCover(Rest(es), "core");
    forall e: Entry ensures e in Rest(es) <==> e in es && !CoreDir(e.relDir) {
      RestMembers(es, e);
    }
    if "core" in names {
      var k :| 0 <= k < |names| && names[k] == "core";
      assert groups[0].name == groups[k + 1].name;
    }
  }
}
