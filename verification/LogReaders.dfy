/** The two readers of a container's log (container.go): one follows it until a line matches, the other collects
    the matching lines of a snapshot. A matcher is any predicate on lines. */
module LogReaders {
  type Matcher = string -> bool

  /** A log stream: its lines, how many are read before the context is seen to be done, and whether the stream ends
      with an error. Opening it may fail. */
  datatype Stream = Stream(opens: bool, lines: seq<string>, cancelledFrom: nat, readError: bool)

  datatype Await = Matched | Ended | OpenFailed | Cancelled | ReadFailed

  /** The function returns nil after a match and at a clean end. */
  predicate IsNil(r: Await) {
    r.Matched? || r.Ended?
  }

  /** Line `i` is the first that matches. */
  ghost predicate FirstMatch(lines: seq<string>, m: Matcher, i: nat) {
    i < |lines| && m(lines[i]) && forall j: nat :: j < i ==> !m(lines[j])
  }

  ghost predicate NoMatch(lines: seq<string>, m: Matcher, n: nat) {
    forall j: nat :: j < n && j < |lines| ==> !m(lines[j])
  }

  /** A matching line is reached before any cancellation. */
  ghost predicate MatchesInTime(s: Stream, m: Matcher) {
    exists i: nat :: FirstMatch(s.lines, m, i) && i < s.cancelledFrom
  }

  /** All lines are read, and none matches. */
  ghost predicate RunsOut(s: Stream, m: Matcher) {
    |s.lines| <= s.cancelledFrom && NoMatch(s.lines, m, |s.lines|)
  }

  /** `at` is where a match stopped the reader. */
  method AwaitOutput(s: Stream, m: Matcher) returns (r: Await, at: nat)
    ensures r.Matched? <==> s.opens && MatchesInTime(s, m)
    ensures r.Matched? ==> FirstMatch(s.lines, m, at) && at < s.cancelledFrom
    ensures IsNil(r) <==> s.opens && (MatchesInTime(s, m) || (RunsOut(s, m) && !s.readError))
    ensures r.Cancelled? <==> s.opens && s.cancelledFrom < |s.lines| && NoMatch(s.lines, m, s.cancelledFrom)
    ensures r.Ended? <==> s.opens && RunsOut(s, m) && !s.readError
    ensures r.ReadFailed? <==> s.opens && RunsOut(s, m) && s.readError
    ensures r.OpenFailed? <==> !s.opens
  {
    at := 0;
    if !s.opens {
      return OpenFailed, at;
    }
    for i := 0 to |s.lines|
      invariant NoMatch(s.lines, m, i) && i <= s.cancelledFrom
    {
      if s.cancelledFrom <= i {
        return Cancelled, at;
      }
      if m(s.lines[i]) {
        assert FirstMatch(s.lines, m, i);
        return Matched, i;
      }
    }
    r := if s.readError then ReadFailed else Ended;
  }

  /** How many of the matchers accept the line. */
  function Accepting(ms: seq<Matcher>, line: string): nat {
    if ms == [] then 0 else Accepting(ms[..|ms| - 1], line) + if ms[|ms| - 1](line) then 1 else 0
  }

  function Copies(line: string, n: nat): seq<string> {
    seq(n, _ => line)
  }

  /** Each line in log order, once for every matcher that accepts it. */
  function Collected(lines: seq<string>, ms: seq<Matcher>): seq<string> {
    if lines == [] then []
    else Collected(lines[..|lines| - 1], ms) + Copies(lines[|lines| - 1], Accepting(ms, lines[|lines| - 1]))
  }

  /** The matchers that accept a line, by position. */
  ghost function Acceptors(ms: seq<Matcher>, line: string): set<nat> {
    set m: nat | m < |ms| && ms[m](line)
  }

  lemma {:induction false} AcceptingCounts(ms: seq<Matcher>, line: string)
    ensures Accepting(ms, line) == |Acceptors(ms, line)|
  {
    if ms != [] {
      var init, n := ms[..|ms| - 1], |ms| - 1;
      AcceptingCounts(init, line);
      assert Acceptors(ms, line) == Acceptors(init, line) + if ms[n](line) then {n} else {};
    }
  }

  predicate Rising(a: seq<nat>) {
    forall k, l :: 0 <= k < l < |a| ==> a[k] <= a[l]
  }

  /** Where the output comes from: `at` names for each of its lines a line of the log, with the same text, in log order,
      and names every line of the log exactly once for each matcher that accepts it. */
  ghost predicate Traces(out: seq<string>, lines: seq<string>, ms: seq<Matcher>, at: seq<nat>) {
    && |at| == |out|
    && (forall k :: 0 <= k < |out| ==> at[k] < |lines| && out[k] == lines[at[k]])
    && Rising(at)
    && (forall i: nat :: i < |lines| ==> multiset(at)[i] == |Acceptors(ms, lines[i])|)
  }

  function Same(i: nat, n: nat): (at: seq<nat>)
    ensures |at| == n && forall k :: 0 <= k < n ==> at[k] == i
  {
    seq(n, _ => i)
  }

  lemma {:induction false} SameCounts(i: nat, n: nat, j: nat)
    ensures multiset(Same(i, n))[j] == if j == i then n else 0
  {
    if n > 0 {
      SameCounts(i, n - 1, j);
      assert Same(i, n) == Same(i, n - 1) + [i];
    }
  }

  lemma {:induction false} NotNamed(at: seq<nat>, n: nat)
    requires forall k :: 0 <= k < |at| ==> at[k] < n
    ensures multiset(at)[n] == 0
  {
    assert n !in at;
  }

  lemma MoreCounts(lines: seq<string>, ms: seq<Matcher>, before: seq<nat>, i: nat)
    requires lines != [] && i < |lines| && forall k :: 0 <= k < |before| ==> before[k] < |lines| - 1
    requires i < |lines| - 1 ==> multiset(before)[i] == |Acceptors(ms, lines[i])|
    ensures multiset(before + Same(|lines| - 1, Accepting(ms, lines[|lines| - 1])))[i] == |Acceptors(ms, lines[i])|
  {
    hide Acceptors, Accepting;
    var n := |lines| - 1;
    NotNamed(before, n);
    AcceptingCounts(ms, lines[n]);
    SameCounts(n, Accepting(ms, lines[n]), i);
  }

  lemma MoreTraces(out: seq<string>, lines: seq<string>, ms: seq<Matcher>, before: seq<nat>)
    requires lines != [] && Traces(out, lines[..|lines| - 1], ms, before)
    ensures var n := |lines| - 1; var count := Accepting(ms, lines[n]);
      Traces(out + Copies(lines[n], count), lines, ms, before + Same(n, count))
  {
    hide Acceptors, Accepting;
    var n := |lines| - 1;
    forall i: nat | i < |lines|
      ensures multiset(before + Same(n, Accepting(ms, lines[n])))[i] == |Acceptors(ms, lines[i])|
    {
      assert i < n ==> lines[..n][i] == lines[i];
      MoreCounts(lines, ms, before, i);
    }
  }

  lemma {:induction false} CollectedTraces(lines: seq<string>, ms: seq<Matcher>) returns (at: seq<nat>)
    ensures Traces(Collected(lines, ms), lines, ms, at)
  {
    at := [];
    if lines != [] {
      var init, n := lines[..|lines| - 1], |lines| - 1;
      var before := CollectedTraces(init, ms);
      hide Traces;
      MoreTraces(Collected(init, ms), lines, ms, before);
      at := before + Same(n, Accepting(ms, lines[n]));
    }
  }

  /** Nothing else fits: a log and its matchers determine the output. */
  lemma {:induction false} TracesDetermine(out: seq<string>, out': seq<string>, lines: seq<string>, ms: seq<Matcher>,
        at: seq<nat>, at': seq<nat>)
    requires Traces(out, lines, ms, at) && Traces(out', lines, ms, at')
    ensures out == out'
  {
    hide Acceptors;
    forall i: nat ensures multiset(at)[i] == multiset(at')[i] {
      if i >= |lines| {
        assert i !in at && i !in at';
      }
    }
    assert multiset(at) == multiset(at');
    SortedSame(at, at');
  }

  lemma FirstSame(a: seq<nat>, b: seq<nat>)
    requires multiset(a) == multiset(b) && Rising(a) && Rising(b) && a != [] && b != []
    ensures a[0] == b[0]
  {
    assert a[0] in multiset(b) && b[0] in multiset(a);
  }

  lemma WithoutFirst(a: seq<nat>)
    requires a != []
    ensures multiset(a[1..]) == multiset(a) - multiset{a[0]} && a == [a[0]] + a[1..]
  {
    assert a == [a[0]] + a[1..];
  }

  lemma RisingTail(a: seq<nat>)
    requires Rising(a) && a != []
    ensures Rising(a[1..])
  {
  }

  lemma {:induction false} SortedSame(a: seq<nat>, b: seq<nat>)
    requires multiset(a) == multiset(b) && Rising(a) && Rising(b)
    ensures a == b
  {
    assert |multiset(a)| == |a| && |multiset(b)| == |b|;
    hide Rising;
    if a != [] {
      FirstSame(a, b);
      WithoutFirst(a);
      WithoutFirst(b);
      RisingTail(a);
      RisingTail(b);
      SortedSame(a[1..], b[1..]);
    }
  }

  /** Every pair of a line with this text and a matcher that accepts it. */
  ghost function Acceptances(lines: seq<string>, ms: seq<Matcher>, text: string): set<(nat, nat)> {
    set i: nat, m: nat | i < |lines| && m < |ms| && lines[i] == text && ms[m](lines[i]) :: (i, m)
  }

  ghost function At(i: nat, ms: set<nat>): set<(nat, nat)> {
    set m | m in ms :: (i, m)
  }

  lemma {:induction false} AtCounts(i: nat, ms: set<nat>)
    ensures |At(i, ms)| == |ms|
  {
    if m :| m in ms {
      AtCounts(i, ms - {m});
      assert At(i, ms) == At(i, ms - {m}) + {(i, m)};
    }
  }

  lemma {:induction false} CopiesCount(line: string, n: nat, text: string)
    ensures multiset(Copies(line, n))[text] == if text == line then n else 0
  {
    if n > 0 {
      CopiesCount(line, n - 1, text);
      assert Copies(line, n) == Copies(line, n - 1) + [line];
    }
  }

  lemma AcceptancesMore(lines: seq<string>, ms: seq<Matcher>, text: string)
    requires lines != []
    ensures var n := |lines| - 1; var accepting := if lines[n] == text then Acceptors(ms, text) else {};
      && Acceptances(lines, ms, text) == Acceptances(lines[..n], ms, text) + At(n, accepting)
      && Acceptances(lines[..n], ms, text) !! At(n, accepting)
  {
  }

  lemma AcceptancesNone(ms: seq<Matcher>, text: string)
    ensures Acceptances([], ms, text) == {}
  {
  }

  /** One more line adds one pair for each matcher that accepts it, if it has this text. */
  lemma AcceptancesGrow(lines: seq<string>, ms: seq<Matcher>, text: string)
    requires lines != []
    ensures var n := |lines| - 1;
      |Acceptances(lines, ms, text)| ==
        |Acceptances(lines[..n], ms, text)| + if lines[n] == text then Accepting(ms, text) else 0
  {
    var n := |lines| - 1;
    var accepting := if lines[n] == text then Acceptors(ms, text) else {};
    AcceptancesMore(lines, ms, text);
    AtCounts(n, accepting);
    AcceptingCounts(ms, text);
  }

  lemma CollectedLast(lines: seq<string>, ms: seq<Matcher>)
    requires lines != []
    ensures var n := |lines| - 1;
      Collected(lines, ms) == Collected(lines[..n], ms) + Copies(lines[n], Accepting(ms, lines[n]))
  {
  }

  /** Every text is returned as often as there are lines with it and matchers that accept them. */
  lemma {:induction false} CollectedCounts(lines: seq<string>, ms: seq<Matcher>, text: string)
    ensures multiset(Collected(lines, ms))[text] == |Acceptances(lines, ms, text)|
  {
    if lines == [] {
      AcceptancesNone(ms, text);
    } else {
      hide Acceptances, Acceptors, Accepting, Copies, Collected;
      var n := |lines| - 1;
      CollectedCounts(lines[..n], ms, text);
      CollectedLast(lines, ms);
      CopiesCount(lines[n], Accepting(ms, lines[n]), text);
      AcceptancesGrow(lines, ms, text);
    }
  }

  method GetOutput(s: Stream, ms: seq<Matcher>) returns (out: seq<string>, ok: bool)
    ensures ok <==> s.opens && !s.readError
    ensures out == if s.opens then Collected(s.lines, ms) else []
    ensures s.opens ==> exists at :: Traces(out, s.lines, ms, at)
    ensures s.opens ==> forall text :: multiset(out)[text] == |Acceptances(s.lines, ms, text)|
  {
    out := [];
    if !s.opens {
      return [], false;
    }
    for i := 0 to |s.lines|
      invariant out == Collected(s.lines[..i], ms)
    {
      var l := s.lines[i];
      ghost var before := out;
      for k := 0 to |ms|
        invariant out == before + Copies(l, Accepting(ms[..k], l))
      {
        assert ms[..k + 1][..k] == ms[..k];
        if ms[k](l) {
          out := out + [l];
        }
      }
      assert ms[..|ms|] == ms;
      assert s.lines[..i + 1][..i] == s.lines[..i];
    }
    assert s.lines[..|s.lines|] == s.lines;
    ghost var at := CollectedTraces(s.lines, ms);
    forall text ensures multiset(out)[text] == |Acceptances(s.lines, ms, text)| {
      CollectedCounts(s.lines, ms, text);
    }
    ok := !s.readError;
  }

  lemma {:induction false} CollectedPrefix(lines: seq<string>, ms: seq<Matcher>, n: nat)
    requires n <= |lines|
    ensures Collected(lines[..n], ms) <= Collected(lines, ms)
    decreases |lines| - n
  {
    if n == |lines| {
      assert lines[..n] == lines;
    } else {
      assert lines[..n + 1][..n] == lines[..n];
      CollectedPrefix(lines, ms, n + 1);
    }
  }

  lemma {:induction false} NothingCollected(lines: seq<string>, m: Matcher)
    requires NoMatch(lines, m, |lines|)
    ensures Collected(lines, [m]) == []
  {
    if lines != [] {
      NothingCollected(lines[..|lines| - 1], m);
      var last := lines[|lines| - 1];
      assert [m][..0] == [] && Accepting([m], last) == 0;
      assert Copies(last, 0) == [];
    }
  }

  /** The line that ended a successful wait is the first line the collecting reader returns for the same matcher,
      on any snapshot of the log at least that long. */
  lemma AwaitedIsFirstCollected(lines: seq<string>, m: Matcher, i: nat, snapshot: seq<string>)
    requires FirstMatch(lines, m, i) && lines[..i + 1] <= snapshot
    ensures Collected(snapshot, [m]) != [] && Collected(snapshot, [m])[0] == lines[i]
  {
    var read := lines[..i + 1];
    assert read[..i] == lines[..i];
    NothingCollected(lines[..i], m);
    assert [m][..0] == [] && Accepting([m], lines[i]) == 1;
    assert Collected(read, [m]) == [] + Copies(lines[i], 1);
    assert snapshot[..i + 1] == read;
    CollectedPrefix(snapshot, [m], i + 1);
  }
}
