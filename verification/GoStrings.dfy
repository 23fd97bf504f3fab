/** The parts of Go's `strings` and `strconv` packages the modelled code relies on.
    A `char` stands for one byte of the Go string. */
module GoStrings {

  datatype Option<+T> = None | Some(value: T)

  // ----- searching -----

  /** Some occurrence of `p` starts somewhere in `s`. */
  ghost predicate Contains(s: string, p: string) {
    exists i :: 0 <= i <= |s| && p <= s[i..]
  }

  function IndexOf(s: string, c: char): (i: nat)
    requires c in s
    ensures i < |s| && s[i] == c && c !in s[..i]
  {
    if s[0] == c then 0 else 1 + IndexOf(s[1..], c)
  }

  lemma {:induction false} IndexOfFirst(a: string, c: char, t: string)
    requires c !in a
    ensures IndexOf(a + [c] + t, c) == |a|
  {
    if a != "" {
      IndexOfFirst(a[1..], c, t);
      assert (a + [c] + t)[1..] == a[1..] + [c] + t;
    }
  }

  function TrimPrefix(s: string, p: string): string {
    if p <= s then s[|p|..] else s
  }

  // ----- splitting and joining at one separator -----

  function Split(s: string, sep: char): (parts: seq<string>)
    ensures |parts| >= 1
    ensures forall p :: p in parts ==> sep !in p
    decreases |s|
  {
    if sep !in s then [s]
    else
      var i := IndexOf(s, sep);
      [s[..i]] + Split(s[i + 1..], sep)
  }

  /** At most `n` parts; the last one keeps its separators. */
  function SplitN(s: string, sep: char, n: nat): (parts: seq<string>)
    requires n >= 1
    ensures 1 <= |parts| <= n
  {
    if n == 1 || sep !in s then [s]
    else
      var i := IndexOf(s, sep);
      [s[..i]] + SplitN(s[i + 1..], sep, n - 1)
  }

  function Join(parts: seq<string>, sep: char): string {
    if |parts| == 0 then ""
    else if |parts| == 1 then parts[0]
    else parts[0] + [sep] + Join(parts[1..], sep)
  }

  lemma {:induction false} SplitCons(a: string, sep: char, t: string)
    requires sep !in a
    ensures Split(a + [sep] + t, sep) == [a] + Split(t, sep)
    ensures Split(a, sep) == [a]
  {
    var s := a + [sep] + t;
    IndexOfFirst(a, sep, t);
    assert s[|a|] == sep;
    assert s[..|a|] == a && s[|a| + 1..] == t;
  }

  /** Splitting what was joined gives the parts back. */
  lemma {:induction false} SplitJoin(parts: seq<string>, sep: char)
    requires |parts| >= 1 && forall p :: p in parts ==> sep !in p
    ensures Split(Join(parts, sep), sep) == parts
  {
    if |parts| == 1 {
      SplitCons(parts[0], sep, "");
    } else {
      SplitJoin(parts[1..], sep);
      SplitCons(parts[0], sep, Join(parts[1..], sep));
    }
  }

  lemma {:induction false} JoinSplit(s: string, sep: char)
    ensures Join(Split(s, sep), sep) == s
    decreases |s|
  {
    if sep in s {
      var i := IndexOf(s, sep);
      JoinSplit(s[i + 1..], sep);
      assert Split(s, sep)[1..] == Split(s[i + 1..], sep);
      assert s == s[..i] + [sep] + s[i + 1..];
    }
  }

  lemma SplitFirst(s: string, sep: char, n: nat)
    requires n > 1 && sep in s
    ensures var i := IndexOf(s, sep);
      && Split(s, sep) == [s[..i]] + Split(s[i + 1..], sep)
      && SplitN(s, sep, n) == [s[..i]] + SplitN(s[i + 1..], sep, n - 1)
  {
  }

  lemma SplitWhole(s: string, sep: char, n: nat)
    requires n == 1 || (n > 1 && sep !in s)
    ensures SplitN(s, sep, n) == [s] && (sep !in s ==> Split(s, sep) == [s])
  {
  }

  /** A bounded split agrees with the full one on every part but the last. */
  lemma {:induction false} SplitNPrefix(s: string, sep: char, n: nat)
    requires n >= 1
    ensures |SplitN(s, sep, n)| == if |Split(s, sep)| < n then |Split(s, sep)| else n
    ensures forall k :: 0 <= k < n - 1 && k < |Split(s, sep)| ==> SplitN(s, sep, n)[k] == Split(s, sep)[k]
    decreases n
  {
    hide Split, SplitN;
    if n > 1 && sep in s {
      var i := IndexOf(s, sep);
      var rest := s[i + 1..];
      SplitFirst(s, sep, n);
      SplitNPrefix(rest, sep, n - 1);
      ConsPrefix(s[..i], SplitN(rest, sep, n - 1), Split(rest, sep), n - 1);
    } else {
      SplitWhole(s, sep, n);
    }
  }

  lemma ConsPrefix(first: string, a: seq<string>, b: seq<string>, n: nat)
    requires n >= 1 && |a| == if |b| < n then |b| else n
    requires forall k :: 0 <= k < n - 1 && k < |b| ==> a[k] == b[k]
    ensures forall k :: 0 <= k < n && k < |b| + 1 ==> ([first] + a)[k] == ([first] + b)[k]
  {
    forall k | 0 <= k < n && k < |b| + 1 ensures ([first] + a)[k] == ([first] + b)[k] {
      if k > 0 {
        assert a[k - 1] == b[k - 1];
      }
    }
  }

  // ----- replacing -----

  /** Leftmost, non-overlapping replacement of a non-empty text, never rescanning. */
  function ReplaceAll(s: string, old_: string, new_: string): string
    requires |old_| > 0
    decreases |s|
  {
    if s == "" then ""
    else if old_ <= s then new_ + ReplaceAll(s[|old_|..], old_, new_)
    else [s[0]] + ReplaceAll(s[1..], old_, new_)
  }

  // ----- decimal numbers -----

  function DigitChar(d: nat): (c: char)
    requires d < 10
    ensures IsDigit(c) && DigitValue(c) == d
  {
    ('0' as int + d) as char
  }

  predicate IsDigit(c: char) { '0' <= c <= '9' }

  function DigitValue(c: char): (d: nat)
    requires IsDigit(c)
    ensures d < 10
  {
    c as int - '0' as int
  }

  predicate AllDigits(s: string) { forall i :: 0 <= i < |s| ==> IsDigit(s[i]) }

  function FormatUint(n: nat): (s: string)
    ensures |s| > 0 && AllDigits(s)
  {
    if n < 10 then [DigitChar(n)] else FormatUint(n / 10) + [DigitChar(n % 10)]
  }

  function FormatInt(n: int): string {
    if n < 0 then "-" + FormatUint(-n) else FormatUint(n)
  }

  function DigitsValue(s: string): nat
    requires AllDigits(s)
  {
    if s == "" then 0 else DigitsValue(s[..|s| - 1]) * 10 + DigitValue(s[|s| - 1])
  }

  /** `strconv.ParseUint(s, 10, bits)` for `limit` == 2^bits. */
  function ParseUint(s: string, limit: nat): (r: Option<nat>)
    ensures r.Some? ==> r.value < limit
  {
    if s == "" || !AllDigits(s) then None
    else if DigitsValue(s) < limit then Some(DigitsValue(s)) else None
  }

  /** `strconv.ParseInt(s, 10, bits)` for `limit` == 2^(bits - 1). */
  function ParseInt(s: string, limit: int): (r: Option<int>)
    requires limit > 0
    ensures r.Some? ==> -limit <= r.value < limit
  {
    if |s| > 0 && (s[0] == '-' || s[0] == '+') then
      match ParseUint(s[1..], if s[0] == '-' then limit + 1 else limit)
      case None => None
      case Some(n) => Some(if s[0] == '-' then -(n as int) else n)
    else
      match ParseUint(s, limit)
      case None => None
      case Some(n) => Some(n)
  }

  lemma {:induction false} DigitsOfFormat(n: nat)
    ensures DigitsValue(FormatUint(n)) == n
  {
    if n >= 10 {
      DigitsOfFormat(n / 10);
      var s := FormatUint(n);
      assert s[..|s| - 1] == FormatUint(n / 10);
    }
  }

  /** Parsing a printed number gives the number back, and only that number prints so. */
  lemma ParseFormat(n: nat, limit: nat)
    ensures ParseUint(FormatUint(n), limit) == if n < limit then Some(n) else None
  {
    DigitsOfFormat(n);
  }

  /** Decimal digits without leading zeros. */
  predicate Canonical(s: string) {
    s != "" && AllDigits(s) && (s[0] == '0' ==> s == "0")
  }

  lemma {:induction false} PositiveValue(s: string)
    requires Canonical(s) && s != "0"
    ensures DigitsValue(s) > 0
  {
    if |s| > 1 {
      assert s[..|s| - 1][0] == s[0];
      PositiveValue(s[..|s| - 1]);
    } else {
      OneDigit(s);
      assert s[0] != '0';
    }
  }

  /** A number is printed in the one way that is canonical and has its value. */
  lemma {:induction false} FormatIsCanonical(n: nat, s: string)
    ensures s == FormatUint(n) <==> Canonical(s) && DigitsValue(s) == n
    decreases n
  {
    var t := FormatUint(n);
    DigitsOfFormat(n);
    FormatNoZero(n);
    if Canonical(s) && DigitsValue(s) == n {
      SameValue(s, t);
    }
  }

  lemma {:induction false} FormatNoZero(n: nat)
    ensures Canonical(FormatUint(n)) && (n > 0 ==> FormatUint(n)[0] != '0')
  {
    if n >= 10 {
      FormatNoZero(n / 10);
    }
  }

  lemma {:induction false} SameValue(s: string, t: string)
    requires Canonical(s) && Canonical(t) && DigitsValue(s) == DigitsValue(t)
    ensures s == t
    decreases |s|
  {
    if |s| == 1 && |t| == 1 {
      OneDigit(s);
      OneDigit(t);
    } else if |s| == 1 || |t| == 1 {
      var long := if |s| == 1 then t else s;
      OneDigit(if |s| == 1 then s else t);
      assert long[..|long| - 1][0] == long[0];
      PositiveValue(long[..|long| - 1]);
    } else {
      var a, b := s[..|s| - 1], t[..|t| - 1];
      assert a[0] == s[0] && b[0] == t[0];
      DivideOut(DigitsValue(a), DigitValue(s[|s| - 1]), DigitsValue(b), DigitValue(t[|t| - 1]));
      SameValue(a, b);
      assert s == a + [s[|s| - 1]] && t == b + [t[|t| - 1]];
    }
  }

  lemma OneDigit(s: string)
    requires |s| == 1 && AllDigits(s)
    ensures DigitsValue(s) == DigitValue(s[0]) && s == [s[0]]
  {
    assert s[..0] == "";
  }

  lemma DivideOut(a: nat, c: nat, b: nat, d: nat)
    requires c < 10 && d < 10 && a * 10 + c == b * 10 + d
    ensures a == b && c == d
  {
  }

  /** Digits, after a minus sign for a number below zero; never a plus sign. */
  predicate CanonicalInt(s: string) {
    if s != "" && s[0] == '-' then Canonical(s[1..]) && s[1] != '0' else Canonical(s)
  }

  /** A signed number, too, is printed in the one way that is canonical and parses to it. */
  lemma FormatIntIsCanonical(n: int, s: string, limit: int)
    requires limit > 0 && -limit <= n < limit
    ensures s == FormatInt(n) <==> CanonicalInt(s) && ParseInt(s, limit) == Some(n)
  {
    ParseFormatInt(n, limit);
    if n < 0 {
      FormatNoZero(-n);
      assert FormatInt(n)[1..] == FormatUint(-n);
      if CanonicalInt(s) && ParseInt(s, limit) == Some(n) {
        FormatIsCanonical(-n, s[1..]);
        assert s == "-" + s[1..];
      }
    } else {
      FormatNoZero(n);
      if CanonicalInt(s) && ParseInt(s, limit) == Some(n) {
        if s[0] == '-' {
          PositiveValue(s[1..]);
          assert false;
        }
        FormatIsCanonical(n, s);
      }
    }
  }

  lemma ParseFormatInt(n: int, limit: int)
    requires limit > 0
    requires -limit <= n < limit
    ensures ParseInt(FormatInt(n), limit) == Some(n)
  {
    var s := FormatInt(n);
    if n < 0 {
      assert s[1..] == FormatUint(-n);
      ParseFormat(-n, limit + 1);
    } else {
      assert IsDigit(s[0]);
      ParseFormat(n, limit);
    }
  }

  // ----- ordering -----

  /** Go's `<` on strings: byte-lexicographic. */
  predicate Less(a: string, b: string) {
    if b == "" then false
    else if a == "" then true
    else a[0] < b[0] || (a[0] == b[0] && Less(a[1..], b[1..]))
  }

  /** `k` is where the two strings part: `a` ends there, or has the smaller byte there. */
  predicate PartsAt(a: string, b: string, k: nat) {
    k <= |a| && k < |b| && a[..k] == b[..k] && (k < |a| ==> a[k] < b[k])
  }

  ghost predicate Before(a: string, b: string) {
    exists k: nat :: PartsAt(a, b, k)
  }

  lemma {:induction false} LessIsBefore(a: string, b: string)
    ensures Less(a, b) <==> Before(a, b)
  {
    if a == "" || b == "" || a[0] != b[0] {
      assert b != "" && (a == "" || a[0] < b[0]) ==> PartsAt(a, b, 0);
      assert a != "" && b != "" ==> forall k: nat :: 0 < k <= |a| && k <= |b| ==> a[..k][0] != b[..k][0];
    } else {
      LessIsBefore(a[1..], b[1..]);
      if k: nat :| PartsAt(a[1..], b[1..], k) {
        assert a[..k + 1] == [a[0]] + a[1..][..k] && b[..k + 1] == [b[0]] + b[1..][..k];
        assert PartsAt(a, b, k + 1);
      }
      if k: nat :| PartsAt(a, b, k) {
        assert k > 0 && a[1..][..k - 1] == a[..k][1..] && b[1..][..k - 1] == b[..k][1..];
        assert PartsAt(a[1..], b[1..], k - 1);
      }
    }
  }

  lemma {:induction false} LessCommonPrefix(p: string, a: string, b: string)
    ensures Less(p + a, p + b) <==> Less(a, b)
  {
    if p == "" {
      assert p + a == a && p + b == b;
    } else {
      LessCommonPrefix(p[1..], a, b);
      assert (p + a)[1..] == p[1..] + a && (p + b)[1..] == p[1..] + b;
    }
  }

  lemma {:induction false} LessTotal(a: string, b: string)
    ensures Less(a, b) || Less(b, a) || a == b
    ensures !(Less(a, b) && Less(b, a))
    ensures !Less(a, a)
  {
    if a != "" && b != "" && a[0] == b[0] {
      LessTotal(a[1..], b[1..]);
      assert a == [a[0]] + a[1..] && b == [b[0]] + b[1..];
    }
    LessIrreflexive(a);
  }

  lemma {:induction false} LessIrreflexive(a: string)
    ensures !Less(a, a)
  {
    if a != "" {
      LessIrreflexive(a[1..]);
    }
  }

  lemma {:induction false} LessTransitive(a: string, b: string, c: string)
    requires Less(a, b) && Less(b, c)
    ensures Less(a, c)
  {
    if a != "" && a[0] == b[0] && b[0] == c[0] {
      LessTransitive(a[1..], b[1..], c[1..]);
    }
  }
}
