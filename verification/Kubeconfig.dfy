/** The two-pass rewrite of the kubeconfig's server address (k3s.go). */
module Kubeconfig {
  import opened GoStrings
  import opened Ports

  const LOOPBACK := "https://127.0.0.1:6443"
  const LOCALHOST := "https://localhost:6443"

  function ServerAddr(hp: HostPort): string {
    "https://" + HostPortString(hp)
  }

  /** What `rewriteKubeconfig` writes. */
  function Rewrite(text: string, hp: HostPort): string {
    ReplaceAll(ReplaceAll(text, LOOPBACK, ServerAddr(hp)), LOCALHOST, ServerAddr(hp))
  }

  /** Both addresses replaced in one pass over the original text. */
  function ReplaceBoth(s: string, a: string, b: string, new_: string): string
    requires |a| > 0 && |b| > 0
    decreases |s|
  {
    if s == "" then ""
    else if a <= s then new_ + ReplaceBoth(s[|a|..], a, b, new_)
    else if b <= s then new_ + ReplaceBoth(s[|b|..], a, b, new_)
    else [s[0]] + ReplaceBoth(s[1..], a, b, new_)
  }

  // ----- overlaps -----

  /** One of the two is a prefix of the other. */
  predicate Comparable(a: string, b: string) {
    a <= b || b <= a
  }

  /** An occurrence of `b` cannot start strictly inside `a`, not even if it runs over the end of `a`. */
  ghost predicate NoOverlap(a: string, b: string) {
    forall j :: 0 < j < |a| ==> !Comparable(a[j..], b)
  }

  lemma PrefixOfConcat(p: string, a: string, t: string)
    requires p <= a + t
    ensures Comparable(p, a)
  {
    if |p| <= |a| {
      assert p == (a + t)[..|p|] == a[..|p|];
    } else {
      assert a == (a + t)[..|a|] == p[..|a|];
    }
  }

  /** A text that `old_` can neither start in nor overlap is passed over unchanged. */
  lemma {:induction false} ReplaceSkips(a: string, t: string, old_: string, new_: string)
    requires |old_| > 0
    requires forall j :: 0 <= j < |a| ==> !Comparable(a[j..], old_)
    ensures ReplaceAll(a + t, old_, new_) == a + ReplaceAll(t, old_, new_)
    decreases |a|
  {
    if a == "" {
      assert a + t == t;
    } else {
      assert a[0..] == a;
      if old_ <= a + t {
        PrefixOfConcat(old_, a, t);
        assert false;
      }
      assert (a + t)[1..] == a[1..] + t;
      forall j | 0 <= j < |a[1..]| ensures !Comparable(a[1..][j..], old_) {
        assert a[1..][j..] == a[j + 1..];
      }
      ReplaceSkips(a[1..], t, old_, new_);
      assert a == [a[0]] + a[1..];
    }
  }

  /** If no end of `p` can meet the new text, `p` starts the result only if it started the original. */
  lemma {:induction false} ReplacedPrefix(p: string, t: string, old_: string, new_: string)
    requires |old_| > 0 && p <= ReplaceAll(t, old_, new_)
    requires forall k :: 0 <= k < |p| ==> !Comparable(p[k..], new_)
    ensures p <= t
    decreases |p|
  {
    if p != "" {
      assert p[0..] == p;
      if old_ <= t {
        PrefixOfConcat(p, new_, ReplaceAll(t[|old_|..], old_, new_));
        assert false;
      }
      assert p[1..] <= ReplaceAll(t[1..], old_, new_);
      forall k | 0 <= k < |p[1..]| ensures !Comparable(p[1..][k..], new_) {
        assert p[1..][k..] == p[k + 1..];
      }
      ReplacedPrefix(p[1..], t[1..], old_, new_);
    }
  }

  /** The texts involved do not overlap in any harmful way. */
  ghost predicate Apart(a: string, b: string, new_: string) {
    && |a| > 0 && |b| > 0 && |new_| > 0
    && !Comparable(a, b) && NoOverlap(b, a)
    && !Comparable(new_, b) && NoOverlap(new_, b) && NoOverlap(b, new_)
  }

  /** Then replacing `a` and after that `b` is replacing both at once. */
  lemma {:induction false} TwoPasses(s: string, a: string, b: string, new_: string)
    requires Apart(a, b, new_)
    ensures ReplaceAll(ReplaceAll(s, a, new_), b, new_) == ReplaceBoth(s, a, b, new_)
    decreases |s|
  {
    if s == "" {
    } else if a <= s {
      TwoPasses(s[|a|..], a, b, new_);
      assert new_[0..] == new_;
      ReplaceSkips(new_, ReplaceAll(s[|a|..], a, new_), b, new_);
    } else if b <= s {
      var rest := s[|b|..];
      TwoPasses(rest, a, b, new_);
      assert s == b + rest && b[0..] == b;
      ReplaceSkips(b, rest, a, new_);
      assert (b + ReplaceAll(rest, a, new_))[|b|..] == ReplaceAll(rest, a, new_);
    } else {
      var first := ReplaceAll(s, a, new_);
      TwoPasses(s[1..], a, b, new_);
      assert first == [s[0]] + ReplaceAll(s[1..], a, new_);
      if b <= first {
        assert b[1..] <= first[1..] == ReplaceAll(s[1..], a, new_);
        forall k | 0 <= k < |b[1..]| ensures !Comparable(b[1..][k..], new_) {
          assert b[1..][k..] == b[k + 1..];
        }
        ReplacedPrefix(b[1..], s[1..], a, new_);
        assert false;
      }
      assert first[1..] == ReplaceAll(s[1..], a, new_);
    }
  }

  // ----- nothing old remains -----

  lemma {:induction false} BothPrefix(p: string, t: string, a: string, b: string, new_: string)
    requires |a| > 0 && |b| > 0 && p <= ReplaceBoth(t, a, b, new_)
    requires forall k :: 0 <= k < |p| ==> !Comparable(p[k..], new_)
    ensures p <= t
    decreases |p|
  {
    if p != "" {
      assert p[0..] == p;
      if a <= t {
        PrefixOfConcat(p, new_, ReplaceBoth(t[|a|..], a, b, new_));
        assert false;
      }
      if b <= t {
        PrefixOfConcat(p, new_, ReplaceBoth(t[|b|..], a, b, new_));
        assert false;
      }
      assert p[1..] <= ReplaceBoth(t[1..], a, b, new_);
      forall k | 0 <= k < |p[1..]| ensures !Comparable(p[1..][k..], new_) {
        assert p[1..][k..] == p[k + 1..];
      }
      BothPrefix(p[1..], t[1..], a, b, new_);
    }
  }

  /** The new address neither contains `p` nor helps to form it. */
  ghost predicate Harmless(new_: string, p: string) {
    !Comparable(new_, p) && NoOverlap(new_, p) && NoOverlap(p, new_)
  }

  /** `p` starts nowhere in `s`. */
  ghost predicate Free(s: string, p: string) {
    forall i :: 0 <= i <= |s| ==> !(p <= s[i..])
  }

  lemma FreeIsClean(s: string, p: string)
    ensures Free(s, p) <==> !Contains(s, p)
  {
  }

  lemma FreeAfter(new_: string, t: string, p: string)
    requires Harmless(new_, p) && Free(t, p)
    ensures Free(new_ + t, p)
  {
    forall i | 0 <= i <= |new_ + t| ensures !(p <= (new_ + t)[i..]) {
      if i < |new_| {
        assert (new_ + t)[i..] == new_[i..] + t;
        assert new_[0..] == new_;
        if p <= new_[i..] + t {
          PrefixOfConcat(p, new_[i..], t);
        }
      } else {
        assert (new_ + t)[i..] == t[i - |new_|..];
      }
    }
  }

  lemma FreeStep(c: char, t: string, p: string)
    requires Free(t, p) && !(p <= [c] + t)
    ensures Free([c] + t, p)
  {
    forall i | 0 <= i <= |[c] + t| ensures !(p <= ([c] + t)[i..]) {
      if i > 0 {
        assert ([c] + t)[i..] == t[i - 1..];
      } else {
        assert ([c] + t)[0..] == [c] + t;
      }
    }
  }

  lemma {:induction false} NoneLeft(s: string, a: string, b: string, new_: string, p: string)
    requires |a| > 0 && |b| > 0 && Harmless(new_, p) && (p == a || p == b)
    ensures Free(ReplaceBoth(s, a, b, new_), p)
    decreases |s|
  {
    if s == "" {
    } else if a <= s {
      NoneLeft(s[|a|..], a, b, new_, p);
      FreeAfter(new_, ReplaceBoth(s[|a|..], a, b, new_), p);
    } else if b <= s {
      NoneLeft(s[|b|..], a, b, new_, p);
      FreeAfter(new_, ReplaceBoth(s[|b|..], a, b, new_), p);
    } else {
      var t := ReplaceBoth(s[1..], a, b, new_);
      NoneLeft(s[1..], a, b, new_, p);
      if p <= [s[0]] + t {
        assert p[1..] <= t by { assert ([s[0]] + t)[1..] == t; }
        forall k | 0 <= k < |p[1..]| ensures !Comparable(p[1..][k..], new_) {
          assert p[1..][k..] == p[k + 1..];
        }
        BothPrefix(p[1..], s[1..], a, b, new_);
        assert false;
      }
      FreeStep(s[0], t, p);
    }
  }

  // ----- the addresses at hand -----

  predicate StartsScheme(s: string, j: nat) {
    j + 1 < |s| && s[j] == 'h' && s[j + 1] == 't'
  }

  /** What matters of an old address, as far as overlaps go. */
  ghost predicate OldAddress(s: string) {
    && |s| >= 8 && s[0] == 'h' && s[1] == 't' && s[5] == ':' && s[6] == '/'
    && (forall i :: 0 <= i < 6 ==> !IsDigit(s[i]))
    && s[|s| - 1] != 'h' && forall j: nat :: 0 < j ==> !StartsScheme(s, j)
  }

  lemma OldAddresses()
    ensures OldAddress(LOOPBACK) && OldAddress(LOCALHOST) && !Comparable(LOOPBACK, LOCALHOST)
    ensures |LOOPBACK| == |LOCALHOST|
  {
    assert LOOPBACK[8] == '1' && LOCALHOST[8] == 'l';
  }

  lemma OldNoOverlap(old_: string, s: string)
    requires OldAddress(old_) && |s| >= 2 && s[0] == 'h' && s[1] == 't'
    ensures NoOverlap(old_, s)
  {
    forall j | 0 < j < |old_| ensures !Comparable(old_[j..], s) {
      var t := old_[j..];
      assert !StartsScheme(old_, j);
      assert t[0] == old_[j] && (|t| >= 2 ==> t[1] == old_[j + 1]);
    }
  }

  /** Colons occur in a server address only after the scheme and before the port. */
  lemma AddrShape(hp: HostPort)
    requires ':' !in hp.host && '/' !in hp.host
    ensures var n := ServerAddr(hp);
      && |n| >= 10 && n[0] == 'h' && n[1] == 't' && IsDigit(n[|n| - 1])
      && forall i :: 0 <= i < |n| - 1 && i != 5 && n[i] == ':' ==> n[i + 1] != '/'
  {
    var scheme, digits := "https://", FormatUint(hp.port);
    var n := ServerAddr(hp);
    assert n == scheme + (hp.host + ":" + digits);
    assert forall i :: 0 <= i < 8 ==> n[i] == scheme[i];
    assert forall i :: 0 <= i < |hp.host| ==> n[8 + i] == hp.host[i];
    assert n[8 + |hp.host|] == ':';
    assert forall i :: 0 <= i < |digits| ==> n[9 + |hp.host| + i] == digits[i];
  }

  lemma NewNoOverlap(hp: HostPort, old_: string)
    requires ':' !in hp.host && '/' !in hp.host && OldAddress(old_)
    ensures NoOverlap(ServerAddr(hp), old_)
  {
    var n := ServerAddr(hp);
    AddrShape(hp);
    forall j | 0 < j < |n| ensures !Comparable(n[j..], old_) {
      var t := n[j..];
      assert t[|t| - 1] == n[|n| - 1];
      if |t| >= 7 {
        assert t[5] == n[j + 5] && t[6] == n[j + 6];
      }
    }
  }

  lemma ColonComparable(x: string, u: string, y: string, v: string)
    requires ':' !in x && ':' !in y
    ensures Comparable(x + ":" + u, y + ":" + v) <==> x == y && Comparable(u, v)
  {
    var s, t := x + ":" + u, y + ":" + v;
    assert s[|x|] == ':' && t[|y|] == ':';
    assert s[..|x|] == x && t[..|y|] == y;
    assert s[|x| + 1..] == u && t[|y| + 1..] == v;
    assert |x| < |y| ==> t[|x|] == y[|x|];
    assert |y| < |x| ==> s[|y|] == x[|y|];
  }

  lemma SchemeComparable(p: string, s: string, t: string)
    ensures Comparable(p + s, p + t) <==> Comparable(s, t)
  {
    assert (p + s)[|p|..] == s && (p + t)[|p|..] == t;
    if Comparable(s, t) {
      assert s <= t ==> p + s <= p + t;
      assert t <= s ==> p + t <= p + s;
    }
  }

  /** The new address clashes with an old one exactly when the hosts are equal and one port number, written in
      decimal, is a prefix of the other. */
  lemma AddrComparable(hp: HostPort, host: string)
    requires ':' !in hp.host && ':' !in host
    ensures Comparable(ServerAddr(hp), "https://" + (host + ":" + "6443")) <==>
      hp.host == host && Comparable(FormatUint(hp.port), "6443")
  {
    SchemeComparable("https://", HostPortString(hp), host + ":" + "6443");
    ColonComparable(hp.host, FormatUint(hp.port), host, "6443");
  }

  predicate PortClash(hp: HostPort) {
    Comparable(FormatUint(hp.port), "6443")
  }

  lemma Clashes(hp: HostPort)
    requires ':' !in hp.host
    ensures Comparable(ServerAddr(hp), LOOPBACK) <==> hp.host == "127.0.0.1" && PortClash(hp)
    ensures Comparable(ServerAddr(hp), LOCALHOST) <==> hp.host == "localhost" && PortClash(hp)
  {
    var a, b := "127.0.0.1", "localhost";
    assert ':' !in a && ':' !in b;
    assert LOOPBACK == "https://" + (a + ":" + "6443");
    assert LOCALHOST == "https://" + (b + ":" + "6443");
    AddrComparable(hp, a);
    AddrComparable(hp, b);
  }

  lemma Harmlessness(hp: HostPort, old_: string)
    requires ':' !in hp.host && '/' !in hp.host && OldAddress(old_) && !Comparable(ServerAddr(hp), old_)
    ensures Harmless(ServerAddr(hp), old_)
  {
    AddrShape(hp);
    NewNoOverlap(hp, old_);
    OldNoOverlap(old_, ServerAddr(hp));
  }

  lemma AddressesApart(hp: HostPort)
    requires ':' !in hp.host && '/' !in hp.host && !Comparable(ServerAddr(hp), LOCALHOST)
    ensures Apart(LOOPBACK, LOCALHOST, ServerAddr(hp))
  {
    OldAddresses();
    Harmlessness(hp, LOCALHOST);
    OldNoOverlap(LOCALHOST, LOOPBACK);
  }

  // ----- small cases -----

  lemma {:induction false} ReplaceShort(s: string, old_: string, new_: string)
    requires |s| < |old_|
    ensures ReplaceAll(s, old_, new_) == s
  {
    if s != "" {
      ReplaceShort(s[1..], old_, new_);
      assert s == [s[0]] + s[1..];
    }
  }

  lemma {:induction false} BothShort(s: string, a: string, b: string, new_: string)
    requires |s| < |a| && |s| < |b|
    ensures ReplaceBoth(s, a, b, new_) == s
  {
    if s != "" {
      BothShort(s[1..], a, b, new_);
      assert s == [s[0]] + s[1..];
    }
  }

  lemma {:induction false} ReplaceFirst(old_: string, rest: string, new_: string)
    requires |rest| < |old_|
    ensures ReplaceAll(old_ + rest, old_, new_) == new_ + rest
  {
    assert (old_ + rest)[|old_|..] == rest;
    ReplaceShort(rest, old_, new_);
  }

  lemma {:induction false} ReplaceSelf(s: string, old_: string)
    requires |old_| > 0
    ensures ReplaceAll(s, old_, old_) == s
    decreases |s|
  {
    if s == "" {
    } else if old_ <= s {
      ReplaceSelf(s[|old_|..], old_);
      assert s == old_ + s[|old_|..];
    } else {
      ReplaceSelf(s[1..], old_);
      assert s == [s[0]] + s[1..];
    }
  }

  lemma {:induction false} BothSelf(s: string, a: string, b: string)
    requires |a| > 0 && |b| > 0 && !Comparable(a, b) && NoOverlap(b, a)
    ensures ReplaceBoth(s, a, b, b) == ReplaceAll(s, a, b)
    decreases |s|
  {
    if s == "" {
    } else if a <= s {
      BothSelf(s[|a|..], a, b);
    } else if b <= s {
      var rest := s[|b|..];
      BothSelf(rest, a, b);
      assert s == b + rest && b[0..] == b;
      ReplaceSkips(b, rest, a, b);
    } else {
      BothSelf(s[1..], a, b);
    }
  }

  /** A text whose first replacement completes an occurrence for the second pass. */
  lemma TwiceRewritten(n: string) returns (text: string)
    requires n != "" && Comparable(n, LOCALHOST) && n != LOCALHOST
    ensures ReplaceAll(ReplaceAll(text, LOOPBACK, n), LOCALHOST, n) != ReplaceBoth(text, LOOPBACK, LOCALHOST, n)
  {
    OldAddresses();
    var a, b := LOOPBACK, LOCALHOST;
    if b <= n {
      text := a;
      var tail := n[|b|..];
      assert ReplaceAll(a, a, n) == n by { ReplaceFirst(a, "", n); assert a + "" == a && n + "" == n; }
      assert ReplaceBoth(a, a, b, n) == n by { assert a[|a|..] == "" && n + "" == n; }
      assert ReplaceAll(n, b, n) == n + ReplaceAll(tail, b, n);
      ReplaceNonEmpty(tail, b, n);
    } else {
      var rest := b[|n|..];
      text := a + rest;
      assert b == n + rest;
      ReplaceFirst(a, rest, n);
      ReplaceFirst(b, "", n);
      assert b + "" == b && n + "" == n;
      assert text[|a|..] == rest;
      BothShort(rest, a, b, n);
      assert ReplaceBoth(text, a, b, n) == n + rest;
    }
  }

  lemma ReplaceNonEmpty(s: string, old_: string, new_: string)
    requires s != "" && |old_| > 0 && new_ != ""
    ensures ReplaceAll(s, old_, new_) != ""
  {
  }

  // ----- the results -----

  /** The two passes do what one simultaneous replacement does, for every text, unless the new address is on
      `localhost` and its port merely begins like 6443, or 6443 like it. */
  lemma RewriteIsSimultaneousExactly(hp: HostPort)
    requires ':' !in hp.host && '/' !in hp.host
    ensures (forall text :: Rewrite(text, hp) == ReplaceBoth(text, LOOPBACK, LOCALHOST, ServerAddr(hp))) <==>
      !(hp.host == "localhost" && PortClash(hp) && ServerAddr(hp) != LOCALHOST)
  {
    var n := ServerAddr(hp);
    hide ServerAddr, PortClash;
    OldAddresses();
    Clashes(hp);
    if n == LOCALHOST {
      OldNoOverlap(LOCALHOST, LOOPBACK);
      forall text ensures Rewrite(text, hp) == ReplaceBoth(text, LOOPBACK, LOCALHOST, n) {
        ReplaceSelf(ReplaceAll(text, LOOPBACK, n), LOCALHOST);
        BothSelf(text, LOOPBACK, LOCALHOST);
      }
    } else if !Comparable(n, LOCALHOST) {
      AddressesApart(hp);
      forall text ensures Rewrite(text, hp) == ReplaceBoth(text, LOOPBACK, LOCALHOST, n) {
        TwoPasses(text, LOOPBACK, LOCALHOST, n);
      }
    } else {
      var text := TwiceRewritten(n);
      assert Rewrite(text, hp) != ReplaceBoth(text, LOOPBACK, LOCALHOST, n);
    }
  }

  ghost predicate Clean(s: string) {
    !Contains(s, LOOPBACK) && !Contains(s, LOCALHOST)
  }

  lemma LeftAtStart(n: string, p: string, rest: string)
    requires Comparable(n, p) && rest == if n <= p then p[|n|..] else ""
    ensures Contains(n + rest, p)
  {
    var out := n + rest;
    assert out[0..] == out;
    if n <= p {
      assert out == p;
    } else {
      assert out[..|p|] == n[..|p|];
    }
  }

  /** A clash with the second address leaves it in some rewritten text. */
  lemma SecondLeft(a: string, b: string, n: string) returns (text: string)
    requires n != "" && |a| == |b| > 0 && Comparable(n, b) && !Comparable(b, a) && NoOverlap(b, a)
    ensures Contains(ReplaceAll(ReplaceAll(text, a, n), b, n), b)
  {
    var rest := if n <= b then b[|n|..] else "";
    text := b + rest;
    assert b[0..] == b;
    ReplaceSkips(b, rest, a, n);
    ReplaceShort(rest, a, n);
    ReplaceFirst(b, rest, n);
    LeftAtStart(n, b, rest);
  }

  /** Likewise for the first, which the second pass does not touch. */
  lemma FirstLeft(a: string, b: string, n: string) returns (text: string)
    requires n != "" && |a| == |b| > 0 && Comparable(n, a) && !Comparable(n, b) && NoOverlap(n, b)
    ensures Contains(ReplaceAll(ReplaceAll(text, a, n), b, n), a)
  {
    var rest := if n <= a then a[|n|..] else "";
    text := a + rest;
    ReplaceFirst(a, rest, n);
    assert n[0..] == n;
    ReplaceSkips(n, rest, b, n);
    ReplaceShort(rest, b, n);
    LeftAtStart(n, a, rest);
  }

  /** The written kubeconfig is free of both loopback addresses, for every text, unless the new address is on one
      of the two hosts with a port that begins like 6443, or that 6443 begins like. */
  lemma RewriteIsCleanExactly(hp: HostPort)
    requires ':' !in hp.host && '/' !in hp.host
    ensures (forall text :: Clean(Rewrite(text, hp))) <==>
      !((hp.host == "127.0.0.1" || hp.host == "localhost") && PortClash(hp))
  {
    hide ServerAddr, PortClash;
    var n := ServerAddr(hp);
    OldAddresses();
    Clashes(hp);
    AddrShape(hp);
    NewNoOverlap(hp, LOCALHOST);
    if Comparable(n, LOCALHOST) {
      OldNoOverlap(LOCALHOST, LOOPBACK);
      var text := SecondLeft(LOOPBACK, LOCALHOST, n);
      assert !Clean(Rewrite(text, hp));
    } else if Comparable(n, LOOPBACK) {
      var text := FirstLeft(LOOPBACK, LOCALHOST, n);
      assert !Clean(Rewrite(text, hp));
    } else {
      forall text ensures Clean(Rewrite(text, hp)) {
        AddressesApart(hp);
        TwoPasses(text, LOOPBACK, LOCALHOST, n);
        Harmlessness(hp, LOOPBACK);
        Harmlessness(hp, LOCALHOST);
        NoneLeft(text, LOOPBACK, LOCALHOST, n, LOOPBACK);
        NoneLeft(text, LOOPBACK, LOCALHOST, n, LOCALHOST);
        FreeIsClean(Rewrite(text, hp), LOOPBACK);
        FreeIsClean(Rewrite(text, hp), LOCALHOST);
      }
    }
  }

  // ----- both failures, at an input -----

  lemma Digits6443()
    ensures FormatUint(6443) == "6443"
  {
    assert FormatUint(64) == "64";
    assert FormatUint(644) == "64" + "4";
    assert FormatUint(6443) == FormatUint(644) + "3";
  }

  lemma {:induction false} OneMoreDigit(n: nat)
    requires n > 0
    ensures FormatUint(n * 10) == FormatUint(n) + "0"
  {
  }

  lemma Addr64430(host: string)
    ensures ServerAddr(HostPort(host, 64430)) == "https://" + host + ":" + "6443" + "0"
  {
    Digits6443();
    OneMoreDigit(6443);
    var scheme, colon, digits, zero := "https://", ":", "6443", "0";
    assert scheme + (host + colon + (digits + zero)) == scheme + host + colon + digits + zero;
  }

  lemma LoopbackAddr()
    ensures ServerAddr(HostPort("127.0.0.1", 64430)) == LOOPBACK + "0"
  {
    var host := "127.0.0.1";
    Addr64430(host);
    assert "https://" + host + ":" + "6443" == LOOPBACK;
  }

  lemma PlainHost(host: string)
    requires host == "127.0.0.1"
    ensures ':' !in host && '/' !in host && host != "localhost"
  {
    assert |"localhost"| == 9 && "localhost"[0] == 'l';
  }

  lemma LoopbackHarmless()
    ensures var n := ServerAddr(HostPort("127.0.0.1", 64430)); !Comparable(n, LOCALHOST) && NoOverlap(n, LOCALHOST)
  {
    hide ServerAddr, LOOPBACK, LOCALHOST, OldAddress, Comparable, NoOverlap;
    OldAddresses();
    var host := "127.0.0.1";
    PlainHost(host);
    Clashes(HostPort(host, 64430));
    NewNoOverlap(HostPort(host, 64430), LOCALHOST);
  }

  /** On host port 64430 the rewritten loopback address begins with the old one. */
  lemma LoopbackRemains()
    ensures Rewrite(LOOPBACK, HostPort("127.0.0.1", 64430)) == LOOPBACK + "0"
    ensures !Clean(Rewrite(LOOPBACK, HostPort("127.0.0.1", 64430)))
  {
    LoopbackAddr();
    LoopbackHarmless();
    OldAddresses();
    hide ServerAddr, LOOPBACK, LOCALHOST, OldAddress;
    var n := ServerAddr(HostPort("127.0.0.1", 64430));
    RewrittenAlone(LOOPBACK, LOCALHOST, n);
    assert n[0..] == n && LOOPBACK <= n[0..];
  }

  lemma RewrittenAlone(a: string, b: string, n: string)
    requires a != "" && b != "" && !Comparable(n, b) && NoOverlap(n, b)
    ensures ReplaceAll(ReplaceAll(a, a, n), b, n) == n
  {
    ReplaceFirst(a, "", n);
    assert a + "" == a && n + "" == n && n[0..] == n;
    ReplaceSkips(n, "", b, n);
  }

  /** The first pass completes an occurrence for the second. */
  lemma RewrittenAgain(a: string, b: string, n: string)
    requires a != "" && |b| > 1 && n == b + "0"
    ensures ReplaceAll(ReplaceAll(a, a, n), b, n) == n + "0" && ReplaceBoth(a, a, b, n) == n
  {
    assert a + "" == a && n + "" == n && a[|a|..] == "";
    ReplaceFirst(a, "", n);
    ReplaceFirst(b, "0", n);
  }

  /** On `localhost` the second pass rewrites what the first one wrote. */
  lemma LocalhostRewrittenTwice()
    ensures var hp := HostPort("localhost", 64430);
      && Rewrite(LOOPBACK, hp) == LOCALHOST + "0" + "0"
      && ReplaceBoth(LOOPBACK, LOOPBACK, LOCALHOST, ServerAddr(hp)) == LOCALHOST + "0"
  {
    var host := "localhost";
    Addr64430(host);
    assert "https://" + host + ":" + "6443" == LOCALHOST;
    assert LOOPBACK != "" && |LOCALHOST| > 1;
    hide ServerAddr, LOOPBACK, LOCALHOST;
    RewrittenAgain(LOOPBACK, LOCALHOST, ServerAddr(HostPort(host, 64430)));
  }
}
