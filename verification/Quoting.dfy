/** Database and keyspace names in statements (postgres.go, mysql.go, scylladb.go): validation and quoting. A
    delimited identifier runs to the first quote character that is not doubled; see section 5.2 of ISO/IEC 9075-2
    and, for PostgreSQL, section 4.1.1 of its manual. */
module Quoting {
  import opened GoStrings

  /** The three wrappers differ in the quote character, the longest name, and whether '$' may follow the start. */
  datatype Dialect = Dialect(quote: char, maxLen: nat, dollar: bool)

  const POSTGRES := Dialect('"', 63, false)
  const MYSQL := Dialect('`', 64, true)
  const SCYLLA := Dialect('"', 48, false)

  // ----- validation -----

  predicate Allowed(d: Dialect, name: string, i: nat)
    requires i < |name|
  {
    || 'a' <= name[i] <= 'z' || 'A' <= name[i] <= 'Z' || '0' <= name[i] <= '9' || name[i] == '_'
    || (d.dollar && i > 0 && name[i] == '$')
  }

  ghost predicate ValidName(d: Dialect, name: string) {
    0 < |name| <= d.maxLen && forall i: nat :: i < |name| ==> Allowed(d, name, i)
  }

  /** `NotAllowed` says where the offending character starts; everything before it is one byte wide. */
  datatype Verdict = Valid | Empty | TooLong | NotAllowed(at: nat)

  method ValidateName(d: Dialect, name: string) returns (v: Verdict)
    ensures v.Valid? <==> ValidName(d, name)
    ensures v.Empty? <==> name == ""
    ensures v.TooLong? <==> name != "" && |name| > d.maxLen
    ensures v.NotAllowed? ==> v.at < |name| && !Allowed(d, name, v.at)
    ensures v.NotAllowed? ==> forall j: nat :: j < v.at ==> Allowed(d, name, j)
  {
    if name == "" {
      return Empty;
    }
    if |name| > d.maxLen {
      return TooLong;
    }
    for i := 0 to |name|
      invariant forall j: nat :: j < i ==> Allowed(d, name, j)
    {
      if !Allowed(d, name, i) {
        return NotAllowed(i);
      }
    }
    return Valid;
  }

  /** A byte of a plain identifier, by its ASCII code: a digit, a letter or an underscore. */
  predicate IdentifierByte(code: int) {
    48 <= code <= 57 || 65 <= code <= 90 || code == 95 || 97 <= code <= 122
  }

  /** What each wrapper accepts: PostgreSQL 1 to 63 identifier bytes, ScyllaDB 1 to 48, MySQL 1 to 64, and there also
      dollar signs, but not in front. */
  lemma NamesExactly(name: string)
    ensures ValidName(POSTGRES, name) <==>
      1 <= |name| <= 63 && forall i :: 0 <= i < |name| ==> IdentifierByte(name[i] as int)
    ensures ValidName(SCYLLA, name) <==>
      1 <= |name| <= 48 && forall i :: 0 <= i < |name| ==> IdentifierByte(name[i] as int)
    ensures ValidName(MYSQL, name) <==>
      && 1 <= |name| <= 64
      && forall i :: 0 <= i < |name| ==> IdentifierByte(name[i] as int) || (i > 0 && name[i] as int == 36)
  {
    forall i: nat | i < |name|
      ensures Allowed(POSTGRES, name, i) <==> IdentifierByte(name[i] as int)
      ensures Allowed(SCYLLA, name, i) <==> IdentifierByte(name[i] as int)
      ensures Allowed(MYSQL, name, i) <==> IdentifierByte(name[i] as int) || (i > 0 && name[i] as int == 36)
    {
      Codes(name[i]);
    }
  }

  lemma Codes(c: char)
    ensures IdentifierByte(c as int) <==> 'a' <= c <= 'z' || 'A' <= c <= 'Z' || '0' <= c <= '9' || c == '_'
    ensures c as int == 36 <==> c == '$'
  {
    assert 'a' as int == 97 && 'z' as int == 122 && 'A' as int == 65 && 'Z' as int == 90;
    assert '0' as int == 48 && '9' as int == 57 && '_' as int == 95 && '$' as int == 36;
  }

  // ----- quoting -----

  function Quote(q: char, name: string): string {
    [q] + ReplaceAll(name, [q], [q, q]) + [q]
  }

  /** The body of a delimited identifier, and what follows its closing quote. */
  function LexBody(q: char, s: string): Option<(string, string)>
    decreases |s|
  {
    if s == "" then None
    else if s[0] != q then
      match LexBody(q, s[1..])
      case None => None
      case Some((name, rest)) => Some(([s[0]] + name, rest))
    else if |s| >= 2 && s[1] == q then
      match LexBody(q, s[2..])
      case None => None
      case Some((name, rest)) => Some(([q] + name, rest))
    else Some(("", s[1..]))
  }

  function LexIdentifier(q: char, s: string): Option<(string, string)> {
    if s != "" && s[0] == q then LexBody(q, s[1..]) else None
  }

  predicate StartsWith(s: string, c: char) {
    s != "" && s[0] == c
  }

  lemma {:induction false} BodyRoundTrip(q: char, name: string, rest: string)
    requires !StartsWith(rest, q)
    ensures LexBody(q, ReplaceAll(name, [q], [q, q]) + [q] + rest) == Some((name, rest))
  {
    var body := ReplaceAll(name, [q], [q, q]);
    var s := body + [q] + rest;
    if name == "" {
      assert s == [q] + rest && s[1..] == rest;
    } else {
      var tail := ReplaceAll(name[1..], [q], [q, q]) + [q] + rest;
      BodyRoundTrip(q, name[1..], rest);
      assert name == [name[0]] + name[1..];
      if name[0] == q {
        assert name[|[q]|..] == name[1..];
        assert s == [q, q] + tail && s[2..] == tail;
      } else {
        assert s == [name[0]] + tail && s[1..] == tail;
      }
    }
  }

  /** Only quoted text lexes: the lexer's answer determines its input. */
  lemma {:induction false} BodyOnlyQuoted(q: char, s: string)
    requires LexBody(q, s).Some?
    ensures var (name, rest) := LexBody(q, s).value;
      s == ReplaceAll(name, [q], [q, q]) + [q] + rest && !StartsWith(rest, q)
    decreases |s|
  {
    hide ReplaceAll;
    var (name, rest) := LexBody(q, s).value;
    if s[0] != q {
      BodyOnlyQuoted(q, s[1..]);
      assert s == [s[0]] + s[1..];
      DoubledCons(q, s[0], name, name[1..]);
    } else if |s| >= 2 && s[1] == q {
      BodyOnlyQuoted(q, s[2..]);
      assert s == [q, q] + s[2..];
      DoubledCons(q, q, name, name[1..]);
    } else {
      DoubledNone(q);
      assert s == [q] + s[1..];
    }
  }

  lemma DoubledNone(q: char)
    ensures ReplaceAll("", [q], [q, q]) == ""
  {
  }

  lemma DoubledCons(q: char, c: char, name: string, tail: string)
    requires name == [c] + tail
    ensures ReplaceAll(name, [q], [q, q]) == (if c == q then [q, q] else [c]) + ReplaceAll(tail, [q], [q, q])
  {
    assert name[1..] == tail && name[|[q]|..] == tail;
  }

  /** For every name: a lexer reads back exactly the name from exactly its quoted form, and from nothing else. */
  lemma QuoteRoundTrip(q: char, s: string, name: string, rest: string)
    ensures LexIdentifier(q, s) == Some((name, rest)) <==> s == Quote(q, name) + rest && !StartsWith(rest, q)
  {
    var body := ReplaceAll(name, [q], [q, q]);
    if s == Quote(q, name) + rest && !StartsWith(rest, q) {
      assert s[1..] == body + [q] + rest;
      BodyRoundTrip(q, name, rest);
    }
    if LexIdentifier(q, s) == Some((name, rest)) {
      BodyOnlyQuoted(q, s[1..]);
      assert s == [q] + s[1..];
      assert Quote(q, name) + rest == [q] + (body + [q] + rest);
    }
  }

  lemma QuoteInjective(q: char, a: string, b: string)
    requires Quote(q, a) == Quote(q, b)
    ensures a == b
  {
    QuoteRoundTrip(q, Quote(q, a), a, "");
    QuoteRoundTrip(q, Quote(q, b), b, "");
    assert Quote(q, a) + "" == Quote(q, a) && Quote(q, b) + "" == Quote(q, b);
  }

  lemma {:induction false} NothingToDouble(q: char, name: string)
    requires q !in name
    ensures ReplaceAll(name, [q], [q, q]) == name
  {
    if name != "" {
      NothingToDouble(q, name[1..]);
      assert name == [name[0]] + name[1..];
    }
  }

  /** Validated names contain no quote character, so quoting only wraps them. */
  lemma ValidatedNamesAreWrapped(d: Dialect, name: string)
    requires d in {POSTGRES, MYSQL, SCYLLA} && ValidName(d, name)
    ensures Quote(d.quote, name) == [d.quote] + name + [d.quote]
  {
    forall i: nat | i < |name| ensures name[i] != d.quote {
      assert Allowed(d, name, i);
    }
    NothingToDouble(d.quote, name);
  }

  // ----- statements -----

  function CreateDatabase(d: Dialect, name: string): string {
    "CREATE DATABASE " + Quote(d.quote, name)
  }

  function DropDatabase(d: Dialect, name: string): string {
    "DROP DATABASE " + Quote(d.quote, name)
  }

  const REPLICATION := " WITH replication = " + "{ 'class' : 'SimpleStrategy', " + "'replication_factor' : 1 }"

  function CreateKeyspace(name: string): string {
    "CREATE KEYSPACE " + Quote(SCYLLA.quote, name) + REPLICATION
  }

  function DropKeyspace(name: string): string {
    "DROP KEYSPACE " + Quote(SCYLLA.quote, name)
  }

  datatype Token = Word(text: string) | Identifier(name: string)

  lemma LexShrinks(q: char, s: string)
    ensures LexBody(q, s).Some? ==> |LexBody(q, s).value.1| < |s|
    decreases |s|
  {
  }

  /** How many characters come before the first space or quote character. */
  function WordLength(q: char, s: string): (n: nat)
    ensures n <= |s|
  {
    if s == "" || s[0] == ' ' || s[0] == q then 0 else 1 + WordLength(q, s[1..])
  }

  function Prepend(t: Token, ts: Option<seq<Token>>): Option<seq<Token>> {
    if ts.None? then None else Some([t] + ts.value)
  }

  /** A statement, token by token: delimited identifiers, and words between spaces; None if an identifier is not
      closed. */
  function Tokens(q: char, s: string): Option<seq<Token>>
    decreases |s|
  {
    if s == "" then Some([])
    else if s[0] == ' ' then Tokens(q, s[1..])
    else if s[0] == q then
      match LexIdentifier(q, s)
      case None => None
      case Some((name, rest)) =>
        LexShrinks(q, s[1..]);
        Prepend(Identifier(name), Tokens(q, rest))
    else Prepend(Word(s[..WordLength(q, s)]), Tokens(q, s[WordLength(q, s)..]))
  }

  function Together(a: Option<seq<Token>>, b: Option<seq<Token>>): Option<seq<Token>> {
    if a.None? || b.None? then None else Some(a.value + b.value)
  }

  lemma {:induction false} WordLengthSpace(q: char, x: string, y: string)
    requires q !in x && q != ' '
    ensures WordLength(q, x + " " + y) == WordLength(q, x)
  {
    if x != "" {
      WordLengthSpace(q, x[1..], y);
      assert (x + " " + y)[1..] == x[1..] + " " + y;
    }
  }

  lemma TogetherPrepend(t: Token, a: Option<seq<Token>>, b: Option<seq<Token>>)
    ensures Together(Prepend(t, a), b) == Prepend(t, Together(a, b))
  {
    if a.Some? && b.Some? {
      assert [t] + a.value + b.value == [t] + (a.value + b.value);
    }
  }

  /** A space outside an identifier separates tokens. */
  lemma {:induction false} SpaceSeparates(q: char, x: string, y: string)
    requires q !in x && q != ' '
    ensures Tokens(q, x + " " + y) == Together(Tokens(q, x), Tokens(q, y))
    decreases |x|
  {
    var s := x + " " + y;
    if x == "" {
      assert s[1..] == y;
      assert Tokens(q, y).Some? ==> [] + Tokens(q, y).value == Tokens(q, y).value;
    } else if x[0] == ' ' {
      SpaceSeparates(q, x[1..], y);
      assert s[1..] == x[1..] + " " + y;
    } else {
      var n := WordLength(q, x);
      WordLengthSpace(q, x, y);
      SpaceSeparates(q, x[n..], y);
      assert s[..n] == x[..n] && s[n..] == x[n..] + " " + y;
      TogetherPrepend(Word(x[..n]), Tokens(q, x[n..]), Tokens(q, y));
    }
  }

  lemma {:induction false} WholeWord(q: char, w: string)
    requires q !in w && ' ' !in w
    ensures WordLength(q, w) == |w|
  {
    if w != "" {
      WholeWord(q, w[1..]);
    }
  }

  lemma {:induction false} OneWord(q: char, w: string)
    requires q !in w && ' ' !in w && w != ""
    ensures Tokens(q, w) == Some([Word(w)])
  {
    WholeWord(q, w);
    assert w[..|w|] == w && w[|w|..] == "";
    assert w[0] in w;
    assert [Word(w)] + [] == [Word(w)];
  }

  lemma {:induction false} IdentifierFirst(q: char, name: string, rest: string)
    requires !StartsWith(rest, q) && q != ' '
    ensures Tokens(q, Quote(q, name) + rest) == Prepend(Identifier(name), Tokens(q, rest))
  {
    var s := Quote(q, name) + rest;
    assert s[0] == q;
    QuoteRoundTrip(q, s, name, rest);
  }

  predicate PlainWord(q: char, w: string) {
    w != "" && ' ' !in w && q !in w
  }

  /** Two words, a quoted name, and whatever follows it. */
  lemma {:induction false} StatementTokens(q: char, verb: string, kind: string, name: string, rest: string)
    requires PlainWord(q, verb) && PlainWord(q, kind) && q != ' '
    requires !StartsWith(rest, q) && Tokens(q, rest).Some?
    ensures Tokens(q, verb + " " + kind + " " + Quote(q, name) + rest)
         == Some([Word(verb), Word(kind), Identifier(name)] + Tokens(q, rest).value)
  {
    hide Tokens, Quote, LexIdentifier;
    var tail := Quote(q, name) + rest;
    OneWord(q, verb);
    OneWord(q, kind);
    IdentifierFirst(q, name, rest);
    SpaceSeparates(q, kind, tail);
    SpaceSeparates(q, verb, kind + " " + tail);
    assert verb + " " + kind + " " + Quote(q, name) + rest == verb + " " + (kind + " " + tail);
    assert [Word(verb)] + ([Word(kind)] + ([Identifier(name)] + Tokens(q, rest).value))
        == [Word(verb), Word(kind), Identifier(name)] + Tokens(q, rest).value;
  }

  lemma NoTokens(q: char)
    ensures Tokens(q, "") == Some([])
  {
  }

  lemma {:induction false} ThreeWords(q: char, a: string, b: string, c: string)
    requires PlainWord(q, a) && PlainWord(q, b) && PlainWord(q, c) && q != ' '
    ensures Tokens(q, a + " " + b + " " + c) == Some([Word(a), Word(b), Word(c)])
    ensures q !in a + " " + b + " " + c
  {
    hide Tokens;
    OneWord(q, a);
    OneWord(q, b);
    OneWord(q, c);
    SpaceSeparates(q, b, c);
    SpaceSeparates(q, a, b + " " + c);
    assert a + " " + (b + " " + c) == a + " " + b + " " + c;
    assert [Word(a)] + ([Word(b)] + [Word(c)]) == [Word(a), Word(b), Word(c)];
  }

  lemma {:induction false} FourWords(q: char, a: string, b: string, c: string, d: string)
    requires PlainWord(q, a) && PlainWord(q, b) && PlainWord(q, c) && PlainWord(q, d) && q != ' '
    ensures Tokens(q, a + " " + b + " " + c + " " + d) == Some([Word(a), Word(b), Word(c), Word(d)])
    ensures q !in a + " " + b + " " + c + " " + d
  {
    hide Tokens;
    OneWord(q, a);
    ThreeWords(q, b, c, d);
    SpaceSeparates(q, a, b + " " + c + " " + d);
    assert a + " " + (b + " " + c + " " + d) == a + " " + b + " " + c + " " + d;
    assert [Word(a)] + [Word(b), Word(c), Word(d)] == [Word(a), Word(b), Word(c), Word(d)];
  }

  lemma WithTokens()
    ensures Tokens('"', "WITH replication =") == Some([Word("WITH"), Word("replication"), Word("=")])
    ensures '"' !in "WITH replication ="
  {
    var a, b, c := "WITH", "replication", "=";
    assert a + " " + b + " " + c == "WITH replication =";
    hide Tokens;
    ThreeWords('"', a, b, c);
  }

  lemma ClassWords(a: string, b: string, c: string, d: string)
    requires a == "{" && b == "'class'" && c == ":" && d == "'SimpleStrategy',"
    ensures PlainWord('"', a) && PlainWord('"', b) && PlainWord('"', c) && PlainWord('"', d)
  {
  }

  lemma ClassJoined(a: string, b: string, c: string, d: string)
    requires a == "{" && b == "'class'" && c == ":" && d == "'SimpleStrategy',"
    ensures a + " " + b + " " + c + " " + d == "{ 'class' : 'SimpleStrategy',"
  {
  }

  lemma ClassTokens()
    ensures Tokens('"', "{ 'class' : 'SimpleStrategy',")
         == Some([Word("{"), Word("'class'"), Word(":"), Word("'SimpleStrategy',")])
    ensures '"' !in "{ 'class' : 'SimpleStrategy',"
  {
    hide *;
    var a, b, c, d := "{", "'class'", ":", "'SimpleStrategy',";
    ClassWords(a, b, c, d);
    ClassJoined(a, b, c, d);
    FourWords('"', a, b, c, d);
  }

  lemma FactorTokens()
    ensures Tokens('"', "'replication_factor' : 1 }")
         == Some([Word("'replication_factor'"), Word(":"), Word("1"), Word("}")])
  {
    var a, b, c, d := "'replication_factor'", ":", "1", "}";
    assert a + " " + b + " " + c + " " + d == "'replication_factor' : 1 }";
    hide Tokens;
    FourWords('"', a, b, c, d);
  }

  lemma {:induction false} Glue(q: char, a: string, b: string, c: string, x: seq<Token>, y: seq<Token>, z: seq<Token>)
    requires q != ' ' && q !in a && q !in b
    requires Tokens(q, a) == Some(x) && Tokens(q, b) == Some(y) && Tokens(q, c) == Some(z)
    ensures Tokens(q, " " + (a + " " + (b + " " + c))) == Some(x + (y + z))
  {
    hide Tokens;
    NoTokens(q);
    SpaceSeparates(q, b, c);
    SpaceSeparates(q, a, b + " " + c);
    SpaceSeparates(q, "", a + " " + (b + " " + c));
    assert "" + " " + (a + " " + (b + " " + c)) == " " + (a + " " + (b + " " + c));
    assert [] + (x + (y + z)) == x + (y + z);
  }

  lemma ReplicationIs(a: string, b: string, c: string)
    requires a == "WITH replication =" && b == "{ 'class' : 'SimpleStrategy'," && c == "'replication_factor' : 1 }"
    ensures REPLICATION == " " + (a + " " + (b + " " + c)) && !StartsWith(REPLICATION, '"')
  {
    var x, y := " WITH replication = ", "{ 'class' : 'SimpleStrategy', ";
    assert x == " " + a + " " && y == b + " ";
    assert REPLICATION == x + (y + c);
  }

  /** The replication clause: the simple strategy with one replica. */
  function ReplicationWords(): seq<Token> {
    [Word("WITH"), Word("replication"), Word("=")]
    + ([Word("{"), Word("'class'"), Word(":"), Word("'SimpleStrategy',")]
       + [Word("'replication_factor'"), Word(":"), Word("1"), Word("}")])
  }

  lemma {:induction false} ReplicationTokens()
    ensures Tokens('"', REPLICATION) == Some(ReplicationWords()) && !StartsWith(REPLICATION, '"')
  {
    var a, b, c := "WITH replication =", "{ 'class' : 'SimpleStrategy',", "'replication_factor' : 1 }";
    ReplicationIs(a, b, c);
    WithTokens();
    ClassTokens();
    FactorTokens();
    hide Tokens, REPLICATION;
    Glue('"', a, b, c, Tokens('"', a).value, Tokens('"', b).value, Tokens('"', c).value);
  }

  lemma VerbsPlain(q: char)
    requires q == '"' || q == '`'
    ensures PlainWord(q, "CREATE") && PlainWord(q, "DROP") && PlainWord(q, "DATABASE") && PlainWord(q, "KEYSPACE")
  {
  }

  lemma DatabaseTexts()
    ensures "CREATE" + " " + "DATABASE" + " " == "CREATE DATABASE "
    ensures "DROP" + " " + "DATABASE" + " " == "DROP DATABASE "
  {
  }

  lemma KeyspaceTexts()
    ensures "CREATE" + " " + "KEYSPACE" + " " == "CREATE KEYSPACE "
    ensures "DROP" + " " + "KEYSPACE" + " " == "DROP KEYSPACE "
  {
  }

  lemma WithoutRest(s: string, ts: seq<Token>)
    ensures s + "" == s && ts + [] == ts
  {
  }

  /** Both database statements, token by token, for every name. */
  lemma {:induction false} DatabaseStatementsAre(d: Dialect, name: string)
    requires d in {POSTGRES, MYSQL}
    ensures Tokens(d.quote, CreateDatabase(d, name)) == Some([Word("CREATE"), Word("DATABASE"), Identifier(name)])
    ensures Tokens(d.quote, DropDatabase(d, name)) == Some([Word("DROP"), Word("DATABASE"), Identifier(name)])
  {
    var create, drop, database := "CREATE", "DROP", "DATABASE";
    VerbsPlain(d.quote);
    DatabaseTexts();
    NoTokens(d.quote);
    hide Tokens, PlainWord, Quote;
    StatementTokens(d.quote, create, database, name, "");
    StatementTokens(d.quote, drop, database, name, "");
    WithoutRest(CreateDatabase(d, name), [Word(create), Word(database), Identifier(name)]);
    WithoutRest(DropDatabase(d, name), [Word(drop), Word(database), Identifier(name)]);
  }

  /** And both keyspace statements. */
  lemma {:induction false} KeyspaceStatementsAre(name: string)
    ensures Tokens('"', DropKeyspace(name)) == Some([Word("DROP"), Word("KEYSPACE"), Identifier(name)])
    ensures Tokens('"', CreateKeyspace(name)) ==
            Some([Word("CREATE"), Word("KEYSPACE"), Identifier(name)] + ReplicationWords())
  {
    var create, drop, keyspace := "CREATE", "DROP", "KEYSPACE";
    VerbsPlain('"');
    KeyspaceTexts();
    NoTokens('"');
    ReplicationTokens();
    hide Tokens, PlainWord, Quote, REPLICATION, ReplicationWords;
    StatementTokens('"', drop, keyspace, name, "");
    StatementTokens('"', create, keyspace, name, REPLICATION);
    WithoutRest(DropKeyspace(name), [Word(drop), Word(keyspace), Identifier(name)]);
  }

  function IdentifiersIn(ts: seq<Token>): seq<string> {
    if ts == [] then []
    else (if ts[0].Identifier? then [ts[0].name] else []) + IdentifiersIn(ts[1..])
  }

  lemma {:induction false} NoIdentifierIn(ts: seq<Token>)
    requires forall t :: t in ts ==> t.Word?
    ensures IdentifiersIn(ts) == []
  {
    if ts != [] {
      assert ts[0] in ts;
      NoIdentifierIn(ts[1..]);
    }
  }

  lemma {:induction false} ThirdIsIdentifier(verb: string, kind: string, name: string, rest: seq<Token>)
    requires forall t :: t in rest ==> t.Word?
    ensures IdentifiersIn([Word(verb), Word(kind), Identifier(name)] + rest) == [name]
  {
    var ts := [Word(verb), Word(kind), Identifier(name)] + rest;
    NoIdentifierIn(rest);
    var third := [Identifier(name)] + rest;
    assert third[1..] == rest && IdentifiersIn(third) == [name] + [];
    assert ts[1..] == [Word(kind)] + third && ts[1..][1..] == third;
    assert IdentifiersIn(ts[1..]) == [] + [name];
    assert IdentifiersIn(ts) == [] + [name];
  }

  ghost predicate Names(q: char, statement: string, name: string) {
    Tokens(q, statement).Some? && IdentifiersIn(Tokens(q, statement).value) == [name]
  }

  lemma DatabaseNames(d: Dialect, name: string)
    requires d in {POSTGRES, MYSQL}
    ensures Names(d.quote, CreateDatabase(d, name), name) && Names(d.quote, DropDatabase(d, name), name)
  {
    DatabaseStatementsAre(d, name);
    hide Tokens, CreateDatabase, DropDatabase, IdentifiersIn;
    var create, drop, database := "CREATE", "DROP", "DATABASE";
    ThirdIsIdentifier(create, database, name, []);
    ThirdIsIdentifier(drop, database, name, []);
    WithoutRest("", [Word(create), Word(database), Identifier(name)]);
    WithoutRest("", [Word(drop), Word(database), Identifier(name)]);
  }

  lemma KeyspaceNames(name: string)
    ensures Names('"', CreateKeyspace(name), name) && Names('"', DropKeyspace(name), name)
  {
    KeyspaceStatementsAre(name);
    ReplicationOnlyWords();
    hide Tokens, CreateKeyspace, DropKeyspace, ReplicationWords, IdentifiersIn;
    var create, drop, keyspace := "CREATE", "DROP", "KEYSPACE";
    ThirdIsIdentifier(drop, keyspace, name, []);
    ThirdIsIdentifier(create, keyspace, name, ReplicationWords());
    WithoutRest("", [Word(drop), Word(keyspace), Identifier(name)]);
  }

  lemma ReplicationOnlyWords()
    ensures forall t :: t in ReplicationWords() ==> t.Word?
  {
  }

  /** Every statement the wrappers build has the given name as its one delimited identifier, whatever the name. */
  lemma {:induction false} StatementsHaveOneIdentifier(d: Dialect, name: string)
    requires d in {POSTGRES, MYSQL}
    ensures Names(d.quote, CreateDatabase(d, name), name) && Names(d.quote, DropDatabase(d, name), name)
    ensures Names(SCYLLA.quote, CreateKeyspace(name), name) && Names(SCYLLA.quote, DropKeyspace(name), name)
  {
    hide Names;
    DatabaseNames(d, name);
    KeyspaceNames(name);
  }

  lemma WordsDiffer(a: seq<Token>, b: seq<Token>)
    requires a != [] && b != [] && a[0] == Word("CREATE") && b[0] == Word("DROP")
    ensures a != b
  {
    assert "CREATE"[0] != "DROP"[0];
  }

  /** So creating and dropping are never the same statement, whatever the names. */
  lemma {:induction false} CreateIsNotDrop(d: Dialect, a: string, b: string)
    requires d in {POSTGRES, MYSQL}
    ensures CreateDatabase(d, a) != DropDatabase(d, b) && CreateKeyspace(a) != DropKeyspace(b)
  {
    DatabaseStatementsAre(d, a);
    DatabaseStatementsAre(d, b);
    KeyspaceStatementsAre(a);
    KeyspaceStatementsAre(b);
    hide Tokens, CreateDatabase, DropDatabase, CreateKeyspace, DropKeyspace, ReplicationWords;
    WordsDiffer(Tokens(d.quote, CreateDatabase(d, a)).value, Tokens(d.quote, DropDatabase(d, b)).value);
    WordsDiffer(Tokens('"', CreateKeyspace(a)).value, Tokens('"', DropKeyspace(b)).value);
  }

  /** The statements for one validated name, spelled out. */
  lemma StatementsForApp()
    ensures CreateDatabase(POSTGRES, "app") == "CREATE DATABASE \"app\""
    ensures DropDatabase(MYSQL, "app") == "DROP DATABASE `app`"
    ensures DropKeyspace("app") == "DROP KEYSPACE \"app\""
  {
    var app := "app";
    assert '"' !in app && '`' !in app;
    NothingToDouble('"', app);
    NothingToDouble('`', app);
    assert Quote('"', app) == "\"app\"" && Quote('`', app) == "`app`";
  }
}
