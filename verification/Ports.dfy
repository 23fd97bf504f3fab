/** The port table of a container (ports.go), its allocators (node.go) and its two readers (container.go,
    container_info.go). */
module Ports {
  import opened GoStrings

  type uint16 = n: int | 0 <= n < 0x1_0000

  type Protocol = string

  datatype Binding = Binding(hostIP: string, hostPort: string)

  /** The value of a port table at one moment. */
  datatype Table = Table(aliases: map<string, string>, bindings: map<string, seq<Binding>>)

  /** What an allocator answers: the key to expose, the port on the host, other keys that lead to it. */
  datatype Allocation = Allocation(name: string, external: uint16, aliases: seq<string>)

  /** An allocator sees the protocol, the port and the outside, which is whatever else it looks at: the kernel's answer
      for the two allocators below, state of its own for another. It may fail. */
  type Allocator<!X> = (Protocol, uint16, X) -> Option<Allocation>

  function Key(proto: Protocol, port: uint16): string {
    FormatUint(port) + "/" + proto
  }

  function RandomPort(proto: Protocol, dstPort: uint16, kernel: Option<uint16>): Option<Allocation> {
    match kernel
    case None => None
    case Some(port) => Some(Allocation(Key(proto, dstPort), port, []))
  }

  function OneToOneRandomPort(proto: Protocol, srcPort: uint16, kernel: Option<uint16>): Option<Allocation> {
    match RandomPort(proto, 0, kernel)
    case None => None
    case Some(a) => Some(Allocation(Key(proto, a.external), a.external, [Key(proto, srcPort)]))
  }

  // ----- declaring ports -----

  function WithAliases(m: map<string, string>, aliases: seq<string>, name: string): map<string, string> {
    if aliases == [] then m else WithAliases(m, aliases[..|aliases| - 1], name)[aliases[|aliases| - 1] := name]
  }

  function BindingsAt(t: Table, key: string): seq<Binding> {
    if key in t.bindings then t.bindings[key] else []
  }

  /** One successful declaration: where the daemon lives, and what was allocated. */
  datatype Declaration = Declaration(hostIP: string, alloc: Allocation)

  function Declare(t: Table, d: Declaration): Table {
    Table(WithAliases(t.aliases, d.alloc.aliases, d.alloc.name),
          t.bindings[d.alloc.name := BindingsAt(t, d.alloc.name) + [Binding(d.hostIP, FormatUint(d.alloc.external))]])
  }

  /** The tables that calls of `PortDNAT` can build. */
  function TableOf(ds: seq<Declaration>): Table {
    if ds == [] then Table(map[], map[]) else Declare(TableOf(ds[..|ds| - 1]), ds[|ds| - 1])
  }

  class PortBindings<!X> {
    var portAliases: map<string, string>
    var portBindings: map<string, seq<Binding>>
    const allocator: Allocator<X>
    /** The declarations made so far. */
    ghost var declared: seq<Declaration>

    function View(): Table
      reads this
    {
      Table(portAliases, portBindings)
    }

    ghost predicate Valid()
      reads this
    {
      View() == TableOf(declared)
    }

    constructor (allocator: Allocator<X>)
      ensures Valid() && declared == [] && this.allocator == allocator
    {
      this.allocator := allocator;
      portAliases, portBindings, declared := map[], map[], [];
    }

    /** A panic leaves the table as it was. */
    method PortDNAT(proto: Protocol, port: uint16, dockerIP: Option<string>, outside: X)
        returns (panicked: bool)
      requires Valid()
      modifies this
      ensures Valid()
      ensures panicked <==> dockerIP.None? || allocator(proto, port, outside).None?
      ensures declared == if panicked then old(declared)
                          else old(declared) + [Declaration(dockerIP.value, allocator(proto, port, outside).value)]
    {
      if dockerIP.None? {
        return true;
      }
      var allocation := allocator(proto, port, outside);
      if allocation.None? {
        return true;
      }
      var Allocation(portName, externalPort, aliases) := allocation.value;
      for i := 0 to |aliases|
        invariant portAliases == WithAliases(old(portAliases), aliases[..i], portName)
        invariant portBindings == old(portBindings) && declared == old(declared)
      {
        assert aliases[..i + 1][..i] == aliases[..i];
        portAliases := portAliases[aliases[i] := portName];
      }
      assert aliases[..|aliases|] == aliases;
      var bound := if portName in portBindings then portBindings[portName] else [];
      portBindings := portBindings[portName := bound + [Binding(dockerIP.value, FormatUint(externalPort))]];
      declared := declared + [Declaration(dockerIP.value, allocation.value)];
      assert declared[..|declared| - 1] == old(declared);
      return false;
    }
  }

  // ----- reading ports -----

  datatype HostPort = HostPort(host: string, port: uint16)

  function HostPortString(hp: HostPort): string {
    hp.host + ":" + FormatUint(hp.port)
  }

  datatype Lookup<+T> =
    | Found(value: T) | NotRegistered(key: string) | Ambiguous | NoDockerHost | NotDefined | BadNumber | Panics

  /** Aliases are followed one step. */
  function Resolve(t: Table, proto: Protocol, port: uint16): string {
    var k := Key(proto, port);
    if k in t.aliases then t.aliases[k] else k
  }

  /** `container.URL`. */
  function URL(t: Table, dockerIP: Option<string>, proto: Protocol, port: uint16): Lookup<HostPort> {
    var k := Resolve(t, proto, port);
    if k !in t.bindings then NotRegistered(k)
    else if |t.bindings[k]| != 1 then Ambiguous
    else if dockerIP.None? then NoDockerHost
    else if t.bindings[k][0].hostPort == "" then NotDefined
    else
      match ParseUint(t.bindings[k][0].hostPort, 0x1_0000)
      case None => BadNumber
      case Some(p) => Found(HostPort(dockerIP.value, p))
  }

  /** `containerInfo.GetExternalPortMapping`. */
  function GetExternalPortMapping(t: Table, proto: Protocol, port: uint16): Lookup<uint16> {
    var k := Resolve(t, proto, port);
    if k !in t.bindings then NotRegistered(k)
    else if t.bindings[k] == [] then Panics
    else
      match ParseUint(t.bindings[k][0].hostPort, 0x1_0000)
      case None => BadNumber
      case Some(p) => Found(p)
  }

  // ----- every reachable table -----

  /** The bindings declared under a key, in order. */
  function Declared(ds: seq<Declaration>, key: string): seq<Binding> {
    if ds == [] then []
    else
      var d := ds[|ds| - 1];
      Declared(ds[..|ds| - 1], key)
      + if d.alloc.name == key then [Binding(d.hostIP, FormatUint(d.alloc.external))] else []
  }

  /** The key an alias was last given to. */
  function LastAlias(ds: seq<Declaration>, alias: string): Option<string> {
    if ds == [] then None
    else if alias in ds[|ds| - 1].alloc.aliases then Some(ds[|ds| - 1].alloc.name)
    else LastAlias(ds[..|ds| - 1], alias)
  }

  lemma {:induction false} WithAliasesAt(m: map<string, string>, aliases: seq<string>, name: string, k: string)
    ensures var m' := WithAliases(m, aliases, name);
      if k in aliases then k in m' && m'[k] == name
      else (k in m' <==> k in m) && (k in m ==> m'[k] == m[k])
  {
    if aliases != [] {
      var init, last := aliases[..|aliases| - 1], aliases[|aliases| - 1];
      assert aliases == init + [last];
      WithAliasesAt(m, init, name, k);
    }
  }

  /** A reachable table holds under each key exactly the bindings declared there, in order, and no empty list; an
      alias leads to the key it was last given to. */
  lemma {:induction false} TableShape(ds: seq<Declaration>, k: string)
    ensures BindingsAt(TableOf(ds), k) == Declared(ds, k)
    ensures k in TableOf(ds).bindings <==> Declared(ds, k) != []
    ensures (if k in TableOf(ds).aliases then Some(TableOf(ds).aliases[k]) else None) == LastAlias(ds, k)
  {
    if ds != [] {
      var init, d := ds[..|ds| - 1], ds[|ds| - 1];
      TableShape(init, k);
      WithAliasesAt(TableOf(init).aliases, d.alloc.aliases, d.alloc.name, k);
    }
  }

  lemma {:induction false} DeclaredParses(ds: seq<Declaration>, k: string, i: nat)
    requires i < |Declared(ds, k)|
    ensures Declared(ds, k)[i].hostPort != "" && ParseUint(Declared(ds, k)[i].hostPort, 0x1_0000).Some?
  {
    var init, d := ds[..|ds| - 1], ds[|ds| - 1];
    if i < |Declared(init, k)| {
      DeclaredParses(init, k, i);
    } else {
      ParseFormat(d.alloc.external, 0x1_0000);
    }
  }

  /** For any allocator: `URL` succeeds exactly when the resolved key has one binding, `GetExternalPortMapping`
      exactly when the key exists, it never panics, and whenever `URL` succeeds they name the same port. */
  lemma ReadersAgree(ds: seq<Declaration>, dockerIP: string, proto: Protocol, port: uint16)
    ensures var t := TableOf(ds); var k := Resolve(t, proto, port);
      var url := URL(t, Some(dockerIP), proto, port); var info := GetExternalPortMapping(t, proto, port);
      && (url.Found? <==> |BindingsAt(t, k)| == 1)
      && (info.Found? <==> k in t.bindings)
      && !info.Panics? && !info.BadNumber? && !url.BadNumber? && !url.NotDefined?
      && (url.Found? ==> info.Found? && url.value == HostPort(dockerIP, info.value))
  {
    var t := TableOf(ds);
    var k := Resolve(t, proto, port);
    TableShape(ds, k);
    if k in t.bindings {
      DeclaredParses(ds, k, 0);
    }
  }

  /** A key can be taken apart again: the port before its first slash, the protocol after it. */
  lemma KeyParts(proto: Protocol, port: uint16)
    ensures var k := Key(proto, port);
      && '/' in k && ParseUint(k[..IndexOf(k, '/')], 0x1_0000) == Some(port) && k[IndexOf(k, '/') + 1..] == proto
  {
    var x := FormatUint(port);
    var k := x + ['/'] + proto;
    assert '/' !in x && k == Key(proto, port);
    IndexOfFirst(x, '/', proto);
    assert k[|x|] == '/' && k[..|x|] == x && k[|x| + 1..] == proto;
    ParseFormat(port, 0x1_0000);
  }

  /** Keys of different ports or protocols differ. */
  lemma KeyInjective(p: Protocol, a: uint16, q: Protocol, b: uint16)
    ensures Key(p, a) == Key(q, b) <==> p == q && a == b
  {
    KeyParts(p, a);
    KeyParts(q, b);
  }

  // ----- the default allocator -----

  /** One call of `PortDNAT`, and the port the kernel gave it. */
  datatype Request = Request(proto: Protocol, port: uint16, given: uint16, hostIP: string)

  /** The declarations made with the default allocator. */
  function RandomDeclarations(rs: seq<Request>): seq<Declaration> {
    if rs == [] then []
    else
      var r := rs[|rs| - 1];
      RandomDeclarations(rs[..|rs| - 1]) + [Declaration(r.hostIP, RandomPort(r.proto, r.port, Some(r.given)).value)]
  }

  predicate Asks(r: Request, proto: Protocol, port: uint16) {
    r.proto == proto && r.port == port
  }

  /** Request `i` is the first for this port. */
  ghost predicate FirstRequest(rs: seq<Request>, i: nat, proto: Protocol, port: uint16) {
    i < |rs| && Asks(rs[i], proto, port) && forall j :: 0 <= j < i ==> !Asks(rs[j], proto, port)
  }

  lemma {:induction false} RandomUnfold(rs: seq<Request>)
    requires rs != []
    ensures var ds := RandomDeclarations(rs); var r := rs[|rs| - 1];
      && ds != [] && ds[..|ds| - 1] == RandomDeclarations(rs[..|rs| - 1])
      && ds[|ds| - 1] == Declaration(r.hostIP, Allocation(Key(r.proto, r.port), r.given, []))
  {
  }

  /** The bindings of the requests for one port, in order. */
  function RequestBindings(rs: seq<Request>, proto: Protocol, port: uint16): seq<Binding> {
    if rs == [] then []
    else
      var r := rs[|rs| - 1];
      RequestBindings(rs[..|rs| - 1], proto, port)
      + if Asks(r, proto, port) then [Binding(r.hostIP, FormatUint(r.given))] else []
  }

  lemma {:induction false} RandomShape(rs: seq<Request>, proto: Protocol, port: uint16)
    ensures Declared(RandomDeclarations(rs), Key(proto, port)) == RequestBindings(rs, proto, port)
    ensures LastAlias(RandomDeclarations(rs), Key(proto, port)) == None
  {
    if rs != [] {
      RandomUnfold(rs);
      RandomShape(rs[..|rs| - 1], proto, port);
      KeyInjective(rs[|rs| - 1].proto, rs[|rs| - 1].port, proto, port);
    }
  }

  lemma {:induction false} NoBindings(rs: seq<Request>, proto: Protocol, port: uint16)
    ensures RequestBindings(rs, proto, port) == [] <==> forall i :: 0 <= i < |rs| ==> !Asks(rs[i], proto, port)
  {
    if rs != [] {
      NoBindings(rs[..|rs| - 1], proto, port);
    }
  }

  lemma {:induction false} FirstBinding(rs: seq<Request>, i: nat, proto: Protocol, port: uint16)
    requires FirstRequest(rs, i, proto, port)
    ensures var bs := RequestBindings(rs, proto, port);
      && bs != [] && bs[0] == Binding(rs[i].hostIP, FormatUint(rs[i].given))
      && (|bs| == 1 <==> forall j :: i < j < |rs| ==> !Asks(rs[j], proto, port))
  {
    var init := rs[..|rs| - 1];
    if i < |rs| - 1 {
      FirstBinding(init, i, proto, port);
    } else {
      NoBindings(init, proto, port);
    }
  }

  /** Ports declared with the default allocator keep their own names. A port never declared is not registered; one
      declared once leads to the port the kernel gave; one declared more often is ambiguous for `URL`, and leads to the
      port first given for `GetExternalPortMapping`. */
  lemma RandomLookup(rs: seq<Request>, dockerIP: string, proto: Protocol, port: uint16)
    ensures var t := TableOf(RandomDeclarations(rs));
      var url := URL(t, Some(dockerIP), proto, port); var info := GetExternalPortMapping(t, proto, port);
      && ((forall i :: 0 <= i < |rs| ==> !Asks(rs[i], proto, port)) ==>
            url == NotRegistered(Key(proto, port)) && info == NotRegistered(Key(proto, port)))
      && (forall i: nat :: FirstRequest(rs, i, proto, port) ==>
            && info == Found(rs[i].given)
            && url == if forall j :: i < j < |rs| ==> !Asks(rs[j], proto, port)
                      then Found(HostPort(dockerIP, rs[i].given)) else Ambiguous)
  {
    var ds := RandomDeclarations(rs);
    var t := TableOf(ds);
    TableShape(ds, Key(proto, port));
    RandomShape(rs, proto, port);
    NoBindings(rs, proto, port);
    forall i: nat | FirstRequest(rs, i, proto, port)
      ensures GetExternalPortMapping(t, proto, port) == Found(rs[i].given)
      ensures URL(t, Some(dockerIP), proto, port) == if forall j :: i < j < |rs| ==> !Asks(rs[j], proto, port)
                                                    then Found(HostPort(dockerIP, rs[i].given)) else Ambiguous
    {
      FirstBinding(rs, i, proto, port);
      ParseFormat(rs[i].given, 0x1_0000);
    }
  }

  lemma {:induction false} RandomName(rs: seq<Request>, k: string)
    ensures Declared(RandomDeclarations(rs), k) != [] <==> exists r :: r in rs && k == Key(r.proto, r.port)
  {
    if rs != [] {
      RandomUnfold(rs);
      RandomName(rs[..|rs| - 1], k);
      assert rs == rs[..|rs| - 1] + [rs[|rs| - 1]];
    }
  }

  /** Exactly the declared ports are exposed, under their own names. */
  lemma RandomKeys(rs: seq<Request>, k: string)
    ensures k in TableOf(RandomDeclarations(rs)).bindings <==> exists r :: r in rs && k == Key(r.proto, r.port)
  {
    TableShape(RandomDeclarations(rs), k);
    RandomName(rs, k);
  }

  /** Without a port from the kernel neither allocator answers. */
  lemma NoPortNoAllocation(proto: Protocol, port: uint16)
    ensures RandomPort(proto, port, None) == None && OneToOneRandomPort(proto, port, None) == None
  {
  }

  // ----- the one-to-one allocator -----

  function OneToOne(r: Request): Declaration {
    Declaration(r.hostIP, Allocation(Key(r.proto, r.given), r.given, [Key(r.proto, r.port)]))
  }

  lemma OneToOneIsAllocated(r: Request)
    ensures OneToOneRandomPort(r.proto, r.port, Some(r.given)) == Some(OneToOne(r).alloc)
  {
  }

  function Declarations(rs: seq<Request>): seq<Declaration> {
    if rs == [] then [] else Declarations(rs[..|rs| - 1]) + [OneToOne(rs[|rs| - 1])]
  }

  /** The port given to the latest request for this port. */
  function Latest(rs: seq<Request>, proto: Protocol, port: uint16): Option<uint16> {
    if rs == [] then None
    else if rs[|rs| - 1].proto == proto && rs[|rs| - 1].port == port then Some(rs[|rs| - 1].given)
    else Latest(rs[..|rs| - 1], proto, port)
  }

  /** How often the kernel gave this port for this protocol. */
  function Given(rs: seq<Request>, proto: Protocol, port: uint16): nat {
    if rs == [] then 0
    else Given(rs[..|rs| - 1], proto, port)
         + if rs[|rs| - 1].proto == proto && rs[|rs| - 1].given == port then 1 else 0
  }

  lemma {:induction false} DeclarationsUnfold(rs: seq<Request>)
    requires rs != []
    ensures var ds := Declarations(rs);
      ds != [] && ds[..|ds| - 1] == Declarations(rs[..|rs| - 1]) && ds[|ds| - 1] == OneToOne(rs[|rs| - 1])
  {
  }

  lemma {:induction false} OneToOneShape(rs: seq<Request>, proto: Protocol, port: uint16)
    ensures |Declared(Declarations(rs), Key(proto, port))| == Given(rs, proto, port)
    ensures forall b :: b in Declared(Declarations(rs), Key(proto, port)) ==> b.hostPort == FormatUint(port)
    ensures LastAlias(Declarations(rs), Key(proto, port)) ==
            match Latest(rs, proto, port) case None => None case Some(a) => Some(Key(proto, a))
  {
    if rs != [] {
      var r := rs[|rs| - 1];
      DeclarationsUnfold(rs);
      OneToOneShape(rs[..|rs| - 1], proto, port);
      KeyInjective(r.proto, r.given, proto, port);
      KeyInjective(r.proto, r.port, proto, port);
    }
  }

  /** Looking a port up leads, in exactly one step, to the port of its latest declaration, even if that number is
      itself a declared port; a port never declared stands for itself. What is there depends only on how often
      the kernel gave that port: not at all, once, or more than once. */
  lemma OneToOneLookup(rs: seq<Request>, dockerIP: string, proto: Protocol, port: uint16)
    ensures var t := TableOf(Declarations(rs));
      var a := match Latest(rs, proto, port) case None => port case Some(g) => g;
      && URL(t, Some(dockerIP), proto, port) ==
           (if Given(rs, proto, a) == 0 then NotRegistered(Key(proto, a))
            else if Given(rs, proto, a) == 1 then Found(HostPort(dockerIP, a)) else Ambiguous)
      && GetExternalPortMapping(t, proto, port) ==
           (if Given(rs, proto, a) == 0 then NotRegistered(Key(proto, a)) else Found(a))
  {
    var ds := Declarations(rs);
    var t := TableOf(ds);
    var a := match Latest(rs, proto, port) case None => port case Some(g) => g;
    TableShape(ds, Key(proto, port));
    OneToOneShape(rs, proto, port);
    assert Resolve(t, proto, port) == Key(proto, a);
    TableShape(ds, Key(proto, a));
    OneToOneShape(rs, proto, a);
    var bs := Declared(ds, Key(proto, a));
    if bs != [] {
      assert bs[0] in bs;
      ParseFormat(a, 0x1_0000);
    }
  }

  lemma {:induction false} LatestGiven(rs: seq<Request>, proto: Protocol, port: uint16)
    ensures Latest(rs, proto, port).Some? ==> Given(rs, proto, Latest(rs, proto, port).value) >= 1
  {
    if rs != [] {
      LatestGiven(rs[..|rs| - 1], proto, port);
    }
  }

  lemma {:induction false} GivenOnce(rs: seq<Request>, proto: Protocol, port: uint16)
    requires forall i, j :: 0 <= i < j < |rs| && rs[i].proto == rs[j].proto ==> rs[i].given != rs[j].given
    ensures Given(rs, proto, port) <= 1
    ensures Given(rs, proto, port) == 1 ==> exists i :: 0 <= i < |rs| && rs[i].proto == proto && rs[i].given == port
  {
    if rs != [] {
      GivenOnce(rs[..|rs| - 1], proto, port);
    }
  }

  /** With pairwise different given ports per protocol, both readers find every declared port's latest given port. */
  lemma OneToOneDistinct(rs: seq<Request>, dockerIP: string, proto: Protocol, port: uint16)
    requires forall i, j :: 0 <= i < j < |rs| && rs[i].proto == rs[j].proto ==> rs[i].given != rs[j].given
    requires Latest(rs, proto, port).Some?
    ensures var a := Latest(rs, proto, port).value; var t := TableOf(Declarations(rs));
      && URL(t, Some(dockerIP), proto, port) == Found(HostPort(dockerIP, a))
      && GetExternalPortMapping(t, proto, port) == Found(a)
  {
    OneToOneLookup(rs, dockerIP, proto, port);
    LatestGiven(rs, proto, port);
    GivenOnce(rs, proto, Latest(rs, proto, port).value);
  }

  lemma {:induction false} DeclaredName(rs: seq<Request>, k: string)
    requires Declared(Declarations(rs), k) != []
    ensures exists i :: 0 <= i < |rs| && k == Key(rs[i].proto, rs[i].given)
  {
    DeclarationsUnfold(rs);
    if k != Key(rs[|rs| - 1].proto, rs[|rs| - 1].given) {
      DeclaredName(rs[..|rs| - 1], k);
      var i :| 0 <= i < |rs| - 1 && k == Key(rs[..|rs| - 1][i].proto, rs[..|rs| - 1][i].given);
      assert k == Key(rs[i].proto, rs[i].given);
    }
  }

  ghost predicate CarriesOwnNumber(k: string, bs: seq<Binding>, r: Request) {
    k == Key(r.proto, r.given) && forall b :: b in bs ==> b.hostPort == FormatUint(r.given)
  }

  /** One-to-one: every exposed key is that of a given port, and carries its own number as the host port. */
  lemma {:induction false} OneToOneKeys(rs: seq<Request>, k: string)
    requires k in TableOf(Declarations(rs)).bindings
    ensures exists r :: r in rs && CarriesOwnNumber(k, TableOf(Declarations(rs)).bindings[k], r)
  {
    TableShape(Declarations(rs), k);
    DeclaredName(rs, k);
    var i :| 0 <= i < |rs| && k == Key(rs[i].proto, rs[i].given);
    OneToOneShape(rs, rs[i].proto, rs[i].given);
    assert CarriesOwnNumber(k, TableOf(Declarations(rs)).bindings[k], rs[i]);
  }
}
