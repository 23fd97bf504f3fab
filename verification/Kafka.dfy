/** How the Kafka wrapper names its own address to the broker, to the daemon and to the test (kafka.go). */
module Kafka {
  import opened GoStrings
  import opened Ports
  import opened Environments

  const TCP: Protocol := "tcp"
  const BROKER_PORT: uint16 := 9092
  const ADMIN_PORT: uint16 := 9093

  // ----- the environment -----

  /** A listener list with one address for clients and one for the controller. */
  function ListenerPair(client: string, controller: string): string {
    "PLAINTEXT://" + client + ",CONTROLLER://" + controller
  }

  function Listeners(c: ContainerInfo): Outcome<string> {
    var bp, ap := GetExternalPortMapping(c.ports, TCP, BROKER_PORT), GetExternalPortMapping(c.ports, TCP, ADMIN_PORT);
    if !bp.Found? || !ap.Found? then Panic
    else Value(ListenerPair("0.0.0.0:" + FormatUint(bp.value), "0.0.0.0:" + FormatUint(ap.value)))
  }

  /** `GetDockerHostIP` reports an error for an empty address. */
  function AdvertisedListeners(c: ContainerInfo): Outcome<string> {
    var bp, ap := GetExternalPortMapping(c.ports, TCP, BROKER_PORT), GetExternalPortMapping(c.ports, TCP, ADMIN_PORT);
    if !bp.Found? || !ap.Found? || c.dockerHostIP == "" then Panic
    else Value(ListenerPair(c.dockerHostIP + ":" + FormatUint(bp.value), c.dockerHostIP + ":" + FormatUint(ap.value)))
  }

  function QuorumVoters(c: ContainerInfo): Outcome<string> {
    var ap := GetExternalPortMapping(c.ports, TCP, ADMIN_PORT);
    if !ap.Found? || c.dockerHostIP == "" then Panic
    else Value("1@" + c.dockerHostIP + ":" + FormatUint(ap.value))
  }

  const LISTENERS: Producer := (c: ContainerInfo) => Listeners(c)
  const ADVERTISED_LISTENERS: Producer := (c: ContainerInfo) => AdvertisedListeners(c)
  const QUORUM_VOTERS: Producer := (c: ContainerInfo) => QuorumVoters(c)

  function Variables(): seq<Assignment> {
    [Assignment("KAFKA_NODE_ID", Fixed(FormatUint(1))),
     Assignment("KAFKA_OFFSETS_TOPIC_REPLICATION_FACTOR", Fixed(FormatUint(1))),
     Assignment("KAFKA_PROCESS_ROLES", Fixed("broker,controller")),
     Assignment("KAFKA_LISTENERS", LISTENERS),
     Assignment("KAFKA_ADVERTISED_LISTENERS", ADVERTISED_LISTENERS),
     Assignment("KAFKA_CONTROLLER_LISTENER_NAMES", Fixed("CONTROLLER")),
     Assignment("KAFKA_LISTENER_SECURITY_PROTOCOL_MAP", Fixed("CONTROLLER:PLAINTEXT,PLAINTEXT:PLAINTEXT")),
     Assignment("KAFKA_CONTROLLER_QUORUM_VOTERS", QUORUM_VOTERS)]
  }

  method NewEnvironment() returns (e: Environment)
    ensures fresh(e) && e.Valid() && e.assignments == Variables()
  {
    e := new Environment();
    e.Uint64Var("KAFKA_NODE_ID", 1);
    e.Uint64Var("KAFKA_OFFSETS_TOPIC_REPLICATION_FACTOR", 1);
    e.StringVar("KAFKA_PROCESS_ROLES", "broker,controller");
    e.Var("KAFKA_LISTENERS", LISTENERS);
    e.Var("KAFKA_ADVERTISED_LISTENERS", ADVERTISED_LISTENERS);
    e.StringVar("KAFKA_CONTROLLER_LISTENER_NAMES", "CONTROLLER");
    e.StringVar("KAFKA_LISTENER_SECURITY_PROTOCOL_MAP", "CONTROLLER:PLAINTEXT,PLAINTEXT:PLAINTEXT");
    e.Var("KAFKA_CONTROLLER_QUORUM_VOTERS", QUORUM_VOTERS);
  }

  // ----- the ports -----

  /** The two declarations, and the ports the kernel gave for them. */
  function Requests(bp: uint16, ap: uint16, ip: string): seq<Request> {
    [Request(TCP, BROKER_PORT, bp, ip), Request(TCP, ADMIN_PORT, ap, ip)]
  }

  function PortTable(bp: uint16, ap: uint16, ip: string): Table {
    TableOf(Declarations(Requests(bp, ap, ip)))
  }

  /** `NewDirectPortBinding` and the two `PortDNAT` calls. */
  method NewPorts(ip: string, bp: uint16, ap: uint16) returns (pb: PortBindings<Option<uint16>>)
    ensures fresh(pb) && pb.View() == PortTable(bp, ap, ip)
  {
    pb := new PortBindings(
      (proto: Protocol, port: uint16, kernel: Option<uint16>) => OneToOneRandomPort(proto, port, kernel));
    var _ := pb.PortDNAT(TCP, BROKER_PORT, Some(ip), Some(bp));
    var _ := pb.PortDNAT(TCP, ADMIN_PORT, Some(ip), Some(ap));
    ghost var rs := Requests(bp, ap, ip);
    OneToOneIsAllocated(rs[0]);
    OneToOneIsAllocated(rs[1]);
    TwoRequests(rs);
    assert pb.declared == Declarations(rs);
  }

  function LatestOfTwo(r: Request, s: Request, proto: Protocol, port: uint16): Option<uint16> {
    if s.proto == proto && s.port == port then Some(s.given)
    else if r.proto == proto && r.port == port then Some(r.given) else None
  }

  function Times(r: Request, proto: Protocol, port: uint16): nat {
    if r.proto == proto && r.given == port then 1 else 0
  }

  lemma TwoRequests(rs: seq<Request>)
    requires |rs| == 2
    ensures Declarations(rs) == [OneToOne(rs[0]), OneToOne(rs[1])]
    ensures forall proto, port :: Latest(rs, proto, port) == LatestOfTwo(rs[0], rs[1], proto, port)
    ensures forall proto, port :: Given(rs, proto, port) == Times(rs[0], proto, port) + Times(rs[1], proto, port)
  {
    var first := rs[..1];
    assert first[0] == rs[0] && first[..0] == [];
    assert Declarations(first) == [OneToOne(rs[0])];
    assert forall proto, port :: Given(first, proto, port) == Times(rs[0], proto, port);
    assert forall proto, port :: Latest(first, proto, port) == LatestOfTwo(rs[0], rs[0], proto, port);
  }

  function GetBrokerURL(t: Table, ip: string): Option<string> {
    match URL(t, Some(ip), TCP, BROKER_PORT) case Found(hp) => Some(HostPortString(hp)) case _ => None
  }

  function GetAdminURL(t: Table, ip: string): Option<string> {
    match URL(t, Some(ip), TCP, ADMIN_PORT) case Found(hp) => Some(HostPortString(hp)) case _ => None
  }

  // ----- reading listener lists -----

  /** The address a comma-separated listener list gives under a listener name. */
  function AddressOf(pieces: seq<string>, name: string): Option<string> {
    if pieces == [] then None
    else if name + "://" <= pieces[0] then Some(pieces[0][|name + "://"|..])
    else AddressOf(pieces[1..], name)
  }

  function ListenerAddress(value: string, name: string): Option<string> {
    AddressOf(Split(value, ','), name)
  }

  lemma PairAddresses(client: string, controller: string)
    requires ',' !in client && ',' !in controller
    ensures ListenerAddress(ListenerPair(client, controller), "PLAINTEXT") == Some(client)
    ensures ListenerAddress(ListenerPair(client, controller), "CONTROLLER") == Some(controller)
  {
    var p, q := "PLAINTEXT", "CONTROLLER";
    var a, b := p + "://" + client, q + "://" + controller;
    assert "PLAINTEXT://" == p + "://" && "CONTROLLER://" == q + "://";
    assert ',' !in p && ',' !in q && ',' !in "://";
    assert ListenerPair(client, controller) == a + "," + b by { PairShape(client, controller); }
    SplitCons(a, ',', b);
    SplitCons(b, ',', "");
    TwoPieces(a, b, p, client, q, controller);
  }

  lemma PairShape(client: string, controller: string)
    ensures ListenerPair(client, controller) == "PLAINTEXT://" + client + "," + ("CONTROLLER://" + controller)
  {
    assert ",CONTROLLER://" == "," + "CONTROLLER://";
  }

  lemma TwoPieces(a: string, b: string, p: string, x: string, q: string, y: string)
    requires a == p + "://" + x && b == q + "://" + y && p != "" && q != "" && p[0] != q[0]
    ensures AddressOf([a, b], p) == Some(x) && AddressOf([a, b], q) == Some(y)
  {
    assert [a, b][1..] == [b];
    assert a[0] == p[0] && b[0] == q[0];
    assert (q + "://")[0] == q[0];
  }

  // ----- agreement -----

  lemma KafkaLookups(bp: uint16, ap: uint16, ip: string)
    ensures var t := PortTable(bp, ap, ip);
      && GetExternalPortMapping(t, TCP, BROKER_PORT) == Found(bp)
      && GetExternalPortMapping(t, TCP, ADMIN_PORT) == Found(ap)
      && URL(t, Some(ip), TCP, BROKER_PORT) == (if bp != ap then Found(HostPort(ip, bp)) else Ambiguous)
      && URL(t, Some(ip), TCP, ADMIN_PORT) == (if bp != ap then Found(HostPort(ip, ap)) else Ambiguous)
  {
    var rs := Requests(bp, ap, ip);
    TwoRequests(rs);
    OneToOneLookup(rs, ip, TCP, BROKER_PORT);
    OneToOneLookup(rs, ip, TCP, ADMIN_PORT);
  }

  lemma ExposedPorts(bp: uint16, ap: uint16, ip: string)
    ensures PortTable(bp, ap, ip).bindings.Keys == {Key(TCP, bp), Key(TCP, ap)}
    ensures bp != ap ==> BindingsAt(PortTable(bp, ap, ip), Key(TCP, bp)) == [Binding(ip, FormatUint(bp))]
    ensures bp != ap ==> BindingsAt(PortTable(bp, ap, ip), Key(TCP, ap)) == [Binding(ip, FormatUint(ap))]
  {
    KeyInjective(TCP, bp, TCP, ap);
    var rs := Requests(bp, ap, ip);
    TwoRequests(rs);
    var ds := Declarations(rs);
    assert ds[..1] == [OneToOne(rs[0])] && ds[..1][..0] == [];
    assert TableOf(ds[..1]).bindings.Keys == {Key(TCP, bp)};
  }

  /** The test gets a broker address exactly when the kernel gave two different ports. */
  lemma BrokerURLExactly(bp: uint16, ap: uint16, ip: string)
    ensures GetBrokerURL(PortTable(bp, ap, ip), ip).Some? <==> bp != ap
    ensures GetAdminURL(PortTable(bp, ap, ip), ip).Some? <==> bp != ap
  {
    KafkaLookups(bp, ap, ip);
  }

  /** Whatever ports the kernel gave, as long as they differ: the addresses advertised to clients and controllers
      are the ones the test is given, Kafka listens on the same ports, and just these are exposed. */
  lemma {:induction false} AddressAgreement(bp: uint16, ap: uint16, ip: string)
    requires bp != ap && ip != "" && ',' !in ip
    ensures var t := PortTable(bp, ap, ip); var c := ContainerInfo(t, ip);
      && GetBrokerURL(t, ip).Some? && GetAdminURL(t, ip).Some?
      && AdvertisedListeners(c).Value? && Listeners(c).Value? && QuorumVoters(c).Value?
      && ListenerAddress(AdvertisedListeners(c).value, "PLAINTEXT") == GetBrokerURL(t, ip)
      && ListenerAddress(AdvertisedListeners(c).value, "CONTROLLER") == GetAdminURL(t, ip)
      && QuorumVoters(c).value == "1@" + GetAdminURL(t, ip).value
      && ListenerAddress(Listeners(c).value, "PLAINTEXT") == Some("0.0.0.0:" + FormatUint(bp))
      && ListenerAddress(Listeners(c).value, "CONTROLLER") == Some("0.0.0.0:" + FormatUint(ap))
      && GetBrokerURL(t, ip).value == ip + ":" + FormatUint(bp) && GetAdminURL(t, ip).value == ip + ":" + FormatUint(ap)
      && t.bindings.Keys == {Key(TCP, bp), Key(TCP, ap)}
      && BindingsAt(t, Key(TCP, bp)) == [Binding(ip, FormatUint(bp))]
      && BindingsAt(t, Key(TCP, ap)) == [Binding(ip, FormatUint(ap))]
  {
    hide ListenerPair, ListenerAddress, PortTable, URL, GetExternalPortMapping;
    KafkaLookups(bp, ap, ip);
    ExposedPorts(bp, ap, ip);
    NoComma(ip, bp); NoComma(ip, ap);
    NoComma("0.0.0.0", bp); NoComma("0.0.0.0", ap);
    PairAddresses(ip + ":" + FormatUint(bp), ip + ":" + FormatUint(ap));
    PairAddresses("0.0.0.0:" + FormatUint(bp), "0.0.0.0:" + FormatUint(ap));
    Voter("1@", ip, FormatUint(ap));
  }

  lemma NoComma(host: string, port: uint16)
    requires ',' !in host
    ensures ',' !in host + ":" + FormatUint(port)
    ensures host == "0.0.0.0" ==> host + ":" == "0.0.0.0:"
  {
    assert ',' !in FormatUint(port);
  }

  lemma Voter(a: string, b: string, c: string)
    ensures a + b + ":" + c == a + (b + ":" + c)
  {
  }

  lemma {:induction false} LastOf(vs: seq<Assignment>, k: nat)
    requires k < |vs| && forall j :: k < j < |vs| ==> vs[j].name != vs[k].name
    ensures LastAssigned(vs, vs[k].name) == Some(vs[k].producer)
  {
    if k < |vs| - 1 {
      LastOf(vs[..|vs| - 1], k);
    }
  }

  ghost predicate PlainName(name: string) {
    '=' !in name
  }

  lemma ShortNamesPlain()
    ensures PlainName("KAFKA_NODE_ID") && PlainName("KAFKA_PROCESS_ROLES") && PlainName("KAFKA_LISTENERS")
    ensures PlainName("KAFKA_ADVERTISED_LISTENERS")
  {
  }

  lemma LongNamesPlain()
    ensures PlainName("KAFKA_OFFSETS_TOPIC_REPLICATION_FACTOR") && PlainName("KAFKA_CONTROLLER_LISTENER_NAMES")
  {
  }

  lemma OtherNamesPlain()
    ensures PlainName("KAFKA_LISTENER_SECURITY_PROTOCOL_MAP") && PlainName("KAFKA_CONTROLLER_QUORUM_VOTERS")
  {
  }

  lemma NamesPlain()
    ensures forall a :: a in Variables() ==> PlainName(a.name)
  {
    hide PlainName;
    ShortNamesPlain();
    LongNamesPlain();
    OtherNamesPlain();
  }

  /** No later assignment is to the name of assignment `k`. */
  ghost predicate LastUse(vs: seq<Assignment>, k: nat) {
    k < |vs| && forall j :: k < j < |vs| ==> vs[j].name != vs[k].name
  }

  lemma AddressesAreLast()
    ensures var vs := Variables();
      && LastUse(vs, 3) && vs[3] == Assignment("KAFKA_LISTENERS", LISTENERS)
      && LastUse(vs, 4) && vs[4] == Assignment("KAFKA_ADVERTISED_LISTENERS", ADVERTISED_LISTENERS)
      && LastUse(vs, 7) && vs[7] == Assignment("KAFKA_CONTROLLER_QUORUM_VOTERS", QUORUM_VOTERS)
  {
    var vs := Variables();
    assert |vs[3].name| == 15 && |vs[4].name| == 26 && |vs[5].name| == 31 && |vs[6].name| == 36 && |vs[7].name| == 30;
  }

  /** Entry `i` is `name`, with this value. */
  ghost predicate EntryIs(es: seq<string>, i: nat, name: string, value: Outcome<string>) {
    i < |es| && '=' in es[i] && EntryName(es[i]) == name && value == Value(EntryValue(es[i]))
  }

  lemma {:induction false} VariableEntry(es: seq<string>, c: ContainerInfo, k: nat) returns (i: nat)
    requires Lists(es, Assigned(Variables()), c) && LastUse(Variables(), k)
    ensures EntryIs(es, i, Variables()[k].name, Variables()[k].producer(c))
  {
    hide Lists, Assigned, Variables;
    NamesPlain();
    LastOf(Variables(), k);
    EvalRoundTrip(es, Variables(), c);
    var a := Variables()[k];
    assert a in Variables();
    i :| Holds(es, i, a.name, Variables(), c);
  }

  /** Entry `i` carries the listeners that lead to the addresses the test is given. */
  ghost predicate LeadsToTest(es: seq<string>, i: nat, t: Table, ip: string) {
    && i < |es| && '=' in es[i] && EntryName(es[i]) == "KAFKA_ADVERTISED_LISTENERS"
    && ListenerAddress(EntryValue(es[i]), "PLAINTEXT") == GetBrokerURL(t, ip)
    && ListenerAddress(EntryValue(es[i]), "CONTROLLER") == GetAdminURL(t, ip)
  }

  /** Entry `i` makes the broker listen, on every interface, on the ports the kernel gave. */
  ghost predicate ListensOn(es: seq<string>, i: nat, bp: uint16, ap: uint16) {
    && i < |es| && '=' in es[i] && EntryName(es[i]) == "KAFKA_LISTENERS"
    && ListenerAddress(EntryValue(es[i]), "PLAINTEXT") == Some("0.0.0.0:" + FormatUint(bp))
    && ListenerAddress(EntryValue(es[i]), "CONTROLLER") == Some("0.0.0.0:" + FormatUint(ap))
  }

  /** Entry `i` names the test's controller address as the one voter. */
  ghost predicate VotesAt(es: seq<string>, i: nat, t: Table, ip: string) {
    && i < |es| && '=' in es[i] && EntryName(es[i]) == "KAFKA_CONTROLLER_QUORUM_VOTERS"
    && GetAdminURL(t, ip).Some? && EntryValue(es[i]) == "1@" + GetAdminURL(t, ip).value
  }

  /** The container's environment, read back: following the advertised listeners leads to the addresses the test is
      given, the broker listens on just these ports, and the voter is the test's controller address. */
  lemma {:induction false} EnvironmentAgreement(es: seq<string>, bp: uint16, ap: uint16, ip: string)
    requires bp != ap && ip != "" && ',' !in ip
    requires Lists(es, Assigned(Variables()), ContainerInfo(PortTable(bp, ap, ip), ip))
    ensures exists i: nat :: LeadsToTest(es, i, PortTable(bp, ap, ip), ip)
    ensures exists i: nat :: ListensOn(es, i, bp, ap)
    ensures exists i: nat :: VotesAt(es, i, PortTable(bp, ap, ip), ip)
  {
    hide Variables, LastUse, ListenerAddress, PortTable, GetBrokerURL, GetAdminURL, EntryName, EntryValue;
    hide AdvertisedListeners, Listeners, QuorumVoters;
    var c := ContainerInfo(PortTable(bp, ap, ip), ip);
    AddressesAreLast();
    AddressAgreement(bp, ap, ip);
    var i := VariableEntry(es, c, 3);
    var j := VariableEntry(es, c, 4);
    var k := VariableEntry(es, c, 7);
    assert ListensOn(es, i, bp, ap);
    assert LeadsToTest(es, j, PortTable(bp, ap, ip), ip);
    assert VotesAt(es, k, PortTable(bp, ap, ip), ip);
  }

  /** The environment has this variable with this value. */
  ghost predicate Reads(es: seq<string>, name: string, value: string) {
    exists i: nat :: EntryIs(es, i, name, Value(value))
  }

  lemma FixedAreLast()
    ensures var vs := Variables();
      && LastUse(vs, 0) && vs[0].name == "KAFKA_NODE_ID"
      && LastUse(vs, 1) && vs[1].name == "KAFKA_OFFSETS_TOPIC_REPLICATION_FACTOR"
      && LastUse(vs, 2) && vs[2].name == "KAFKA_PROCESS_ROLES"
      && LastUse(vs, 5) && vs[5].name == "KAFKA_CONTROLLER_LISTENER_NAMES"
      && LastUse(vs, 6) && vs[6].name == "KAFKA_LISTENER_SECURITY_PROTOCOL_MAP"
  {
    var vs := Variables();
    assert |vs[0].name| == 13 && |vs[1].name| == 38 && |vs[2].name| == 19 && |vs[3].name| == 15;
    assert |vs[4].name| == 26 && |vs[5].name| == 31 && |vs[6].name| == 36 && |vs[7].name| == 30;
  }

  lemma VariableReads(es: seq<string>, c: ContainerInfo, k: nat, value: string)
    requires Lists(es, Assigned(Variables()), c) && LastUse(Variables(), k)
    requires Variables()[k].producer(c) == Value(value)
    ensures Reads(es, Variables()[k].name, value)
  {
    hide Lists, Assigned, Variables, LastUse, EntryIs;
    var i := VariableEntry(es, c, k);
  }

  lemma SplitPair(a: string, b: string)
    requires ',' !in a && ',' !in b
    ensures Split(a + "," + b, ',') == [a, b]
  {
    SplitCons(a, ',', b);
    SplitCons(b, ',', "");
  }

  lemma RolesSplit()
    ensures Split("broker,controller", ',') == ["broker", "controller"]
  {
    var a, b := "broker", "controller";
    assert ',' !in a && ',' !in b && a + "," + b == "broker,controller";
    hide Split;
    SplitPair(a, b);
  }

  lemma ProtocolTexts(a: string, b: string)
    requires a == "CONTROLLER:PLAINTEXT" && b == "PLAINTEXT:PLAINTEXT"
    ensures ',' !in a && ',' !in b && "CONTROLLER" + ":PLAINTEXT" == a
  {
  }

  lemma ProtocolsJoined(a: string, b: string)
    requires a == "CONTROLLER:PLAINTEXT" && b == "PLAINTEXT:PLAINTEXT"
    ensures a + "," + b == "CONTROLLER:PLAINTEXT,PLAINTEXT:PLAINTEXT"
  {
  }

  lemma ProtocolsSplit()
    ensures Split("CONTROLLER:PLAINTEXT,PLAINTEXT:PLAINTEXT", ',')
         == ["CONTROLLER" + ":PLAINTEXT", "PLAINTEXT:PLAINTEXT"]
  {
    hide Split;
    var a, b := "CONTROLLER:PLAINTEXT", "PLAINTEXT:PLAINTEXT";
    ProtocolTexts(a, b);
    ProtocolsJoined(a, b);
    SplitPair(a, b);
  }

  lemma {:induction false} FixedReads(es: seq<string>, c: ContainerInfo)
    requires Lists(es, Assigned(Variables()), c)
    ensures Reads(es, "KAFKA_NODE_ID", FormatUint(1))
    ensures Reads(es, "KAFKA_OFFSETS_TOPIC_REPLICATION_FACTOR", FormatUint(1))
    ensures Reads(es, "KAFKA_PROCESS_ROLES", "broker,controller")
    ensures Reads(es, "KAFKA_CONTROLLER_LISTENER_NAMES", "CONTROLLER")
    ensures Reads(es, "KAFKA_LISTENER_SECURITY_PROTOCOL_MAP", "CONTROLLER:PLAINTEXT,PLAINTEXT:PLAINTEXT")
  {
    FixedAreLast();
    FixedValues(c);
    hide Variables, LastUse, Lists, Assigned, Reads, FormatUint;
    VariableReads(es, c, 0, FormatUint(1));
    VariableReads(es, c, 1, FormatUint(1));
    VariableReads(es, c, 2, Variables()[2].producer(c).value);
    VariableReads(es, c, 5, Variables()[5].producer(c).value);
    VariableReads(es, c, 6, Variables()[6].producer(c).value);
  }

  /** The environment describes one node that is broker and controller: its number is that of the only voter, the
      replication factor is the number of voters, the controller's listener is the one advertised at the test's
      controller address, and every listener is plain text. */
  lemma {:induction false} OneNode(es: seq<string>, bp: uint16, ap: uint16, ip: string)
      returns (node: string, replicas: string, roles: string, controller: string, protocols: string)
    requires bp != ap && ip != "" && ',' !in ip
    requires Lists(es, Assigned(Variables()), ContainerInfo(PortTable(bp, ap, ip), ip))
    ensures Reads(es, "KAFKA_NODE_ID", node) && Reads(es, "KAFKA_OFFSETS_TOPIC_REPLICATION_FACTOR", replicas)
    ensures Reads(es, "KAFKA_PROCESS_ROLES", roles) && Reads(es, "KAFKA_CONTROLLER_LISTENER_NAMES", controller)
    ensures Reads(es, "KAFKA_LISTENER_SECURITY_PROTOCOL_MAP", protocols)
    ensures var t := PortTable(bp, ap, ip); var c := ContainerInfo(t, ip);
      && QuorumVoters(c).Value? && GetAdminURL(t, ip).Some? && AdvertisedListeners(c).Value?
      && QuorumVoters(c).value == node + "@" + GetAdminURL(t, ip).value
      && ParseUint(replicas, 0x8000) == Some(|Split(QuorumVoters(c).value, ',')|)
      && Split(roles, ',') == ["broker", "controller"]
      && ListenerAddress(AdvertisedListeners(c).value, controller) == GetAdminURL(t, ip)
      && Split(protocols, ',') == [controller + ":PLAINTEXT", "PLAINTEXT:PLAINTEXT"]
  {
    var c := ContainerInfo(PortTable(bp, ap, ip), ip);
    hide *;
    node, replicas, roles := FormatUint(1), FormatUint(1), "broker,controller";
    controller, protocols := "CONTROLLER", "CONTROLLER:PLAINTEXT,PLAINTEXT:PLAINTEXT";
    FixedReads(es, c);
    RolesSplit();
    ProtocolsSplit();
    AddressAgreement(bp, ap, ip);
    NodeNumber();
    OneVoter(QuorumVoters(c).value, ip, ap);
    ParseFormat(1, 0x8000);
  }

  lemma NodeNumber()
    ensures FormatUint(1) + "@" == "1@"
  {
    assert FormatUint(1) == "1";
  }

  lemma FixedValues(c: ContainerInfo)
    ensures var vs := Variables();
      && vs[0].producer(c) == Value(FormatUint(1)) && vs[1].producer(c) == Value(FormatUint(1))
      && vs[2].producer(c) == Value("broker,controller") && vs[5].producer(c) == Value("CONTROLLER")
      && vs[6].producer(c) == Value("CONTROLLER:PLAINTEXT,PLAINTEXT:PLAINTEXT")
  {
  }

  lemma OneVoter(voters: string, ip: string, ap: uint16)
    requires ',' !in ip && voters == "1@" + (ip + ":" + FormatUint(ap))
    ensures |Split(voters, ',')| == 1
  {
    NoComma(ip, ap);
    assert ',' !in "1@";
    SplitCons(voters, ',', "");
  }

  /** The names under which a client asks for the two ports. */
  lemma DeclaredNames()
    ensures Key(TCP, BROKER_PORT) == "9092/tcp" && Key(TCP, ADMIN_PORT) == "9093/tcp"
  {
    assert FormatUint(90) == "90" && FormatUint(909) == "90" + "9";
    assert FormatUint(9092) == FormatUint(909) + "2" && FormatUint(9093) == FormatUint(909) + "3";
  }

  lemma {:induction false} LastIsAssigned(vs: seq<Assignment>, name: string)
    requires LastAssigned(vs, name).Some?
    ensures exists a :: a in vs && a.name == name && LastAssigned(vs, name) == Some(a.producer)
  {
    var a := vs[|vs| - 1];
    assert a in vs;
    if a.name != name {
      LastIsAssigned(vs[..|vs| - 1], name);
    }
  }

  lemma ProducersPanic(bp: uint16, ap: uint16, ip: string, a: Assignment)
    requires a in Variables()
    ensures a.producer(ContainerInfo(PortTable(bp, ap, ip), ip)).Panic? ==> ip == ""
  {
    hide PortTable, GetExternalPortMapping;
    KafkaLookups(bp, ap, ip);
  }

  /** Evaluating the environment panics if and only if there is no daemon address, whatever ports the kernel gave. */
  lemma {:induction false} EvalPanicsExactly(bp: uint16, ap: uint16, ip: string)
    ensures var vars := Assigned(Variables()); var c := ContainerInfo(PortTable(bp, ap, ip), ip);
      (exists name :: name in vars && vars[name](c).Panic?) <==> ip == ""
  {
    hide Variables, PortTable;
    var vars, c := Assigned(Variables()), ContainerInfo(PortTable(bp, ap, ip), ip);
    forall name | name in vars && vars[name](c).Panic? ensures ip == "" {
      AssignedIsLast(Variables(), name);
      LastIsAssigned(Variables(), name);
      var a :| a in Variables() && a.name == name && LastAssigned(Variables(), name) == Some(a.producer);
      ProducersPanic(bp, ap, ip, a);
    }
    if ip == "" {
      AddressesAreLast();
      LastOf(Variables(), 4);
      var name := Variables()[4].name;
      AssignedIsLast(Variables(), name);
      assert AdvertisedListeners(c).Panic?;
      assert name in vars && vars[name](c).Panic?;
    }
  }
}
