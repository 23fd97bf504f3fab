/** The environment builder (environment.go): variables are functions of the running container's port table. */
module Environments {
  import opened GoStrings
  import Ports

  /** What an environment function may ask: the container's ports and the daemon's address. */
  datatype ContainerInfo = ContainerInfo(ports: Ports.Table, dockerHostIP: string)

  datatype Outcome<+T> = Value(value: T) | Panic

  type Producer = ContainerInfo -> Outcome<string>

  datatype Assignment = Assignment(name: string, producer: Producer)

  function Fixed(value: string): Producer {
    (c: ContainerInfo) => Value(value)
  }

  const INT64_LIMIT := 0x8000_0000_0000_0000
  const UINT64_LIMIT := 0x1_0000_0000_0000_0000

  type int64 = n: int | -0x8000_0000_0000_0000 <= n < 0x8000_0000_0000_0000
  type uint64 = n: int | 0 <= n < 0x1_0000_0000_0000_0000

  /** The map a sequence of assignments leaves behind. */
  function Assigned(assignments: seq<Assignment>): map<string, Producer> {
    if assignments == [] then map[]
    else
      var a := assignments[|assignments| - 1];
      Assigned(assignments[..|assignments| - 1])[a.name := a.producer]
  }

  class Environment {
    var vars: map<string, Producer>
    /** Every assignment made so far. */
    ghost var assignments: seq<Assignment>

    ghost predicate Valid()
      reads this
    {
      vars == Assigned(assignments)
    }

    constructor ()
      ensures Valid() && assignments == []
    {
      vars, assignments := map[], [];
    }

    method Var(name: string, vfn: Producer)
      requires Valid()
      modifies this
      ensures Valid() && assignments == old(assignments) + [Assignment(name, vfn)]
    {
      vars := vars[name := vfn];
      assignments := assignments + [Assignment(name, vfn)];
      assert assignments[..|assignments| - 1] == old(assignments);
    }

    method StringVar(name: string, value: string)
      requires Valid()
      modifies this
      ensures Valid() && assignments == old(assignments) + [Assignment(name, Fixed(value))]
    {
      Var(name, Fixed(value));
    }

    method Int64Var(name: string, value: int64)
      requires Valid()
      modifies this
      ensures Valid() && assignments == old(assignments) + [Assignment(name, Fixed(FormatInt(value)))]
    {
      Var(name, Fixed(FormatInt(value)));
    }

    method Uint64Var(name: string, value: uint64)
      requires Valid()
      modifies this
      ensures Valid() && assignments == old(assignments) + [Assignment(name, Fixed(FormatUint(value)))]
    {
      Var(name, Fixed(FormatUint(value)));
    }

    /** One entry per variable, in whatever order the map is walked; a panicking function ends it. */
    method Eval(c: ContainerInfo) returns (r: Outcome<seq<string>>)
      ensures r.Value? ==> Lists(r.value, vars, c)
      ensures r.Panic? <==> exists name :: name in vars && vars[name](c).Panic?
    {
      var es: seq<string>, todo := [], vars.Keys;
      ghost var order: seq<string> := [];
      while todo != {}
        invariant todo <= vars.Keys && InOrder(es, order, vars, c)
        invariant forall name :: name in vars <==> name in order || name in todo
        invariant forall name :: name in order ==> name !in todo
        decreases |todo|
      {
        var k :| k in todo;
        var v := vars[k](c);
        if v.Panic? {
          return Panic;
        }
        es := es + [k + "=" + v.value];
        order := order + [k];
        todo := todo - {k};
      }
      forall name | name in vars ensures vars[name](c).Value? {
        var i :| 0 <= i < |order| && order[i] == name;
      }
      return Value(es);
    }
  }

  /** The entries are those of these variables, in this order. */
  ghost predicate InOrder(es: seq<string>, order: seq<string>, vars: map<string, Producer>, c: ContainerInfo) {
    && |es| == |order|
    && (forall i, j :: 0 <= i < j < |order| ==> order[i] != order[j])
    && (forall i :: 0 <= i < |order| ==> order[i] in vars && vars[order[i]](c).Value?
                                         && es[i] == order[i] + "=" + vars[order[i]](c).value)
  }

  /** The entries are those of all variables, in some order. */
  ghost predicate Lists(es: seq<string>, vars: map<string, Producer>, c: ContainerInfo) {
    exists order: seq<string> :: InOrder(es, order, vars, c) && forall name :: name in vars <==> name in order
  }

  /** What comes before and after the first '='. */
  function EntryName(e: string): string
    requires '=' in e
  {
    e[..IndexOf(e, '=')]
  }

  function EntryValue(e: string): string
    requires '=' in e
  {
    e[IndexOf(e, '=') + 1..]
  }

  lemma EntryParts(name: string, value: string)
    requires '=' !in name
    ensures var e := name + "=" + value; '=' in e && EntryName(e) == name && EntryValue(e) == value
  {
    IndexOfFirst(name, '=', value);
    var e := name + ['='] + value;
    assert e[|name|] == '=' && e[..|name|] == name && e[|name| + 1..] == value;
  }

  /** The function last given to a name. */
  function LastAssigned(assignments: seq<Assignment>, name: string): Option<Producer> {
    if assignments == [] then None
    else if assignments[|assignments| - 1].name == name then Some(assignments[|assignments| - 1].producer)
    else LastAssigned(assignments[..|assignments| - 1], name)
  }

  lemma {:induction false} AssignedIsLast(assignments: seq<Assignment>, name: string)
    ensures name in Assigned(assignments) <==> LastAssigned(assignments, name).Some?
    ensures name in Assigned(assignments) ==> LastAssigned(assignments, name) == Some(Assigned(assignments)[name])
    ensures name in Assigned(assignments) <==> exists a :: a in assignments && a.name == name
  {
    if assignments != [] {
      var init := assignments[..|assignments| - 1];
      AssignedIsLast(init, name);
      assert assignments == init + [assignments[|assignments| - 1]];
    }
  }

  /** Entry `i` belongs to `name` and holds the value of its last assignment. */
  ghost predicate Holds(es: seq<string>, i: nat, name: string, assignments: seq<Assignment>, c: ContainerInfo) {
    && i < |es| && '=' in es[i] && EntryName(es[i]) == name
    && LastAssigned(assignments, name).Some?
    && LastAssigned(assignments, name).value(c) == Value(EntryValue(es[i]))
  }

  /** Reading the entries back at their first '=': every assigned name occurs, exactly once, with the value of its
      last assignment; and nothing else occurs. */
  lemma {:induction false} EvalRoundTrip(es: seq<string>, assignments: seq<Assignment>, c: ContainerInfo)
    requires Lists(es, Assigned(assignments), c)
    requires forall a :: a in assignments ==> '=' !in a.name
    ensures forall i: nat :: i < |es| ==> '=' in es[i] && Holds(es, i, EntryName(es[i]), assignments, c)
    ensures forall a :: a in assignments ==> exists i: nat :: Holds(es, i, a.name, assignments, c)
    ensures forall i: nat, j: nat :: i < j < |es| ==> EntryName(es[i]) != EntryName(es[j])
  {
    hide Holds;
    var vars := Assigned(assignments);
    var order: seq<string> :| InOrder(es, order, vars, c) && forall name :: name in vars <==> name in order;
    forall i: nat | i < |es|
      ensures '=' in es[i] && EntryName(es[i]) == order[i] && Holds(es, i, order[i], assignments, c)
    {
      EntryHolds(es, order, assignments, c, i);
    }
    forall a | a in assignments ensures exists i: nat :: Holds(es, i, a.name, assignments, c) {
      AssignedIsLast(assignments, a.name);
      var i :| 0 <= i < |order| && order[i] == a.name;
      assert Holds(es, i, order[i], assignments, c);
    }
  }

  lemma EntryHolds(es: seq<string>, order: seq<string>, assignments: seq<Assignment>, c: ContainerInfo, i: nat)
    requires InOrder(es, order, Assigned(assignments), c) && i < |es|
    requires forall a :: a in assignments ==> '=' !in a.name
    ensures '=' in es[i] && EntryName(es[i]) == order[i] && Holds(es, i, order[i], assignments, c)
  {
    var vars := Assigned(assignments);
    AssignedIsLast(assignments, order[i]);
    EntryParts(order[i], vars[order[i]](c).value);
  }

  /** A signed variable is printed canonically and reads back as the number, for every value of its type. */
  lemma SignedRoundTrip(es: seq<string>, i: nat, name: string, assignments: seq<Assignment>, c: ContainerInfo, v: int64)
    requires Holds(es, i, name, assignments, c) && LastAssigned(assignments, name) == Some(Fixed(FormatInt(v)))
    ensures ParseInt(EntryValue(es[i]), INT64_LIMIT) == Some(v) && CanonicalInt(EntryValue(es[i]))
  {
    FormatIntIsCanonical(v, FormatInt(v), INT64_LIMIT);
  }

  /** And so does an unsigned one. */
  lemma UnsignedRoundTrip(es: seq<string>, i: nat, name: string, assignments: seq<Assignment>, c: ContainerInfo,
        v: uint64)
    requires Holds(es, i, name, assignments, c) && LastAssigned(assignments, name) == Some(Fixed(FormatUint(v)))
    ensures ParseUint(EntryValue(es[i]), UINT64_LIMIT) == Some(v) && Canonical(EntryValue(es[i]))
  {
    ParseFormat(v, UINT64_LIMIT);
    FormatIsCanonical(v, FormatUint(v));
  }
}
