/** Trees of command-line parameters, as groups of parameters and groups. */
module CliTree {

  datatype Node =
    | Param(id: nat, isRequired: bool, isBlocking: bool, flags: seq<string>)
    | Group(children: seq<Node>, exclusive: bool)

  /** child_t::required: a group of alternatives needs all, any other group needs one required child. */
  predicate Required(n: Node)
    decreases n, 0
  {
    match n
    case Param(_, r, _, _) => r
    case Group(children, exclusive) => if exclusive then AllRequired(children) else AnyRequired(children)
  }

  predicate AnyRequired(ns: seq<Node>)
    decreases ns, 1
  {
    ns != [] && (Required(ns[0]) || AnyRequired(ns[1..]))
  }

  predicate AllRequired(ns: seq<Node>)
    decreases ns, 1
  {
    ns == [] || (Required(ns[0]) && AllRequired(ns[1..]))
  }

  predicate AllOptional(ns: seq<Node>) { !AnyRequired(ns) }

  predicate AnyOptional(ns: seq<Node>) { !AllRequired(ns) }

  /** Every group at any depth has a child. */
  ghost predicate NoEmptyGroups(ns: seq<Node>)
    decreases ns
  {
    ns == [] ||
    ((ns[0].Group? ==> ns[0].children != [] && NoEmptyGroups(ns[0].children)) && NoEmptyGroups(ns[1..]))
  }

  /** A node and everything under it, in pre-order. */
  function Visit(n: Node): (r: seq<Node>)
    ensures r != [] && r[0] == n
    decreases n, 0
  {
    if n.Group? then [n] + PreOrder(n.children) else [n]
  }

  /** All nodes in depth-first pre-order. */
  function PreOrder(ns: seq<Node>): seq<Node>
    decreases ns, 1
  {
    if ns == [] then [] else Visit(ns[0]) + PreOrder(ns[1..])
  }

  lemma {:induction false} NoEmptyGroupsSuffix(ns: seq<Node>, i: nat)
    requires NoEmptyGroups(ns) && i <= |ns|
    ensures NoEmptyGroups(ns[i..])
    decreases ns
  {
    if i == 0 {
      assert ns[0..] == ns;
    } else {
      NoEmptyGroupsSuffix(ns[1..], i - 1);
      assert ns[1..][i - 1..] == ns[i..];
    }
  }

  /** A parameter is required as it says; a group of alternatives if all its children are, any other if one is. */
  lemma {:induction false} RequiredIff(n: Node)
    ensures n.Param? ==> (Required(n) <==> n.isRequired)
    ensures n.Group? && n.exclusive ==> (Required(n) <==> forall i :: 0 <= i < |n.children| ==> Required(n.children[i]))
    ensures n.Group? && !n.exclusive ==> (Required(n) <==> exists i :: 0 <= i < |n.children| && Required(n.children[i]))
  {
    if n.Group? { RequiredInList(n.children); }
  }

  lemma {:induction false} RequiredInList(ns: seq<Node>)
    ensures AllRequired(ns) <==> forall i :: 0 <= i < |ns| ==> Required(ns[i])
    ensures AnyRequired(ns) <==> exists i :: 0 <= i < |ns| && Required(ns[i])
  {
    if ns != [] {
      RequiredInList(ns[1..]);
      assert forall i :: 1 <= i < |ns| ==> ns[i] == ns[1..][i - 1];
      if AnyRequired(ns[1..]) {
        var i :| 0 <= i < |ns[1..]| && Required(ns[1..][i]);
        assert Required(ns[i + 1]);
      }
    }
  }
}
