/** The test tree every expected file carries: leaves are tests, inner nodes
    are test groups built with the arguments `(members, maxNum, maxValue)`
    exactly as the file classes pass them. How a group turns those numbers
    into ceilings, and how it aggregates deductions, belongs to TestGroup,
    which is not part of this model. */
module TestTrees {

  /** A test leaf. Tests written in the criteria document are `Declared`
      with an id unique to the test object, so that value equality stands for
      the object identity (`o == test`) the Java code compares with. The
      other variants are the tests the file classes synthesize; the import
      test is built from its Python file and carries that file's
      import-failure deduction. */
  datatype Test =
    | Declared(id: nat)
    | LateSubmission(deduction: real, due: int)
    | VariableExists(variableName: string)
    | FunctionExists(functionName: string)
    | ImportCheck(deduction: real)
    | ClassExists(className: string)
    | MethodExists(methodName: string)

  /** A member of a test list: a test or a nested test group. */
  datatype Node =
    | Leaf(test: Test)
    | Group(members: seq<Node>, maxNum: int, maxValue: real)

  /** Every test below `list`, depth first, in member order. */
  function Leaves(list: seq<Node>): seq<Test>
  {
    if list == [] then [] else NodeLeaves(list[0]) + Leaves(list[1..])
  }

  function NodeLeaves(n: Node): seq<Test>
  {
    match n
    case Leaf(t) => [t]
    case Group(ms, _, _) => Leaves(ms)
  }

  predicate IsFlat(list: seq<Node>) {
    forall i :: 0 <= i < |list| ==> list[i].Leaf?
  }

  /** `hasTest` of PythonFile and JavaFile, as written: scan the list; a
      matching test answers true, but the first group met answers for the
      whole rest of the list (its later siblings are never looked at). */
  function HasTest(list: seq<Node>, t: Test): (r: bool)
    ensures r ==> t in Leaves(list)
  {
    if list == [] then false
    else
      match list[0]
      case Leaf(x) => x == t || HasTest(list[1..], t)
      case Group(ms, _, _) => HasTest(ms, t)
  }

  lemma {:induction false} LeavesAppend(a: seq<Node>, b: seq<Node>)
    ensures Leaves(a + b) == Leaves(a) + Leaves(b)
  {
    if a != [] {
      assert (a + b)[1..] == a[1..] + b;
      LeavesAppend(a[1..], b);
      calc {
        Leaves(a + b);
        NodeLeaves(a[0]) + Leaves(a[1..] + b);
        NodeLeaves(a[0]) + (Leaves(a[1..]) + Leaves(b));
        Leaves(a) + Leaves(b);
      }
    } else {
      assert a + b == b;
    }
  }

  lemma LeavesOfOne(a: Node)
    ensures Leaves([a]) == NodeLeaves(a)
  {
    assert [a][1..] == [];
  }

  lemma LeavesOfTwo(a: Node, b: Node)
    ensures Leaves([a, b]) == NodeLeaves(a) + NodeLeaves(b)
  {
    assert [a, b][1..] == [b];
    LeavesOfOne(b);
  }

  /** On a list of tests only, `hasTest` is plain membership. */
  lemma {:induction false} HasTestOnFlatList(list: seq<Node>, t: Test)
    requires IsFlat(list)
    ensures HasTest(list, t) <==> Leaf(t) in list
  {
    if list != [] {
      HasTestOnFlatList(list[1..], t);
      assert list == [list[0]] + list[1..];
    }
  }

  /** A test that sits before every group of the list is found. */
  lemma {:induction false} HasTestFindsLeadingTest(list: seq<Node>, t: Test, k: nat)
    requires k < |list| && list[k] == Leaf(t)
    requires forall j :: 0 <= j < k ==> list[j].Leaf?
    ensures HasTest(list, t)
  {
    if k > 0 {
      HasTestFindsLeadingTest(list[1..], t, k - 1);
    }
  }

  /** Once the scan reaches the first group (no match before it), the
      answer is that group's answer, whatever follows the group. */
  lemma {:induction false} HasTestStopsAtFirstGroup(list: seq<Node>, t: Test, k: nat)
    requires k < |list| && list[k].Group?
    requires forall j :: 0 <= j < k ==> list[j].Leaf? && list[j].test != t
    ensures HasTest(list, t) == HasTest(list[k].members, t)
  {
    if k > 0 {
      assert list[0].Leaf? && list[0].test != t;
      assert HasTest(list, t) == HasTest(list[1..], t);
      HasTestStopsAtFirstGroup(list[1..], t, k - 1);
    }
  }

  /** As written, a test placed after a group is missed, although it lies
      in the list. */
  lemma HasTestMissesTestAfterGroup()
    ensures var list := [Group([], 0, 0.0), Leaf(Declared(0))];
            !HasTest(list, Declared(0)) && Declared(0) in Leaves(list)
  {
    var list := [Group([], 0, 0.0), Leaf(Declared(0))];
    assert list[1..] == [Leaf(Declared(0))];
    LeavesOfTwo(Group([], 0, 0.0), Leaf(Declared(0)));
  }

  /** The search `hasTest` evidently intends: a group that does not contain
      the test lets the scan go on to its later siblings. */
  function ContainsTest(list: seq<Node>, t: Test): bool
  {
    if list == [] then false
    else
      var rest := ContainsTest(list[1..], t);
      match list[0]
      case Leaf(x) => x == t || rest
      case Group(ms, _, _) => ContainsTest(ms, t) || rest
  }

  /** The intended search finds exactly the tests lying below the list. */
  lemma {:induction false} ContainsTestIsMembership(list: seq<Node>, t: Test)
    ensures ContainsTest(list, t) <==> t in Leaves(list)
  {
    if list != [] {
      ContainsTestIsMembership(list[1..], t);
      match list[0]
      case Leaf(x) =>
      case Group(ms, _, _) => ContainsTestIsMembership(ms, t);
    }
  }
}
