/** The Java-specific part of test-root synthesis (JavaFile.createTestRoot)
    and the searches for the class owning a method and the method owning a
    test. */
module JavaFiles {
  import opened Common
  import opened TestTrees

  /** A method the criteria expect, with its own tests. */
  datatype Method = Method(name: string, tests: seq<Node>)

  /** A class the criteria expect: class-level tests and its methods. */
  datatype JavaClass = JavaClass(name: string, tests: seq<Node>, methods: seq<Method>)

  /** A method's exists-test gating the group of its tests (even an empty
      one) under a count ceiling of one. */
  function MethodGroup(m: Method): Node
  {
    Group([Leaf(MethodExists(m.name)), Group(m.tests, 0, 0.0)], 1, 0.0)
  }

  /** A class's exists-test gating its class-level tests followed by its
      method groups, under a count ceiling of one. */
  function ClassGroup(c: JavaClass): Node
  {
    var methodRoots := seq(|c.methods|, j requires 0 <= j < |c.methods| => MethodGroup(c.methods[j]));
    Group([Leaf(ClassExists(c.name)), Group(c.tests + methodRoots, 0, 0.0)], 1, 0.0)
  }

  /** The inner loop of createTestRoot: one group per method, in order. */
  method BuildMethodRoots(methods: seq<Method>) returns (methodRoots: seq<Node>)
    ensures |methodRoots| == |methods|
    ensures forall j :: 0 <= j < |methods| ==> methodRoots[j] == MethodGroup(methods[j])
  {
    methodRoots := [];
    for j := 0 to |methods|
      invariant |methodRoots| == j
      invariant forall k :: 0 <= k < j ==> methodRoots[k] == MethodGroup(methods[k])
    {
      var m := methods[j];
      var methodExistsTest := MethodExists(m.name);
      methodRoots := methodRoots + [Group([Leaf(methodExistsTest), Group(m.tests, 0, 0.0)], 1, 0.0)];
    }
  }

  /** The outer loop of createTestRoot: one group per class, in order; the
      class-level tests are put in front of the method groups in place
      (`methodRoots.addAll(0, c.tests)`). */
  method BuildClassGroups(classes: seq<JavaClass>) returns (groups: seq<Node>)
    ensures |groups| == |classes|
    ensures forall i :: 0 <= i < |classes| ==> groups[i] == ClassGroup(classes[i])
  {
    groups := [];
    for i := 0 to |classes|
      invariant |groups| == i
      invariant forall k :: 0 <= k < i ==> groups[k] == ClassGroup(classes[k])
    {
      var c := classes[i];
      var methodRoots := BuildMethodRoots(c.methods);
      assert methodRoots == seq(|c.methods|, j requires 0 <= j < |c.methods| => MethodGroup(c.methods[j]));
      var classExistsTest := ClassExists(c.name);
      methodRoots := c.tests + methodRoots;
      groups := groups + [Group([Leaf(classExistsTest), Group(methodRoots, 0, 0.0)], 1, 0.0)];
    }
  }

  /** Every test a list of methods declares, each method's exists-test first. */
  function MethodLeaves(methods: seq<Method>): seq<Test>
  {
    if methods == [] then []
    else [MethodExists(methods[0].name)] + Leaves(methods[0].tests) + MethodLeaves(methods[1..])
  }

  /** Every test a list of classes declares: per class its exists-test, its
      class-level tests, then its methods' tests. */
  function ClassLeaves(classes: seq<JavaClass>): seq<Test>
  {
    if classes == [] then []
    else [ClassExists(classes[0].name)] + Leaves(classes[0].tests) + MethodLeaves(classes[0].methods)
         + ClassLeaves(classes[1..])
  }

  lemma {:induction false} MethodGroupsLeaves(methods: seq<Method>, roots: seq<Node>)
    requires |roots| == |methods|
    requires forall j :: 0 <= j < |methods| ==> roots[j] == MethodGroup(methods[j])
    ensures Leaves(roots) == MethodLeaves(methods)
  {
    if methods != [] {
      var m := methods[0];
      LeavesOfTwo(Leaf(MethodExists(m.name)), Group(m.tests, 0, 0.0));
      assert NodeLeaves(roots[0]) == [MethodExists(m.name)] + Leaves(m.tests);
      MethodGroupsLeaves(methods[1..], roots[1..]);
    }
  }

  lemma ClassGroupLeaves(c: JavaClass)
    ensures NodeLeaves(ClassGroup(c)) == [ClassExists(c.name)] + Leaves(c.tests) + MethodLeaves(c.methods)
  {
    var methodRoots := seq(|c.methods|, j requires 0 <= j < |c.methods| => MethodGroup(c.methods[j]));
    MethodGroupsLeaves(c.methods, methodRoots);
    LeavesAppend(c.tests, methodRoots);
    LeavesOfTwo(Leaf(ClassExists(c.name)), Group(c.tests + methodRoots, 0, 0.0));
  }

  /** Gating loses and duplicates nothing: below the class groups lie
      exactly the tests each class declares, class by class. */
  lemma {:induction false} ClassGroupsLeaves(classes: seq<JavaClass>, groups: seq<Node>)
    requires |groups| == |classes|
    requires forall i :: 0 <= i < |classes| ==> groups[i] == ClassGroup(classes[i])
    ensures Leaves(groups) == ClassLeaves(classes)
  {
    if classes != [] {
      ClassGroupLeaves(classes[0]);
      ClassGroupsLeaves(classes[1..], groups[1..]);
    }
  }

  /** getClassForMethod: the first class whose method list contains `m`. */
  method GetClassForMethod(classes: seq<JavaClass>, m: Method) returns (r: Option<JavaClass>)
    ensures r.None? <==> forall k :: 0 <= k < |classes| ==> m !in classes[k].methods
    ensures r.Some? ==> exists k :: 0 <= k < |classes| && classes[k] == r.value
                          && m in classes[k].methods
                          && forall j :: 0 <= j < k ==> m !in classes[j].methods
  {
    for i := 0 to |classes|
      invariant forall j :: 0 <= j < i ==> m !in classes[j].methods
    {
      if m in classes[i].methods {
        return Some(classes[i]);
      }
    }
    return None;
  }

  /** All methods, class by class, in declaration order. */
  function AllMethods(classes: seq<JavaClass>): seq<Method>
  {
    if classes == [] then []
    else AllMethods(classes[..|classes| - 1]) + classes[|classes| - 1].methods
  }

  /** A method whose test list `hasTest`, as written, finds `t` in. */
  predicate Reports(m: Method, t: Test)
  {
    HasTest(m.tests, t)
  }

  /** getMethodForTest: the first method, in class order then method order,
      whose test list `hasTest`, as written, finds `t` in. */
  method GetMethodForTest(classes: seq<JavaClass>, t: Test) returns (r: Option<Method>)
    ensures r.None? <==> forall k :: 0 <= k < |AllMethods(classes)| ==> !Reports(AllMethods(classes)[k], t)
    ensures r.Some? ==> exists k :: 0 <= k < |AllMethods(classes)| && AllMethods(classes)[k] == r.value
                          && Reports(r.value, t)
                          && forall j :: 0 <= j < k ==> !Reports(AllMethods(classes)[j], t)
  {
    for i := 0 to |classes|
      invariant forall k :: 0 <= k < |AllMethods(classes[..i])| ==> !Reports(AllMethods(classes[..i])[k], t)
    {
      var c := classes[i];
      assert classes[..i + 1][..i] == classes[..i];
      ghost var done := AllMethods(classes[..i]);
      assert AllMethods(classes[..i + 1]) == done + c.methods;
      for j := 0 to |c.methods|
        invariant forall k :: 0 <= k < |done| + j ==> !Reports((done + c.methods)[k], t)
      {
        if Reports(c.methods[j], t) {
          AllMethodsPrefix(classes, i + 1);
          assert (done + c.methods)[|done| + j] == c.methods[j];
          return Some(c.methods[j]);
        }
      }
    }
    assert classes[..|classes|] == classes;
    return None;
  }

  /** A method whose test list contains `t`, at any depth. */
  predicate Covers(m: Method, t: Test)
  {
    ContainsTest(m.tests, t)
  }

  /** getMethodForTest with the search `hasTest` intends: the first method,
      in class order then method order, whose test list contains `t` at any
      depth. */
  method GetMethodForTestIntended(classes: seq<JavaClass>, t: Test) returns (r: Option<Method>)
    ensures r.None? <==> forall k :: 0 <= k < |AllMethods(classes)| ==> !Covers(AllMethods(classes)[k], t)
    ensures r.Some? ==> exists k :: 0 <= k < |AllMethods(classes)| && AllMethods(classes)[k] == r.value
                          && Covers(r.value, t)
                          && forall j :: 0 <= j < k ==> !Covers(AllMethods(classes)[j], t)
  {
    for i := 0 to |classes|
      invariant forall k :: 0 <= k < |AllMethods(classes[..i])| ==> !Covers(AllMethods(classes[..i])[k], t)
    {
      var c := classes[i];
      assert classes[..i + 1][..i] == classes[..i];
      ghost var done := AllMethods(classes[..i]);
      assert AllMethods(classes[..i + 1]) == done + c.methods;
      for j := 0 to |c.methods|
        invariant forall k :: 0 <= k < |done| + j ==> !Covers((done + c.methods)[k], t)
      {
        if Covers(c.methods[j], t) {
          AllMethodsPrefix(classes, i + 1);
          assert (done + c.methods)[|done| + j] == c.methods[j];
          return Some(c.methods[j]);
        }
      }
    }
    assert classes[..|classes|] == classes;
    return None;
  }

  lemma {:induction false} AllMethodsPrefix(classes: seq<JavaClass>, n: nat)
    requires n <= |classes|
    ensures AllMethods(classes[..n]) <= AllMethods(classes)
  {
    if n < |classes| {
      AllMethodsPrefix(classes[..|classes| - 1], n);
      assert classes[..|classes| - 1][..n] == classes[..n];
    } else {
      assert classes[..n] == classes;
    }
  }
}
