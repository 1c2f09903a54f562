/** An expected submission file and the synthesis of its test root
    (File.createTestRoot, afterConstruction, verify), with the Python and
    Java variants of createTestRoot dispatched on the file's kind. */
module Files {
  import opened Common
  import opened TestTrees
  import PythonFiles
  import JavaFiles

  /** The file variant. The Python and Java variants add their own fields
      and synthesis; `OtherKind` is a variant with no synthesis of its own,
      which gets the base root unchanged. */
  datatype FileKind =
    | OtherKind
    | PythonKind(importFailureDeduction: real,
                 variables: seq<PythonFiles.Variable>,
                 functions: seq<PythonFiles.Function>)
    | JavaKind(classes: seq<JavaFiles.JavaClass>)

  /** A late-submission leaf carrying the deduction of a due-date entry. */
  predicate IsLateLeafFor(dueDates: map<int, real>, n: Node)
  {
    n.Leaf? && n.test.LateSubmission? && n.test.due in dueDates
    && n.test.deduction == dueDates[n.test.due]
  }

  /** One late-submission test per due-date entry, carrying that entry's
      deduction and date, latest date first. */
  predicate IsLateTestList(dueDates: map<int, real>, late: seq<Node>)
  {
    && |late| == |dueDates.Keys|
    && (forall i :: 0 <= i < |late| ==> IsLateLeafFor(dueDates, late[i]))
    && (forall i, j :: 0 <= i < j < |late| ==> late[i].test.due > late[j].test.due)
    && (forall d :: d in dueDates ==> exists i :: 0 <= i < |late| && late[i].test.due == d)
  }

  /** The group of late tests: at most one of them is counted. */
  predicate IsLateGroup(dueDates: map<int, real>, g: Node)
  {
    g.Group? && g.maxNum == 1 && g.maxValue == 0.0 && IsLateTestList(dueDates, g.members)
  }

  /** The members each variant adds after the base root's members. */
  function KindMembers(kind: FileKind): seq<Node>
  {
    match kind
    case OtherKind => []
    case PythonKind(deduction, variables, functions) =>
      [PythonFiles.ImportGroup(PythonFiles.Units(variables, functions), deduction)]
    case JavaKind(classes) =>
      seq(|classes|, i requires 0 <= i < |classes| => JavaFiles.ClassGroup(classes[i]))
  }

  /** The loop over the due dates sorted latest-first (a TreeMap in reverse
      order): each step takes the latest date not yet visited. */
  method BuildLateTests(dueDates: map<int, real>) returns (late: seq<Node>)
    ensures IsLateTestList(dueDates, late)
  {
    var remaining := dueDates.Keys;
    late := [];
    while remaining != {}
      invariant remaining <= dueDates.Keys
      invariant |late| + |remaining| == |dueDates.Keys|
      invariant forall i :: 0 <= i < |late| ==> IsLateLeafFor(dueDates, late[i]) && late[i].test.due !in remaining
      invariant forall i, d :: 0 <= i < |late| && d in remaining ==> late[i].test.due > d
      invariant forall i, j :: 0 <= i < j < |late| ==> late[i].test.due > late[j].test.due
      invariant forall d :: d in dueDates && d !in remaining ==>
                  exists i :: 0 <= i < |late| && late[i].test.due == d
      decreases remaining
    {
      MaxExists(remaining);
      var d :| d in remaining && forall x :: x in remaining ==> x <= d;
      ghost var before := late;
      late := late + [Leaf(LateSubmission(dueDates[d], d))];
      remaining := remaining - {d};
      assert late[|late| - 1].test.due == d;
      assert forall i :: 0 <= i < |before| ==> late[i] == before[i];
    }
  }

  /** The first late test is for the latest due date. */
  lemma LateHeadIsLatest(dueDates: map<int, real>, a: seq<Node>)
    requires IsLateTestList(dueDates, a) && a != []
    ensures a[0] == Leaf(LateSubmission(dueDates[a[0].test.due], a[0].test.due))
    ensures forall d :: d in dueDates ==> d <= a[0].test.due
  {
    forall d | d in dueDates ensures d <= a[0].test.due {
      var i :| 0 <= i < |a| && a[i].test.due == d;
      if i > 0 { assert a[0].test.due > a[i].test.due; }
    }
  }

  /** Without its first test, a late-test list is the list for the due
      dates without the latest one. */
  lemma LateTail(dueDates: map<int, real>, a: seq<Node>)
    requires IsLateTestList(dueDates, a) && a != []
    ensures IsLateTestList(dueDates - {a[0].test.due}, a[1..])
  {
    var d0 := a[0].test.due;
    var rest := dueDates - {d0};
    assert rest.Keys == dueDates.Keys - {d0};
    forall d | d in rest
      ensures exists i :: 0 <= i < |a[1..]| && a[1..][i].test.due == d
    {
      var i :| 0 <= i < |a| && a[i].test.due == d;
      assert a[1..][i - 1].test.due == d;
    }
    forall i | 0 <= i < |a[1..]| ensures IsLateLeafFor(rest, a[1..][i]) {
      assert a[0].test.due > a[i + 1].test.due;
    }
  }

  /** Two late-test lists for the same due dates start alike. */
  lemma LateHeadsEqual(dueDates: map<int, real>, a: seq<Node>, b: seq<Node>)
    requires IsLateTestList(dueDates, a) && IsLateTestList(dueDates, b) && a != [] && b != []
    ensures a[0] == b[0]
  {
    LateHeadIsLatest(dueDates, a);
    LateHeadIsLatest(dueDates, b);
    assert IsLateLeafFor(dueDates, a[0]) && IsLateLeafFor(dueDates, b[0]);
    assert a[0].test.due <= b[0].test.due && b[0].test.due <= a[0].test.due;
  }

  lemma ConsEqual(a: seq<Node>, b: seq<Node>)
    requires a != [] && b != [] && a[0] == b[0] && a[1..] == b[1..]
    ensures a == b
  {
    assert a == [a[0]] + a[1..];
    assert b == [b[0]] + b[1..];
  }

  /** Two late-test lists for the same due dates are the same list: the
      order and the contents are fully determined by the due dates. */
  lemma {:induction false} LateTestListUnique(dueDates: map<int, real>, a: seq<Node>, b: seq<Node>)
    requires IsLateTestList(dueDates, a) && IsLateTestList(dueDates, b)
    ensures a == b
    decreases |a|
  {
    if |a| != 0 {
      LateHeadsEqual(dueDates, a, b);
      LateTail(dueDates, a);
      LateTail(dueDates, b);
      LateTestListUnique(dueDates - {a[0].test.due}, a[1..], b[1..]);
      ConsEqual(a, b);
    }
  }

  /** An expected file. Instances are populated from the criteria document
      and then given their test root by AfterConstruction. */
  class File {
    var path: Option<string>
    var pointValue: real
    var contentType: Option<string>
    var dueDates: Option<map<int, real>>
    var tests: Option<seq<Node>>
    var testRoot: Option<Node>
    const kind: FileKind

    constructor (path: Option<string>, pointValue: real, contentType: Option<string>,
                 dueDates: Option<map<int, real>>, tests: Option<seq<Node>>, kind: FileKind)
      ensures this.path == path && this.pointValue == pointValue && this.contentType == contentType
      ensures this.dueDates == dueDates && this.tests == tests && this.kind == kind
      ensures testRoot == None
    {
      this.path := path;
      this.pointValue := pointValue;
      this.contentType := contentType;
      this.dueDates := dueDates;
      this.tests := tests;
      this.kind := kind;
      testRoot := None;
    }

    /** `root` is the test root synthesized from the test list `before`,
        which synthesis turned into `after`. */
    ghost predicate SynthesizedFrom(before: seq<Node>, after: seq<Node>, root: Node)
      reads this
    {
      && (dueDates.None? ==> after == before)
      && (dueDates.Some? ==>
            |after| == |before| + 1 && IsLateGroup(dueDates.value, after[0]) && after[1..] == before)
      && root == Group(after + KindMembers(kind), 0, pointValue)
    }

    /** verify: a file is rejected when its path, content type or test list
        is missing. */
    method Verify() returns (ok: bool)
      ensures ok <==> path.Some? && contentType.Some? && tests.Some?
    {
      if path.None? || contentType.None? || tests.None? {
        return false;
      }
      return true;
    }

    /** File.createTestRoot: the late group, when there are due dates, is
        inserted in place at the front of `tests`; the root caps the value
        of all deductions at the file's point value. */
    method CreateBaseRoot() returns (root: Node)
      requires tests.Some?
      modifies this`tests
      ensures tests.Some?
      ensures dueDates.None? ==> tests == old(tests)
      ensures dueDates.Some? ==>
                |tests.value| == |old(tests.value)| + 1
                && IsLateGroup(dueDates.value, tests.value[0])
                && tests.value[1..] == old(tests.value)
      ensures root == Group(tests.value, 0, pointValue)
    {
      if dueDates.Some? {
        var lateTests := BuildLateTests(dueDates.value);
        var lateGroup := Group(lateTests, 1, 0.0);
        tests := Some([lateGroup] + tests.value);
      }
      root := Group(tests.value, 0, pointValue);
    }

    /** createTestRoot of the file's own variant: Python builds its units
        before asking for the base root and appends the import group to it;
        Java appends one group per class. */
    method CreateTestRoot() returns (root: Node)
      requires tests.Some?
      modifies this`tests
      ensures tests.Some? && SynthesizedFrom(old(tests.value), tests.value, root)
    {
      match kind
      case OtherKind =>
        root := CreateBaseRoot();
      case PythonKind(deduction, variables, functions) =>
        var units := PythonFiles.BuildUnits(variables, functions);
        root := CreateBaseRoot();
        var group := PythonFiles.ImportGroup(units, deduction);
        root := root.(members := root.members + [group]);
      case JavaKind(classes) =>
        var groups := JavaFiles.BuildClassGroups(classes);
        assert groups == KindMembers(kind);
        root := CreateBaseRoot();
        root := root.(members := root.members + groups);
    }

    /** afterConstruction: derive and store the test root. */
    method AfterConstruction()
      requires tests.Some?
      modifies this`tests, this`testRoot
      ensures tests.Some? && testRoot.Some?
      ensures SynthesizedFrom(old(tests.value), tests.value, testRoot.value)
    {
      var root := CreateTestRoot();
      testRoot := Some(root);
    }
  }

  /** Synthesis changes `tests` in place, so running it again inserts a
      second late group in front of the first: it is not idempotent. */
  method SynthesizeTwice(f: File) returns (first: Node, second: Node)
    requires f.tests.Some? && f.dueDates.Some?
    modifies f`tests
    ensures f.tests.Some? && |f.tests.value| == |old(f.tests.value)| + 2
    ensures IsLateGroup(f.dueDates.value, f.tests.value[0])
    ensures IsLateGroup(f.dueDates.value, f.tests.value[1])
    ensures f.tests.value[2..] == old(f.tests.value)
    ensures first != second
  {
    first := f.CreateTestRoot();
    second := f.CreateTestRoot();
  }

  /** The tests below a synthesized root: the late tests, then the raw
      tests, then what the variant adds. No raw test is lost or repeated. */
  lemma RootLeaves(dueDates: Option<map<int, real>>, before: seq<Node>, after: seq<Node>, extra: seq<Node>)
    requires dueDates.None? ==> after == before
    requires dueDates.Some? ==>
               |after| == |before| + 1 && IsLateGroup(dueDates.value, after[0]) && after[1..] == before
    ensures dueDates.None? ==> Leaves(after + extra) == Leaves(before) + Leaves(extra)
    ensures dueDates.Some? ==>
              Leaves(after + extra) == Leaves(after[0].members) + Leaves(before) + Leaves(extra)
  {
    LeavesAppend(after, extra);
    if dueDates.Some? {
      assert after == [after[0]] + before;
      LeavesAppend([after[0]], before);
      LeavesOfOne(after[0]);
    }
  }

  lemma ImportGroupLeaves(variables: seq<PythonFiles.Variable>, functions: seq<PythonFiles.Function>,
                          deduction: real)
    ensures Leaves([PythonFiles.ImportGroup(PythonFiles.Units(variables, functions), deduction)])
            == [ImportCheck(deduction)] + (PythonFiles.VariableLeaves(variables) + PythonFiles.FunctionLeaves(functions))
  {
    var g := PythonFiles.ImportGroup(PythonFiles.Units(variables, functions), deduction);
    LeavesOfOne(g);
    PythonFiles.UnitsLeaves(variables, functions);
  }

  /** For a Python file, the tests below the root are the late tests, the
      raw tests, the import test, then each variable's exists-test and
      tests, then each function's. */
  lemma PythonRootLeaves(f: File, before: seq<Node>, after: seq<Node>, root: Node)
    requires f.kind.PythonKind? && f.SynthesizedFrom(before, after, root)
    ensures var lateLeaves := if f.dueDates.Some? then Leaves(after[0].members) else [];
            Leaves(root.members)
            == lateLeaves + Leaves(before)
               + ([ImportCheck(f.kind.importFailureDeduction)] + (PythonFiles.VariableLeaves(f.kind.variables)
                                   + PythonFiles.FunctionLeaves(f.kind.functions)))
  {
    RootLeaves(f.dueDates, before, after, KindMembers(f.kind));
    ImportGroupLeaves(f.kind.variables, f.kind.functions, f.kind.importFailureDeduction);
  }

  /** For a Java file, the tests below the root are the late tests, the raw
      tests, then each class's exists-test, class-level tests and method
      tests. */
  lemma JavaRootLeaves(f: File, before: seq<Node>, after: seq<Node>, root: Node)
    requires f.kind.JavaKind? && f.SynthesizedFrom(before, after, root)
    ensures var lateLeaves := if f.dueDates.Some? then Leaves(after[0].members) else [];
            Leaves(root.members)
            == lateLeaves + Leaves(before) + JavaFiles.ClassLeaves(f.kind.classes)
  {
    var extra := KindMembers(f.kind);
    RootLeaves(f.dueDates, before, after, extra);
    JavaFiles.ClassGroupsLeaves(f.kind.classes, extra);
  }
}
