/** The Python-specific part of test-root synthesis (PythonFile.createTestRoot),
    the searches for the variable or function owning a test, and the module
    name derived from the file's path. */
module PythonFiles {
  import opened Common
  import opened TestTrees

  /** A module-level variable the criteria expect, with its own tests. */
  datatype Variable = Variable(name: string, tests: seq<Node>)

  /** A function the criteria expect, with its own tests. */
  datatype Function = Function(name: string, tests: seq<Node>)

  /** What one variable or function contributes: its bare exists-test when
      it has no tests, otherwise the exists-test gating a group of its tests
      under a count ceiling of one. */
  function Unit(existsTest: Test, tests: seq<Node>): Node
  {
    if tests == [] then Leaf(existsTest)
    else Group([Leaf(existsTest), Group(tests, 0, 0.0)], 1, 0.0)
  }

  /** The units of all variables, then of all functions, in declaration order. */
  function Units(variables: seq<Variable>, functions: seq<Function>): seq<Node>
  {
    seq(|variables|, i requires 0 <= i < |variables| =>
          Unit(VariableExists(variables[i].name), variables[i].tests))
    + seq(|functions|, j requires 0 <= j < |functions| =>
          Unit(FunctionExists(functions[j].name), functions[j].tests))
  }

  /** The loops that fill the local `tests` list of createTestRoot. */
  method BuildUnits(variables: seq<Variable>, functions: seq<Function>) returns (units: seq<Node>)
    ensures units == Units(variables, functions)
  {
    units := [];
    for i := 0 to |variables|
      invariant |units| == i
      invariant forall k :: 0 <= k < i ==>
                  units[k] == Unit(VariableExists(variables[k].name), variables[k].tests)
    {
      var v := variables[i];
      var test := VariableExists(v.name);
      if v.tests != [] {
        var members := [Leaf(test), Group(v.tests, 0, 0.0)];
        units := units + [Group(members, 1, 0.0)];
      } else {
        units := units + [Leaf(test)];
      }
    }
    for j := 0 to |functions|
      invariant |units| == |variables| + j
      invariant forall k :: 0 <= k < |variables| ==>
                  units[k] == Unit(VariableExists(variables[k].name), variables[k].tests)
      invariant forall k :: 0 <= k < j ==>
                  units[|variables| + k] == Unit(FunctionExists(functions[k].name), functions[k].tests)
    {
      var f := functions[j];
      var test := FunctionExists(f.name);
      if f.tests != [] {
        var members := [Leaf(test), Group(f.tests, 0, 0.0)];
        units := units + [Group(members, 1, 0.0)];
      } else {
        units := units + [Leaf(test)];
      }
    }
  }

  /** The group appended to the base root: the import test (carrying the
      file's import-failure deduction), followed by a
      group of all units when there is at least one, under a count ceiling
      of one, so that a failed import gates every variable and function. */
  function ImportGroup(units: seq<Node>, importFailureDeduction: real): (g: Node)
    ensures g.Group? && g.maxNum == 1 && g.maxValue == 0.0
    ensures 1 <= |g.members| && g.members[0] == Leaf(ImportCheck(importFailureDeduction))
    ensures |g.members| == 1 <==> units == []
    ensures Leaves(g.members) == [ImportCheck(importFailureDeduction)] + Leaves(units)
  {
    var test := ImportCheck(importFailureDeduction);
    var members := [Leaf(test)] + (if units != [] then [Group(units, 0, 0.0)] else []);
    assert Leaves(members) == [test] + Leaves(units) by {
      if units != [] {
        LeavesOfTwo(Leaf(test), Group(units, 0, 0.0));
      } else {
        LeavesOfOne(Leaf(test));
      }
    }
    Group(members, 1, 0.0)
  }

  /** Every test a list of variables declares, each variable's exists-test
      first, in declaration order. */
  function VariableLeaves(variables: seq<Variable>): seq<Test>
  {
    if variables == [] then []
    else [VariableExists(variables[0].name)] + Leaves(variables[0].tests) + VariableLeaves(variables[1..])
  }

  function FunctionLeaves(functions: seq<Function>): seq<Test>
  {
    if functions == [] then []
    else [FunctionExists(functions[0].name)] + Leaves(functions[0].tests) + FunctionLeaves(functions[1..])
  }

  lemma UnitLeaves(existsTest: Test, tests: seq<Node>)
    ensures Leaves([Unit(existsTest, tests)]) == [existsTest] + Leaves(tests)
  {
    LeavesOfOne(Unit(existsTest, tests));
    if tests != [] {
      LeavesOfTwo(Leaf(existsTest), Group(tests, 0, 0.0));
    }
  }

  lemma {:induction false} VariableUnitsLeaves(variables: seq<Variable>)
    ensures Leaves(Units(variables, [])) == VariableLeaves(variables)
  {
    var units := Units(variables, []);
    if variables != [] {
      var head := Unit(VariableExists(variables[0].name), variables[0].tests);
      assert units == [head] + Units(variables[1..], []);
      LeavesAppend([head], Units(variables[1..], []));
      UnitLeaves(VariableExists(variables[0].name), variables[0].tests);
      VariableUnitsLeaves(variables[1..]);
    } else {
      assert units == [];
    }
  }

  lemma {:induction false} FunctionUnitsLeaves(functions: seq<Function>)
    ensures Leaves(Units([], functions)) == FunctionLeaves(functions)
  {
    var units := Units([], functions);
    if functions != [] {
      var head := Unit(FunctionExists(functions[0].name), functions[0].tests);
      assert units == [head] + Units([], functions[1..]);
      LeavesAppend([head], Units([], functions[1..]));
      UnitLeaves(FunctionExists(functions[0].name), functions[0].tests);
      FunctionUnitsLeaves(functions[1..]);
    } else {
      assert units == [];
    }
  }

  /** Gating loses and duplicates nothing: below the units lie exactly each
      variable's exists-test and tests, then each function's. */
  lemma UnitsLeaves(variables: seq<Variable>, functions: seq<Function>)
    ensures Leaves(Units(variables, functions)) == VariableLeaves(variables) + FunctionLeaves(functions)
  {
    assert Units(variables, functions) == Units(variables, []) + Units([], functions);
    LeavesAppend(Units(variables, []), Units([], functions));
    VariableUnitsLeaves(variables);
    FunctionUnitsLeaves(functions);
  }

  /** getVariableForTest: the first variable whose test list `hasTest`, as
      written, finds `t` in; None when there is none. */
  method GetVariableForTest(variables: seq<Variable>, t: Test) returns (r: Option<Variable>)
    ensures r.None? <==> forall k :: 0 <= k < |variables| ==> !HasTest(variables[k].tests, t)
    ensures r.Some? ==> exists k :: 0 <= k < |variables| && variables[k] == r.value
                          && HasTest(variables[k].tests, t)
                          && forall j :: 0 <= j < k ==> !HasTest(variables[j].tests, t)
  {
    for i := 0 to |variables|
      invariant forall j :: 0 <= j < i ==> !HasTest(variables[j].tests, t)
    {
      if HasTest(variables[i].tests, t) {
        return Some(variables[i]);
      }
    }
    return None;
  }

  /** getFunctionForTest: the first function whose test list `hasTest`, as
      written, finds `t` in; None when there is none. */
  method GetFunctionForTest(functions: seq<Function>, t: Test) returns (r: Option<Function>)
    ensures r.None? <==> forall k :: 0 <= k < |functions| ==> !HasTest(functions[k].tests, t)
    ensures r.Some? ==> exists k :: 0 <= k < |functions| && functions[k] == r.value
                          && HasTest(functions[k].tests, t)
                          && forall j :: 0 <= j < k ==> !HasTest(functions[j].tests, t)
  {
    for i := 0 to |functions|
      invariant forall j :: 0 <= j < i ==> !HasTest(functions[j].tests, t)
    {
      if HasTest(functions[i].tests, t) {
        return Some(functions[i]);
      }
    }
    return None;
  }

  /** getVariableForTest with the search `hasTest` intends: the first
      variable whose test list contains `t` at any depth. */
  method GetVariableForTestIntended(variables: seq<Variable>, t: Test) returns (r: Option<Variable>)
    ensures r.None? <==> forall k :: 0 <= k < |variables| ==> !ContainsTest(variables[k].tests, t)
    ensures r.Some? ==> exists k :: 0 <= k < |variables| && variables[k] == r.value
                          && ContainsTest(variables[k].tests, t)
                          && forall j :: 0 <= j < k ==> !ContainsTest(variables[j].tests, t)
  {
    for i := 0 to |variables|
      invariant forall j :: 0 <= j < i ==> !ContainsTest(variables[j].tests, t)
    {
      if ContainsTest(variables[i].tests, t) {
        return Some(variables[i]);
      }
    }
    return None;
  }

  /** getFunctionForTest with the search `hasTest` intends: the first
      function whose test list contains `t` at any depth. */
  method GetFunctionForTestIntended(functions: seq<Function>, t: Test) returns (r: Option<Function>)
    ensures r.None? <==> forall k :: 0 <= k < |functions| ==> !ContainsTest(functions[k].tests, t)
    ensures r.Some? ==> exists k :: 0 <= k < |functions| && functions[k] == r.value
                          && ContainsTest(functions[k].tests, t)
                          && forall j :: 0 <= j < k ==> !ContainsTest(functions[j].tests, t)
  {
    for i := 0 to |functions|
      invariant forall j :: 0 <= j < i ==> !ContainsTest(functions[j].tests, t)
    {
      if ContainsTest(functions[i].tests, t) {
        return Some(functions[i]);
      }
    }
    return None;
  }

  /** The pieces between the dots of `s`, empty pieces included. */
  function DotPieces(s: string): (ps: seq<string>)
    ensures |ps| >= 1
  {
    if s == [] then [""]
    else
      var rest := DotPieces(s[1..]);
      if s[0] == '.' then [""] + rest else [[s[0]] + rest[0]] + rest[1..]
  }

  function DropTrailingEmpty(ps: seq<string>): seq<string>
  {
    if ps != [] && ps[|ps| - 1] == "" then DropTrailingEmpty(ps[..|ps| - 1]) else ps
  }

  /** Java's `s.split("\\.")`: the string itself when it has no dot,
      otherwise its pieces with trailing empty pieces removed. */
  function SplitDots(s: string): seq<string>
  {
    if '.' !in s then [s] else DropTrailingEmpty(DotPieces(s))
  }

  lemma {:induction false} DotPiecesHaveNoDot(s: string)
    ensures forall k :: 0 <= k < |DotPieces(s)| ==> '.' !in DotPieces(s)[k]
  {
    if s != [] {
      DotPiecesHaveNoDot(s[1..]);
    }
  }

  lemma {:induction false} DropTrailingEmptyIsPrefix(ps: seq<string>)
    ensures var r := DropTrailingEmpty(ps); |r| <= |ps| && r == ps[..|r|]
  {
    if ps != [] && ps[|ps| - 1] == "" {
      DropTrailingEmptyIsPrefix(ps[..|ps| - 1]);
    }
  }

  /** getModuleName: the second-to-last piece of the file name split at its
      dots (`dir/hw1.py` gives `hw1`). The source indexes the split array
      without a check, so a file name with fewer than two pieces is outside
      what it handles. */
  function ModuleName(path: string): (name: string)
    requires |SplitDots(FileNameOf(path))| >= 2
    ensures '.' !in name
    ensures name in DotPieces(FileNameOf(path))
  {
    var parts := SplitDots(FileNameOf(path));
    var fileName := FileNameOf(path);
    DotPiecesHaveNoDot(fileName);
    DropTrailingEmptyIsPrefix(DotPieces(fileName));
    assert parts[|parts| - 2] == DotPieces(fileName)[|parts| - 2];
    parts[|parts| - 2]
  }

  lemma {:induction false} DotPiecesOfDotless(s: string)
    requires '.' !in s
    ensures DotPieces(s) == [s]
  {
    if s != [] {
      DotPiecesOfDotless(s[1..]);
      assert [s[0]] + s[1..] == s;
    }
  }

  /** Appending `.ext` to a string appends one piece, `ext`. */
  lemma {:induction false} DotPiecesOfStemAndExtension(stem: string, ext: string)
    requires '.' !in ext
    ensures DotPieces(stem + "." + ext) == DotPieces(stem) + [ext]
  {
    if stem == [] {
      assert stem + "." + ext == "." + ext;
      assert ("." + ext)[1..] == ext;
      DotPiecesOfDotless(ext);
    } else {
      var s := stem + "." + ext;
      assert s[0] == stem[0];
      assert s[1..] == stem[1..] + "." + ext;
      DotPiecesOfStemAndExtension(stem[1..], ext);
    }
  }

  /** Splitting `stem.ext` keeps every piece: `ext` is not empty. */
  lemma SplitDotsOfStemAndExtension(stem: string, ext: string)
    requires '.' !in ext && ext != ""
    ensures SplitDots(stem + "." + ext) == DotPieces(stem) + [ext]
  {
    var name := stem + "." + ext;
    assert name[|stem|] == '.';
    DotPiecesOfStemAndExtension(stem, ext);
    var pieces := DotPieces(stem) + [ext];
    assert pieces[|pieces| - 1] != "";
  }

  /** The module name of `dir/stem.ext` is the last dot-separated piece of
      `stem`: `stem` itself when it has no dot (`dir/hw1.py` gives `hw1`),
      and `b` for `dir/a.b.py`. */
  lemma ModuleNameOfSourcePath(dir: string, stem: string, ext: string)
    requires dir == [] || dir[|dir| - 1] == '/'
    requires '/' !in stem && '/' !in ext && '.' !in ext && ext != ""
    ensures |SplitDots(FileNameOf(dir + stem + "." + ext))| >= 2
    ensures ModuleName(dir + stem + "." + ext) == DotPieces(stem)[|DotPieces(stem)| - 1]
    ensures '.' !in stem ==> ModuleName(dir + stem + "." + ext) == stem
  {
    var name := stem + "." + ext;
    assert dir + stem + "." + ext == dir + name;
    FileNameOfJoin(dir, name);
    SplitDotsOfStemAndExtension(stem, ext);
    if '.' !in stem {
      DotPiecesOfDotless(stem);
    }
  }
}
