/** The label a test group is shown with in the grading view
    (TestTree.testGroupToString): a four-way split on whether each of the
    group's two ceilings is bounded. The decimal formatting of the value
    ceiling is a parameter. */
module GroupLabels {
  import opened Common

  /** A ceiling: no limit, or a limit of `value`. */
  datatype Ceiling<T> = Any | AtMost(value: T)

  const FailAny := "fail any"
  const FailPrefix := "fail ≤ "
  const TakePrefix := "take ≤ "
  const PointsSuffix := " points"

  function GroupLabel(maxNum: Ceiling<int>, maxValue: Ceiling<real>, fmt: real -> string): (text: string)
    ensures text == FailAny <==> maxNum.Any? && maxValue.Any?
    ensures HasPrefix(text, FailPrefix) <==> maxNum.AtMost?
    ensures HasPrefix(text, TakePrefix) <==> maxNum.Any? && maxValue.AtMost?
    ensures HasSuffix(text, PointsSuffix) <==> maxValue.AtMost?
  {
    if maxNum.Any? && maxValue.Any? then
      assert FailAny[5] != FailPrefix[5];
      FailAny
    else if maxNum.AtMost? && maxValue.Any? then
      var text := FailPrefix + IntToString(maxNum.value);
      assert text[|text| - 1] == IntToString(maxNum.value)[|IntToString(maxNum.value)| - 1];
      assert text[..|FailPrefix|] == FailPrefix;
      assert text != FailAny by { assert |text| > |FailAny| || text[5] != FailAny[5]; }
      text
    else if maxNum.Any? && maxValue.AtMost? then
      var text := TakePrefix + fmt(maxValue.value) + PointsSuffix;
      assert text[..|TakePrefix|] == TakePrefix;
      assert text[|text| - |PointsSuffix|..] == PointsSuffix;
      text
    else
      var text := FailPrefix + IntToString(maxNum.value) + " and " + TakePrefix
                   + fmt(maxValue.value) + PointsSuffix;
      assert text[..|FailPrefix|] == FailPrefix;
      assert text[|text| - |PointsSuffix|..] == PointsSuffix;
      assert text != FailAny by { assert text[5] != FailAny[5]; }
      text
  }

  lemma CountLabelUnique(n1: int, n2: int)
    requires FailPrefix + IntToString(n1) == FailPrefix + IntToString(n2)
    ensures n1 == n2
  {
    assert IntToString(n1) == (FailPrefix + IntToString(n1))[|FailPrefix|..];
    assert IntToString(n2) == (FailPrefix + IntToString(n2))[|FailPrefix|..];
    IntToStringInjective(n1, n2);
  }

  lemma ValueLabelUnique(f1: string, f2: string)
    requires TakePrefix + f1 + PointsSuffix == TakePrefix + f2 + PointsSuffix
    ensures f1 == f2
  {
    var t := TakePrefix + f1 + PointsSuffix;
    assert f1 == t[|TakePrefix|..|t| - |PointsSuffix|];
    assert f2 == t[|TakePrefix|..|t| - |PointsSuffix|];
  }

  lemma BothLabelUnique(n1: int, f1: string, n2: int, f2: string)
    requires FailPrefix + IntToString(n1) + " and " + TakePrefix + f1 + PointsSuffix
             == FailPrefix + IntToString(n2) + " and " + TakePrefix + f2 + PointsSuffix
    ensures n1 == n2 && f1 == f2
  {
    var i1, i2 := IntToString(n1), IntToString(n2);
    var v1, v2 := TakePrefix + f1 + PointsSuffix, TakePrefix + f2 + PointsSuffix;
    var r1, r2 := " and " + v1, " and " + v2;
    Regroup4(FailPrefix, i1, " and ", v1);
    Regroup4(FailPrefix, i2, " and ", v2);
    Regroup3(TakePrefix, f1, PointsSuffix);
    Regroup4(FailPrefix + i1 + " and ", TakePrefix, f1, PointsSuffix);
    Regroup3(TakePrefix, f2, PointsSuffix);
    Regroup4(FailPrefix + i2 + " and ", TakePrefix, f2, PointsSuffix);
    StripPrefix(FailPrefix, i1 + r1, i2 + r2);
    IntRunUnique(n1, r1, n2, r2);
    StripPrefix(" and ", v1, v2);
    ValueLabelUnique(f1, f2);
  }

  /** A label determines the group's ceilings: the count ceiling outright,
      and the value ceiling up to its formatting. */
  lemma LabelDeterminesCeilings(n1: Ceiling<int>, v1: Ceiling<real>, n2: Ceiling<int>, v2: Ceiling<real>,
                                fmt: real -> string)
    requires GroupLabel(n1, v1, fmt) == GroupLabel(n2, v2, fmt)
    ensures n1 == n2
    ensures v1.Any? <==> v2.Any?
    ensures v1.AtMost? ==> fmt(v1.value) == fmt(v2.value)
  {
    assert n1.AtMost? <==> n2.AtMost?;
    assert v1.AtMost? <==> v2.AtMost?;
    if n1.AtMost? && v1.Any? {
      CountLabelUnique(n1.value, n2.value);
    } else if n1.Any? && v1.AtMost? {
      ValueLabelUnique(fmt(v1.value), fmt(v2.value));
    } else if n1.AtMost? && v1.AtMost? {
      BothLabelUnique(n1.value, fmt(v1.value), n2.value, fmt(v2.value));
    }
  }
}
