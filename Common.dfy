/** Small shared vocabulary: optional values, results with an error, string
    prefixes and suffixes, and the decimal rendering Java uses when an `int`
    is concatenated to a `String`. */
module Common {

  datatype Option<+T> = None | Some(value: T)

  datatype Result<+T, +E> = Success(value: T) | Failure(error: E)

  /** `s.startsWith(prefix)` */
  predicate HasPrefix(s: string, prefix: string) {
    |prefix| <= |s| && s[..|prefix|] == prefix
  }

  /** `s.endsWith(suffix)` */
  predicate HasSuffix(s: string, suffix: string) {
    |suffix| <= |s| && s[|s| - |suffix|..] == suffix
  }

  predicate IsDigit(c: char) {
    '0' <= c <= '9'
  }

  predicate AllDigits(s: string) {
    forall i :: 0 <= i < |s| ==> IsDigit(s[i])
  }

  function DigitChar(d: nat): (c: char)
    requires d < 10
    ensures IsDigit(c) && c as int - '0' as int == d
  {
    "0123456789"[d]
  }

  /** Decimal digits of `n`, most significant first, without leading zeros. */
  function NatToString(n: nat): (s: string)
    ensures 1 <= |s| && AllDigits(s)
  {
    if n < 10 then [DigitChar(n)] else NatToString(n / 10) + [DigitChar(n % 10)]
  }

  /** Java's rendering of an `int` in string concatenation. */
  function IntToString(i: int): (s: string)
    ensures 1 <= |s| && IsDigit(s[|s| - 1])
    ensures i >= 0 ==> AllDigits(s)
  {
    if i < 0 then "-" + NatToString(-i) else NatToString(i)
  }

  /** The value of a string of decimal digits. */
  function ParseNat(s: string): nat
    requires AllDigits(s)
  {
    if s == [] then 0
    else ParseNat(s[..|s| - 1]) * 10 + (s[|s| - 1] as int - '0' as int)
  }

  /** Reading back the digits of `n` gives `n`. */
  lemma {:induction false} NatToStringRoundTrip(n: nat)
    ensures ParseNat(NatToString(n)) == n
  {
    var s := NatToString(n);
    if n >= 10 {
      NatToStringRoundTrip(n / 10);
      assert s[..|s| - 1] == NatToString(n / 10);
    }
  }

  lemma NatToStringInjective(a: nat, b: nat)
    requires NatToString(a) == NatToString(b)
    ensures a == b
  {
    NatToStringRoundTrip(a);
    NatToStringRoundTrip(b);
  }

  /** A run of digits followed by a non-digit splits a string in one way only. */
  lemma DigitRunUnique(d1: string, r1: string, d2: string, r2: string)
    requires AllDigits(d1) && AllDigits(d2)
    requires |r1| > 0 && !IsDigit(r1[0]) && |r2| > 0 && !IsDigit(r2[0])
    requires d1 + r1 == d2 + r2
    ensures d1 == d2 && r1 == r2
  {
    assert |d1| == |d2| by {
      var k := if |d1| < |d2| then |d1| else |d2|;
      if k < |d1| + |r1| {
        assert (d1 + r1)[k] == (d2 + r2)[k];
      }
    }
    assert d1 == (d1 + r1)[..|d1|];
    assert r1 == (d1 + r1)[|d1|..];
  }

  /** `Paths.get(path).getFileName()`: the text after the last '/'. */
  function FileNameOf(path: string): string
  {
    if path == [] || path[|path| - 1] == '/' then []
    else FileNameOf(path[..|path| - 1]) + [path[|path| - 1]]
  }

  lemma {:induction false} FileNameOfJoin(dir: string, name: string)
    requires dir == [] || dir[|dir| - 1] == '/'
    requires '/' !in name
    ensures FileNameOf(dir + name) == name
  {
    if name != [] {
      assert (dir + name)[..|dir + name| - 1] == dir + name[..|name| - 1];
      FileNameOfJoin(dir, name[..|name| - 1]);
    } else {
      assert dir + name == dir;
    }
  }

  /** `Paths.get(path).getParent()` as text: what precedes the last '/'. */
  function DirOf(path: string): string
  {
    if path == [] then []
    else if path[|path| - 1] == '/' then path[..|path| - 1]
    else DirOf(path[..|path| - 1])
  }

  /** The name of the directory holding `path`. */
  function ParentName(path: string): string
  {
    FileNameOf(DirOf(path))
  }

  /** A file name is what ends its path. */
  lemma {:induction false} FileNameOfIsSuffix(path: string)
    ensures HasSuffix(path, FileNameOf(path))
  {
    if path != [] && path[|path| - 1] != '/' {
      var init := path[..|path| - 1];
      FileNameOfIsSuffix(init);
      assert path == init + [path[|path| - 1]];
      assert path[|path| - |FileNameOf(path)|..] == init[|init| - |FileNameOf(init)|..] + [path[|path| - 1]];
    }
  }

  /** The directory part of `dir/name`, for a plain name, is `dir`. */
  lemma {:induction false} DirOfJoin(dir: string, name: string)
    requires '/' !in name
    ensures DirOf(dir + "/" + name) == dir
  {
    if name != [] {
      assert (dir + "/" + name)[..|dir + "/" + name| - 1] == dir + "/" + name[..|name| - 1];
      DirOfJoin(dir, name[..|name| - 1]);
    } else {
      assert (dir + "/" + name)[..|dir + "/" + name| - 1] == dir;
    }
  }

  /** A file `name` in a sub-directory `sub` of `dir` has `sub` for parent. */
  lemma ParentNameOfJoin(dir: string, sub: string, name: string)
    requires dir == [] || dir[|dir| - 1] == '/'
    requires '/' !in sub && '/' !in name
    ensures ParentName(dir + sub + "/" + name) == sub
  {
    DirOfJoin(dir + sub, name);
    FileNameOfJoin(dir, sub);
  }

  /** The rendering of an `int` followed by a non-digit splits in one way
      only: the number can be read back from the text. */
  lemma IntRunUnique(a: int, r1: string, b: int, r2: string)
    requires |r1| > 0 && !IsDigit(r1[0]) && |r2| > 0 && !IsDigit(r2[0])
    requires IntToString(a) + r1 == IntToString(b) + r2
    ensures a == b && r1 == r2
  {
    var sa, sb := IntToString(a), IntToString(b);
    SameFirstChar(sa, r1, sb, r2);
    SignOfRendering(a);
    SignOfRendering(b);
    if a < 0 {
      NegativeRunUnique(-a, r1, -b, r2);
    } else {
      DigitRunUnique(sa, r1, sb, r2);
      NatToStringInjective(a, b);
    }
  }

  lemma SameFirstChar(s1: string, r1: string, s2: string, r2: string)
    requires |s1| > 0 && |s2| > 0 && s1 + r1 == s2 + r2
    ensures s1[0] == s2[0]
  {
    assert s1[0] == (s1 + r1)[0];
    assert s2[0] == (s2 + r2)[0];
  }

  /** The rendering of an `int` starts with '-' exactly when it is negative. */
  lemma SignOfRendering(a: int)
    ensures (a < 0) == (IntToString(a)[0] == '-')
  {
    if a >= 0 {
      assert IsDigit(IntToString(a)[0]);
    }
  }

  /** The same for the rendering of a negative number, "-" then digits. */
  lemma NegativeRunUnique(m: nat, r1: string, n: nat, r2: string)
    requires |r1| > 0 && !IsDigit(r1[0]) && |r2| > 0 && !IsDigit(r2[0])
    requires "-" + NatToString(m) + r1 == "-" + NatToString(n) + r2
    ensures m == n && r1 == r2
  {
    var dm, dn := NatToString(m), NatToString(n);
    Regroup3("-", dm, r1);
    Regroup3("-", dn, r2);
    StripPrefix("-", dm + r1, dn + r2);
    DigitRunUnique(dm, r1, dn, r2);
    NatToStringInjective(m, n);
  }

  lemma IntToStringInjective(a: int, b: int)
    requires IntToString(a) == IntToString(b)
    ensures a == b
  {
    IntRunUnique(a, " ", b, " ");
  }

  lemma StripPrefix(p: string, a: string, b: string)
    requires p + a == p + b
    ensures a == b
  {
    assert a == (p + a)[|p|..];
    assert b == (p + b)[|p|..];
  }

  lemma Regroup3(a: string, b: string, c: string)
    ensures a + b + c == a + (b + c)
  {
  }

  lemma Regroup4(a: string, b: string, c: string, d: string)
    ensures a + b + c + d == a + (b + (c + d))
  {
  }

  lemma SuffixOfConcat(a: string, b: string, x: string)
    requires HasSuffix(b, x)
    ensures HasSuffix(a + b, x)
  {
    assert (a + b)[|a + b| - |x|..] == b[|b| - |x|..];
  }

  lemma PrefixOfConcat(a: string, b: string)
    ensures HasPrefix(a + b, a)
  {
    assert (a + b)[..|a|] == a;
  }

  lemma NotSuffixAt(s: string, x: string, k: nat)
    requires 1 <= k <= |x| && k <= |s| && s[|s| - k] != x[|x| - k]
    ensures !HasSuffix(s, x)
  {
    if |x| <= |s| {
      assert s[|s| - |x|..][|x| - k] == s[|s| - k];
    }
  }

  lemma NotPrefixAt(s: string, x: string, k: nat)
    requires k < |x| && k < |s| && s[k] != x[k]
    ensures !HasPrefix(s, x)
  {
    if |x| <= |s| {
      assert s[..|x|][k] == s[k];
    }
  }

  /** A finite non-empty set of integers has a greatest element. */
  lemma MaxExists(s: set<int>)
    requires s != {}
    ensures exists m :: m in s && forall x :: x in s ==> x <= m
    decreases |s|
  {
    if forall y :: y !in s { assert false; }
    var y :| y in s;
    var r := s - {y};
    if r == {} {
      MaxOfSingleton(s, y);
    } else {
      MaxExists(r);
      var m :| m in r && forall x :: x in r ==> x <= m;
      MaxOfInsert(s, y, m);
    }
  }

  lemma MaxOfSingleton(s: set<int>, y: int)
    requires y in s && s - {y} == {}
    ensures forall x :: x in s ==> x <= y
  {
    forall x | x in s ensures x <= y {
      assert x !in s - {y};
    }
  }

  /** The greater of `y` and the greatest element of the rest of `s` is
      the greatest element of `s`. */
  lemma MaxOfInsert(s: set<int>, y: int, m: int)
    requires y in s && m in s - {y} && forall x :: x in s - {y} ==> x <= m
    ensures var mx := if y > m then y else m; mx in s && forall x :: x in s ==> x <= mx
  {
    var mx := if y > m then y else m;
    forall x | x in s ensures x <= mx {
      if x != y {
        assert x in s - {y};
      }
    }
  }
}
