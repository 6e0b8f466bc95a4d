/** String helpers (com.zidsoft.zdlib.util.ZDStringUtils): string to boolean
    parsing, Yes/No display, and the JDBC parameter list builder. */
module ZDStringUtils {
  import opened Lang

  /** Case folding used by compareToIgnoreCase, on ASCII letters. */
  function ToLower(c: char): char
  {
    if 'A' <= c <= 'Z' then (c as int + 32) as char else c
  }

  function LowerCase(s: string): (r: string)
    ensures |r| == |s|
    ensures forall i :: 0 <= i < |s| ==> r[i] == ToLower(s[i])
  {
    seq(|s|, i requires 0 <= i < |s| => ToLower(s[i]))
  }

  /** `a.compareToIgnoreCase(b) == 0`. */
  predicate EqualsIgnoreCase(a: string, b: string)
  {
    LowerCase(a) == LowerCase(b)
  }

  /** ZDStringUtils.isTrue: null is false; N, NO, F, FALSE and 0 in any case
      are false; every other string, the empty one included, is true. */
  function IsTrue(val: Option<string>): (r: bool)
    ensures val.None? ==> !r
    ensures val.Some? && (|val.value| == 0 || |val.value| > 5) ==> r
  {
    if val.None? then false
    else if EqualsIgnoreCase(val.value, "N")
         || EqualsIgnoreCase(val.value, "NO")
         || EqualsIgnoreCase(val.value, "F")
         || EqualsIgnoreCase(val.value, "FALSE")
         || EqualsIgnoreCase(val.value, "0") then false
    else true
  }

  /** The lower-case spellings of the strings isTrue reads as false. */
  const FalseWords: set<string> := {"n", "no", "f", "false", "0"}

  /** isTrue of a non-null string is false exactly when the string, ignoring
      case, is one of N, NO, F, FALSE, 0. */
  lemma IsTrueCharacterization(s: string)
    ensures IsTrue(Some(s)) <==> LowerCase(s) !in FalseWords
  {
    assert LowerCase("N") == "n";
    assert LowerCase("NO") == "no";
    assert LowerCase("F") == "f";
    assert LowerCase("FALSE") == "false";
    assert LowerCase("0") == "0";
    assert EqualsIgnoreCase(s, "N") <==> LowerCase(s) == "n";
    assert EqualsIgnoreCase(s, "NO") <==> LowerCase(s) == "no";
    assert EqualsIgnoreCase(s, "F") <==> LowerCase(s) == "f";
    assert EqualsIgnoreCase(s, "FALSE") <==> LowerCase(s) == "false";
    assert EqualsIgnoreCase(s, "0") <==> LowerCase(s) == "0";
  }

  lemma IsTrueExamples()
    ensures !IsTrue(None)
    ensures IsTrue(Some(""))
    ensures IsTrue(Some("Yes")) && IsTrue(Some("1")) && IsTrue(Some("nope"))
    ensures !IsTrue(Some("No")) && !IsTrue(Some("fAlSe")) && !IsTrue(Some("n"))
  {
    IsTrueCharacterization("");
    IsTrueCharacterization("Yes");
    IsTrueCharacterization("1");
    IsTrueCharacterization("nope");
    IsTrueCharacterization("No");
    IsTrueCharacterization("fAlSe");
    IsTrueCharacterization("n");
    assert LowerCase("Yes") == "yes";
    assert LowerCase("nope") == "nope";
    assert LowerCase("1") == "1";
  }

  /** ZDStringUtils.toBoolean: null for null, isTrue otherwise. */
  function ToBoolean(val: Option<string>): (r: Option<bool>)
    ensures r.None? <==> val.None?
    ensures r.Some? ==> r.value == IsTrue(val)
  {
    if val.None? then None else Some(IsTrue(val))
  }

  /** ZDStringUtils.toYesNo. */
  function ToYesNo(val: Option<bool>): (r: string)
    ensures val.None? ==> r == ""
    ensures val.Some? ==> r == (if val.value then "Yes" else "No")
  {
    if val.None? then "" else if val.value then "Yes" else "No"
  }

  /** ZDStringUtils.toYesNoNegated. */
  function ToYesNoNegated(val: Option<bool>): (r: string)
    ensures val.None? ==> r == ""
    ensures val.Some? ==> r == (if !val.value then "Yes" else "No")
  {
    if val.None? then "" else if !val.value then "Yes" else "No"
  }

  /** toYesNoNegated(b) is toYesNo(!b), and both show null as "". */
  lemma NegatedIsYesNoOfNegation(val: Option<bool>)
    ensures val.Some? ==> ToYesNoNegated(val) == ToYesNo(Some(!val.value))
    ensures val.None? ==> ToYesNoNegated(val) == ToYesNo(val) == ""
  {
  }

  /** Parsing what toYesNo prints gives the boolean back. */
  lemma YesNoRoundTrip(b: bool)
    ensures ToBoolean(Some(ToYesNo(Some(b)))) == Some(b)
  {
    IsTrueCharacterization(ToYesNo(Some(b)));
    assert LowerCase("Yes") == "yes";
    assert LowerCase("No") == "no";
  }

  /** n copies of s. */
  function Repeat(s: string, n: nat): string
  {
    if n == 0 then "" else Repeat(s, n - 1) + s
  }

  /** The JDBC parameter list with n placeholders, "(?)", "(?, ?)", ... */
  function ParamList(n: nat): string
    requires n >= 1
  {
    "(" + Repeat("?, ", n - 1) + "?)"
  }

  /** Number of occurrences of c in s. */
  function CountChar(s: string, c: char): nat
  {
    if s == [] then 0 else CountChar(s[..|s| - 1], c) + (if s[|s| - 1] == c then 1 else 0)
  }

  lemma {:induction false} CountCharAppend(a: string, b: string, c: char)
    ensures CountChar(a + b, c) == CountChar(a, c) + CountChar(b, c)
  {
    if b != [] {
      assert (a + b)[..|a + b| - 1] == a + b[..|b| - 1];
      CountCharAppend(a, b[..|b| - 1], c);
    } else {
      assert a + b == a;
    }
  }

  lemma {:induction false} RepeatLength(s: string, n: nat)
    ensures |Repeat(s, n)| == n * |s|
  {
    if n > 0 {
      RepeatLength(s, n - 1);
    }
  }

  lemma {:induction false} RepeatCount(s: string, n: nat, c: char)
    ensures CountChar(Repeat(s, n), c) == n * CountChar(s, c)
  {
    if n > 0 {
      RepeatCount(s, n - 1, c);
      CountCharAppend(Repeat(s, n - 1), s, c);
    }
  }

  /** createParamList(n) has length 3n and exactly n placeholders. */
  lemma ParamListShape(n: nat)
    requires n >= 1
    ensures |ParamList(n)| == 3 * n
    ensures CountChar(ParamList(n), '?') == n
    ensures ParamList(n)[0] == '(' && ParamList(n)[3 * n - 1] == ')'
  {
    RepeatLength("?, ", n - 1);
    RepeatCount("?, ", n - 1, '?');
    assert CountChar("?, ", '?') == 1 by {
      assert "?, "[..2] == "?," && "?,"[..1] == "?" && "?"[..0] == "";
    }
    assert CountChar("(", '?') == 0 by { assert "("[..0] == ""; }
    assert CountChar("?)", '?') == 1 by { assert "?)"[..1] == "?" && "?"[..0] == ""; }
    CountCharAppend("(", Repeat("?, ", n - 1), '?');
    CountCharAppend("(" + Repeat("?, ", n - 1), "?)", '?');
  }

  lemma ParamListExamples()
    ensures ParamList(1) == "(?)"
    ensures ParamList(3) == "(?, ?, ?)"
  {
  }

  /** java.lang.StringBuilder.replace(start, end, str). */
  function Replace(s: string, start: int, end: int, str: string): (r: Result<string>)
    ensures r.Throws? <==> start < 0 || start > |s| || start > end
    ensures r.Ok? ==> r.value == s[..start] + str + s[(if end > |s| then |s| else end)..]
  {
    if start < 0 || start > |s| || start > end then Throws(StringIndexOutOfBounds)
    else Ok(s[..start] + str + s[(if end > |s| then |s| else end)..])
  }

  /** The initial capacity createParamList asks of its StringBuilder,
      computed in Java `int` arithmetic. */
  function ParamListCapacity(size: int): (c: int)
    requires IsInt32(size)
    ensures IsInt32(c) && (3 * size + 2 - c) % 0x1_0000_0000 == 0
  {
    Int32(3 * size + 2)
  }

  /** Which sizes the capacity rejects: a 3*size+2 within an `int` is
      negative exactly for negative sizes; beyond it, the wrap by 2^32 gives
      a negative capacity to the sizes from 715827882 to 1431655764 and to
      those below -1431655766, and a non-negative one to the rest. */
  lemma ParamListCapacitySign(size: int)
    requires IsInt32(size)
    ensures size == 0 ==> ParamListCapacity(size) == 2
    ensures 1 <= size <= 715827881 ==> ParamListCapacity(size) == 3 * size + 2
    ensures 715827882 <= size <= 1431655764 ==> ParamListCapacity(size) < 0
    ensures 1431655765 <= size ==> 0 <= ParamListCapacity(size)
    ensures -715827883 <= size <= -1 ==> ParamListCapacity(size) < 0
    ensures -1431655766 <= size <= -715827884 ==> 0 <= ParamListCapacity(size)
    ensures size <= -1431655767 ==> ParamListCapacity(size) < 0
  {
    var x := 3 * size + 2;
    if 715827882 <= size {
      Int32Shift(x, -1);
    } else if size <= -715827884 {
      Int32Shift(x, 1);
    }
  }

  /** ZDStringUtils.createParamList: allocate the builder, append "(" and
      size times "?, ", then replace the last two characters by ")". A
      negative capacity throws NegativeArraySizeException before anything
      is appended; a size below 1 that gets past it makes the replace start
      before the buffer, which throws StringIndexOutOfBoundsException. */
  method CreateParamList(size: int) returns (r: Result<string>)
    requires IsInt32(size)
    ensures r == Throws(NegativeArraySize) <==> ParamListCapacity(size) < 0
    ensures r == Throws(StringIndexOutOfBounds) <==> 0 <= ParamListCapacity(size) && size < 1
    ensures r.Ok? <==> 0 <= ParamListCapacity(size) && size >= 1
    ensures r.Ok? ==> size >= 1 && r.value == ParamList(size)
  {
    if ParamListCapacity(size) < 0 {
      return Throws(NegativeArraySize);
    }
    var sb := "(";
    var i := 0;
    while i < size
      invariant 0 <= i <= (if size > 0 then size else 0)
      invariant sb == "(" + Repeat("?, ", i)
    {
      sb := sb + "?, ";
      i := i + 1;
    }
    RepeatLength("?, ", i);
    assert size < 1 ==> i == 0;
    r := Replace(sb, |sb| - 2, |sb|, ")");
    if size >= 1 {
      assert Repeat("?, ", i) == Repeat("?, ", i - 1) + "?, ";
      RepeatLength("?, ", i - 1);
      assert sb[..|sb| - 2] == "(" + Repeat("?, ", i - 1) + "?";
      assert sb[|sb|..] == [];
      assert sb[..|sb| - 2] + ")" + sb[|sb|..] == ParamList(size);
    }
  }
}
