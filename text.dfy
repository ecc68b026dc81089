/**
 * The few pieces of Python's `str` behaviour that the pipeline relies on,
 * restricted to what the model needs:
 *   - `strip()` over the six ASCII whitespace characters,
 *   - `upper()` over ASCII letters,
 *   - `splitlines()` with '\n' as the only line break,
 *   - `str(n)` for integers (decimal, with a leading '-' when negative).
 */
module Text {

  /** Concatenation regroups freely. Proved on its own, so that a caller with a large
      context gets the regrouping without proving it there. */
  lemma AppendAssociates<T>(a: seq<T>, b: seq<T>, c: seq<T>)
    ensures a + b + c == a + (b + c)
  {
  }

  /** ASCII whitespace as Python's `str.strip()` treats it: space, \t, \n, \v, \f, \r. */
  predicate IsSpace(c: char)
  {
    c == ' ' || c == '\t' || c == '\n' || c == '\U{000B}' || c == '\U{000C}' || c == '\r'
  }

  predicate AllSpace(s: string)
  {
    forall c | c in s :: IsSpace(c)
  }

  /** `s.lstrip()`: the suffix of `s` left after dropping its leading whitespace. */
  function TrimStart(s: string): (r: string)
    ensures |r| <= |s| && r == s[|s| - |r|..]
    ensures AllSpace(s[..|s| - |r|])
    ensures r == [] || !IsSpace(r[0])
  {
    if s != [] && IsSpace(s[0]) then
      var r := TrimStart(s[1..]);
      assert s[..|s| - |r|] == [s[0]] + s[1..][..|s| - 1 - |r|];
      r
    else
      s
  }

  /** `s.rstrip()`: the prefix of `s` left after dropping its trailing whitespace. */
  function TrimEnd(s: string): (r: string)
    ensures |r| <= |s| && r == s[..|r|]
    ensures AllSpace(s[|r|..])
    ensures r == [] || !IsSpace(r[|r| - 1])
  {
    if s != [] && IsSpace(s[|s| - 1]) then
      var r := TrimEnd(s[..|s| - 1]);
      assert s[|r|..] == s[..|s| - 1][|r|..] + [s[|s| - 1]];
      r
    else
      s
  }

  /** `s.strip()`. */
  function Strip(s: string): string
  {
    TrimEnd(TrimStart(s))
  }

  /** Whatever `s` is, `Strip(s)` is an infix of `s` whose borders are whitespace
      and whose own first and last characters are not. */
  lemma StripIsInfix(s: string)
    ensures exists i, j :: 0 <= i <= j <= |s| && Strip(s) == s[i..j]
                           && AllSpace(s[..i]) && AllSpace(s[j..])
    ensures Strip(s) == [] || (!IsSpace(Strip(s)[0]) && !IsSpace(Strip(s)[|Strip(s)| - 1]))
  {
    var t := TrimStart(s);
    var r := TrimEnd(t);
    var i, j := |s| - |t|, |s| - |t| + |r|;
    InfixOfTrims(s, t, r, i, j);
    BordersOfTrims(t, r);
  }

  /** Cutting trailing whitespace off a string that starts with non-whitespace leaves
      non-whitespace at both ends. */
  lemma BordersOfTrims(t: string, r: string)
    requires t == [] || !IsSpace(t[0])
    requires |r| <= |t| && r == t[..|r|] && (r == [] || !IsSpace(r[|r| - 1]))
    ensures r == [] || (!IsSpace(r[0]) && !IsSpace(r[|r| - 1]))
  {
    if r != [] {
      assert r[0] == t[0];
    }
  }

  /** A suffix of `s` after whitespace, cut short before whitespace, is an infix of `s`
      with whitespace on both sides. */
  lemma InfixOfTrims(s: string, t: string, r: string, i: int, j: int)
    requires |t| <= |s| && t == s[|s| - |t|..] && AllSpace(s[..|s| - |t|])
    requires |r| <= |t| && r == t[..|r|] && AllSpace(t[|r|..])
    requires i == |s| - |t| && j == i + |r|
    ensures 0 <= i <= j <= |s| && r == s[i..j] && AllSpace(s[..i]) && AllSpace(s[j..])
  {
    assert s[i..j] == t[..|r|];
    assert s[j..] == t[|r|..];
  }

  /** Stripping keeps everything between two non-whitespace characters. */
  lemma StripKeepsNonSpace(x: string, k1: nat, k2: nat)
    requires k1 <= k2 < |x| && !IsSpace(x[k1]) && !IsSpace(x[k2])
    ensures |Strip(x)| >= k2 - k1 + 1
  {
    var t := TrimStart(x);
    var d := |x| - |t|;
    assert d <= k1;
    assert t[k2 - d] == x[k2];
  }

  /** A string made of whitespace only strips to the empty string. */
  lemma StripAllSpace(s: string)
    requires AllSpace(s)
    ensures Strip(s) == []
  {
  }

  /** A string whose first and last characters are not whitespace is its own strip. */
  lemma StripNoBorder(s: string)
    requires s == [] || (!IsSpace(s[0]) && !IsSpace(s[|s| - 1]))
    ensures Strip(s) == s
  {
  }

  /** Leading and trailing whitespace around a stripped string are removed exactly. */
  lemma StripSurrounded(a: string, t: string, b: string)
    requires AllSpace(a) && AllSpace(b)
    requires t == [] || (!IsSpace(t[0]) && !IsSpace(t[|t| - 1]))
    ensures Strip(a + t + b) == t
  {
    assert a + t + b == a + (t + b);
    TrimStartSpacePrefix(a, t + b);
    if t == [] {
      assert t + b == b;
      StripAllSpace(b);
    } else {
      NoLeadingSpace(t, b);
      TrimEndSpaceSuffix(t, b);
    }
  }

  lemma NoLeadingSpace(t: string, b: string)
    requires t != [] && !IsSpace(t[0])
    ensures TrimStart(t + b) == t + b
  {
    assert (t + b)[0] == t[0];
  }

  /** Appending whitespace does not change the strip. */
  lemma StripAppendSpace(s: string, w: string)
    requires AllSpace(w)
    ensures Strip(s + w) == Strip(s)
  {
    var t := TrimStart(s);
    var a := s[..|s| - |t|];
    assert s == a + t;
    if t == [] {
      assert s + w == a + w;
      assert AllSpace(a + w);
      StripAllSpace(s);
      StripAllSpace(s + w);
    } else {
      assert s + w == a + (t + w);
      TrimStartSpacePrefix(a, t + w);
      assert TrimStart(t + w) == t + w;
      TrimEndSpaceSuffix(t, w);
    }
  }

  lemma {:induction false} TrimStartSpacePrefix(a: string, s: string)
    requires AllSpace(a)
    ensures TrimStart(a + s) == TrimStart(s)
  {
    if a != [] {
      assert (a + s)[1..] == a[1..] + s;
      TrimStartSpacePrefix(a[1..], s);
    } else {
      assert a + s == s;
    }
  }

  lemma {:induction false} TrimEndSpaceSuffix(s: string, w: string)
    requires AllSpace(w)
    ensures TrimEnd(s + w) == TrimEnd(s)
  {
    if w != [] {
      assert (s + w)[..|s + w| - 1] == s + w[..|w| - 1];
      assert w[|w| - 1] in w;
      TrimEndSpaceSuffix(s, w[..|w| - 1]);
    } else {
      assert s + w == s;
    }
  }

  predicate IsLower(c: char)
  {
    'a' <= c <= 'z'
  }

  /** ASCII `upper()` of one character. */
  function UpperChar(c: char): (u: char)
    ensures !IsLower(u)
    ensures IsLower(c) ==> u as int == c as int - 32
    ensures !IsLower(c) ==> u == c
  {
    if IsLower(c) then (c as int - 32) as char else c
  }

  /** `s.upper()` over ASCII letters: the same length, each character upper-cased. */
  function Upper(s: string): (r: string)
  {
    seq(|s|, i requires 0 <= i < |s| => UpperChar(s[i]))
  }

  /** A string with no lower-case letter is its own upper-casing. */
  lemma UpperNoLower(s: string)
    requires forall c | c in s :: !IsLower(c)
    ensures Upper(s) == s
  {
    assert forall i | 0 <= i < |s| :: s[i] in s;
  }

  /** Upper-casing is idempotent. */
  lemma UpperIdempotent(s: string)
    ensures Upper(Upper(s)) == Upper(s)
  {
  }

  /** Upper-casing does not touch whitespace, so it commutes with `strip()`. */
  lemma UpperKeepsSpace(c: char)
    ensures IsSpace(UpperChar(c)) <==> IsSpace(c)
  {
  }

  /** `s.split('\n')`: the pieces between line breaks; never empty. */
  function Split(s: string): (r: seq<string>)
    ensures |r| >= 1
  {
    if s == [] then [""]
    else if s[0] == '\n' then [""] + Split(s[1..])
    else
      var rest := Split(s[1..]);
      [[s[0]] + rest[0]] + rest[1..]
  }

  /** `s` holds `x` verbatim starting at index `at`. */
  predicate OccursAt(s: string, x: string, at: int)
  {
    0 <= at && at + |x| <= |s| && s[at..at + |x|] == x
  }

  /** `s` ends with `e`. */
  predicate EndsWith(s: string, e: string)
  {
    |e| <= |s| && s[|s| - |e|..] == e
  }

  /** What occurs in a string occurs at the same place in every extension of it. */
  lemma PrefixOccurs(a: string, b: string, x: string, at: int)
    requires OccursAt(a, x, at)
    ensures OccursAt(a + b, x, at)
  {
    assert (a + b)[at..at + |x|] == a[at..at + |x|];
  }

  lemma ExtendOccurs(a: string, b: string)
    ensures forall x, at | OccursAt(a, x, at) :: OccursAt(a + b, x, at)
  {
    forall x, at | OccursAt(a, x, at)
      ensures OccursAt(a + b, x, at)
    {
      PrefixOccurs(a, b, x, at);
    }
  }

  lemma SelfOccurs(s: string)
    ensures OccursAt(s, s, 0)
  {
    assert s[0..|s|] == s;
  }

  /** The second of two joined strings occurs right after the first. */
  lemma AppendOccurs(u: string, v: string)
    ensures OccursAt(u + v, v, |u|)
  {
    assert (u + v)[|u|..|u| + |v|] == v;
  }

  lemma EndsWithAppend(u: string, v: string)
    ensures EndsWith(u + v, v)
  {
    assert (u + v)[|u|..] == v;
  }

  lemma EndsWithTrans(s: string, v: string, e: string)
    requires EndsWith(s, v) && EndsWith(v, e)
    ensures EndsWith(s, e)
  {
    assert s[|s| - |e|..] == s[|s| - |v|..][|v| - |e|..];
  }

  /** `'\n'.join(lines)`. */
  function JoinLines(lines: seq<string>): string
  {
    if lines == [] then ""
    else if |lines| == 1 then lines[0]
    else lines[0] + "\n" + JoinLines(lines[1..])
  }

  /** The first character of joined lines is that of the first line, the last that of the last line. */
  lemma {:induction false} JoinLinesBorders(lines: seq<string>)
    requires |lines| >= 1 && lines[0] != [] && lines[|lines| - 1] != []
    ensures var s := JoinLines(lines);
            s != [] && s[0] == lines[0][0] && s[|s| - 1] == lines[|lines| - 1][|lines[|lines| - 1]| - 1]
  {
    JoinLinesLast(lines);
  }

  lemma {:induction false} JoinLinesLast(lines: seq<string>)
    requires |lines| >= 1 && lines[|lines| - 1] != []
    ensures var s := JoinLines(lines);
            s != [] && s[|s| - 1] == lines[|lines| - 1][|lines[|lines| - 1]| - 1]
  {
    if |lines| > 1 {
      JoinLinesLast(lines[1..]);
    }
  }

  /** Joining two non-empty lists is joining their joins with one more line break. */
  lemma {:induction false} JoinLinesAppend(a: seq<string>, b: seq<string>)
    requires |a| >= 1 && |b| >= 1
    ensures JoinLines(a + b) == JoinLines(a) + "\n" + JoinLines(b)
  {
    if |a| > 1 {
      assert (a + b)[1..] == a[1..] + b;
      JoinLinesAppend(a[1..], b);
    }
  }

  /** `s.splitlines()` with '\n' as the only break: a final line break does not
      start an extra empty line, and the empty string has no lines. */
  function SplitLines(s: string): (r: seq<string>)
    ensures s == [] <==> r == []
  {
    if s == [] then []
    else if s[|s| - 1] == '\n' then Split(s[..|s| - 1])
    else Split(s)
  }

  /** Without a final line break, `SplitLines` is `Split`. */
  lemma SplitLinesNoFinalBreak(s: string)
    requires s != [] && s[|s| - 1] != '\n'
    ensures SplitLines(s) == Split(s)
  {
  }

  /** A piece of `Split` never contains a line break. */
  lemma {:induction false} SplitPiecesHaveNoBreak(s: string)
    ensures forall i | 0 <= i < |Split(s)| :: '\n' !in Split(s)[i]
  {
    if s != [] {
      SplitPiecesHaveNoBreak(s[1..]);
      if s[0] != '\n' {
        var rest := Split(s[1..]);
        assert '\n' !in [s[0]] + rest[0];
      }
    }
  }

  /** A line without a break splits into itself. */
  lemma {:induction false} SplitSingle(l: string)
    requires '\n' !in l
    ensures Split(l) == [l]
  {
    if l != [] {
      assert l[1..] + [] == l[1..];
      SplitSingle(l[1..]);
      assert [l[0]] + l[1..] == l;
    }
  }

  /** Splitting distributes over a joining line break. */
  lemma {:induction false} SplitAround(x: string, y: string)
    ensures Split(x + "\n" + y) == Split(x) + Split(y)
  {
    if x == [] {
      assert x + "\n" + y == "\n" + y;
      assert ("\n" + y)[1..] == y;
    } else {
      assert (x + "\n" + y)[0] == x[0];
      assert (x + "\n" + y)[1..] == x[1..] + "\n" + y;
      SplitAround(x[1..], y);
    }
  }

  /** `JoinLines` undoes `Split`. */
  lemma {:induction false} JoinSplit(s: string)
    ensures JoinLines(Split(s)) == s
  {
    if s != [] {
      JoinSplit(s[1..]);
      var rest := Split(s[1..]);
      if s[0] == '\n' {
        assert Split(s)[1..] == rest;
        assert s == "\n" + s[1..];
      } else {
        var r := Split(s);
        assert r[0] == [s[0]] + rest[0];
        if |rest| == 1 {
          assert s == [s[0]] + s[1..];
        } else {
          assert r[1..] == rest[1..];
          assert JoinLines(rest) == rest[0] + "\n" + JoinLines(rest[1..]);
          assert s == [s[0]] + s[1..];
        }
      }
    }
  }

  /** No line of the list contains a line break. */
  predicate BreakFree(lines: seq<string>)
  {
    forall l | l in lines :: '\n' !in l
  }

  /** `Split` undoes `JoinLines` on a non-empty list of break-free lines. */
  lemma {:induction false} SplitJoin(lines: seq<string>)
    requires |lines| >= 1
    requires BreakFree(lines)
    ensures Split(JoinLines(lines)) == lines
  {
    assert lines[0] in lines;
    SplitSingle(lines[0]);
    if |lines| > 1 {
      assert forall l | l in lines[1..] :: l in lines;
      SplitJoin(lines[1..]);
      SplitAround(lines[0], JoinLines(lines[1..]));
      assert [lines[0]] + lines[1..] == lines;
    }
  }

  /** Splitting joined lines whose last lines are break-free gives those last lines back. */
  lemma SplitJoinTail(front: seq<string>, back: seq<string>)
    requires |front| >= 1 && |back| >= 1 && BreakFree(back)
    ensures Split(JoinLines(front + back)) == Split(JoinLines(front)) + back
  {
    JoinLinesAppend(front, back);
    SplitAround(JoinLines(front), JoinLines(back));
    SplitJoin(back);
  }

  predicate IsDigits(s: string)
  {
    forall i | 0 <= i < |s| :: '0' <= s[i] <= '9'
  }

  function DigitChar(d: nat): (c: char)
    requires d < 10
    ensures '0' <= c <= '9'
  {
    "0123456789"[d]
  }

  /** `str(n)` for a natural number. */
  function NatToString(n: nat): (r: string)
    ensures |r| >= 1 && IsDigits(r)
  {
    if n < 10 then [DigitChar(n)] else NatToString(n / 10) + [DigitChar(n % 10)]
  }

  /** `str(i)` for any integer. */
  function IntToString(i: int): (r: string)
    ensures |r| >= 1
    ensures forall c | c in r :: c == '-' || '0' <= c <= '9'
    ensures r[0] == '-' <==> i < 0
  {
    var digits := NatToString(if i < 0 then -i else i);
    assert forall c | c in digits :: '0' <= c <= '9';
    if i < 0 then "-" + digits else digits
  }

  /** The value a string of decimal digits denotes (the partner of `NatToString`). */
  function DecimalValue(s: string): nat
    requires IsDigits(s)
  {
    if s == [] then 0
    else
      DecimalValue(s[..|s| - 1]) * 10 + (s[|s| - 1] as int - '0' as int)
  }

  /** Reading back a printed natural number gives the number. */
  lemma {:induction false} DecimalValueOfNatToString(n: nat)
    ensures DecimalValue(NatToString(n)) == n
  {
    if n >= 10 {
      DecimalValueOfNatToString(n / 10);
      var s := NatToString(n);
      assert s[..|s| - 1] == NatToString(n / 10);
    }
  }

  /** Printing is injective: different integers print differently. */
  lemma IntToStringInjective(i: int, j: int)
    requires IntToString(i) == IntToString(j)
    ensures i == j
  {
    var a, b := NatToString(if i < 0 then -i else i), NatToString(if j < 0 then -j else j);
    assert (i < 0) == (j < 0);
    if i < 0 {
      assert a == IntToString(i)[1..];
      assert b == IntToString(j)[1..];
    }
    assert a == b;
    DecimalValueOfNatToString(if i < 0 then -i else i);
    DecimalValueOfNatToString(if j < 0 then -j else j);
  }

  /** A printed integer never contains a line break or whitespace. */
  lemma IntToStringNoSpace(i: int)
    ensures '\n' !in IntToString(i)
    ensures forall c | c in IntToString(i) :: !IsSpace(c) && !IsLower(c)
  {
  }
}
