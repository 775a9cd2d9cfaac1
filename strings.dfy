/**
 * The few Python string operations the core relies on: lower(), `in`,
 * split(sep), strip(), endswith() and str(int).  Characters are compared
 * as code points; case folding and white space are the ASCII ones.
 */
module Strings {

  /** str.lower() restricted to the ASCII letters. */
  function LowerChar(c: char): (r: char)
    ensures 'A' <= c <= 'Z' ==> r as int == c as int + 32
    ensures !('A' <= c <= 'Z') ==> r == c
  {
    if 'A' <= c <= 'Z' then (c as int + 32) as char else c
  }

  function Lower(s: string): (r: string)
    ensures |r| == |s|
    ensures forall i :: 0 <= i < |s| ==> r[i] == LowerChar(s[i])
  {
    if s == [] then [] else [LowerChar(s[0])] + Lower(s[1..])
  }

  /** `sub in s` for strings: sub occurs as a contiguous slice of s. */
  predicate Contains(s: string, sub: string)
    decreases |s|
  {
    StartsWith(s, sub) || (s != [] && Contains(s[1..], sub))
  }

  /** s.startswith(prefix). */
  predicate StartsWith(s: string, prefix: string)
  {
    |prefix| <= |s| && s[..|prefix|] == prefix
  }

  /** s.endswith(suffix). */
  predicate EndsWith(s: string, suffix: string)
  {
    |suffix| <= |s| && s[|s| - |suffix|..] == suffix
  }

  /** Number of occurrences of c in s. */
  function Count(s: string, c: char): nat
  {
    if s == [] then 0 else (if s[0] == c then 1 else 0) + Count(s[1..], c)
  }

  /** s.split(sep) for a one-character separator: the pieces between separators, empty ones included. */
  function Split(s: string, sep: char): (r: seq<string>)
    ensures |r| > 0
    ensures forall i :: 0 <= i < |r| ==> sep !in r[i]
    decreases |s|
  {
    if s == [] then [[]]
    else
      var rest := Split(s[1..], sep);
      if s[0] == sep then [[]] + rest
      else [[s[0]] + rest[0]] + rest[1..]
  }

  /** sep.join(parts) */
  function Join(parts: seq<string>, sep: char): string
  {
    if parts == [] then []
    else if |parts| == 1 then parts[0]
    else parts[0] + [sep] + Join(parts[1..], sep)
  }

  lemma {:induction false} SplitCount(s: string, sep: char)
    ensures |Split(s, sep)| == Count(s, sep) + 1
    decreases |s|
  {
    if s != [] {
      SplitCount(s[1..], sep);
    }
  }

  /** Splitting and joining again gives back the original string. */
  lemma {:induction false} JoinSplit(s: string, sep: char)
    ensures Join(Split(s, sep), sep) == s
    decreases |s|
  {
    if s != [] {
      JoinSplit(s[1..], sep);
      var rest := Split(s[1..], sep);
      if s[0] == sep {
        assert s == [sep] + s[1..];
      } else {
        if |rest| == 1 {
          assert s == [s[0]] + rest[0];
        } else {
          assert Join(rest, sep) == rest[0] + [sep] + Join(rest[1..], sep);
          assert s == [s[0]] + s[1..];
        }
      }
    }
  }

  /** Python's str.isspace() on the ASCII range: tab to carriage return, the four separators 0x1c-0x1f and space. */
  predicate IsSpace(c: char)
  {
    (9 <= c as int <= 13) || (28 <= c as int <= 32)
  }

  function StripLeft(s: string): (r: string)
    ensures r == [] || !IsSpace(r[0])
    ensures |r| <= |s| && r == s[|s| - |r|..]
  {
    if s != [] && IsSpace(s[0]) then StripLeft(s[1..]) else s
  }

  function StripRight(s: string): (r: string)
    ensures r == [] || !IsSpace(r[|r| - 1])
    ensures |r| <= |s| && r == s[..|r|]
  {
    if s != [] && IsSpace(s[|s| - 1]) then StripRight(s[..|s| - 1]) else s
  }

  /** str.strip(): the slice of s between its leading and its trailing white space. */
  function Strip(s: string): (r: string)
    ensures r == [] || (!IsSpace(r[0]) && !IsSpace(r[|r| - 1]))
    ensures |r| <= |s|
    ensures (s == [] || (!IsSpace(s[0]) && !IsSpace(s[|s| - 1]))) ==> r == s
  {
    StripRight(StripLeft(s))
  }

  /** No character of s is white space. */
  predicate NoSpace(s: string)
  {
    forall k :: 0 <= k < |s| ==> !IsSpace(s[k])
  }

  /** Splitting a string with no separator in it gives the string back as the only piece. */
  lemma {:induction false} SplitWithoutSeparator(a: string, sep: char)
    requires sep !in a
    ensures Split(a, sep) == [a]
    decreases |a|
  {
    if a != [] {
      SplitWithoutSeparator(a[1..], sep);
      assert a == [a[0]] + a[1..];
    }
  }

  /** The first separator ends the first piece. */
  lemma {:induction false} SplitAtSeparator(a: string, sep: char, b: string)
    requires sep !in a
    ensures Split(a + [sep] + b, sep) == [a] + Split(b, sep)
    decreases |a|
  {
    if a == [] {
      assert a + [sep] + b == [sep] + b;
      assert ([sep] + b)[1..] == b;
    } else {
      SplitAtSeparator(a[1..], sep, b);
      assert (a + [sep] + b)[1..] == a[1..] + [sep] + b;
      assert a == [a[0]] + a[1..];
    }
  }

  /** Pieces of a string without white space have none either. */
  lemma {:induction false} SplitNoSpace(s: string, sep: char)
    requires NoSpace(s)
    ensures forall i :: 0 <= i < |Split(s, sep)| ==> NoSpace(Split(s, sep)[i])
    decreases |s|
  {
    if s != [] {
      assert NoSpace(s[1..]);
      SplitNoSpace(s[1..], sep);
      var rest := Split(s[1..], sep);
      if s[0] != sep {
        assert NoSpace([s[0]] + rest[0]);
      }
    }
  }

  function DigitChar(d: nat): char
    requires d < 10
  {
    ('0' as int + d) as char
  }

  function NatToString(n: nat): (r: string)
    ensures |r| > 0
    ensures forall i :: 0 <= i < |r| ==> '0' <= r[i] <= '9'
  {
    if n < 10 then [DigitChar(n)] else NatToString(n / 10) + [DigitChar(n % 10)]
  }

  /** str(n) for an int */
  function IntToString(n: int): (r: string)
    ensures |r| > 0
  {
    if n < 0 then "-" + NatToString(-n) else NatToString(n)
  }

  /** A character `str` of an integer can hold: a digit or the minus sign. */
  predicate NumeralChar(c: char)
  {
    '0' <= c <= '9' || c == '-'
  }

  lemma IntToStringChars(n: int)
    ensures forall i :: 0 <= i < |IntToString(n)| ==> NumeralChar(IntToString(n)[i])
  {
  }

  lemma {:induction false} NatToStringInjective(a: nat, b: nat)
    requires NatToString(a) == NatToString(b)
    ensures a == b
    decreases a
  {
    var s := NatToString(a);
    if a < 10 && b < 10 {
      assert s[0] == DigitChar(a) == DigitChar(b);
    } else if a < 10 || b < 10 {
      assert false;
    } else {
      assert NatToString(a / 10) == s[..|s| - 1] == NatToString(b / 10);
      NatToStringInjective(a / 10, b / 10);
      assert DigitChar(a % 10) == s[|s| - 1] == DigitChar(b % 10);
    }
  }

  lemma IntToStringStartsWithDigit(n: int)
    ensures n >= 0 ==> '0' <= IntToString(n)[0] <= '9'
  {
  }

  /** In prefix + tag + str(n), the tag's last character sits just before a run of numeral characters. */
  lemma TagBeforeNumber(c: string, tag: string, n: int)
    requires tag != []
    ensures (c + tag + IntToString(n))[|c| + |tag| - 1] == tag[|tag| - 1]
    ensures forall i :: |c| + |tag| <= i < |c + tag + IntToString(n)| ==>
      NumeralChar((c + tag + IntToString(n))[i])
  {
    IntToStringChars(n);
    var s := c + tag + IntToString(n);
    forall i | |c| + |tag| <= i < |s|
      ensures NumeralChar(s[i])
    {
      assert s[i] == IntToString(n)[i - |c| - |tag|];
    }
  }

  /** `str` is injective on integers. */
  lemma IntToStringInjective(a: int, b: int)
    requires IntToString(a) == IntToString(b)
    ensures a == b
  {
    var s := IntToString(a);
    if a < 0 && b < 0 {
      assert NatToString(-a) == s[1..] == NatToString(-b);
      NatToStringInjective(-a, -b);
    } else if a < 0 {
      IntToStringStartsWithDigit(b);
      assert false;
    } else if b < 0 {
      IntToStringStartsWithDigit(a);
      assert false;
    } else {
      NatToStringInjective(a, b);
    }
  }

  /**
   * Names built as prefix + tag + str(n), with a tag whose last character
   * cannot occur in a numeral, determine their prefix and their number.
   */
  lemma NumberedNameInjective(c1: string, n1: int, c2: string, n2: int, tag: string)
    requires tag != [] && !NumeralChar(tag[|tag| - 1])
    requires c1 + tag + IntToString(n1) == c2 + tag + IntToString(n2)
    ensures c1 == c2 && n1 == n2
  {
    var s := c1 + tag + IntToString(n1);
    var d1, d2 := IntToString(n1), IntToString(n2);
    IntToStringChars(n1);
    IntToStringChars(n2);
    if |d1| < |d2| {
      TagBeforeNumber(c1, tag, n1);
      TagBeforeNumber(c2, tag, n2);
      assert false;
    } else if |d2| < |d1| {
      TagBeforeNumber(c1, tag, n1);
      TagBeforeNumber(c2, tag, n2);
      assert false;
    } else {
      assert c1 == s[..|c1|] == c2;
      assert d1 == s[|s| - |d1|..] == d2;
      IntToStringInjective(n1, n2);
    }
  }
}
