/** The JavaScript string operations the handlers rely on: `startsWith`,
    `split(sep)` and its fields, `trim()` and `toLowerCase()`. */
module Text {

  import opened Common

  /** Characters `String.prototype.trim` removes (the ASCII and common Unicode spaces). */
  predicate IsSpace(c: char)
  {
    c == ' ' || c == '\t' || c == '\n' || c == '\r' || c == '\U{B}' || c == '\U{C}'
    || c == '\U{A0}' || c == '\U{FEFF}' || c == '\U{2028}' || c == '\U{2029}'
  }

  /** A string that `trim()` turns into the empty, falsy string. */
  predicate IsBlank(s: string)
  {
    forall i :: 0 <= i < |s| ==> IsSpace(s[i])
  }

  predicate StartsWith(s: string, prefix: string)
  {
    |prefix| <= |s| && s[..|prefix|] == prefix
  }

  /** Drops the leading white space. */
  function TrimStart(s: string): (r: string)
    ensures |r| <= |s| && r == s[|s| - |r|..]
    ensures IsBlank(s[..|s| - |r|])
    ensures r == [] || !IsSpace(r[0])
  {
    if |s| > 0 && IsSpace(s[0]) then
      var r := TrimStart(s[1..]);
      assert s[1..][..|s| - 1 - |r|] == s[1..|s| - |r|];
      r
    else s
  }

  /** Drops the trailing white space. */
  function TrimEnd(s: string): (r: string)
    ensures |r| <= |s| && r == s[..|r|]
    ensures IsBlank(s[|r|..])
    ensures r == [] || !IsSpace(r[|r| - 1])
  {
    if |s| > 0 && IsSpace(s[|s| - 1]) then
      var r := TrimEnd(s[..|s| - 1]);
      forall i | |r| <= i < |s| ensures IsSpace(s[i]) {
        if i < |s| - 1 {
          assert s[..|s| - 1][|r|..][i - |r|] == s[i];
        }
      }
      r
    else s
  }

  /** `String.prototype.trim`: the part of `s` between a blank prefix and a
      blank suffix, starting and ending with a non-space. */
  function Trim(s: string): (r: string)
    ensures |r| <= |s|
    ensures r == [] || (!IsSpace(r[0]) && !IsSpace(r[|r| - 1]))
    ensures exists a, b :: 0 <= a <= b <= |s| && r == s[a..b] && IsBlank(s[..a]) && IsBlank(s[b..])
  {
    TrimSlice(s);
    TrimEnd(TrimStart(s))
  }

  /** The bounds of what `Trim` keeps: the end of the leading blank run and
      the start of the trailing one. */
  lemma TrimSlice(s: string)
    ensures var t := TrimStart(s);
            var a := |s| - |t|;
            var b := a + |TrimEnd(t)|;
            && 0 <= a <= b <= |s| && TrimEnd(t) == s[a..b] && IsBlank(s[..a]) && IsBlank(s[b..])
  {
    var t := TrimStart(s);
    PrefixOfSuffix(s, |s| - |t|, t, TrimEnd(t));
  }

  /** A prefix `r` of the suffix `t` of `s` followed by blanks is a slice of
      `s` followed by blanks. */
  lemma PrefixOfSuffix(s: string, a: nat, t: string, r: string)
    requires a <= |s| && t == s[a..]
    requires |r| <= |t| && r == t[..|r|] && IsBlank(t[|r|..])
    ensures a + |r| <= |s| && r == s[a..a + |r|] && IsBlank(s[a + |r|..])
  {
    var b := a + |r|;
    forall j | 0 <= j < |s| - b ensures IsSpace(s[b..][j]) {
      assert s[b..][j] == t[|r|..][j];
    }
  }

  /** `!s.trim()` holds exactly of the blank strings, the empty one included. */
  lemma TrimEmptyIffBlank(s: string)
    ensures Trim(s) == [] <==> IsBlank(s)
  {
    var t := TrimStart(s);
    if Trim(s) == [] {
      assert IsBlank(t[0..]);
      assert t == [];
      assert s[..|s|] == s;
    } else {
      assert t != [] && t[0] == s[|s| - |t|];
      assert !IsSpace(s[|s| - |t|]);
    }
  }

  /** ASCII `toLowerCase` of one character. */
  function LowerChar(c: char): char
  {
    if 'A' <= c <= 'Z' then (c as int + 32) as char else c
  }

  /** `String.prototype.toLowerCase` on the ASCII letters. */
  function ToLower(s: string): (r: string)
    ensures |r| == |s|
    ensures forall i :: 0 <= i < |s| ==> r[i] == LowerChar(s[i])
  {
    if s == [] then [] else [LowerChar(s[0])] + ToLower(s[1..])
  }

  /** Lower-casing twice is lower-casing once. */
  lemma ToLowerIdempotent(s: string)
    ensures ToLower(ToLower(s)) == ToLower(s)
  {
  }

  /** `a.toLowerCase() === b.toLowerCase()`. */
  predicate EqualsIgnoreCase(a: string, b: string)
  {
    ToLower(a) == ToLower(b)
  }

  /** `String.prototype.split(sep)` for a one-character separator. */
  function Split(s: string, sep: char): (fields: seq<string>)
    ensures |fields| >= 1
    ensures forall i :: 0 <= i < |fields| ==> sep !in fields[i]
  {
    if s == [] then [[]]
    else
      var rest := Split(s[1..], sep);
      if s[0] == sep then [[]] + rest
      else [[s[0]] + rest[0]] + rest[1..]
  }

  /** `Array.prototype.join(sep)`, the inverse of `Split`. */
  function Join(fields: seq<string>, sep: char): string
    requires |fields| >= 1
  {
    if |fields| == 1 then fields[0] else fields[0] + [sep] + Join(fields[1..], sep)
  }

  /** Joining the fields back together gives the original string. */
  lemma {:induction false} JoinSplit(s: string, sep: char)
    ensures Join(Split(s, sep), sep) == s
  {
    if s != [] {
      var rest := Split(s[1..], sep);
      JoinSplit(s[1..], sep);
      if s[0] != sep {
        if |rest| == 1 {
          assert Split(s, sep) == [[s[0]] + rest[0]];
        } else {
          assert Split(s, sep)[1..] == rest[1..];
          assert Join(rest, sep) == rest[0] + [sep] + Join(rest[1..], sep);
        }
      }
    }
  }

  /** A string without the separator is one field. */
  lemma {:induction false} SplitNoSeparator(a: string, sep: char)
    requires sep !in a
    ensures Split(a, sep) == [a]
  {
    if a != [] {
      SplitNoSeparator(a[1..], sep);
      assert [a[0]] + a[1..] == a;
    }
  }

  /** A separator after a separator-free prefix ends the first field. */
  lemma {:induction false} SplitAfterField(a: string, x: string, sep: char)
    requires sep !in a
    ensures Split(a + [sep] + x, sep) == [a] + Split(x, sep)
  {
    var s := a + [sep] + x;
    if a == [] {
      assert s[1..] == x;
    } else {
      assert s[1..] == a[1..] + [sep] + x;
      SplitAfterField(a[1..], x, sep);
      assert [a[0]] + a[1..] == a;
    }
  }

  /** Splitting joined separator-free fields gives the fields back. */
  lemma {:induction false} SplitJoin(fields: seq<string>, sep: char)
    requires |fields| >= 1
    requires forall i :: 0 <= i < |fields| ==> sep !in fields[i]
    ensures Split(Join(fields, sep), sep) == fields
  {
    if |fields| == 1 {
      SplitNoSeparator(fields[0], sep);
    } else {
      SplitJoin(fields[1..], sep);
      SplitAfterField(fields[0], Join(fields[1..], sep), sep);
      assert [fields[0]] + fields[1..] == fields;
    }
  }

  /** `s.split(sep)[0]`: the text before the first separator, or all of it. */
  function FirstField(s: string, sep: char): (r: string)
    ensures sep !in r
    ensures r <= s
    ensures |r| == |s| || s[|r|] == sep
  {
    FirstFieldIsPrefix(s, sep);
    Split(s, sep)[0]
  }

  lemma {:induction false} FirstFieldIsPrefix(s: string, sep: char)
    ensures Split(s, sep)[0] <= s
    ensures |Split(s, sep)[0]| == |s| || s[|Split(s, sep)[0]|] == sep
  {
    if s != [] && s[0] != sep {
      FirstFieldIsPrefix(s[1..], sep);
    }
  }

  /** `s.split(sep)[1]`: None where JavaScript gives `undefined`. */
  function SecondField(s: string, sep: char): (r: Option<string>)
  {
    var fields := Split(s, sep);
    if |fields| >= 2 then Some(fields[1]) else None
  }

  /** After a separator-free word and one separator, the second field is
      the text up to the next separator. */
  lemma SecondFieldAfter(a: string, x: string, sep: char)
    requires sep !in a
    ensures SecondField(a + [sep] + x, sep) == Some(FirstField(x, sep))
  {
    SplitAfterField(a, x, sep);
  }

  predicate IsDigit(c: char)
  {
    '0' <= c <= '9'
  }

  function DigitChar(d: nat): (c: char)
    requires d < 10
    ensures IsDigit(c) && c as int - '0' as int == d
  {
    ('0' as int + d) as char
  }

  /** The decimal form a number takes in a template literal. */
  function NatToString(n: nat): (r: string)
    ensures |r| >= 1
    ensures forall i :: 0 <= i < |r| ==> IsDigit(r[i])
  {
    if n < 10 then [DigitChar(n)] else NatToString(n / 10) + [DigitChar(n % 10)]
  }

  /** The number a string of decimal digits denotes. */
  function DigitsValue(s: string): nat
    requires forall i :: 0 <= i < |s| ==> IsDigit(s[i])
  {
    if s == [] then 0
    else
      assert IsDigit(s[|s| - 1]);
      DigitsValue(s[..|s| - 1]) * 10 + (s[|s| - 1] as int - '0' as int)
  }

  /** Reading the decimal form back gives the number. */
  lemma {:induction false} NatToStringRoundTrip(n: nat)
    ensures DigitsValue(NatToString(n)) == n
  {
    var r := NatToString(n);
    if n >= 10 {
      NatToStringRoundTrip(n / 10);
      assert r[..|r| - 1] == NatToString(n / 10);
    } else {
      assert r[..|r| - 1] == [];
    }
  }
}
