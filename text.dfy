/**
 * The Python string built-ins that the core relies on, written over `seq<char>`:
 * `str.split(sep)` and `sep.join(parts)` with a one-character separator,
 * `str.replace(c, "")`, `str.lower()`, `str.upper()`, the `in` substring test
 * and `str(int)`.
 */
module Text {
  import opened Wrappers

  /** Number of occurrences of `c` in `s` (Python's `s.count(c)`). */
  function Count(s: string, c: char): nat
  {
    if |s| == 0 then 0 else (if s[0] == c then 1 else 0) + Count(s[1..], c)
  }

  /**
   * `s.split(sep)` for a one-character `sep`: every occurrence of `sep` cuts,
   * adjacent separators give empty parts, and the empty string gives `[""]`.
   */
  function Split(s: string, sep: char): (parts: seq<string>)
    ensures |parts| == Count(s, sep) + 1
    ensures forall k :: 0 <= k < |parts| ==> sep !in parts[k]
  {
    if |s| == 0 then [""]
    else
      var rest := Split(s[1..], sep);
      if s[0] == sep then [""] + rest
      else [[s[0]] + rest[0]] + rest[1..]
  }

  /** Occurrences in a concatenation are the occurrences in each side. */
  lemma {:induction false} CountConcat(a: string, b: string, c: char)
    ensures Count(a + b, c) == Count(a, c) + Count(b, c)
  {
    if |a| > 0 {
      assert (a + b)[1..] == a[1..] + b;
      CountConcat(a[1..], b, c);
    } else {
      assert a + b == b;
    }
  }

  /** A character that does not occur is counted zero times. */
  lemma {:induction false} CountAbsent(s: string, c: char)
    ensures c !in s ==> Count(s, c) == 0
  {
    if |s| > 0 {
      CountAbsent(s[1..], c);
    }
  }

  /**
   * `sep.join(parts)` for a one-character `sep`. When no part holds the separator,
   * the joined text holds exactly the separators put between the parts.
   */
  function Join(parts: seq<string>, sep: char): (s: string)
    ensures |parts| > 0 && (forall k :: 0 <= k < |parts| ==> sep !in parts[k]) ==> Count(s, sep) == |parts| - 1
  {
    if |parts| == 0 then ""
    else
      CountAbsent(parts[0], sep);
      if |parts| == 1 then parts[0]
      else
        var rest := Join(parts[1..], sep);
        CountConcat(parts[0] + [sep], rest, sep);
        CountConcat(parts[0], [sep], sep);
        assert forall k :: 1 <= k < |parts| ==> parts[1..][k - 1] == parts[k];
        parts[0] + [sep] + rest
  }

  /** A string without the separator does not split. */
  lemma {:induction false} SplitWithoutSep(s: string, sep: char)
    requires sep !in s
    ensures Split(s, sep) == [s]
  {
    if |s| > 0 {
      assert sep !in s[1..];
      SplitWithoutSep(s[1..], sep);
      assert [s[0]] + s[1..] == s;
    }
  }

  /** Cutting at the first separator: the part before it comes first, then the split of the rest. */
  lemma {:induction false} SplitAtFirstSep(a: string, sep: char, b: string)
    requires sep !in a
    ensures Split(a + [sep] + b, sep) == [a] + Split(b, sep)
  {
    var s := a + [sep] + b;
    if |a| == 0 {
      assert s[1..] == b;
    } else {
      assert s[1..] == a[1..] + [sep] + b;
      assert sep !in a[1..];
      SplitAtFirstSep(a[1..], sep, b);
      assert [a[0]] + a[1..] == a;
    }
  }

  /** Joining pieces that do not contain the separator and splitting again gives the pieces back. */
  lemma {:induction false} SplitJoin(parts: seq<string>, sep: char)
    requires |parts| > 0
    requires forall k :: 0 <= k < |parts| ==> sep !in parts[k]
    ensures Split(Join(parts, sep), sep) == parts
  {
    if |parts| == 1 {
      SplitWithoutSep(parts[0], sep);
    } else {
      SplitJoin(parts[1..], sep);
      SplitAtFirstSep(parts[0], sep, Join(parts[1..], sep));
      assert [parts[0]] + parts[1..] == parts;
    }
  }

  /** Splitting a string and joining the parts with the same separator gives the string back. */
  lemma {:induction false} JoinSplit(s: string, sep: char)
    ensures Join(Split(s, sep), sep) == s
  {
    if |s| > 0 {
      var rest := Split(s[1..], sep);
      JoinSplit(s[1..], sep);
      if s[0] == sep {
        assert ([""] + rest)[1..] == rest;
        assert [sep] + s[1..] == s;
      } else {
        var parts := [[s[0]] + rest[0]] + rest[1..];
        assert parts[1..] == rest[1..];
        if |rest| == 1 {
          assert [s[0]] + s[1..] == s;
        } else {
          assert Join(rest, sep) == rest[0] + [sep] + Join(rest[1..], sep);
          assert [s[0]] + s[1..] == s;
        }
      }
    }
  }

  /** `s.replace(c, "")`: every occurrence of `c` removed, everything else kept in order. */
  function RemoveAll(s: string, c: char): (r: string)
    ensures c !in r
    ensures |r| == |s| - Count(s, c)
    ensures forall x :: x != c ==> (x in r <==> x in s)
  {
    if |s| == 0 then ""
    else if s[0] == c then RemoveAll(s[1..], c)
    else [s[0]] + RemoveAll(s[1..], c)
  }

  /** Removing a character that does not occur changes nothing. */
  lemma {:induction false} RemoveAbsent(s: string, c: char)
    requires c !in s
    ensures RemoveAll(s, c) == s
  {
    if |s| > 0 {
      assert c !in s[1..];
      RemoveAbsent(s[1..], c);
      assert [s[0]] + s[1..] == s;
    }
  }

  /** Removing a character from a concatenation removes it from each side. */
  lemma {:induction false} RemoveAllConcat(a: string, b: string, c: char)
    ensures RemoveAll(a + b, c) == RemoveAll(a, c) + RemoveAll(b, c)
  {
    if |a| > 0 {
      assert (a + b)[1..] == a[1..] + b;
      RemoveAllConcat(a[1..], b, c);
    } else {
      assert a + b == b;
    }
  }

  /** The Kelvin sign, the one character outside ASCII that Python lower-cases to an ASCII letter. */
  const KelvinSign: char := '\U{212A}'

  /**
   * Python's `str.lower()` on one character, as far as ASCII letters are
   * concerned: `A`-`Z` become `a`-`z` and the Kelvin sign becomes `k`.
   */
  function LowerChar(c: char): char
  {
    if 'A' <= c <= 'Z' then (c as int + 32) as char
    else if c == KelvinSign then 'k'
    else c
  }

  function Lower(s: string): (r: string)
    ensures |r| == |s|
    ensures forall k :: 0 <= k < |s| ==> r[k] == LowerChar(s[k])
  {
    seq(|s|, k requires 0 <= k < |s| => LowerChar(s[k]))
  }

  /** An ASCII letter `l` occurs in the lower-cased string exactly when `l`, its capital or (for `k`) the Kelvin sign occurs. */
  lemma LowerContains(s: string, l: char)
    requires 'a' <= l <= 'z'
    ensures l in Lower(s) <==> (l in s || (l as int - 32) as char in s || (l == 'k' && KelvinSign in s))
  {
    var r := Lower(s);
    if l in r {
      var k :| 0 <= k < |r| && r[k] == l;
      assert s[k] in s;
    }
    if l in s {
      var k :| 0 <= k < |s| && s[k] == l;
      assert r[k] == l;
    }
    if (l as int - 32) as char in s {
      var k :| 0 <= k < |s| && s[k] == (l as int - 32) as char;
      assert r[k] == l;
    }
    if l == 'k' && KelvinSign in s {
      var k :| 0 <= k < |s| && s[k] == KelvinSign;
      assert r[k] == l;
    }
  }

  /** Python's `str.upper()` on ASCII letters. */
  function UpperChar(c: char): char
  {
    if 'a' <= c <= 'z' then (c as int - 32) as char else c
  }

  function Upper(s: string): (r: string)
    ensures |r| == |s|
    ensures forall k :: 0 <= k < |s| ==> r[k] == UpperChar(s[k])
    ensures forall k :: 0 <= k < |s| && 'a' <= s[k] <= 'z' ==> r[k] == (s[k] as int - 32) as char && 'A' <= r[k] <= 'Z'
    ensures forall k :: 0 <= k < |s| && !('a' <= s[k] <= 'z') ==> r[k] == s[k]
  {
    seq(|s|, k requires 0 <= k < |s| => UpperChar(s[k]))
  }

  predicate StartsWith(s: string, prefix: string)
  {
    |prefix| <= |s| && s[..|prefix|] == prefix
  }

  /** `fragment` is the slice of `s` that starts at position `i`. */
  predicate OccursAt(s: string, fragment: string, i: nat)
  {
    i + |fragment| <= |s| && s[i..i + |fragment|] == fragment
  }

  /** An occurrence after the first position is an occurrence in the tail, one position earlier. */
  lemma OccursInTail(s: string, fragment: string)
    requires |s| > 0
    ensures (exists i :: 1 <= i <= |s| && OccursAt(s, fragment, i)) <==> (exists j :: 0 <= j <= |s| - 1 && OccursAt(s[1..], fragment, j))
    ensures StartsWith(s, fragment) <==> OccursAt(s, fragment, 0)
  {
    forall i | 1 <= i <= |s|
      ensures OccursAt(s, fragment, i) <==> OccursAt(s[1..], fragment, i - 1)
    {
      if i + |fragment| <= |s| {
        var shifted, here := s[1..][i - 1..i - 1 + |fragment|], s[i..i + |fragment|];
        assert forall k :: 0 <= k < |fragment| ==> shifted[k] == here[k];
        assert shifted == here;
      }
    }
    if exists j :: 0 <= j <= |s| - 1 && OccursAt(s[1..], fragment, j) {
      var j :| 0 <= j <= |s| - 1 && OccursAt(s[1..], fragment, j);
      assert OccursAt(s, fragment, j + 1);
    }
  }

  /**
   * Python's `fragment in s` on two strings, tried position by position: it holds
   * exactly when `fragment` is the slice of `s` at some position.
   */
  predicate Contains(s: string, fragment: string)
    decreases |s|
    ensures Contains(s, fragment) <==> exists i :: 0 <= i <= |s| && OccursAt(s, fragment, i)
  {
    if |s| > 0 then
      OccursInTail(s, fragment);
      StartsWith(s, fragment) || Contains(s[1..], fragment)
    else
      assert StartsWith(s, fragment) <==> OccursAt(s, fragment, 0);
      StartsWith(s, fragment)
  }

  /** Every string contains the empty fragment. */
  lemma ContainsEmpty(s: string)
    ensures Contains(s, "")
  {
  }

  /** A one-character fragment occurs exactly when the character is an element of the string. */
  lemma {:induction false} ContainsChar(s: string, c: char)
    ensures Contains(s, [c]) <==> c in s
  {
    if |s| > 0 {
      ContainsChar(s[1..], c);
      assert s == [s[0]] + s[1..];
    }
  }

  function DigitChar(d: nat): char
    requires d < 10
  {
    "0123456789"[d]
  }

  predicate IsDigit(c: char)
  {
    '0' <= c <= '9'
  }

  predicate AllDigits(s: string)
  {
    forall k :: 0 <= k < |s| ==> IsDigit(s[k])
  }

  /** Decimal notation of a natural number, most significant digit first, no leading zero. */
  function NatToString(n: nat): (s: string)
    ensures 1 <= |s|
    ensures AllDigits(s)
    ensures |s| > 1 ==> s[0] != '0'
  {
    if n < 10 then [DigitChar(n)] else NatToString(n / 10) + [DigitChar(n % 10)]
  }

  /**
   * Python's `str(i)` for an `int`: a minus sign for negative numbers, then the
   * digits. Python's `int()` reads it back as `i`.
   */
  function IntToString(i: int): (s: string)
    ensures ParseInt(s) == Some(i)
  {
    if i < 0 then
      NatToStringRoundTrip(-i);
      var s := "-" + NatToString(-i);
      assert s[1..] == NatToString(-i);
      assert !IsDigit(s[0]);
      s
    else
      NatToStringRoundTrip(i);
      NatToString(i)
  }

  /** Value of a string of decimal digits, read most significant digit first. */
  function DigitsValue(s: string): nat
    requires AllDigits(s)
  {
    if |s| == 0 then 0 else DigitsValue(s[..|s| - 1]) * 10 + (s[|s| - 1] as int - '0' as int)
  }

  /** Python's `int(s)` restricted to an optional minus sign followed by at least one digit. */
  function ParseInt(s: string): Option<int>
  {
    if 0 < |s| && AllDigits(s) then Some(DigitsValue(s))
    else if 1 < |s| && s[0] == '-' && AllDigits(s[1..]) then
      var magnitude: int := DigitsValue(s[1..]);
      Some(-magnitude)
    else None
  }

  lemma {:induction false} NatToStringRoundTrip(n: nat)
    ensures DigitsValue(NatToString(n)) == n
  {
    var s := NatToString(n);
    if n >= 10 {
      NatToStringRoundTrip(n / 10);
      assert s[..|s| - 1] == NatToString(n / 10);
    }
  }
}
