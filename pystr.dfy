/**
 * The Python string builtins the modelled code relies on: `str.split` with an
 * explicit one-character separator, `str.join`, `str(int)`, `int(str)`,
 * `str.rfind` and the slice `s[:k]`.
 */
module PyStr {
  import opened Wrappers

  // ---------------------------------------------------------------------------
  // sep.join(parts) and s.split(sep)
  // ---------------------------------------------------------------------------

  /** `[sep].join(parts)`: the parts with one separator between neighbours. */
  function Join(parts: seq<string>, sep: char): string
  {
    if |parts| == 0 then ""
    else if |parts| == 1 then parts[0]
    else parts[0] + [sep] + Join(parts[1..], sep)
  }

  /**
   * `s.split(sep)` with an explicit separator: the maximal runs of non-separator
   * characters, where two adjacent separators (or one at either end) delimit an
   * empty field. The result is never empty: `"".split(",") == [""]`.
   */
  function Split(s: string, sep: char): (r: seq<string>)
    ensures |r| >= 1
    decreases |s|
  {
    if |s| == 0 then [""]
    else
      var rest := Split(s[1..], sep);
      if s[0] == sep then [""] + rest else [[s[0]] + rest[0]] + rest[1..]
  }

  /** Every field that `Split` returns is free of the separator. */
  lemma {:induction false} SplitFieldsHaveNoSeparator(s: string, sep: char)
    ensures forall i :: 0 <= i < |Split(s, sep)| ==> sep !in Split(s, sep)[i]
  {
    if |s| > 0 {
      SplitFieldsHaveNoSeparator(s[1..], sep);
    }
  }

  /** Joining what `Split` returns gives back the original string, for every string. */
  lemma {:induction false} JoinSplit(s: string, sep: char)
    ensures Join(Split(s, sep), sep) == s
  {
    if |s| > 0 {
      var rest := Split(s[1..], sep);
      JoinSplit(s[1..], sep);
      if s[0] == sep {
        assert Split(s, sep) == [""] + rest;
        assert ([""] + rest)[1..] == rest;
      } else {
        var r := [[s[0]] + rest[0]] + rest[1..];
        assert Split(s, sep) == r;
        if |rest| == 1 {
          assert Join(rest, sep) == rest[0];
        } else {
          assert r[1..] == rest[1..];
          assert Join(rest, sep) == rest[0] + [sep] + Join(rest[1..], sep);
        }
      }
    }
  }

  /** A string without the separator splits into itself alone. */
  lemma {:induction false} SplitNoSeparator(s: string, sep: char)
    requires sep !in s
    ensures Split(s, sep) == [s]
  {
    if |s| > 0 {
      SplitNoSeparator(s[1..], sep);
      assert [s[0]] + s[1..] == s;
    }
  }

  /** A separator after a separator-free prefix ends the first field exactly there. */
  lemma {:induction false} SplitAfterField(a: string, sep: char, b: string)
    requires sep !in a
    ensures Split(a + [sep] + b, sep) == [a] + Split(b, sep)
  {
    if |a| == 0 {
      assert a + [sep] + b == [sep] + b;
      assert ([sep] + b)[1..] == b;
    } else {
      assert (a + [sep] + b)[1..] == a[1..] + [sep] + b;
      SplitAfterField(a[1..], sep, b);
      assert [a[0]] + a[1..] == a;
    }
  }

  /**
   * The round trip `sep.join(parts).split(sep) == parts` holds for every
   * non-empty list whose fields do not contain the separator.
   */
  lemma {:induction false} SplitJoin(parts: seq<string>, sep: char)
    requires |parts| >= 1
    requires forall i :: 0 <= i < |parts| ==> sep !in parts[i]
    ensures Split(Join(parts, sep), sep) == parts
  {
    if |parts| == 1 {
      SplitNoSeparator(parts[0], sep);
    } else {
      SplitJoin(parts[1..], sep);
      SplitAfterField(parts[0], sep, Join(parts[1..], sep));
      assert [parts[0]] + parts[1..] == parts;
    }
  }

  /** The empty list does not survive the round trip: it comes back as one empty field. */
  lemma EmptyJoinSplitsToOneEmptyField(sep: char)
    ensures Join([], sep) == ""
    ensures Split(Join([], sep), sep) == [""] != []
  {
  }

  // ---------------------------------------------------------------------------
  // str(n) and int(s) for decimal integers
  // ---------------------------------------------------------------------------

  predicate IsDigit(c: char)
  {
    '0' <= c <= '9'
  }

  function DigitChar(d: nat): (c: char)
    requires d < 10
    ensures IsDigit(c) && (c as int) - ('0' as int) == d
  {
    (('0' as int) + d) as char
  }

  /** `str(n)` for a natural number: its decimal digits, most significant first. */
  function NatToString(n: nat): (s: string)
    ensures |s| >= 1 && forall i :: 0 <= i < |s| ==> IsDigit(s[i])
  {
    if n < 10 then [DigitChar(n)] else NatToString(n / 10) + [DigitChar(n % 10)]
  }

  /** `str(i)` for an integer: a minus sign before the digits of a negative number. */
  function IntToString(i: int): string
  {
    if i < 0 then "-" + NatToString(-i) else NatToString(i)
  }

  /** The value of a string of decimal digits (leading zeros allowed). */
  function DigitsValue(s: string): nat
    requires forall i :: 0 <= i < |s| ==> IsDigit(s[i])
  {
    if |s| == 0 then 0
    else
      assert IsDigit(s[|s| - 1]);
      DigitsValue(s[..|s| - 1]) * 10 + ((s[|s| - 1] as int) - ('0' as int))
  }

  predicate AllDigits(s: string)
  {
    |s| >= 1 && forall i :: 0 <= i < |s| ==> IsDigit(s[i])
  }

  /**
   * `int(s)` on a decimal literal: an optional `+` or `-` sign followed by one
   * or more ASCII digits. Anything else raises ValueError, modelled as `None`.
   */
  function ParseInt(s: string): Option<int>
  {
    if |s| >= 1 && s[0] == '-' then
      (if AllDigits(s[1..]) then Some(-(DigitsValue(s[1..]) as int)) else None)
    else if |s| >= 1 && s[0] == '+' then
      (if AllDigits(s[1..]) then Some(DigitsValue(s[1..]) as int) else None)
    else if AllDigits(s) then Some(DigitsValue(s) as int)
    else None
  }

  lemma {:induction false} DigitsOfNat(n: nat)
    ensures DigitsValue(NatToString(n)) == n
  {
    if n >= 10 {
      var s := NatToString(n);
      DigitsOfNat(n / 10);
      assert s[..|s| - 1] == NatToString(n / 10);
    }
  }

  /** `int(str(i)) == i` for every integer. */
  lemma IntStringRoundTrip(i: int)
    ensures ParseInt(IntToString(i)) == Some(i)
    ensures ' ' !in IntToString(i)
  {
    if i < 0 {
      var s := "-" + NatToString(-i);
      assert s[1..] == NatToString(-i);
      DigitsOfNat(-i);
    } else {
      DigitsOfNat(i);
    }
  }

  // ---------------------------------------------------------------------------
  // s.rfind(c) and s[:k]
  // ---------------------------------------------------------------------------

  /** `s.rfind(c)`: the index of the last occurrence of `c`, or -1 when there is none. */
  function RFind(s: string, c: char): (r: int)
    ensures -1 <= r < |s|
    ensures r == -1 <==> c !in s
    ensures r >= 0 ==> s[r] == c && c !in s[r + 1..]
  {
    if |s| == 0 then -1
    else if s[|s| - 1] == c then |s| - 1
    else RFind(s[..|s| - 1], c)
  }

  /** `s[:k]`: a negative `k` counts from the end; both ends are clamped into the string. */
  function SliceTo(s: string, k: int): string
  {
    if k < 0 then (if |s| + k < 0 then "" else s[..|s| + k])
    else if k > |s| then s
    else s[..k]
  }
}
