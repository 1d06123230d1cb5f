/** The parts of the Arduino `String` class and of the C library that the
    settings store, the command interpreter and the web server rely on.
    A `String` is a `seq<char>` in which each `char` stands for one byte of
    the string, so `|s|` is `length()`; every helper is a pure function with
    the same edge cases as the library routine it stands for, except one:
    here a NUL byte is an ordinary character, while the library's searches
    (`indexOf`, `replace`, and a `&s[i]` pointer read back as a `String`)
    stop at the first NUL as C strings do. */
module ArduinoString {

  /** `uint8_t`. */
  type uint8 = x: int | 0 <= x < 256

  /** `isspace()` of the C library: space, tab, LF, VT, FF and CR. */
  predicate IsSpace(c: char) {
    c == ' ' || c == '\t' || c == '\n' || c == '\U{000B}' || c == '\U{000C}' || c == '\r'
  }

  predicate IsDigit(c: char) {
    '0' <= c <= '9'
  }

  /** `String::operator[]`: the character at `i`, or NUL past the end. */
  function CharAt(s: string, i: nat): char {
    if i < |s| then s[i] else '\0'
  }

  /** `String::startsWith`: `p` is a prefix of `s` (the empty string is a prefix of every string). */
  predicate StartsWith(s: string, p: string) {
    |p| <= |s| && s[..|p|] == p
  }

  /** `p` occurs in `s` starting at index `k`. */
  predicate OccursAt(s: string, p: string, k: nat) {
    k + |p| <= |s| && s[k..k + |p|] == p
  }

  /** `String::replace(find, rep)`: one left-to-right pass that replaces every
      non-overlapping occurrence of `find`; an empty `find` or an empty string
      is left alone.  Text that the removal brings together is not rescanned. */
  function ReplaceAll(s: string, find: string, rep: string): string
    decreases |s|
  {
    if |find| == 0 || |s| == 0 then s
    else if StartsWith(s, find) then rep + ReplaceAll(s[|find|..], find, rep)
    else [s[0]] + ReplaceAll(s[1..], find, rep)
  }

  /** Leading white space removed, as the first loop of `String::trim`. */
  function TrimLeft(s: string): (r: string)
    ensures |r| <= |s| && r == s[|s| - |r|..]
    ensures forall i :: 0 <= i < |s| - |r| ==> IsSpace(s[i])
    ensures r == [] || !IsSpace(r[0])
  {
    if |s| > 0 && IsSpace(s[0]) then TrimLeft(s[1..]) else s
  }

  /** Trailing white space removed, as the second loop of `String::trim`. */
  function TrimRight(s: string): (r: string)
    ensures |r| <= |s| && r == s[..|r|]
    ensures forall i :: |r| <= i < |s| ==> IsSpace(s[i])
    ensures r == [] || !IsSpace(r[|r| - 1])
  {
    if |s| > 0 && IsSpace(s[|s| - 1]) then TrimRight(s[..|s| - 1]) else s
  }

  /** `String::trim`. */
  function Trim(s: string): string {
    TrimRight(TrimLeft(s))
  }

  /** First index at or after `k` where `p` occurs, or -1. */
  function FindFrom(s: string, p: string, k: nat): (r: int)
    ensures r == -1 || (k <= r && OccursAt(s, p, r))
    ensures forall j :: k <= j && (r == -1 || j < r) ==> !OccursAt(s, p, j)
    decreases |s| - k
  {
    if k + |p| > |s| then -1
    else if s[k..k + |p|] == p then k
    else FindFrom(s, p, k + 1)
  }

  /** `String::indexOf(p)`: the first occurrence of `p`, or -1; an empty
      string has no occurrence of anything. */
  function IndexOf(s: string, p: string): (r: int)
    ensures r == -1 || (0 <= r && OccursAt(s, p, r))
  {
    if |s| == 0 then -1 else FindFrom(s, p, 0)
  }

  /** `String::substring(left, right)`: the bounds are swapped when reversed,
      a start at or past the end gives the empty string, and the end is
      clipped to the length. */
  function Substring(s: string, left: nat, right: nat): string {
    var (l, r) := if left > right then (right, left) else (left, right);
    if l >= |s| then "" else s[l..if r > |s| then |s| else r]
  }

  /** The longest prefix of `s` made of decimal digits. */
  function LeadingDigits(s: string): (r: string)
    ensures StartsWith(s, r)
    ensures forall i :: 0 <= i < |r| ==> IsDigit(r[i])
    ensures |r| == |s| || !IsDigit(s[|r|])
  {
    if |s| > 0 && IsDigit(s[0]) then [s[0]] + LeadingDigits(s[1..]) else []
  }

  function DigitValue(c: char): nat {
    if IsDigit(c) then (c - '0') as nat else 0
  }

  /** The value of a string of decimal digits, most significant first. */
  function DigitsValue(ds: string): nat {
    if |ds| == 0 then 0 else DigitsValue(ds[..|ds| - 1]) * 10 + DigitValue(ds[|ds| - 1])
  }

  /** `String::toInt`, that is `atol`: leading white space, an optional sign,
      then as many decimal digits as follow; 0 when there are none. */
  function ToInt(s: string): int {
    var t := TrimLeft(s);
    if |t| > 0 && t[0] == '-' then -(DigitsValue(LeadingDigits(t[1..]) ) as int)
    else if |t| > 0 && t[0] == '+' then DigitsValue(LeadingDigits(t[1..]))
    else DigitsValue(LeadingDigits(t))
  }

  function DigitChar(d: nat): char
    requires d < 10
  {
    ('0' as int + d) as char
  }

  /** `String(n)` for an unsigned integer: its decimal rendering. */
  function DecimalString(n: nat): string
    decreases n
  {
    if n < 10 then [DigitChar(n)] else DecimalString(n / 10) + [DigitChar(n % 10)]
  }

  // ---------------------------------------------------------------------------
  // Properties of trim
  // ---------------------------------------------------------------------------

  /** `trim` keeps a contiguous slice of its input, starting after the
      leading white space. */
  lemma TrimIsSlice(s: string)
    ensures var a := |s| - |TrimLeft(s)|;
      a + |Trim(s)| <= |s| && Trim(s) == s[a..a + |Trim(s)|]
  {
    var l := TrimLeft(s);
    var r := TrimRight(l);
    SliceOfSuffix(s, |s| - |l|, r);
  }

  /** A prefix of a suffix is a slice. */
  lemma SliceOfSuffix(s: string, a: nat, r: string)
    requires a <= |s| && |r| <= |s| - a && r == s[a..][..|r|]
    ensures r == s[a..a + |r|]
  {
  }

  /** `trim` drops all white space around what it keeps. */
  lemma TrimEnds(s: string)
    ensures Trim(s) == [] || (!IsSpace(Trim(s)[0]) && !IsSpace(Trim(s)[|Trim(s)| - 1]))
  {
    var l := TrimLeft(s);
    var r := TrimRight(l);
    if r != [] {
      assert r[0] == l[0];
    }
  }

  /** After `trim` the first character is never a space: in particular a
      trimmed, non-empty string never starts with `' '`. */
  lemma TrimmedStartsNonSpace(s: string)
    ensures Trim(s) == [] || !IsSpace(Trim(s)[0])
    ensures CharAt(Trim(s), 0) != ' '
  {
    var l := TrimLeft(s);
    var r := TrimRight(l);
    if r != [] {
      assert r[0] == l[0];
    }
  }

  /** Trimming twice is trimming once. */
  lemma {:induction false} TrimIdempotent(s: string)
    ensures Trim(Trim(s)) == Trim(s)
  {
    var t := Trim(s);
    TrimmedStartsNonSpace(s);
    assert TrimLeft(t) == t;
    TrimEnds(s);
    assert TrimRight(t) == t;
  }

  // ---------------------------------------------------------------------------
  // Properties of replace
  // ---------------------------------------------------------------------------

  /** A pattern one of whose characters is absent from `s` cannot occur, so `replace` changes nothing. */
  lemma {:induction false} ReplaceAbsent(s: string, find: string, rep: string, k: nat)
    requires k < |find| && find[k] !in s
    ensures ReplaceAll(s, find, rep) == s
    decreases |s|
  {
    if |s| > 0 {
      assert !StartsWith(s, find) by {
        if |find| <= |s| {
          assert s[k] in s;
          assert s[..|find|][k] == s[k];
        }
      }
      ReplaceAbsent(s[1..], find, rep, k);
    }
  }

  /** Splitting before a character the pattern does not contain: no occurrence
      can straddle the split, so `replace` works on the two halves separately. */
  lemma {:induction false} ReplaceSplit(a: string, b: string, find: string, rep: string)
    requires |b| > 0 && b[0] !in find
    ensures ReplaceAll(a + b, find, rep) == ReplaceAll(a, find, rep) + ReplaceAll(b, find, rep)
    decreases |a|, 1
  {
    if |find| == 0 {
    } else if |a| == 0 {
      assert a + b == b;
    } else if StartsWith(a + b, find) {
      SplitAtMatch(a, b, find, rep);
    } else {
      SplitPastChar(a, b, find, rep);
    }
  }

  /** The match at the front of `a + b` lies wholly inside `a`. */
  lemma {:induction false} SplitAtMatch(a: string, b: string, find: string, rep: string)
    requires |b| > 0 && b[0] !in find && |a| > 0 && |find| > 0 && StartsWith(a + b, find)
    ensures ReplaceAll(a + b, find, rep) == ReplaceAll(a, find, rep) + ReplaceAll(b, find, rep)
    decreases |a|, 0
  {
    assert (a + b)[|a|] == b[0];
    assert |find| <= |a|;
    assert (a + b)[..|find|] == a[..|find|];
    assert StartsWith(a, find);
    assert (a + b)[|find|..] == a[|find|..] + b;
    ReplaceSplit(a[|find|..], b, find, rep);
  }

  /** No match at the front of `a + b`, nor then at the front of `a`. */
  lemma {:induction false} SplitPastChar(a: string, b: string, find: string, rep: string)
    requires |b| > 0 && b[0] !in find && |a| > 0 && |find| > 0 && !StartsWith(a + b, find)
    ensures ReplaceAll(a + b, find, rep) == ReplaceAll(a, find, rep) + ReplaceAll(b, find, rep)
    decreases |a|, 0
  {
    assert !StartsWith(a, find);
    assert (a + b)[1..] == a[1..] + b;
    ReplaceSplit(a[1..], b, find, rep);
  }


  /** `replace` introduces no character that was neither in the input nor in the replacement. */
  lemma {:induction false} ReplaceChars(s: string, find: string, rep: string, c: char)
    requires c in ReplaceAll(s, find, rep)
    ensures c in s || c in rep
    decreases |s|
  {
    if |find| == 0 || |s| == 0 {
    } else if StartsWith(s, find) {
      if c !in rep {
        ReplaceChars(s[|find|..], find, rep, c);
      }
    } else {
      if c != s[0] {
        ReplaceChars(s[1..], find, rep, c);
      }
    }
  }

  /** `replace` with an empty replacement never lengthens a string. */
  lemma {:induction false} ReplaceShrinks(s: string, find: string)
    ensures |ReplaceAll(s, find, "")| <= |s|
    decreases |s|
  {
    if |find| > 0 && |s| > 0 {
      if StartsWith(s, find) {
        ReplaceShrinks(s[|find|..], find);
      } else {
        ReplaceShrinks(s[1..], find);
      }
    }
  }

  /** A string without any occurrence of the pattern is left alone. */
  lemma {:induction false} ReplaceNone(s: string, find: string, rep: string)
    requires forall j :: !OccursAt(s, find, j)
    ensures ReplaceAll(s, find, rep) == s
    decreases |s|
  {
    if |find| > 0 && |s| > 0 {
      assert !OccursAt(s, find, 0);
      forall j | 0 <= j
        ensures !OccursAt(s[1..], find, j)
      {
        assert !OccursAt(s, find, j + 1);
        if j + |find| <= |s| - 1 {
          assert s[1..][j..j + |find|] == s[j + 1..j + 1 + |find|];
        }
      }
      ReplaceNone(s[1..], find, rep);
    }
  }

  /** A string that opens with the pattern loses that occurrence first. */
  lemma ReplaceLead(find: string, rest: string, rep: string)
    requires |find| > 0
    ensures ReplaceAll(find + rest, find, rep) == rep + ReplaceAll(rest, find, rep)
  {
    assert (find + rest)[..|find|] == find;
    assert (find + rest)[|find|..] == rest;
  }

  /** `trim` keeps a string that neither starts nor ends with white space. */
  lemma TrimPlain(s: string)
    requires s == [] || (!IsSpace(s[0]) && !IsSpace(s[|s| - 1]))
    ensures Trim(s) == s
  {
  }

  /** `trim` drops a leading white-space character. */
  lemma TrimDropsSpace(c: char, s: string)
    requires IsSpace(c)
    ensures Trim([c] + s) == Trim(s)
  {
    assert ([c] + s)[1..] == s;
  }

  /** One leading space before an already trimmed string is trimmed away. */
  lemma TrimSpaceThen(x: string)
    requires x != [] && !IsSpace(x[0]) && !IsSpace(x[|x| - 1])
    ensures Trim([' '] + x) == x
  {
    TrimDropsSpace(' ', x);
    TrimPlain(x);
  }

  /** `replace` removes a leading `find` and keeps a tail holding no
      occurrence of it. */
  lemma StripLead(find: string, rest: string)
    requires |find| > 0 && forall j :: !OccursAt(rest, find, j)
    ensures ReplaceAll(find + rest, find, "") == rest
  {
    ReplaceLead(find, rest, "");
    ReplaceNone(rest, find, "");
  }

  /** The same when the tail lacks one of the pattern's characters. */
  lemma StripAbsent(find: string, rest: string, k: nat)
    requires k < |find| && find[k] !in rest
    ensures StartsWith(find + rest, find)
    ensures ReplaceAll(find + rest, find, "") == rest
  {
    assert (find + rest)[..|find|] == find;
    ReplaceLead(find, rest, "");
    ReplaceAbsent(rest, find, "", k);
  }

  /** Text before the pattern that lacks the pattern's first character is
      copied unchanged by `replace`. */
  lemma {:induction false} ReplaceSkips(a: string, b: string, find: string, rep: string)
    requires |find| > 0 && find[0] !in a
    ensures ReplaceAll(a + b, find, rep) == a + ReplaceAll(b, find, rep)
    decreases |a|
  {
    if |a| == 0 {
      assert a + b == b;
    } else {
      assert !StartsWith(a + b, find) by {
        if |find| <= |a + b| {
          assert (a + b)[..|find|][0] == a[0];
          assert a[0] in a;
        }
      }
      assert (a + b)[1..] == a[1..] + b;
      ReplaceSkips(a[1..], b, find, rep);
    }
  }

  /** A string lacking one of the characters of `p` does not start with `p`. */
  lemma NoPrefixWithout(s: string, p: string, k: nat)
    requires k < |p| && p[k] !in s
    ensures !StartsWith(s, p)
  {
    if |p| <= |s| {
      assert s[..|p|][k] == s[k];
      assert s[k] in s;
    }
  }

  // ---------------------------------------------------------------------------
  // Properties of indexOf
  // ---------------------------------------------------------------------------

  /** `indexOf` finds the first occurrence, and -1 means there is none. */
  lemma IndexOfFirst(s: string, p: string)
    requires |s| > 0
    ensures IndexOf(s, p) == -1 <==> forall j :: 0 <= j ==> !OccursAt(s, p, j)
    ensures IndexOf(s, p) >= 0 ==>
              OccursAt(s, p, IndexOf(s, p)) && forall j :: 0 <= j < IndexOf(s, p) ==> !OccursAt(s, p, j)
  {
  }

  /** Skipping a prefix that does not hold the pattern's first character. */
  lemma {:induction false} FindAfterPrefix(a: string, b: string, p: string, k: nat)
    requires k <= |a| && |p| > 0 && p[0] !in a[k..]
    ensures FindFrom(a + b, p, k) == (var r := FindFrom(b, p, 0); if r == -1 then -1 else |a| + r)
    decreases |a| - k
  {
    if k < |a| {
      assert !OccursAt(a + b, p, k) by {
        assert a[k..][0] == a[k] == (a + b)[k];
        if k + |p| <= |a + b| {
          assert (a + b)[k..k + |p|][0] == a[k];
        }
      }
      assert a[k + 1..] == a[k..][1..];
      FindAfterPrefix(a, b, p, k + 1);
    } else {
      FindShift(a, b, p, 0);
    }
  }

  lemma {:induction false} FindShift(a: string, b: string, p: string, j: nat)
    requires j <= |b|
    ensures FindFrom(a + b, p, |a| + j) == (var r := FindFrom(b, p, j); if r == -1 then -1 else |a| + r)
    decreases |b| - j
  {
    if |a| + j + |p| <= |a + b| {
      assert (a + b)[|a| + j..|a| + j + |p|] == b[j..j + |p|];
      if b[j..j + |p|] != p && j < |b| {
        FindShift(a, b, p, j + 1);
      }
    }
  }

  // ---------------------------------------------------------------------------
  // Decimal numbers: String(n) and toInt
  // ---------------------------------------------------------------------------

  /** `String(n)` is a non-empty string of digits. */
  lemma {:induction false} DecimalDigits(n: nat)
    ensures |DecimalString(n)| > 0
    ensures forall i :: 0 <= i < |DecimalString(n)| ==> IsDigit(DecimalString(n)[i])
    decreases n
  {
    if n >= 10 {
      DecimalDigits(n / 10);
    }
  }

  /** `String(n)` of a positive number does not start with '0'. */
  lemma {:induction false} DecimalLeading(n: nat)
    requires n > 0
    ensures |DecimalString(n)| > 0 && DecimalString(n)[0] != '0'
    decreases n
  {
    if n >= 10 {
      DecimalLeading(n / 10);
    }
  }

  /** Reading back the digits of `String(n)` gives `n`. */
  lemma {:induction false} DecimalValue(n: nat)
    ensures DigitsValue(DecimalString(n)) == n
    decreases n
  {
    if n >= 10 {
      var d := DecimalString(n);
      assert d[..|d| - 1] == DecimalString(n / 10);
      DecimalValue(n / 10);
    }
  }

  /** `String(a) == String(b)` only when `a == b`: keys built from distinct
      indices are distinct. */
  lemma DecimalInjective(a: nat, b: nat)
    requires DecimalString(a) == DecimalString(b)
    ensures a == b
  {
    DecimalValue(a);
    DecimalValue(b);
  }

  lemma {:induction false} LeadingDigitsOfDigits(ds: string, rest: string)
    requires forall i :: 0 <= i < |ds| ==> IsDigit(ds[i])
    requires rest == [] || !IsDigit(rest[0])
    ensures LeadingDigits(ds + rest) == ds
    decreases |ds|
  {
    if |ds| > 0 {
      assert (ds + rest)[1..] == ds[1..] + rest;
      LeadingDigitsOfDigits(ds[1..], rest);
    } else {
      assert ds + rest == rest;
    }
  }

  /** Round trip: `toInt` reads back the number that `String(n)` wrote, whatever
      non-digit text follows it, with or without a minus sign before it. */
  lemma {:induction false} DecimalToInt(n: nat, rest: string)
    requires rest == [] || !IsDigit(rest[0])
    ensures ToInt(DecimalString(n) + rest) == n
    ensures ToInt("-" + DecimalString(n) + rest) == -(n as int)
  {
    var d := DecimalString(n);
    DecimalDigits(n);
    DecimalValue(n);
    var u := d + rest;
    NegatedNumeralToInt(d, rest, u);
    assert "-" + d + rest == "-" + u;
    NumeralToInt(d, rest, u);
  }

  lemma NumeralToInt(d: string, rest: string, u: string)
    requires |d| > 0 && forall i :: 0 <= i < |d| ==> IsDigit(d[i])
    requires rest == [] || !IsDigit(rest[0])
    requires u == d + rest
    ensures ToInt(u) == DigitsValue(d)
  {
    LeadingDigitsOfDigits(d, rest);
    assert u[0] == d[0];
    UnsignedToInt(u);
  }

  lemma NegatedNumeralToInt(d: string, rest: string, u: string)
    requires forall i :: 0 <= i < |d| ==> IsDigit(d[i])
    requires rest == [] || !IsDigit(rest[0])
    requires u == d + rest
    ensures ToInt("-" + u) == -(DigitsValue(d) as int)
  {
    LeadingDigitsOfDigits(d, rest);
    NegativeToInt(u);
  }

  /** A string that opens with a digit is read as its leading digits. */
  lemma UnsignedToInt(u: string)
    requires |u| > 0 && IsDigit(u[0])
    ensures ToInt(u) == DigitsValue(LeadingDigits(u))
  {
    assert TrimLeft(u) == u by {
      assert !IsSpace(u[0]);
    }
  }

  /** A minus sign negates what follows it. */
  lemma NegativeToInt(u: string)
    ensures ToInt("-" + u) == -(DigitsValue(LeadingDigits(u)) as int)
  {
    var m := "-" + u;
    assert m[0] == '-' && m[1..] == u;
    assert TrimLeft(m) == m by {
      assert !IsSpace(m[0]);
    }
  }
}
