/**
 * String helpers that both halves of the system rely on: splitting on a
 * one-character separator (Go's strings.Split, JavaScript's String.split),
 * JavaScript's trim, decimal formatting (Go's %d, JavaScript's String(n))
 * and JavaScript's parseInt in radix 10.
 */
module Text {
  import opened Wrappers

  /** Index of the first occurrence of `c` in `s`, or `|s|` when there is none. */
  function IndexOf(s: string, c: char): (i: nat)
    ensures i <= |s|
    ensures i < |s| ==> s[i] == c
    ensures forall k :: 0 <= k < i ==> s[k] != c
  {
    if |s| == 0 then 0
    else if s[0] == c then 0
    else 1 + IndexOf(s[1..], c)
  }

  /** Number of occurrences of `c` in `s`. */
  function Occurrences(s: string, c: char): nat
  {
    if |s| == 0 then 0
    else (if s[0] == c then 1 else 0) + Occurrences(s[1..], c)
  }

  /**
   * The pieces between the separators, as Go's strings.Split and
   * JavaScript's String.prototype.split do for a one-character separator:
   * there is always at least one piece, and no piece holds the separator.
   */
  function Split(s: string, sep: char): (parts: seq<string>)
    ensures |parts| >= 1
    ensures forall k :: 0 <= k < |parts| ==> sep !in parts[k]
    decreases |s|
  {
    var i := IndexOf(s, sep);
    if i == |s| then
      assert s[..i] == s;
      [s]
    else
      [s[..i]] + Split(s[i + 1..], sep)
  }

  /** The pieces glued back together with the separator between them. */
  function Join(parts: seq<string>, sep: char): string
  {
    if |parts| == 0 then ""
    else if |parts| == 1 then parts[0]
    else parts[0] + [sep] + Join(parts[1..], sep)
  }

  /** Joining the pieces of a split gives back the original string. */
  lemma {:induction false} JoinSplit(s: string, sep: char)
    ensures Join(Split(s, sep), sep) == s
    decreases |s|
  {
    var i := IndexOf(s, sep);
    if i < |s| {
      JoinSplit(s[i + 1..], sep);
      JoinSplitStep(s, sep, i, Split(s, sep), Split(s[i + 1..], sep));
    }
  }

  /** The piece before the first separator, joined to the pieces after it, gives back the string. */
  lemma JoinSplitStep(s: string, sep: char, i: nat, parts: seq<string>, rest: seq<string>)
    requires i < |s| && s[i] == sep
    requires parts == [s[..i]] + rest && |rest| >= 1
    requires Join(rest, sep) == s[i + 1..]
    ensures Join(parts, sep) == s
  {
    JoinCons(s[..i], rest, sep);
    assert s == s[..i] + [sep] + s[i + 1..];
  }

  /** A piece in front of at least one more is joined to them by the separator. */
  lemma JoinCons(head: string, rest: seq<string>, sep: char)
    requires |rest| >= 1
    ensures Join([head] + rest, sep) == head + [sep] + Join(rest, sep)
  {
    assert ([head] + rest)[1..] == rest;
  }

  /**
   * A separator between two strings splits them apart: the pieces of the
   * whole are the pieces of the first followed by the pieces of the second.
   */
  lemma {:induction false} SplitConcat(a: string, sep: char, b: string)
    ensures Split(a + [sep] + b, sep) == Split(a, sep) + Split(b, sep)
    decreases |a|
  {
    var i := IndexOf(a, sep);
    if i == |a| {
      SplitNoSeparator(a, sep);
      SplitAfterWord(a, sep, b);
    } else {
      var w := a[..i];
      var tail := a[i + 1..];
      assert a == w + [sep] + tail;
      assert a + [sep] + b == w + [sep] + (tail + [sep] + b);
      SplitAfterWord(w, sep, tail);
      SplitAfterWord(w, sep, tail + [sep] + b);
      SplitConcat(tail, sep, b);
    }
  }

  /** A string without the separator splits into itself. */
  lemma SplitNoSeparator(w: string, sep: char)
    requires sep !in w
    ensures Split(w, sep) == [w]
  {
    assert IndexOf(w, sep) == |w|;
  }

  /** A separator right after a separator-free prefix ends the first piece. */
  lemma SplitAfterWord(w: string, sep: char, rest: string)
    requires sep !in w
    ensures Split(w + [sep] + rest, sep) == [w] + Split(rest, sep)
  {
    var s := w + [sep] + rest;
    IndexOfAfterWord(w, sep, rest);
    assert s[..|w|] == w;
    assert s[|w| + 1..] == rest;
  }

  lemma {:induction false} IndexOfAfterWord(w: string, sep: char, rest: string)
    requires sep !in w
    ensures IndexOf(w + [sep] + rest, sep) == |w|
    decreases |w|
  {
    if |w| > 0 {
      assert (w + [sep] + rest)[1..] == w[1..] + [sep] + rest;
      IndexOfAfterWord(w[1..], sep, rest);
    }
  }

  /**
   * Splitting a join gives back the pieces, provided no piece holds the
   * separator: the two operations are inverse on such lists.
   */
  lemma {:induction false} SplitJoin(parts: seq<string>, sep: char)
    requires |parts| >= 1
    requires forall k :: 0 <= k < |parts| ==> sep !in parts[k]
    ensures Split(Join(parts, sep), sep) == parts
  {
    if |parts| == 1 {
      SplitNoSeparator(parts[0], sep);
    } else {
      SplitJoin(parts[1..], sep);
      SplitAfterWord(parts[0], sep, Join(parts[1..], sep));
      assert parts == [parts[0]] + parts[1..];
    }
  }

  /** There is one piece more than there are separators. */
  lemma {:induction false} SplitCount(s: string, sep: char)
    ensures |Split(s, sep)| == Occurrences(s, sep) + 1
    decreases |s|
  {
    var i := IndexOf(s, sep);
    OccurrencesBeforeIndex(s, sep);
    if i == |s| {
      assert s[..i] == s;
    } else {
      SplitCount(s[i + 1..], sep);
      OccurrencesConcat(s[..i + 1], s[i + 1..], sep);
      assert s == s[..i + 1] + s[i + 1..];
    }
  }

  lemma {:induction false} OccurrencesBeforeIndex(s: string, sep: char)
    ensures var i := IndexOf(s, sep);
      Occurrences(s[..i], sep) == 0 &&
      (i < |s| ==> Occurrences(s[..i + 1], sep) == 1)
    decreases |s|
  {
    if |s| > 0 && s[0] != sep {
      OccurrencesBeforeIndex(s[1..], sep);
      var i := IndexOf(s, sep);
      assert s[..i][1..] == s[1..][..i - 1];
      if i < |s| {
        assert s[..i + 1][1..] == s[1..][..i];
      }
    }
  }

  lemma {:induction false} OccurrencesConcat(a: string, b: string, c: char)
    ensures Occurrences(a + b, c) == Occurrences(a, c) + Occurrences(b, c)
    decreases |a|
  {
    if |a| > 0 {
      assert (a + b)[1..] == a[1..] + b;
      OccurrencesConcat(a[1..], b, c);
    } else {
      assert a + b == b;
    }
  }

  /** Three fields joined by a separator have one piece per separator, plus one. */
  lemma {:induction false} SplitThreeFieldsCount(a: string, b: string, c: string, sep: char)
    ensures |Split(a + [sep] + b + [sep] + c, sep)| ==
      Occurrences(a, sep) + Occurrences(b, sep) + Occurrences(c, sep) + 3
  {
    var s := a + [sep] + b + [sep] + c;
    SplitCount(s, sep);
    OccurrencesConcat(a, [sep], sep);
    OccurrencesConcat(a + [sep], b, sep);
    OccurrencesConcat(a + [sep] + b, [sep], sep);
    OccurrencesConcat(a + [sep] + b + [sep], c, sep);
  }

  /** Three separator-free fields joined by the separator split back into themselves. */
  lemma {:induction false} SplitThreeFields(a: string, b: string, c: string, sep: char)
    requires sep !in a && sep !in b && sep !in c
    ensures Split(a + [sep] + b + [sep] + c, sep) == [a, b, c]
  {
    SplitJoin([a, b, c], sep);
    assert Join([a, b, c], sep) == a + [sep] + b + [sep] + c by {
      assert [a, b, c][1..] == [b, c];
      assert [b, c][1..] == [c];
      assert Join([c], sep) == c;
      assert Join([b, c], sep) == b + [sep] + c;
      assert Join([a, b, c], sep) == a + [sep] + (b + [sep] + c);
    }
  }

  /** A character that does not appear in `s` occurs zero times. */
  lemma {:induction false} OccurrencesAbsent(s: string, c: char)
    requires c !in s
    ensures Occurrences(s, c) == 0
    decreases |s|
  {
    if |s| > 0 {
      assert s[0] != c && c !in s[1..];
      OccurrencesAbsent(s[1..], c);
    }
  }

  // ----- JavaScript String.prototype.trim -----

  /**
   * The characters JavaScript's trim removes: WhiteSpace (tab, vertical tab,
   * form feed, space, no-break space, byte order mark and the Unicode space
   * separators) and LineTerminator (line feed, carriage return, line and
   * paragraph separators).
   */
  predicate IsJsWhitespace(c: char)
  {
    var n := c as int;
    n == 0x09 || n == 0x0A || n == 0x0B || n == 0x0C || n == 0x0D || n == 0x20 ||
    n == 0xA0 || n == 0x1680 || (0x2000 <= n <= 0x200A) || n == 0x2028 ||
    n == 0x2029 || n == 0x202F || n == 0x205F || n == 0x3000 || n == 0xFEFF
  }

  /** `s` without its leading whitespace; the result is a suffix of `s`. */
  function TrimStart(s: string): (r: string)
    ensures |r| <= |s| && r == s[|s| - |r|..]
    ensures |r| > 0 ==> !IsJsWhitespace(r[0])
    ensures forall k :: 0 <= k < |s| - |r| ==> IsJsWhitespace(s[k])
  {
    if |s| > 0 && IsJsWhitespace(s[0]) then
      var r := TrimStart(s[1..]);
      assert s[1..][|s| - 1 - |r|..] == s[|s| - |r|..];
      assert forall k :: 1 <= k < |s| - |r| ==> s[k] == s[1..][k - 1];
      r
    else s
  }

  /** `s` without its trailing whitespace; the result is a prefix of `s`. */
  function TrimEnd(s: string): (r: string)
    ensures |r| <= |s| && r == s[..|r|]
    ensures |r| > 0 ==> !IsJsWhitespace(r[|r| - 1])
    ensures forall k :: |r| <= k < |s| ==> IsJsWhitespace(s[k])
  {
    if |s| > 0 && IsJsWhitespace(s[|s| - 1]) then
      var r := TrimEnd(s[..|s| - 1]);
      r
    else s
  }

  /** JavaScript's trim: both ends stripped of whitespace. */
  function Trim(s: string): (r: string)
    ensures |r| > 0 ==> !IsJsWhitespace(r[0]) && !IsJsWhitespace(r[|r| - 1])
    ensures exists a: nat, b: nat :: a <= b <= |s| && r == s[a..b] && WhitespaceOutside(s, a, b)
  {
    var t := TrimStart(s);
    var r := TrimEnd(t);
    PrefixOfSuffix(s, t, r);
    r
  }

  /** Everything of `s` before position `a` and from position `b` on is whitespace. */
  predicate WhitespaceOutside(s: string, a: nat, b: nat)
    requires a <= b <= |s|
  {
    (forall k :: 0 <= k < a ==> IsJsWhitespace(s[k])) &&
    (forall k :: b <= k < |s| ==> IsJsWhitespace(s[k]))
  }

  /**
   * A prefix of a suffix of `s` is a slice of `s`; when only whitespace was
   * cut from the front of `s` and from the back of the suffix, only
   * whitespace lies outside the slice.
   */
  lemma PrefixOfSuffix(s: string, t: string, r: string)
    requires |t| <= |s| && t == s[|s| - |t|..]
    requires |r| <= |t| && r == t[..|r|]
    requires forall k :: 0 <= k < |s| - |t| ==> IsJsWhitespace(s[k])
    requires forall k :: |r| <= k < |t| ==> IsJsWhitespace(t[k])
    ensures r == s[|s| - |t|..|s| - |t| + |r|]
    ensures WhitespaceOutside(s, |s| - |t|, |s| - |t| + |r|)
  {
    var a := |s| - |t|;
    forall k | a + |r| <= k < |s| ensures IsJsWhitespace(s[k]) {
      assert s[k] == t[k - a];
    }
  }

  /** A string with no whitespace at either end is its own trim. */
  lemma TrimTrimmed(s: string)
    requires |s| > 0 ==> !IsJsWhitespace(s[0]) && !IsJsWhitespace(s[|s| - 1])
    ensures Trim(s) == s
  {
  }

  /** Trimming only removes characters: one absent from `s` is absent from its trim. */
  lemma TrimKeepsAbsent(s: string, c: char)
    requires c !in s
    ensures c !in Trim(s)
  {
    var a: nat, b: nat :| a <= b <= |s| && Trim(s) == s[a..b];
    forall k | 0 <= k < b - a ensures Trim(s)[k] != c {
      assert Trim(s)[k] == s[a + k];
    }
  }

  /** Trimming twice is trimming once. */
  lemma TrimIdempotent(s: string)
    ensures Trim(Trim(s)) == Trim(s)
  {
    TrimTrimmed(Trim(s));
  }

  // ----- decimal numbers -----

  predicate IsDigit(c: char)
  {
    '0' <= c <= '9'
  }

  predicate AllDigits(s: string)
  {
    forall k :: 0 <= k < |s| ==> IsDigit(s[k])
  }

  function DigitChar(d: nat): (c: char)
    requires d < 10
    ensures IsDigit(c) && c as int - '0' as int == d
  {
    ('0' as int + d) as char
  }

  /** The decimal digits of `n`, most significant first, without leading zeros. */
  function NatToString(n: nat): (s: string)
    ensures |s| >= 1 && AllDigits(s)
    ensures |s| > 1 ==> s[0] != '0'
  {
    if n < 10 then [DigitChar(n)]
    else NatToString(n / 10) + [DigitChar(n % 10)]
  }

  /** The number a string of decimal digits denotes. */
  function DigitsValue(s: string): nat
    requires AllDigits(s)
  {
    if |s| == 0 then 0
    else DigitsValue(s[..|s| - 1]) * 10 + (s[|s| - 1] as int - '0' as int)
  }

  /** Reading the digits of a number gives back the number. */
  lemma {:induction false} DigitsValueOfNatToString(n: nat)
    ensures DigitsValue(NatToString(n)) == n
  {
    if n >= 10 {
      DigitsValueOfNatToString(n / 10);
      var s := NatToString(n);
      assert s[..|s| - 1] == NatToString(n / 10);
    }
  }

  /** Go's `%d` and JavaScript's `String(n)` for an integer. */
  function IntToString(n: int): (s: string)
    ensures |s| >= 1
    ensures n >= 0 ==> AllDigits(s)
    ensures n < 0 ==> s[0] == '-' && AllDigits(s[1..])
  {
    if n < 0 then "-" + NatToString(-n) else NatToString(n)
  }

  /** A number written out holds only digits and perhaps a leading minus sign. */
  lemma IntToStringOnlyDigits(n: int, c: char)
    requires !IsDigit(c) && c != '-'
    ensures c !in IntToString(n)
  {
    var s := IntToString(n);
    if n < 0 {
      assert s == [s[0]] + s[1..];
    }
  }

  /** Length of the longest prefix of `s` made of decimal digits. */
  function DigitPrefix(s: string): (k: nat)
    ensures k <= |s| && AllDigits(s[..k])
    ensures k < |s| ==> !IsDigit(s[k])
  {
    if |s| > 0 && IsDigit(s[0]) then
      var k := 1 + DigitPrefix(s[1..]);
      assert forall j :: 1 <= j < k ==> s[..k][j] == s[1..][..k - 1][j - 1];
      k
    else 0
  }

  /**
   * JavaScript's parseInt(s) read in radix 10: leading whitespace is skipped,
   * one optional sign is read, then the longest run of digits; no digits at
   * all gives NaN, here None.
   */
  function ParseIntJs(s: string): (r: Option<int>)
    ensures r.None? <==>
      var t := TrimStart(s);
      var body := if |t| > 0 && (t[0] == '-' || t[0] == '+') then t[1..] else t;
      DigitPrefix(body) == 0
  {
    var t := TrimStart(s);
    var negative := |t| > 0 && t[0] == '-';
    var body := if |t| > 0 && (t[0] == '-' || t[0] == '+') then t[1..] else t;
    var k := DigitPrefix(body);
    if k == 0 then None
    else
      var v: int := DigitsValue(body[..k]);
      Some(if negative then -v else v)
  }

  lemma DigitPrefixAllDigits(s: string)
    requires AllDigits(s)
    ensures DigitPrefix(s) == |s|
  {
  }

  /** parseInt reads back every integer that String(n) writes. */
  lemma ParseIntJsIntToString(n: int)
    ensures ParseIntJs(IntToString(n)) == Some(n)
  {
    if n < 0 {
      assert IntToString(n) == "-" + NatToString(-n);
      ParseIntJsNegative(-n);
    } else {
      assert IntToString(n) == NatToString(n);
      ParseIntJsNatToString(n);
    }
  }

  /** parseInt reads back the digits of a natural number. */
  lemma ParseIntJsNatToString(n: nat)
    ensures ParseIntJs(NatToString(n)) == Some(n)
  {
    var d := NatToString(n);
    assert !IsJsWhitespace(d[0]) && d[0] != '-' && d[0] != '+';
    assert TrimStart(d) == d;
    DigitPrefixAllDigits(d);
    assert d[..|d|] == d;
    DigitsValueOfNatToString(n);
  }

  /** parseInt reads a minus sign followed by the digits of a natural number as its negation. */
  lemma ParseIntJsNegative(n: nat)
    ensures ParseIntJs("-" + NatToString(n)) == Some(-(n as int))
  {
    var d := NatToString(n);
    var s := "-" + d;
    assert !IsJsWhitespace(s[0]);
    assert TrimStart(s) == s;
    assert s[1..] == d;
    DigitPrefixAllDigits(d);
    assert d[..|d|] == d;
    DigitsValueOfNatToString(n);
  }

  /**
   * JavaScript's `%` on integers with a positive divisor: the remainder
   * takes the sign of the dividend (truncating division), unlike Dafny's
   * Euclidean `%`.
   */
  function JsRem(a: int, m: int): (r: int)
    requires m > 0
    ensures -m < r < m
    ensures (a - r) % m == 0
    ensures a >= 0 ==> 0 <= r && r == a % m
    ensures a < 0 ==> r <= 0 && r == -((-a) % m)
  {
    if a >= 0 then
      assert a - a % m == m * (a / m);
      MultipleHasNoRemainder(a / m, m);
      a % m
    else
      assert a + (-a) % m == m * -((-a) / m);
      MultipleHasNoRemainder(-((-a) / m), m);
      -((-a) % m)
  }

  /** A multiple of `m` leaves no remainder. */
  lemma MultipleHasNoRemainder(k: int, m: int)
    requires m > 0
    ensures (m * k) % m == 0
  {
    var x := m * k;
    var d := k - x / m;
    assert x == m * (x / m) + x % m;
    assert m * d == x % m by {
      assert m * d == m * k - m * (x / m);
    }
  }

  /** JavaScript's padStart with a one-character filler. */
  function PadStart(s: string, width: nat, fill: char): (r: string)
    ensures |r| == if |s| >= width then |s| else width
    ensures r[|r| - |s|..] == s
    ensures forall k :: 0 <= k < |r| - |s| ==> r[k] == fill
  {
    if |s| >= width then s else seq(width - |s|, _ => fill) + s
  }
}
