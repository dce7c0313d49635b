/**
 * String helpers with the JavaScript meanings the editor relies on:
 * `indexOf`, `split` with a string separator, `join`, `startsWith`,
 * decimal printing of numbers, unary `+` on a string and `parseInt`.
 */
module Text {

  datatype Option<T> = None | Some(value: T)

  /** A JavaScript number as produced by unary `+` or `parseInt` on a
      class-name fragment: a non-negative integer or NaN. */
  datatype Number = Num(n: nat) | NaN

  // ---------------------------------------------------------------------
  // Searching and splitting
  // ---------------------------------------------------------------------

  /** `sep` occurs in `s` starting at index `k`. */
  predicate OccursAt(s: string, sep: string, k: nat)
  {
    k + |sep| <= |s| && s[k..k + |sep|] == sep
  }

  lemma {:induction false} OccursAtTail(s: string, sep: string)
    requires |s| > 0
    ensures forall j: nat :: j >= 1 ==> (OccursAt(s, sep, j) <==> OccursAt(s[1..], sep, j - 1))
  {
    forall j: nat | j >= 1
      ensures OccursAt(s, sep, j) <==> OccursAt(s[1..], sep, j - 1)
    {
      if j + |sep| <= |s| {
        assert s[1..][j - 1..j - 1 + |sep|] == s[j..j + |sep|];
      }
    }
  }

  /** `s.indexOf(sep)`: the first index at which `sep` occurs, if any. */
  function IndexOf(s: string, sep: string): (r: Option<nat>)
    requires |sep| > 0
    ensures r.Some? ==> OccursAt(s, sep, r.value)
    ensures r.Some? ==> forall j: nat :: j < r.value ==> !OccursAt(s, sep, j)
    ensures r.None? ==> forall j: nat :: !OccursAt(s, sep, j)
    decreases |s|
  {
    if |s| < |sep| then None
    else if s[..|sep|] == sep then Some(0)
    else
      assert !OccursAt(s, sep, 0) by { assert s[0..|sep|] == s[..|sep|]; }
      OccursAtTail(s, sep);
      match IndexOf(s[1..], sep)
      case None => None
      case Some(k) => Some(k + 1)
  }

  /** An occurrence inside a prefix is an occurrence in the whole string. */
  lemma {:induction false} OccursInPrefix(s: string, k: nat, sep: string, j: nat)
    requires k <= |s|
    requires OccursAt(s[..k], sep, j)
    ensures OccursAt(s, sep, j)
  {
    assert s[..k][j..j + |sep|] == s[j..j + |sep|];
  }

  /** `s.split(sep)` for a non-empty separator string. */
  function SplitOn(s: string, sep: string): (parts: seq<string>)
    requires |sep| > 0
    ensures |parts| >= 1
    ensures IndexOf(s, sep).Some? <==> |parts| >= 2
    ensures forall i :: 0 <= i < |parts| ==> IndexOf(parts[i], sep).None?
    decreases |s|
  {
    match IndexOf(s, sep)
    case None => [s]
    case Some(k) =>
      var head := s[..k];
      assert IndexOf(head, sep).None? by {
        if IndexOf(head, sep).Some? {
          OccursInPrefix(s, k, sep, IndexOf(head, sep).value);
        }
      }
      [head] + SplitOn(s[k + |sep|..], sep)
  }

  /** The first part of a split is the text before the first separator. */
  lemma {:induction false} SplitOnFirst(s: string, sep: string)
    requires |sep| > 0
    ensures IndexOf(s, sep).None? ==> SplitOn(s, sep) == [s]
    ensures IndexOf(s, sep).Some? ==>
      SplitOn(s, sep) == [s[..IndexOf(s, sep).value]] + SplitOn(s[IndexOf(s, sep).value + |sep|..], sep)
  {
  }

  /** An occurrence that ends inside `a` is the same in `a` and in `a + b`. */
  lemma {:induction false} OccursAtPrefix(a: string, b: string, sep: string, j: nat)
    requires j + |sep| <= |a|
    ensures OccursAt(a + b, sep, j) <==> OccursAt(a, sep, j)
  {
    assert (a + b)[j..j + |sep|] == a[j..j + |sep|];
  }

  /** A separator found in `a` is found at the same place in `a + b`. */
  lemma {:induction false} IndexOfExtend(a: string, b: string, sep: string)
    requires |sep| > 0 && IndexOf(a, sep).Some?
    ensures IndexOf(a + b, sep) == IndexOf(a, sep)
  {
    var k := IndexOf(a, sep).value;
    OccursAtPrefix(a, b, sep, k);
    var r := IndexOf(a + b, sep);
    if r.value < k {
      OccursAtPrefix(a, b, sep, r.value);
      assert false;
    }
  }

  /** A separator without a space that does not occur in `t` cannot occur
      in `t + " " + r` before the space either. */
  lemma {:induction false} IndexOfPastSpace(t: string, r: string, sep: string)
    requires |sep| > 0 && ' ' !in sep && IndexOf(t, sep).None?
    ensures IndexOf(t + " " + r, sep).Some? ==> IndexOf(t + " " + r, sep).value > |t|
  {
    var x := t + " " + r;
    assert x == t + (" " + r);
    if IndexOf(x, sep).Some? {
      var j := IndexOf(x, sep).value;
      if j + |sep| <= |t| {
        OccursAtPrefix(t, " " + r, sep, j);
      } else if j <= |t| {
        SpaceInside(x, sep, j, |t|);
      }
    }
  }

  /** An occurrence of a separator without a space cannot cover a space. */
  lemma {:induction false} SpaceInside(x: string, sep: string, j: nat, p: nat)
    requires ' ' !in sep && j <= p < j + |sep| && p < |x| && x[p] == ' '
    ensures !OccursAt(x, sep, j)
  {
  }

  /** Splitting on a space-free separator and then on a space: a space-free
      first token decides the result, whatever follows the first space. */
  lemma {:induction false} FirstTokenDecides(t: string, rest: string, sep: string)
    requires |sep| > 0 && ' ' !in sep && ' ' !in t
    ensures SplitOn(SplitOn(t + " " + rest, sep)[0], " ")[0] == SplitOn(SplitOn(t, sep)[0], " ")[0]
  {
    if IndexOf(t, sep).Some? {
      assert t + " " + rest == t + (" " + rest);
      FirstPartInToken(t, " " + rest, sep);
    } else {
      FirstPartPastToken(t, rest, sep);
    }
  }

  /** A separator inside `a` ends the first part of `a + b` there. */
  lemma {:induction false} FirstPartInToken(a: string, b: string, sep: string)
    requires |sep| > 0 && IndexOf(a, sep).Some?
    ensures SplitOn(a + b, sep)[0] == SplitOn(a, sep)[0]
  {
    var k := IndexOf(a, sep).value;
    IndexOfExtend(a, b, sep);
    SplitOnFirst(a + b, sep);
    SplitOnFirst(a, sep);
    assert (a + b)[..k] == a[..k];
  }

  /** With no separator inside a space-free first token, the first part
      runs past the token, and its first space-separated piece is the token. */
  lemma {:induction false} FirstPartPastToken(t: string, rest: string, sep: string)
    requires |sep| > 0 && ' ' !in sep && ' ' !in t && IndexOf(t, sep).None?
    ensures SplitOn(SplitOn(t + " " + rest, sep)[0], " ")[0] == t
    ensures SplitOn(SplitOn(t, sep)[0], " ")[0] == t
  {
    var x := t + " " + rest;
    SplitOnFirst(x, sep);
    SplitOnFirst(t, sep);
    IndexOfChar(t, " ");
    SplitOnFirst(t, " ");
    IndexOfPastSpace(t, rest, sep);
    if IndexOf(x, sep).Some? {
      var k := IndexOf(x, sep).value;
      assert x[..k] == t + " " + x[|t| + 1..k];
      SplitOnCons(t, x[|t| + 1..k], " ");
    } else {
      SplitOnCons(t, rest, " ");
    }
  }

  /** A string lacking the first character of a separator does not hold it. */
  lemma {:induction false} IndexOfMissingStart(s: string, sep: string)
    requires |sep| > 0 && sep[0] !in s
    ensures IndexOf(s, sep).None?
  {
  }

  /** `parts.join(sep)`. */
  function Join(parts: seq<string>, sep: string): string
  {
    if |parts| == 0 then ""
    else if |parts| == 1 then parts[0]
    else parts[0] + sep + Join(parts[1..], sep)
  }

  /** Splitting and joining again gives back the original string. */
  lemma {:induction false} JoinSplit(s: string, sep: string)
    requires |sep| > 0
    ensures Join(SplitOn(s, sep), sep) == s
    decreases |s|
  {
    var r := IndexOf(s, sep);
    if r.Some? {
      var k := r.value;
      var head, rest := s[..k], s[k + |sep|..];
      var tailParts := SplitOn(rest, sep);
      JoinSplit(rest, sep);
      assert SplitOn(s, sep) == [head] + tailParts;
      JoinCons(head, tailParts, sep);
      assert s == head + s[k..k + |sep|] + rest;
    }
  }

  lemma {:induction false} Assoc(a: string, b: string, c: string)
    ensures a + b + c == a + (b + c)
  {
  }

  lemma {:induction false} JoinCons(head: string, tail: seq<string>, sep: string)
    requires |tail| >= 1
    ensures Join([head] + tail, sep) == head + sep + Join(tail, sep)
  {
    assert ([head] + tail)[1..] == tail;
  }

  /** A one-character separator occurs in `s` exactly when its character does. */
  lemma {:induction false} IndexOfChar(s: string, sep: string)
    requires |sep| == 1
    ensures IndexOf(s, sep).None? <==> sep[0] !in s
  {
    if sep[0] in s {
      var j :| 0 <= j < |s| && s[j] == sep[0];
      assert s[j..j + 1] == sep;
      assert OccursAt(s, sep, j);
    }
  }

  /** Splitting on a one-character separator peels off a first part that
      does not contain it. */
  lemma {:induction false} SplitOnCons(a: string, rest: string, sep: string)
    requires |sep| == 1 && sep[0] !in a
    ensures SplitOn(a + sep + rest, sep) == [a] + SplitOn(rest, sep)
  {
    var s := a + sep + rest;
    assert OccursAt(s, sep, |a|) by {
      assert s[|a|..|a| + 1] == sep;
    }
    forall j: nat | j < |a|
      ensures !OccursAt(s, sep, j)
    {
      assert s[j] == a[j];
    }
    assert IndexOf(s, sep) == Some(|a|);
    assert s[..|a|] == a;
    assert s[|a| + 1..] == rest;
  }

  /** When `sep` is a single character that appears in none of the
      parts, splitting the joined string gives back the parts. */
  lemma {:induction false} SplitJoin(parts: seq<string>, sep: string)
    requires |sep| == 1 && |parts| >= 1
    requires forall i :: 0 <= i < |parts| ==> sep[0] !in parts[i]
    ensures SplitOn(Join(parts, sep), sep) == parts
    decreases |parts|
  {
    if |parts| == 1 {
      IndexOfChar(parts[0], sep);
    } else {
      SplitOnCons(parts[0], Join(parts[1..], sep), sep);
      SplitJoin(parts[1..], sep);
    }
  }

  /** `s.startsWith(prefix)`. */
  predicate StartsWith(s: string, prefix: string)
  {
    |prefix| <= |s| && s[..|prefix|] == prefix
  }

  /** `s.filter(p)` over a sequence of strings. */
  function Filter(s: seq<string>, p: string -> bool): (r: seq<string>)
    ensures |r| <= |s|
    ensures forall x :: x in r <==> x in s && p(x)
  {
    if s == [] then []
    else (if p(s[0]) then [s[0]] else []) + Filter(s[1..], p)
  }

  /** Filtering a concatenation filters each part. */
  lemma {:induction false} FilterAppend(a: seq<string>, b: seq<string>, p: string -> bool)
    ensures Filter(a + b, p) == Filter(a, p) + Filter(b, p)
    decreases |a|
  {
    if a != [] {
      assert (a + b)[1..] == a[1..] + b;
      FilterAppend(a[1..], b, p);
    } else {
      assert a + b == b;
    }
  }

  /** A filter that no element passes returns nothing. */
  lemma {:induction false} FilterNone(s: seq<string>, p: string -> bool)
    requires forall x :: x in s ==> !p(x)
    ensures Filter(s, p) == []
    decreases |s|
  {
    if s != [] {
      FilterNone(s[1..], p);
    }
  }

  /** A filter that every element passes returns the sequence itself. */
  lemma {:induction false} FilterAll(s: seq<string>, p: string -> bool)
    requires forall x :: x in s ==> p(x)
    ensures Filter(s, p) == s
    decreases |s|
  {
    if s != [] {
      FilterAll(s[1..], p);
    }
  }

  // ---------------------------------------------------------------------
  // Decimal numbers
  // ---------------------------------------------------------------------

  predicate IsDigit(c: char)
  {
    '0' <= c <= '9'
  }

  predicate AllDigits(s: string)
  {
    forall i :: 0 <= i < |s| ==> IsDigit(s[i])
  }

  /** The value of a string of decimal digits (leading zeros allowed). */
  function DecimalValue(s: string): nat
    requires AllDigits(s)
  {
    if s == [] then 0
    else DecimalValue(s[..|s| - 1]) * 10 + (s[|s| - 1] as int - '0' as int)
  }

  function DigitChar(d: nat): (c: char)
    requires d < 10
    ensures IsDigit(c) && c as int - '0' as int == d
  {
    (d + '0' as int) as char
  }

  /** A number printed in a template literal: its shortest decimal form. */
  function NatToString(n: nat): (s: string)
    ensures |s| >= 1 && AllDigits(s)
    ensures DecimalValue(s) == n
    ensures |s| > 1 ==> s[0] != '0'
  {
    if n < 10 then [DigitChar(n)]
    else
      var prefix := NatToString(n / 10);
      var s := prefix + [DigitChar(n % 10)];
      assert s[..|s| - 1] == prefix;
      s
  }

  /** Unary `+` on a class-name fragment: the empty string is 0, a string
      of decimal digits is its value, anything else is NaN. */
  function ToNumber(s: string): (r: Number)
    ensures r.Num? <==> AllDigits(s)
    ensures s == "" ==> r == Num(0)
  {
    if AllDigits(s) then Num(DecimalValue(s)) else NaN
  }

  /** The longest prefix of `s` made of decimal digits. */
  function LeadingDigits(s: string): (d: string)
    ensures AllDigits(d) && StartsWith(s, d)
    ensures |d| < |s| ==> !IsDigit(s[|d|])
  {
    if s == [] || !IsDigit(s[0]) then ""
    else [s[0]] + LeadingDigits(s[1..])
  }

  /** `Number.parseInt(s)`: the value of the leading digits, NaN if none. */
  function ParseInt(s: string): (r: Number)
    ensures r.Num? <==> |s| > 0 && IsDigit(s[0])
  {
    var d := LeadingDigits(s);
    if d == "" then NaN else Num(DecimalValue(d))
  }

  /** Every printed number reads back as itself, with `+` and with `parseInt`. */
  lemma {:induction false} NumberRoundTrip(n: nat)
    ensures ToNumber(NatToString(n)) == Num(n)
    ensures ParseInt(NatToString(n)) == Num(n)
  {
    var s := NatToString(n);
    assert LeadingDigits(s) == s by {
      AllDigitsAreLeading(s);
    }
  }

  lemma {:induction false} AllDigitsAreLeading(s: string)
    requires AllDigits(s)
    ensures LeadingDigits(s) == s
  {
    if s != [] {
      AllDigitsAreLeading(s[1..]);
    }
  }
}
