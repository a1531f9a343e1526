/**
 * The few Python string operations the request handlers rely on:
 * `sep in s`, `s.split(sep)`, `s.startswith(p)`, `s.endswith(p)`,
 * `int(s)` and `str(i)` for integers.
 */
module Text {
  import opened Wrappers

  /** `sep` occurs in `s` starting at position `i`. */
  predicate OccursAt(s: string, sep: string, i: nat)
  {
    i + |sep| <= |s| && s[i..i + |sep|] == sep
  }

  /** Position of the leftmost occurrence of `sep` in `s` at or after `from`. */
  function FindFrom(s: string, sep: string, from: nat): (r: Option<nat>)
    requires |sep| > 0 && from <= |s|
    ensures r.Some? ==> from <= r.value && OccursAt(s, sep, r.value)
    ensures forall j: nat :: from <= j && (r.None? || j < r.value) ==> !OccursAt(s, sep, j)
    decreases |s| - from
  {
    if from + |sep| > |s| then None
    else if OccursAt(s, sep, from) then Some(from)
    else FindFrom(s, sep, from + 1)
  }

  /** Python's `sep in s`: some position of `s` starts an occurrence of `sep`. */
  predicate Contains(s: string, sep: string)
    requires |sep| > 0
  {
    FindFrom(s, sep, 0).Some?
  }

  /** `Contains` holds exactly when some position starts an occurrence of `sep`. */
  lemma ContainsIffOccurs(s: string, sep: string)
    requires |sep| > 0
    ensures Contains(s, sep) <==> exists i: nat :: OccursAt(s, sep, i)
  {
    if Contains(s, sep) {
      assert OccursAt(s, sep, FindFrom(s, sep, 0).value);
    }
  }

  lemma OccurrenceIsContained(s: string, sep: string, i: nat)
    requires |sep| > 0 && OccursAt(s, sep, i)
    ensures Contains(s, sep)
  {
  }

  /**
   * Python's `s.split(sep)` for a non-empty separator: the text between
   * the leftmost non-overlapping occurrences of `sep`.
   */
  function Split(s: string, sep: string): (parts: seq<string>)
    requires |sep| > 0
    ensures |parts| >= 1
    ensures !Contains(s, sep) ==> parts == [s]
    ensures Contains(s, sep) ==> |parts| >= 2
    decreases |s|
  {
    match FindFrom(s, sep, 0)
    case None => [s]
    case Some(i) => [s[..i]] + Split(s[i + |sep|..], sep)
  }

  /** Python's `sep.join(parts)`, the inverse of `Split`. */
  function Join(parts: seq<string>, sep: string): string
    requires |parts| >= 1
    decreases |parts|
  {
    if |parts| == 1 then parts[0] else parts[0] + sep + Join(parts[1..], sep)
  }

  /** Splitting loses nothing: joining the parts back gives the text. */
  lemma {:induction false} JoinSplit(s: string, sep: string)
    requires |sep| > 0
    ensures Join(Split(s, sep), sep) == s
    decreases |s|
  {
    match FindFrom(s, sep, 0)
    case None =>
    case Some(i) =>
      var rest := s[i + |sep|..];
      JoinSplit(rest, sep);
      var parts := Split(s, sep);
      assert parts[0] == s[..i] && parts[1..] == Split(rest, sep);
      assert s == s[..i] + sep + rest;
  }

  /**
   * `a + sep + b` splits into exactly `a` and `b` when the separator
   * between them is the first one and `b` holds no separator.
   */
  lemma SplitAtFirst(a: string, sep: string, b: string)
    requires |sep| > 0
    requires forall j: nat :: j < |a| ==> !OccursAt(a + sep + b, sep, j)
    requires !Contains(b, sep)
    ensures Split(a + sep + b, sep) == [a, b]
  {
    var s := a + sep + b;
    assert OccursAt(s, sep, |a|) by {
      assert s[|a|..|a| + |sep|] == sep;
    }
    assert FindFrom(s, sep, 0) == Some(|a|);
    assert s[..|a|] == a;
    assert s[|a| + |sep|..] == b;
  }

  /** A text that lacks the separator's first character holds no occurrence of it. */
  lemma FirstCharAbsent(s: string, sep: string)
    requires |sep| > 0 && sep[0] !in s
    ensures !Contains(s, sep)
    ensures forall j: nat :: !OccursAt(s, sep, j)
  {
    forall j: nat
      ensures !OccursAt(s, sep, j)
    {
      if j + |sep| <= |s| {
        assert s[j..j + |sep|][0] == s[j] && s[j] in s;
      }
    }
  }

  /** `a,b` splits on the comma into `a` and `b` when neither holds a comma. */
  lemma SplitOnComma(a: string, b: string)
    requires ',' !in a && ',' !in b
    ensures Split(a + "," + b, ",") == [a, b]
  {
    var s := a + "," + b;
    forall j: nat | j < |a|
      ensures !OccursAt(s, ",", j)
    {
      assert s[j] == a[j];
    }
    FirstCharAbsent(b, ",");
    SplitAtFirst(a, ",", b);
  }

  /** Python's `s.startswith(p)`. */
  predicate StartsWith(s: string, p: string)
  {
    |p| <= |s| && s[..|p|] == p
  }

  /** Python's `s.endswith(p)`. */
  predicate EndsWith(s: string, p: string)
  {
    |p| <= |s| && s[|s| - |p|..] == p
  }

  predicate IsDigit(c: char)
  {
    '0' <= c <= '9'
  }

  predicate AllDigits(s: string)
  {
    forall i :: 0 <= i < |s| ==> IsDigit(s[i])
  }

  /** The number written by a string of decimal digits, most significant first. */
  function DigitsValue(s: string): nat
    requires AllDigits(s)
    decreases |s|
  {
    if |s| == 0 then 0 else 10 * DigitsValue(s[..|s| - 1]) + (s[|s| - 1] as int - '0' as int)
  }

  /**
   * Python's `int(s)` on a string, reduced to its core grammar: an
   * optional `+` or `-` followed by one or more ASCII digits.
   */
  function ParseInt(s: string): (r: Option<int>)
    ensures r.Some? ==> forall i :: 0 <= i < |s| ==> IsDigit(s[i]) || s[i] == '-' || s[i] == '+'
  {
    if |s| > 1 && (s[0] == '-' || s[0] == '+') && AllDigits(s[1..]) then
      var magnitude: int := DigitsValue(s[1..]);
      Some(if s[0] == '-' then -magnitude else magnitude)
    else if |s| > 0 && AllDigits(s) then
      Some(DigitsValue(s))
    else
      None
  }

  /** Text accepted by `int()` holds no comma. */
  lemma IntegerTextHasNoComma(s: string)
    requires ParseInt(s).Some?
    ensures ',' !in s
  {
  }

  /** Decimal digits of a natural number, most significant first. */
  function NatToDigits(n: nat): (s: string)
    ensures |s| >= 1 && AllDigits(s)
    decreases n
  {
    var last := ('0' as int + n % 10) as char;
    if n < 10 then [last] else NatToDigits(n / 10) + [last]
  }

  /** Python's `str(i)` for an integer. */
  function IntToString(i: int): string
  {
    if i < 0 then "-" + NatToDigits(-i) else NatToDigits(i)
  }

  lemma {:induction false} DigitsRoundTrip(n: nat)
    ensures DigitsValue(NatToDigits(n)) == n
    decreases n
  {
    var s := NatToDigits(n);
    if n >= 10 {
      DigitsRoundTrip(n / 10);
      assert s[..|s| - 1] == NatToDigits(n / 10);
    }
  }

  /** `int(str(i)) == i`: parsing inverts printing. */
  lemma IntRoundTrip(i: int)
    ensures ParseInt(IntToString(i)) == Some(i)
  {
    if i < 0 {
      NegativeRoundTrip(i);
    } else {
      DigitsRoundTrip(i);
    }
  }

  /** A negative number prints as `-` and its magnitude's digits, which parse back. */
  lemma NegativeRoundTrip(i: int)
    requires i < 0
    ensures ParseInt(IntToString(i)) == Some(i)
  {
    var s := IntToString(i);
    DigitsRoundTrip(-i);
    assert s[0] == '-' && s[1..] == NatToDigits(-i);
  }
}
