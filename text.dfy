/** The string operations the source relies on, over `string = seq<char>`:
    `toLowerCase`, `includes`, `indexOf`, `replace` with a string pattern,
    `join`, `trim` and `Number.prototype.toString` for naturals. */
module Text {

  /** Lower-cases one character; only the ASCII letters A-Z are mapped. */
  function LowerChar(c: char): (r: char)
    ensures 'A' <= c <= 'Z' ==> r as int == c as int + 32
    ensures !('A' <= c <= 'Z') ==> r == c
  {
    if 'A' <= c <= 'Z' then (c as int + 32) as char else c
  }

  /** `String.prototype.toLowerCase`, position by position. */
  function ToLower(s: string): (r: string)
    ensures |r| == |s|
    ensures forall i :: 0 <= i < |s| ==> r[i] == LowerChar(s[i])
  {
    seq(|s|, i requires 0 <= i < |s| => LowerChar(s[i]))
  }

  /** No upper-case ASCII letter is left in a lower-cased string. */
  lemma ToLowerIdempotent(s: string)
    ensures ToLower(ToLower(s)) == ToLower(s)
  {
    var t := ToLower(s);
    forall i | 0 <= i < |t|
      ensures ToLower(t)[i] == t[i]
    {
      assert !('A' <= t[i] <= 'Z');
    }
  }

  /** Does t occur in s starting at position i? */
  predicate OccursAt(s: string, t: string, i: nat)
  {
    i + |t| <= |s| && s[i..i + |t|] == t
  }

  /** First position at or after `from` where t occurs in s, or -1. */
  function IndexOfFrom(s: string, t: string, from: nat): (r: int)
    requires from <= |s|
    ensures r == -1 || (from <= r && OccursAt(s, t, r))
    ensures r == -1 ==> forall j :: from <= j <= |s| ==> !OccursAt(s, t, j)
    ensures r != -1 ==> forall j :: from <= j < r ==> !OccursAt(s, t, j)
    decreases |s| - from
  {
    if OccursAt(s, t, from) then from
    else if from == |s| then -1
    else IndexOfFrom(s, t, from + 1)
  }

  /** `String.prototype.indexOf`: first position where t occurs in s, or -1. */
  function IndexOf(s: string, t: string): (r: int)
    ensures r == -1 || (0 <= r && OccursAt(s, t, r))
    ensures r == -1 <==> forall j :: 0 <= j <= |s| ==> !OccursAt(s, t, j)
    ensures r != -1 ==> forall j :: 0 <= j < r ==> !OccursAt(s, t, j)
  {
    IndexOfFrom(s, t, 0)
  }

  /** `String.prototype.includes`. */
  predicate Contains(s: string, t: string)
  {
    IndexOf(s, t) != -1
  }

  /** A string occurring inside a prefix of s also occurs in s. */
  lemma ContainsPrefix(s: string, u: string, t: string)
    requires Contains(s, t)
    ensures Contains(s + u, t)
  {
    var i := IndexOf(s, t);
    assert (s + u)[i..i + |t|] == s[i..i + |t|];
    assert OccursAt(s + u, t, i);
  }

  /** A string containing t contains every piece of t. */
  lemma ContainsPiece(s: string, t: string, k: nat, w: string)
    requires Contains(s, t) && OccursAt(t, w, k)
    ensures Contains(s, w)
  {
    var i := IndexOf(s, t);
    assert s[i..i + |t|] == t;
    assert s[i + k..i + k + |w|] == t[k..k + |w|];
    assert OccursAt(s, w, i + k);
  }

  /** `s.replace(t, u)` with a string pattern: only the FIRST occurrence of t is
      replaced; without one, s is returned unchanged. */
  function ReplaceFirst(s: string, t: string, u: string): (r: string)
    ensures !Contains(s, t) ==> r == s
    ensures Contains(s, t) ==> |r| == |s| - |t| + |u|
    ensures forall i: nat :: OccursAt(s, t, i) && (forall j :: 0 <= j < i ==> !OccursAt(s, t, j))
                             ==> r == s[..i] + u + s[i + |t|..]
  {
    var i := IndexOf(s, t);
    if i == -1 then s else s[..i] + u + s[i + |t|..]
  }

  /** Replacing a pattern that opens the string by nothing strips exactly that prefix. */
  lemma ReplaceLeadingPattern(t: string, p: string)
    ensures ReplaceFirst(t + p, t, "") == p
  {
    assert OccursAt(t + p, t, 0);
    assert IndexOf(t + p, t) == 0;
    assert (t + p)[|t|..] == p;
  }

  /** `Array.prototype.join(sep)`. */
  function Join(parts: seq<string>, sep: string): (r: string)
    ensures |parts| == 0 ==> r == ""
    ensures |parts| == 1 ==> r == parts[0]
    decreases |parts|
  {
    if |parts| == 0 then ""
    else if |parts| == 1 then parts[0]
    else parts[0] + sep + Join(parts[1..], sep)
  }

  /** The white-space characters `trim` removes (the ASCII ones are modelled). */
  predicate IsWhiteSpace(c: char)
  {
    c == ' ' || c == '\t' || c == '\n' || c == '\r' || c == '\U{000B}' || c == '\U{000C}' || c == '\U{00A0}'
  }

  function TrimStart(s: string): (r: string)
    ensures |r| <= |s|
    ensures r == s[|s| - |r|..]
    ensures |r| > 0 ==> !IsWhiteSpace(r[0])
    ensures forall i :: 0 <= i < |s| - |r| ==> IsWhiteSpace(s[i])
    decreases |s|
  {
    if |s| > 0 && IsWhiteSpace(s[0]) then TrimStart(s[1..]) else s
  }

  function TrimEnd(s: string): (r: string)
    ensures |r| <= |s|
    ensures r == s[..|r|]
    ensures |r| > 0 ==> !IsWhiteSpace(r[|r| - 1])
    ensures forall i :: |r| <= i < |s| ==> IsWhiteSpace(s[i])
    decreases |s|
  {
    if |s| > 0 && IsWhiteSpace(s[|s| - 1]) then TrimEnd(s[..|s| - 1]) else s
  }

  /** `String.prototype.trim`. */
  function Trim(s: string): string
  {
    TrimEnd(TrimStart(s))
  }

  /** `s.trim()` is empty exactly when every character of s is white space. */
  lemma TrimEmptyIffBlank(s: string)
    ensures Trim(s) == "" <==> forall i :: 0 <= i < |s| ==> IsWhiteSpace(s[i])
  {
    var a := TrimStart(s);
    if Trim(s) == "" {
      assert |a| == 0;
    }
  }

  /** The character spelling one decimal digit. */
  function DigitChar(d: nat): (c: char)
    requires d < 10
    ensures '0' <= c <= '9' && c as int - '0' as int == d
  {
    ('0' as int + d) as char
  }

  /** The value of a string of decimal digits. */
  function DecimalValue(s: string): int
    decreases |s|
  {
    if |s| == 0 then 0 else 10 * DecimalValue(s[..|s| - 1]) + (s[|s| - 1] as int - '0' as int)
  }

  /** `n.toString()` for a natural number: its decimal digits, most significant first. */
  function DecimalString(n: nat): (r: string)
    ensures |r| >= 1
    ensures forall i :: 0 <= i < |r| ==> '0' <= r[i] <= '9'
    decreases n
  {
    if n < 10 then [DigitChar(n)] else DecimalString(n / 10) + [DigitChar(n % 10)]
  }

  /** Reading back the digits `toString` writes gives back the number. */
  lemma {:induction false} DecimalRoundTrip(n: nat)
    ensures DecimalValue(DecimalString(n)) == n
    decreases n
  {
    if n >= 10 {
      var s := DecimalString(n);
      assert s[..|s| - 1] == DecimalString(n / 10);
      DecimalRoundTrip(n / 10);
    }
  }

  /** A number with d digits (10^(d-1) <= n < 10^d) is written with exactly d characters; stated for five. */
  lemma FiveDigits(n: nat)
    requires 10000 <= n <= 99999
    ensures |DecimalString(n)| == 5
  {
    assert |DecimalString(n / 10000)| == 1;
    assert |DecimalString(n / 1000)| == 2;
    assert |DecimalString(n / 100)| == 3;
    assert |DecimalString(n / 10)| == 4;
  }
}
