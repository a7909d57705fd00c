/**
 * Pure stand-ins for the .NET base-class-library calls the watcher relies on:
 * string.IsNullOrWhiteSpace, int.Parse and bool.Parse. A call that would throw
 * (null argument, bad format, overflow) returns None.
 */
module Bcl {
  import opened Wrappers

  const Int32Min: int := -0x8000_0000
  const Int32Max: int := 0x7FFF_FFFF

  // ---------------------------------------------------------------------------
  // char.IsWhiteSpace and string.IsNullOrWhiteSpace
  // ---------------------------------------------------------------------------

  /** char.IsWhiteSpace: U+0009..U+000D, U+0085 and the Unicode space, line and paragraph separators. */
  predicate IsWhiteSpace(c: char) {
    || ('\t' <= c <= '\r')
    || c == ' '
    || c == '\U{85}'
    || c == '\U{A0}'
    || c == '\U{1680}'
    || ('\U{2000}' <= c <= '\U{200A}')
    || c == '\U{2028}'
    || c == '\U{2029}'
    || c == '\U{202F}'
    || c == '\U{205F}'
    || c == '\U{3000}'
  }

  /** Scans left to right for a character that is not white space. */
  function AllWhiteSpace(s: string): (r: bool)
    ensures r <==> forall i :: 0 <= i < |s| ==> IsWhiteSpace(s[i])
  {
    |s| == 0 || (IsWhiteSpace(s[0]) && AllWhiteSpace(s[1..]))
  }

  /** string.IsNullOrWhiteSpace; None is the null reference. */
  function IsNullOrWhiteSpace(s: Option<string>): (r: bool)
    ensures r <==> s.None? || forall i :: 0 <= i < |s.value| ==> IsWhiteSpace(s.value[i])
    ensures s == Some("") ==> r
  {
    match s
    case None => true
    case Some(t) => AllWhiteSpace(t)
  }

  // ---------------------------------------------------------------------------
  // int.Parse (NumberStyles.Integer, invariant signs)
  // ---------------------------------------------------------------------------

  /** The white space NumberStyles.AllowLeadingWhite and AllowTrailingWhite accept. */
  predicate IsNumberWhite(c: char) {
    ('\t' <= c <= '\r') || c == ' '
  }

  predicate IsDigit(c: char) {
    '0' <= c <= '9'
  }

  /** Drops the leading number white space. */
  function TrimNumberWhiteStart(s: string): (r: string)
    ensures |r| <= |s| && r == s[|s| - |r|..]
    ensures r == [] || !IsNumberWhite(r[0])
    ensures forall i :: 0 <= i < |s| - |r| ==> IsNumberWhite(s[i])
  {
    if s != [] && IsNumberWhite(s[0]) then TrimNumberWhiteStart(s[1..]) else s
  }

  /** Length of the longest prefix of s made of decimal digits. */
  function DigitRun(s: string): (n: nat)
    ensures n <= |s|
    ensures forall i :: 0 <= i < n ==> IsDigit(s[i])
    ensures n == |s| || !IsDigit(s[n])
  {
    if s != [] && IsDigit(s[0]) then 1 + DigitRun(s[1..]) else 0
  }

  /** The number a string of decimal digits denotes, most significant digit first. */
  function DigitsValue(d: string): nat
    requires forall i :: 0 <= i < |d| ==> IsDigit(d[i])
  {
    if d == [] then 0
    else
      var last := d[|d| - 1];
      assert IsDigit(last);
      10 * DigitsValue(d[..|d| - 1]) + (last as int - '0' as int)
  }

  /** What may follow the digits: number white space, then NUL characters only. */
  predicate IsNumberTrailer(s: string) {
    var t := TrimNumberWhiteStart(s);
    forall i :: 0 <= i < |t| ==> t[i] == '\0'
  }

  /** The digits at the head of u and what follows them: None unless there is a digit and only a trailer follows. */
  function ParseMagnitude(u: string): (r: Option<nat>)
    ensures r.Some? ==> u != [] && IsDigit(u[0])
  {
    var n := DigitRun(u);
    if n == 0 || !IsNumberTrailer(u[n..]) then None else Some(DigitsValue(u[..n]))
  }

  /**
   * int.Parse: white space, an optional '+' or '-', at least one digit, white
   * space, trailing NULs. None for null (ArgumentNullException), a format error
   * (FormatException) or a value outside Int32 (OverflowException).
   */
  function ParseInt32(s: Option<string>): (r: Option<int>)
    ensures s.None? ==> r.None?
    ensures r.Some? ==> Int32Min <= r.value <= Int32Max
  {
    match s
    case None => None
    case Some(text) =>
      var t := TrimNumberWhiteStart(text);
      var signed := t != [] && (t[0] == '-' || t[0] == '+');
      match ParseMagnitude(if signed then t[1..] else t)
      case None => None
      case Some(magnitude) =>
        var v := if signed && t[0] == '-' then -(magnitude as int) else magnitude;
        if Int32Min <= v <= Int32Max then Some(v) else None
  }

  /** The decimal digits of n, as int.ToString writes them. */
  function NatDigits(n: nat): (d: string)
    ensures |d| > 0 && forall i :: 0 <= i < |d| ==> IsDigit(d[i])
  {
    if n < 10 then ['0' + n as char]
    else NatDigits(n / 10) + ['0' + (n % 10) as char]
  }

  /** int.ToString with the invariant culture's '-' sign. */
  function FormatInt32(n: int): string {
    if n < 0 then "-" + NatDigits(-n) else NatDigits(n)
  }

  lemma {:induction false} DigitsValueOfNatDigits(n: nat)
    ensures DigitsValue(NatDigits(n)) == n
  {
    var d := NatDigits(n);
    if n >= 10 {
      DigitsValueOfNatDigits(n / 10);
      assert d[..|d| - 1] == NatDigits(n / 10);
    }
  }

  lemma {:induction false} DigitRunOfDigits(d: string)
    requires forall i :: 0 <= i < |d| ==> IsDigit(d[i])
    ensures DigitRun(d) == |d|
  {
    if d != [] {
      DigitRunOfDigits(d[1..]);
    }
  }

  /** A non-empty digit string on its own reads as its value. */
  lemma ParseMagnitudeOfDigits(d: string)
    requires |d| > 0 && forall i :: 0 <= i < |d| ==> IsDigit(d[i])
    ensures ParseMagnitude(d) == Some(DigitsValue(d))
  {
    DigitRunOfDigits(d);
    assert d[..|d|] == d;
    assert d[|d|..] == [];
  }

  lemma TrimNumberWhiteStartKeeps(text: string)
    requires text != [] && !IsNumberWhite(text[0])
    ensures TrimNumberWhiteStart(text) == text
  {
  }

  /** How ParseInt32 reads a text that has no leading white space and a well-formed magnitude. */
  lemma ParseInt32OfMagnitude(text: string, negative: bool, m: nat, v: int)
    requires text != [] && !IsNumberWhite(text[0])
    requires negative ==> text[0] == '-' && ParseMagnitude(text[1..]) == Some(m)
    requires !negative ==> IsDigit(text[0]) && ParseMagnitude(text) == Some(m)
    requires v == (if negative then -(m as int) else m) && Int32Min <= v <= Int32Max
    ensures ParseInt32(Some(text)) == Some(v)
  {
    TrimNumberWhiteStartKeeps(text);
    var signed := text[0] == '-' || text[0] == '+';
    assert signed == negative;
    var u := if negative then text[1..] else text;
    var pm := ParseMagnitude(u);
    assert pm == Some(m);
    calc {
      ParseInt32(Some(text));
      match pm
      case None => None
      case Some(magnitude) =>
        var w := if negative then -(magnitude as int) else magnitude;
        if Int32Min <= w <= Int32Max then Some(w) else None;
      Some(v);
    }
  }

  /** Every Int32 written by int.ToString is read back by int.Parse. */
  lemma ParseFormatRoundTrip(n: int)
    requires Int32Min <= n <= Int32Max
    ensures ParseInt32(Some(FormatInt32(n))) == Some(n)
  {
    var m: nat := if n < 0 then -n else n;
    var d := NatDigits(m);
    DigitsValueOfNatDigits(m);
    ParseMagnitudeOfDigits(d);
    assert ParseMagnitude(d) == Some(m);
    if n < 0 {
      var text := "-" + d;
      assert text[0] == '-' && text[1..] == d;
      ParseInt32OfMagnitude(text, true, m, n);
    } else {
      assert IsDigit(d[0]);
      ParseInt32OfMagnitude(d, false, m, n);
    }
  }

  // ---------------------------------------------------------------------------
  // bool.Parse
  // ---------------------------------------------------------------------------

  /** The characters bool.Parse trims from both ends: white space and NUL. */
  predicate IsBoolTrim(c: char) {
    IsWhiteSpace(c) || c == '\0'
  }

  function TrimBoolStart(s: string): (r: string)
    ensures r == [] || !IsBoolTrim(r[0])
  {
    if s != [] && IsBoolTrim(s[0]) then TrimBoolStart(s[1..]) else s
  }

  function TrimBoolEnd(s: string): (r: string)
    ensures r == [] || !IsBoolTrim(r[|r| - 1])
  {
    if s != [] && IsBoolTrim(s[|s| - 1]) then TrimBoolEnd(s[..|s| - 1]) else s
  }

  /** Both ends trimmed of white space and NULs. */
  function TrimBool(s: string): string {
    TrimBoolEnd(TrimBoolStart(s))
  }

  /** "True" compared ordinally, ignoring the case of the ASCII letters. */
  predicate IsTrueText(t: string) {
    && |t| == 4
    && (t[0] == 't' || t[0] == 'T')
    && (t[1] == 'r' || t[1] == 'R')
    && (t[2] == 'u' || t[2] == 'U')
    && (t[3] == 'e' || t[3] == 'E')
  }

  /** "False" compared ordinally, ignoring the case of the ASCII letters. */
  predicate IsFalseText(t: string) {
    && |t| == 5
    && (t[0] == 'f' || t[0] == 'F')
    && (t[1] == 'a' || t[1] == 'A')
    && (t[2] == 'l' || t[2] == 'L')
    && (t[3] == 's' || t[3] == 'S')
    && (t[4] == 'e' || t[4] == 'E')
  }

  /**
   * bool.Parse: the text itself, or the text with white space and NULs trimmed
   * from both ends, must read "True" or "False" in any ASCII case. None for
   * null (ArgumentNullException) or anything else (FormatException).
   */
  function ParseBool(s: Option<string>): (r: Option<bool>)
    ensures s.None? ==> r.None?
    ensures r == Some(true) <==> s.Some? && IsTrueText(TrimBool(s.value))
    ensures r == Some(false) <==> s.Some? && IsFalseText(TrimBool(s.value))
  {
    match s
    case None => None
    case Some(text) =>
      if IsTrueText(text) then Some(true)
      else if IsFalseText(text) then Some(false)
      else
        var t := TrimBool(text);
        if IsTrueText(t) then Some(true)
        else if IsFalseText(t) then Some(false)
        else None
  }

  lemma {:induction false} TrimBoolStartPadding(w: string, t: string)
    requires forall i :: 0 <= i < |w| ==> IsBoolTrim(w[i])
    requires t != [] && !IsBoolTrim(t[0])
    ensures TrimBoolStart(w + t) == t
  {
    if w != [] {
      assert (w + t)[1..] == w[1..] + t;
      TrimBoolStartPadding(w[1..], t);
    }
  }

  lemma {:induction false} TrimBoolEndPadding(t: string, w: string)
    requires forall i :: 0 <= i < |w| ==> IsBoolTrim(w[i])
    requires t != [] && !IsBoolTrim(t[|t| - 1])
    ensures TrimBoolEnd(t + w) == t
  {
    if w != [] {
      assert (t + w)[..|t + w| - 1] == t + w[..|w| - 1];
      TrimBoolEndPadding(t, w[..|w| - 1]);
    }
  }

  /** bool.Parse reads "True"/"False" in any ASCII case, whatever white space and NULs surround it. */
  lemma ParseBoolPadded(pre: string, word: string, post: string, b: bool)
    requires forall i :: 0 <= i < |pre| ==> IsBoolTrim(pre[i])
    requires forall i :: 0 <= i < |post| ==> IsBoolTrim(post[i])
    requires if b then IsTrueText(word) else IsFalseText(word)
    ensures ParseBool(Some(pre + word + post)) == Some(b)
  {
    TrimBoolStartPadding(pre, word + post);
    assert pre + word + post == pre + (word + post);
    TrimBoolEndPadding(word, post);
  }
}
