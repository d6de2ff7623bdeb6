/** JavaScript string primitives the bridge relies on: whitespace as `\s` and
    `String.prototype.trim` see it, `/^\d+$/`, splitting into fields, joining,
    and the two kinds of case folding the command parser uses. Strings are
    sequences of Unicode scalar values. */
module Text {

  /** `\s` of a JavaScript regular expression, which is also the set that
      `trim` removes: WhiteSpace and LineTerminator of ECMAScript. */
  predicate IsSpace(c: char) {
    c == '\t' || c == '\n' || c == '\U{000B}' || c == '\U{000C}' || c == '\r' || c == ' '
    || c == '\U{00A0}' || c == '\U{1680}' || ('\U{2000}' <= c <= '\U{200A}')
    || c == '\U{2028}' || c == '\U{2029}' || c == '\U{202F}' || c == '\U{205F}'
    || c == '\U{3000}' || c == '\U{FEFF}'
  }

  predicate IsDigit(c: char) {
    '0' <= c <= '9'
  }

  /** `/^\d+$/.test(s)` */
  predicate IsDigits(s: string) {
    |s| > 0 && forall i :: 0 <= i < |s| ==> IsDigit(s[i])
  }

  /** Decimal value of a string of digits (leading zeros allowed). */
  function DigitsValue(s: string): (n: nat)
    requires forall i :: 0 <= i < |s| ==> IsDigit(s[i])
    ensures |s| == 0 ==> n == 0
  {
    if |s| == 0 then 0
    else
      assert IsDigit(s[|s| - 1]);
      var d := s[|s| - 1] as int - '0' as int;
      DigitsValue(s[..|s| - 1]) * 10 + d
  }

  lemma {:induction false} DigitsValueAppend(s: string, c: char)
    requires forall i :: 0 <= i < |s| ==> IsDigit(s[i])
    requires IsDigit(c)
    ensures DigitsValue(s + [c]) == DigitsValue(s) * 10 + (c as int - '0' as int)
  {
    assert (s + [c])[..|s + [c]| - 1] == s;
  }

  /** Decimal rendering of an integer, as `String(n)` prints it. */
  function IntToString(n: int): (s: string)
    ensures |s| > 0
    ensures n >= 0 ==> IsDigits(s) && DigitsValue(s) == n
  {
    if n < 0 then "-" + NatToString(-n) else NatToString(n)
  }

  function NatToString(n: nat): (s: string)
    ensures IsDigits(s) && DigitsValue(s) == n
    ensures s[0] == '0' ==> n == 0
  {
    if n < 10 then [('0' as int + n) as char]
    else
      var prefix := NatToString(n / 10);
      var c := ('0' as int + n % 10) as char;
      DigitsValueAppend(prefix, c);
      prefix + [c]
  }

  /** `trim()` */
  function TrimStart(s: string): (r: string)
    ensures |r| <= |s| && r == s[|s| - |r|..]
    ensures r == [] || !IsSpace(r[0])
    ensures forall i :: 0 <= i < |s| - |r| ==> IsSpace(s[i])
  {
    if |s| > 0 && IsSpace(s[0]) then TrimStart(s[1..]) else s
  }

  function TrimEnd(s: string): (r: string)
    ensures |r| <= |s| && r == s[..|r|]
    ensures r == [] || !IsSpace(r[|r| - 1])
    ensures forall i :: |r| <= i < |s| ==> IsSpace(s[i])
  {
    if |s| > 0 && IsSpace(s[|s| - 1]) then TrimEnd(s[..|s| - 1]) else s
  }

  function Trim(s: string): string {
    TrimEnd(TrimStart(s))
  }

  predicate NoSpace(s: string) {
    forall i :: 0 <= i < |s| ==> !IsSpace(s[i])
  }

  lemma TrimNoSpace(s: string)
    requires NoSpace(s)
    ensures Trim(s) == s
  {
  }

  /** A string that neither starts nor ends with whitespace is its own trim. */
  lemma TrimUnchanged(s: string)
    requires |s| > 0 && !IsSpace(s[0]) && !IsSpace(s[|s| - 1])
    ensures Trim(s) == s
  {
    assert TrimStart(s) == s;
  }

  /** `parts.join(sep)` */
  function Join(parts: seq<string>, sep: string): string {
    if |parts| == 0 then ""
    else if |parts| == 1 then parts[0]
    else parts[0] + sep + Join(parts[1..], sep)
  }

  /** The pieces of `s` between runs of separator characters, none empty:
      `s.split(/[sep]+/).filter(Boolean)`. */
  function Fields(s: string, sep: char -> bool): (r: seq<string>)
    decreases |s|
  {
    if |s| == 0 then []
    else if sep(s[0]) then Fields(s[1..], sep)
    else
      var n := FieldLength(s, sep);
      [s[..n]] + Fields(s[n..], sep)
  }

  /** Length of the leading run of non-separator characters. */
  function FieldLength(s: string, sep: char -> bool): (n: nat)
    ensures n <= |s|
    ensures forall i :: 0 <= i < n ==> !sep(s[i])
    ensures n < |s| ==> sep(s[n])
  {
    if |s| == 0 || sep(s[0]) then 0 else 1 + FieldLength(s[1..], sep)
  }

  /** The characters of `s` that are not separators, in order. */
  function Unseparated(s: string, sep: char -> bool): string {
    if |s| == 0 then ""
    else if sep(s[0]) then Unseparated(s[1..], sep)
    else [s[0]] + Unseparated(s[1..], sep)
  }

  function Concat(parts: seq<string>): string {
    if |parts| == 0 then "" else parts[0] + Concat(parts[1..])
  }

  lemma {:induction false} UnseparatedRun(s: string, n: nat, sep: char -> bool)
    requires n <= |s|
    requires forall i :: 0 <= i < n ==> !sep(s[i])
    ensures Unseparated(s, sep) == s[..n] + Unseparated(s[n..], sep)
  {
    if n > 0 {
      UnseparatedRun(s[1..], n - 1, sep);
      assert s[1..][..n - 1] == s[1..n];
      assert s[1..][n - 1..] == s[n..];
      assert s[..n] == [s[0]] + s[1..n];
    }
  }

  /** Splitting into fields loses exactly the separators: every field is
      non-empty and separator-free, and the fields concatenated are the
      input with its separators removed. */
  lemma {:induction false} FieldsSound(s: string, sep: char -> bool)
    ensures forall k :: 0 <= k < |Fields(s, sep)| ==>
      |Fields(s, sep)[k]| > 0 && forall i :: 0 <= i < |Fields(s, sep)[k]| ==> !sep(Fields(s, sep)[k][i])
    ensures Concat(Fields(s, sep)) == Unseparated(s, sep)
    decreases |s|
  {
    if |s| == 0 {
    } else if sep(s[0]) {
      FieldsSound(s[1..], sep);
    } else {
      var n := FieldLength(s, sep);
      FieldsSound(s[n..], sep);
      UnseparatedRun(s, n, sep);
      var rest := Fields(s[n..], sep);
      assert Fields(s, sep) == [s[..n]] + rest;
      assert Concat([s[..n]] + rest) == s[..n] + Concat(rest) by {
        assert ([s[..n]] + rest)[1..] == rest;
      }
    }
  }

  /** A non-empty run without separators is one field. */
  lemma {:induction false} FieldsSingle(s: string, sep: char -> bool)
    requires |s| > 0 && forall i :: 0 <= i < |s| ==> !sep(s[i])
    ensures Fields(s, sep) == [s]
  {
    var n := FieldLength(s, sep);
    assert n == |s|;
    assert s[..n] == s && s[n..] == [];
  }

  /** The leading run stops at the first separator. */
  lemma {:induction false} FieldLengthBefore(a: string, c: char, b: string, sep: char -> bool)
    requires sep(c)
    ensures FieldLength(a + [c] + b, sep) == FieldLength(a, sep)
    decreases |a|
  {
    if |a| > 0 && !sep(a[0]) {
      assert (a + [c] + b)[1..] == a[1..] + [c] + b;
      FieldLengthBefore(a[1..], c, b, sep);
    }
  }

  /** A separator splits the fields: the fields of `a`, then those of `b`.
      With `FieldsSingle` this says the fields are exactly the maximal
      separator-free runs. */
  lemma {:induction false} FieldsSplit(a: string, c: char, b: string, sep: char -> bool)
    requires sep(c)
    ensures Fields(a + [c] + b, sep) == Fields(a, sep) + Fields(b, sep)
    decreases |a|
  {
    var s := a + [c] + b;
    if |a| == 0 {
      assert s == [c] + b;
      assert s[1..] == b;
    } else if sep(a[0]) {
      assert s[1..] == a[1..] + [c] + b;
      FieldsSplit(a[1..], c, b, sep);
    } else {
      var n := FieldLength(a, sep);
      FieldLengthBefore(a, c, b, sep);
      FieldsUnfold(s, sep);
      FieldsUnfold(a, sep);
      assert s[..n] == a[..n];
      assert s[n..] == a[n..] + [c] + b;
      FieldsSplit(a[n..], c, b, sep);
    }
  }

  lemma FieldsUnfold(s: string, sep: char -> bool)
    requires |s| > 0 && !sep(s[0])
    ensures FieldLength(s, sep) > 0
    ensures Fields(s, sep) == [s[..FieldLength(s, sep)]] + Fields(s[FieldLength(s, sep)..], sep)
  {
  }

  /** `toLowerCase()` for the purpose of comparing with an ASCII keyword:
      A-Z fold to a-z and KELVIN SIGN folds to `k`, the one non-ASCII
      character whose lower case is an ASCII letter. Every other character
      is kept; its real lower case is never ASCII, so equality with an
      ASCII keyword is decided the same way. */
  function LowerChar(c: char): char {
    if 'A' <= c <= 'Z' then (c as int + 32) as char
    else if c == '\U{212A}' then 'k'
    else c
  }

  function Lower(s: string): (r: string)
    ensures |r| == |s|
    ensures forall i :: 0 <= i < |s| ==> r[i] == LowerChar(s[i])
  {
    if |s| == 0 then "" else [LowerChar(s[0])] + Lower(s[1..])
  }

  /** Character equality under a JavaScript regular expression with the
      `i` flag and without `u`: only ASCII letters fold. */
  function FoldChar(c: char): char {
    if 'A' <= c <= 'Z' then (c as int + 32) as char else c
  }

  predicate EqualsIgnoreCase(s: string, lower: string) {
    |s| == |lower| && forall i :: 0 <= i < |s| ==> FoldChar(s[i]) == lower[i]
  }

  /** `s` starts with `prefix`, ASCII letters of `s` folded. */
  predicate StartsIgnoreCase(s: string, lower: string) {
    |s| >= |lower| && EqualsIgnoreCase(s[..|lower|], lower)
  }

  /** `/sub/i.test(s)`: `sub` (given in lower case) occurs somewhere in `s`. */
  predicate ContainsIgnoreCase(s: string, lower: string) {
    exists i :: 0 <= i <= |s| - |lower| && OccursAt(s, lower, i)
  }

  predicate OccursAt(s: string, lower: string, i: int)
    requires 0 <= i <= |s| - |lower|
  {
    EqualsIgnoreCase(s[i..i + |lower|], lower)
  }
}
