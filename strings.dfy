/** Small value types and string helpers shared by the blog and portfolio modules.
    Strings are sequences of Unicode scalar values, as JavaScript strings are for the
    characters that occur here. */
module Wrappers {
  datatype Option<+T> = None | Some(value: T)
}

module Strings {

  /** The characters JavaScript's `\s` class, `trim`, `trimStart` and `trimEnd` treat as
      white space: WhiteSpace and LineTerminator of ECMAScript, section 12.2 and 12.3. */
  predicate IsSpace(c: char) {
    || c == ' '
    || ('\t' <= c <= '\r')          // tab, line feed, vertical tab, form feed, carriage return
    || c == '\U{00A0}' || c == '\U{1680}'
    || ('\U{2000}' <= c <= '\U{200A}')
    || c == '\U{2028}' || c == '\U{2029}'
    || c == '\U{202F}' || c == '\U{205F}' || c == '\U{3000}' || c == '\U{FEFF}'
  }

  /** The characters a regular-expression `.` does not match. */
  predicate IsLineTerminator(c: char) {
    c == '\n' || c == '\r' || c == '\U{2028}' || c == '\U{2029}'
  }

  predicate IsDigit(c: char) {
    '0' <= c <= '9'
  }

  predicate IsUpper(c: char) {
    'A' <= c <= 'Z'
  }

  predicate IsHangul(c: char) {
    || ('\U{AC00}' <= c <= '\U{D7A3}')   // precomposed syllables
    || ('\U{1100}' <= c <= '\U{11FF}')   // jamo
    || ('\U{3131}' <= c <= '\U{318E}')   // compatibility jamo
  }

  /** The letters of `\p{L}` this model knows: ASCII letters and Hangul. */
  predicate IsLetter(c: char) {
    ('a' <= c <= 'z') || IsUpper(c) || IsHangul(c)
  }

  predicate AllSpace(s: string) {
    forall i :: 0 <= i < |s| ==> IsSpace(s[i])
  }

  predicate NoLineTerminator(s: string) {
    forall i :: 0 <= i < |s| ==> !IsLineTerminator(s[i])
  }

  /** `String.prototype.trimStart`: drops the longest all-space prefix. */
  function TrimStart(s: string): (r: string)
    ensures |r| <= |s| && r == s[|s| - |r|..]
    ensures AllSpace(s[..|s| - |r|])
    ensures r == [] || !IsSpace(r[0])
  {
    if s != [] && IsSpace(s[0]) then
      var r := TrimStart(s[1..]);
      SpaceThenSuffix(s, r);
      r
    else s
  }

  /** `String.prototype.trimEnd`: drops the longest all-space suffix. */
  function TrimEnd(s: string): (r: string)
    ensures |r| <= |s| && r == s[..|r|]
    ensures AllSpace(s[|r|..])
    ensures r == [] || !IsSpace(r[|r| - 1])
  {
    if s != [] && IsSpace(s[|s| - 1]) then
      var r := TrimEnd(s[..|s| - 1]);
      PrefixThenSpace(s, r);
      r
    else s
  }

  /** The step of `TrimStart`: one more space in front. */
  lemma {:induction false} SpaceThenSuffix(s: string, r: string)
    requires s != [] && IsSpace(s[0])
    requires |r| <= |s| - 1 && r == s[1..][|s| - 1 - |r|..] && AllSpace(s[1..][..|s| - 1 - |r|])
    ensures r == s[|s| - |r|..] && AllSpace(s[..|s| - |r|])
  {
    var n := |s| - |r|;
    assert s[1..][n - 1..] == s[n..];
    forall i | 0 <= i < n ensures IsSpace(s[..n][i]) {
      if i > 0 {
        assert s[..n][i] == s[1..][..n - 1][i - 1];
      }
    }
  }

  /** The step of `TrimEnd`: one more space at the back. */
  lemma {:induction false} PrefixThenSpace(s: string, r: string)
    requires s != [] && IsSpace(s[|s| - 1])
    requires |r| <= |s| - 1 && r == s[..|s| - 1][..|r|] && AllSpace(s[..|s| - 1][|r|..])
    ensures r == s[..|r|] && AllSpace(s[|r|..])
  {
    var n := |r|;
    assert s[..|s| - 1][..n] == s[..n];
    forall i | 0 <= i < |s| - n ensures IsSpace(s[n..][i]) {
      if i < |s| - 1 - n {
        assert s[n..][i] == s[..|s| - 1][n..][i];
      }
    }
  }

  /** `String.prototype.trim`. */
  function Trim(s: string): (r: string)
    ensures r == [] || (!IsSpace(r[0]) && !IsSpace(r[|r| - 1]))
  {
    TrimEnd(TrimStart(s))
  }

  /** `t` occurs in `s` at `p`, with only white space before and after it. */
  predicate PieceAmidSpace(s: string, p: nat, t: string) {
    && p + |t| <= |s| && t == s[p..p + |t|]
    && AllSpace(s[..p]) && AllSpace(s[p + |t|..])
  }

  /** Trimming cuts out a contiguous piece: `trim(s)` starts at `p` in `s`, and what it cuts
      off at either end is white space. */
  lemma {:induction false} TrimIsInfix(s: string) returns (p: nat)
    ensures PieceAmidSpace(s, p, Trim(s))
  {
    var a := TrimStart(s);
    var t := TrimEnd(a);
    p := PieceOfTrims(s, a, t);
  }

  /** A prefix `t` of a suffix `a` of `s`, with white space cut off around it, is a piece of
      `s` at `p` with white space on both sides. */
  lemma {:induction false} PieceOfTrims(s: string, a: string, t: string) returns (p: nat)
    requires |a| <= |s| && a == s[|s| - |a|..] && AllSpace(s[..|s| - |a|])
    requires |t| <= |a| && t == a[..|t|] && AllSpace(a[|t|..])
    ensures PieceAmidSpace(s, p, t)
  {
    p := |s| - |a|;
    PrefixOfPiece(s, p, a, t);
    SuffixOfSuffix(s, p, |t|);
  }

  lemma {:induction false} PrefixOfPiece(s: string, p: nat, a: string, t: string)
    requires p <= |s| && a == s[p..] && |t| <= |a| && t == a[..|t|]
    ensures t == s[p..p + |t|]
  {
    PrefixOfSuffix(s, p, |t|);
  }

  lemma {:induction false} SuffixOfSuffix(s: string, p: nat, n: nat)
    requires p + n <= |s|
    ensures s[p..][n..] == s[p + n..]
  {
  }

  lemma {:induction false} ThreePieces(s: string, p: nat, q: nat)
    requires p <= q <= |s|
    ensures s == s[..p] + s[p..q] + s[q..]
  {
  }

  lemma {:induction false} PrefixOfSuffix(s: string, p: nat, n: nat)
    requires p + n <= |s|
    ensures s[p..][..n] == s[p..p + n]
  {
  }

  lemma {:induction false} TrimStartOfSpaces(w: string, t: string)
    requires AllSpace(w)
    requires t == [] || !IsSpace(t[0])
    ensures TrimStart(w + t) == t
  {
    if w != [] {
      assert (w + t)[1..] == w[1..] + t;
      TrimStartOfSpaces(w[1..], t);
    }
  }

  /** `s.split(sep)` for a one-character separator: the pieces between separators, at least one. */
  function Split(s: string, sep: char): (r: seq<string>)
    ensures |r| >= 1
  {
    if s == [] then [[]]
    else
      var rest := Split(s[1..], sep);
      if s[0] == sep then [[]] + rest else [[s[0]] + rest[0]] + rest[1..]
  }

  /** `parts.join(sep)`; the empty list joins to the empty string. */
  function Join(parts: seq<string>, sep: char): string {
    if |parts| == 0 then []
    else if |parts| == 1 then parts[0]
    else parts[0] + [sep] + Join(parts[1..], sep)
  }

  lemma {:induction false} SplitHasNoSeparator(s: string, sep: char)
    ensures forall k :: 0 <= k < |Split(s, sep)| ==> sep !in Split(s, sep)[k]
  {
    if s != [] {
      SplitHasNoSeparator(s[1..], sep);
    }
  }

  /** Joining the pieces back with the separator gives the original text. */
  lemma {:induction false} JoinSplit(s: string, sep: char)
    ensures Join(Split(s, sep), sep) == s
  {
    if s != [] {
      var rest := Split(s[1..], sep);
      JoinSplit(s[1..], sep);
      if s[0] == sep {
        assert Split(s, sep) == [[]] + rest;
        assert Split(s, sep)[1..] == rest;
      } else {
        var r := Split(s, sep);
        assert r == [[s[0]] + rest[0]] + rest[1..];
        if |rest| == 1 {
          assert Join(rest, sep) == rest[0];
        } else {
          assert Join(rest, sep) == rest[0] + [sep] + Join(rest[1..], sep);
          assert r[1..] == rest[1..];
        }
      }
    }
  }

  lemma {:induction false} SplitPrefix(a: string, t: string, sep: char)
    requires sep !in a
    ensures Split(a + t, sep) == [a + Split(t, sep)[0]] + Split(t, sep)[1..]
  {
    var r := Split(t, sep);
    if a != [] {
      var u := a + t;
      assert u[0] == a[0] && u[1..] == a[1..] + t;
      assert a[0] != sep && sep !in a[1..];
      SplitCons(u, sep);
      SplitPrefix(a[1..], t, sep);
      assert [a[0]] + (a[1..] + r[0]) == a + r[0];
    } else {
      assert a + t == t && a + r[0] == r[0];
      assert r == [r[0]] + r[1..];
    }
  }

  /** `Split` on a string whose first character is not the separator. */
  lemma {:induction false} SplitCons(u: string, sep: char)
    requires u != [] && u[0] != sep
    ensures Split(u, sep) == [[u[0]] + Split(u[1..], sep)[0]] + Split(u[1..], sep)[1..]
  {
  }

  /** Splitting a join of pieces that hold no separator gives the pieces back. */
  lemma {:induction false} SplitJoin(parts: seq<string>, sep: char)
    requires |parts| >= 1
    requires forall k :: 0 <= k < |parts| ==> sep !in parts[k]
    ensures Split(Join(parts, sep), sep) == parts
  {
    if |parts| == 1 {
      SplitPrefix(parts[0], [], sep);
      assert parts[0] + [] == parts[0];
    } else {
      var tail := Join(parts[1..], sep);
      SplitJoin(parts[1..], sep);
      assert parts[0] + [sep] + tail == parts[0] + ([sep] + tail);
      SplitPrefix(parts[0], [sep] + tail, sep);
      assert ([sep] + tail)[1..] == tail;
      assert Split([sep] + tail, sep) == [[]] + parts[1..];
      assert parts[0] + [] == parts[0];
    }
  }

  /** The decimal digit character of `d`. */
  function DigitChar(d: nat): (c: char)
    requires d < 10
    ensures IsDigit(c) && c as int - '0' as int == d
  {
    ('0' as int + d) as char
  }

  predicate AllDigits(s: string) {
    forall i :: 0 <= i < |s| ==> IsDigit(s[i])
  }

  /** `String(n)` for a non-negative integer: its decimal digits. */
  function NatToString(n: nat): (r: string)
    ensures |r| >= 1 && AllDigits(r)
    ensures |r| > 1 ==> r[0] != '0'
  {
    if n < 10 then [DigitChar(n)] else NatToString(n / 10) + [DigitChar(n % 10)]
  }

  /** The value of a string of decimal digits. */
  function DigitsValue(s: string): nat
    requires AllDigits(s)
  {
    if s == [] then 0 else DigitsValue(s[..|s| - 1]) * 10 + (s[|s| - 1] as int - '0' as int)
  }

  lemma {:induction false} DigitsValueOfNatToString(n: nat)
    ensures DigitsValue(NatToString(n)) == n
  {
    if n >= 10 {
      var r := NatToString(n);
      DigitsValueOfNatToString(n / 10);
      assert r[..|r| - 1] == NatToString(n / 10);
    }
  }

  /** Distinct numbers print differently. */
  lemma {:induction false} NatToStringInjective(a: nat, b: nat)
    requires NatToString(a) == NatToString(b)
    ensures a == b
  {
    DigitsValueOfNatToString(a);
    DigitsValueOfNatToString(b);
  }

  /** `String(i)` for an integer: a '-' exactly for a negative number, then the decimal
      digits of its magnitude. */
  function IntToString(i: int): (r: string)
    ensures |r| >= 1
    ensures r[0] == '-' <==> i < 0
    ensures var d := if i < 0 then r[1..] else r;
      AllDigits(d) && DigitsValue(d) == (if i < 0 then -i else i)
    ensures (if i < 0 then r[1..] else r) == NatToString(if i < 0 then -i else i)
  {
    if i < 0 then
      var d := NatToString(-i);
      DigitsValueOfNatToString(-i);
      assert ("-" + d)[1..] == d;
      "-" + d
    else
      DigitsValueOfNatToString(i);
      NatToString(i)
  }
}
