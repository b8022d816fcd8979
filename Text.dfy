/**
 The string primitives the persona parser and the quiz summary rely on, each
 written out with the meaning Python gives it: `str.strip()`, `str.lstrip(chars)`,
 `str.startswith`, `str.split(sep)`, `str.split(':', 1)[1]`, `sep.join(parts)`
 and the decimal rendering of an `int` inside an f-string.
 Strings are sequences of Unicode scalar values (`seq<char>`).
 */
module Text {

  /** The characters for which Python's `str.isspace()` holds; `str.strip()` with no
      argument removes exactly these: tab to carriage return, the four information
      separators U+001C..U+001F, space, U+0085, U+00A0, U+1680, U+2000..U+200A, U+2028,
      U+2029, U+202F, U+205F and U+3000. */
  predicate IsSpace(c: char) {
    c == ' ' || '\t' <= c <= '\r' || '\U{001C}' <= c <= '\U{001F}' ||
    c == '\U{0085}' || c == '\U{00A0}' || c == '\U{1680}' || '\U{2000}' <= c <= '\U{200A}' ||
    c == '\U{2028}' || c == '\U{2029}' || c == '\U{202F}' || c == '\U{205F}' || c == '\U{3000}'
  }

  /** Every character of `s` belongs to `chars`. */
  predicate AllIn(s: string, chars: set<char>) {
    forall k :: 0 <= k < |s| ==> s[k] in chars
  }

  /** A string that is empty once stripped: only whitespace, or nothing at all. */
  predicate IsBlank(s: string) {
    forall k :: 0 <= k < |s| ==> IsSpace(s[k])
  }

  /** `s.lstrip(chars)`: the longest suffix of `s` that does not start with a character of `chars`. */
  function TrimStart(s: string, chars: set<char>): (r: string)
    ensures |r| <= |s| && r == s[|s| - |r|..]
    ensures AllIn(s[..|s| - |r|], chars)
    ensures r == [] || r[0] !in chars
  {
    if s != [] && s[0] in chars then
      var r := TrimStart(s[1..], chars);
      assert s[1..][..|s| - 1 - |r|] == s[1..|s| - |r|];
      r
    else
      s
  }

  /** `s.lstrip()`: `s` without its leading whitespace. */
  function StripStart(s: string): (r: string)
    ensures |r| <= |s| && r == s[|s| - |r|..]
    ensures IsBlank(s[..|s| - |r|])
    ensures r == [] || !IsSpace(r[0])
  {
    if s != [] && IsSpace(s[0]) then
      var r := StripStart(s[1..]);
      assert s[1..][..|s| - 1 - |r|] == s[1..|s| - |r|];
      r
    else
      s
  }

  /** `s.rstrip()`: `s` without its trailing whitespace. */
  function StripEnd(s: string): (r: string)
    ensures |r| <= |s| && r == s[..|r|]
    ensures IsBlank(s[|r|..])
    ensures r == [] || !IsSpace(r[|r| - 1])
  {
    if s != [] && IsSpace(s[|s| - 1]) then
      var r := StripEnd(s[..|s| - 1]);
      assert s[..|s| - 1][|r|..] == s[|r|..|s| - 1];
      r
    else
      s
  }

  /** `s.strip()`: `s` without its leading and trailing whitespace. */
  function Strip(s: string): (r: string)
    ensures |r| <= |s|
    ensures IsStripped(r)
  {
    StripEnd(StripStart(s))
  }

  /** `strip()` leaves nothing exactly when `s` is blank. */
  lemma StripBlank(s: string)
    ensures Strip(s) == [] <==> IsBlank(s)
  {
    var t := StripStart(s);
    var r := StripEnd(t);
    assert r == [] ==> IsBlank(s) by {
      if r == [] {
        assert t == [] by {
          assert t == t[|r|..];
        }
        forall k | 0 <= k < |s| ensures IsSpace(s[k]) {
          assert s[k] == s[..|s| - |t|][k];
        }
      }
    }
    assert IsBlank(s) ==> t == [];
  }

  /** A string with nothing for `strip()` to remove. */
  predicate IsStripped(s: string) {
    s == [] || (!IsSpace(s[0]) && !IsSpace(s[|s| - 1]))
  }

  lemma StripOfStripped(s: string)
    requires IsStripped(s)
    ensures Strip(s) == s
  {
  }

  /** Stripping twice is stripping once. */
  lemma StripIdempotent(s: string)
    ensures Strip(Strip(s)) == Strip(s)
  {
    StripOfStripped(Strip(s));
  }

  /** `r` is what remains of `s` when a whitespace-only prefix of length `i` and a
      whitespace-only suffix are cut off, and `r` itself neither starts nor ends with
      whitespace, so neither cut could be longer. */
  predicate IsMiddle(s: string, r: string, i: nat) {
    i + |r| <= |s| && r == s[i..i + |r|] &&
    IsBlank(s[..i]) && IsBlank(s[i + |r|..]) && IsStripped(r)
  }

  /** `strip()` keeps exactly the middle of `s`: it cuts the leading whitespace that
      `lstrip()` cuts and the trailing whitespace after it. */
  lemma StripContent(s: string)
    ensures IsMiddle(s, Strip(s), |s| - |StripStart(s)|)
  {
    var t := StripStart(s);
    var r := StripEnd(t);
    assert Strip(s) == r && IsStripped(r);
    MiddleOf(s, t, r);
  }

  /** A prefix `r` of a suffix `t` of `s`, with whitespace around it, is a middle of `s`. */
  lemma MiddleOf(s: string, t: string, r: string)
    requires |t| <= |s| && t == s[|s| - |t|..] && IsBlank(s[..|s| - |t|])
    requires |r| <= |t| && r == t[..|r|] && IsBlank(t[|r|..]) && IsStripped(r)
    ensures IsMiddle(s, r, |s| - |t|)
  {
    var i := |s| - |t|;
    assert s[i + |r|..] == t[|r|..];
  }

  /** `s.startswith(p)`. */
  predicate StartsWith(s: string, p: string) {
    |p| <= |s| && s[..|p|] == p
  }

  /** `s.startswith(tuple(ps))`: `s` starts with at least one of the prefixes. */
  predicate StartsWithAny(s: string, ps: seq<string>) {
    exists p :: p in ps && StartsWith(s, p)
  }

  /** `s` starts with `p` exactly when `s` is `p` followed by some rest. */
  lemma StartsWithConcat(s: string, p: string)
    ensures StartsWith(s, p) <==> exists rest :: s == p + rest
  {
    if StartsWith(s, p) {
      assert s == p + s[|p|..];
    }
    forall rest | s == p + rest ensures StartsWith(s, p) {
      assert s[..|p|] == p;
    }
  }

  /** A tuple of prefixes is tried one prefix after the other: no prefix never matches,
      and otherwise `s` matches when it starts with the first or with one of the rest. */
  lemma StartsWithAnyCases(s: string, ps: seq<string>)
    ensures ps == [] ==> !StartsWithAny(s, ps)
    ensures ps != [] ==> (StartsWithAny(s, ps) <==> StartsWith(s, ps[0]) || StartsWithAny(s, ps[1..]))
  {
    if ps != [] {
      if StartsWithAny(s, ps) {
        var p :| p in ps && StartsWith(s, p);
        if p != ps[0] {
          var k :| 0 <= k < |ps| && ps[k] == p;
          assert ps[1..][k - 1] == p;
        }
      }
      if StartsWithAny(s, ps[1..]) {
        var p :| p in ps[1..] && StartsWith(s, p);
        assert p in ps;
      }
      assert StartsWith(s, ps[0]) ==> ps[0] in ps;
    }
  }

  /** When every prefix in `ps` differs from `s` at position `j`, `s` starts with none of them. */
  lemma CharRulesOut(s: string, ps: seq<string>, j: nat)
    requires j < |s|
    requires forall k :: 0 <= k < |ps| ==> j < |ps[k]| && ps[k][j] != s[j]
    ensures !StartsWithAny(s, ps)
  {
    forall p | p in ps ensures !StartsWith(s, p) {
      var k :| 0 <= k < |ps| && ps[k] == p;
      if |p| <= |s| {
        assert s[..|p|][j] == s[j];
      }
    }
  }

  /** `s.split(c, 1)[1]`: everything after the first occurrence of `c`. Python raises
      an IndexError when `c` does not occur, so the caller must know that it does. */
  function AfterFirst(s: string, c: char): (r: string)
    requires c in s
    ensures |r| < |s| && r == s[|s| - |r|..]
    ensures s[|s| - |r| - 1] == c && c !in s[..|s| - |r| - 1]
  {
    if s[0] == c then s[1..]
    else
      var r := AfterFirst(s[1..], c);
      assert s[..|s| - |r| - 1] == [s[0]] + s[1..][..|s| - 1 - |r| - 1];
      r
  }

  /** `p` ends with a colon and has no other colon, as every header the parser knows does. */
  predicate ColonOnlyAtEnd(p: string) {
    p != [] && p[|p| - 1] == ':' && forall k :: 0 <= k < |p| - 1 ==> p[k] != ':'
  }

  /** When `s` starts with a prefix `p` whose only colon is its last character, the text
      after the first colon is the text after `p`. */
  lemma AfterHeader(s: string, p: string)
    requires ColonOnlyAtEnd(p) && StartsWith(s, p)
    ensures ':' in s
    ensures AfterFirst(s, ':') == s[|p|..]
  {
    assert s[|p| - 1] == p[|p| - 1];
    var r := AfterFirst(s, ':');
    var i := |s| - |r| - 1;
    forall j | 0 <= j < i ensures s[j] != ':' {
      assert s[j] == s[..i][j];
    }
    forall j | 0 <= j < |p| - 1 ensures s[j] != ':' {
      assert s[j] == s[..|p|][j];
    }
  }

  /** Concatenation is associative. */
  lemma ConcatAssoc<T>(a: seq<T>, b: seq<T>, c: seq<T>)
    ensures a + (b + c) == a + b + c
  {
  }

  /** `sep.join(parts)`; the empty list joins to the empty string. */
  function Join(parts: seq<string>, sep: string): string
  {
    if parts == [] then []
    else if |parts| == 1 then parts[0]
    else parts[0] + sep + Join(parts[1..], sep)
  }

  /** Joining one more part adds the separator and that part at the end. */
  lemma {:induction false} JoinSnoc(parts: seq<string>, p: string, sep: string)
    requires parts != []
    ensures Join(parts + [p], sep) == Join(parts, sep) + sep + p
  {
    if |parts| > 1 {
      assert (parts + [p])[1..] == parts[1..] + [p];
      JoinSnoc(parts[1..], p, sep);
    }
  }

  /** `s.split(sep)` for a one-character separator: the pieces of `s` between the
      occurrences of `sep`, in order. There is always at least one piece, no piece
      contains `sep`, and joining the pieces back with `sep` gives `s`. */
  function Split(s: string, sep: char): (r: seq<string>)
    ensures |r| >= 1
    ensures forall k :: 0 <= k < |r| ==> sep !in r[k]
    ensures Join(r, [sep]) == s
  {
    if s == [] then [[]]
    else
      var rest := Split(s[1..], sep);
      if s[0] == sep then
        assert Join([[]] + rest, [sep]) == [sep] + Join(rest, [sep]) by {
          assert ([[]] + rest)[1..] == rest;
        }
        [[]] + rest
      else
        var r := [[s[0]] + rest[0]] + rest[1..];
        assert Join(r, [sep]) == [s[0]] + Join(rest, [sep]) by {
          if |rest| > 1 {
            assert r[1..] == rest[1..];
          }
        }
        assert s == [s[0]] + s[1..];
        r
  }

  /** Splitting what was joined gives back the pieces, as long as no piece contains the
      separator. */
  lemma {:induction false} SplitJoin(parts: seq<string>, sep: char)
    requires |parts| >= 1
    requires forall k :: 0 <= k < |parts| ==> sep !in parts[k]
    ensures Split(Join(parts, [sep]), sep) == parts
  {
    if |parts| == 1 {
      SplitNoSeparator(parts[0], sep);
    } else {
      SplitJoin(parts[1..], sep);
      SplitConcat(parts[0], Join(parts[1..], [sep]), sep);
      assert parts == [parts[0]] + parts[1..];
    }
  }

  /** A string without the separator is one piece. */
  lemma {:induction false} SplitNoSeparator(s: string, sep: char)
    requires sep !in s
    ensures Split(s, sep) == [s]
  {
    if s != [] {
      SplitNoSeparator(s[1..], sep);
      assert s == [s[0]] + s[1..];
    }
  }

  /** Splitting `a + sep + b`, where `a` holds no separator, gives `a` followed by the
      pieces of `b`. */
  lemma {:induction false} SplitConcat(a: string, b: string, sep: char)
    requires sep !in a
    ensures Split(a + [sep] + b, sep) == [a] + Split(b, sep)
  {
    var s := a + [sep] + b;
    if a == [] {
      assert s[1..] == b;
    } else {
      assert s[1..] == a[1..] + [sep] + b;
      SplitConcat(a[1..], b, sep);
      assert [a[0]] + a[1..] == a;
    }
  }

  /** The decimal digits of a natural number, most significant first, without
      leading zeros (`str(n)` in Python for `n >= 0`). */
  function NatToDecimal(n: nat): (r: string)
    ensures r != [] && (forall k :: 0 <= k < |r| ==> '0' <= r[k] <= '9')
    ensures r[0] == '0' ==> n == 0 && r == "0"
    ensures DecimalValue(r) == n
  {
    var d := Digit(n % 10);
    if n < 10 then [d]
    else
      var prefix := NatToDecimal(n / 10);
      assert (prefix + [d])[..|prefix|] == prefix;
      prefix + [d]
  }

  function Digit(d: nat): (c: char)
    requires d < 10
    ensures '0' <= c <= '9' && c as int - '0' as int == d
  {
    ('0' as int + d) as char
  }

  /** The number a string of decimal digits denotes: the reading that inverts
      `NatToDecimal`. */
  function DecimalValue(s: string): nat
    requires forall k :: 0 <= k < |s| ==> '0' <= s[k] <= '9'
  {
    if s == [] then 0
    else DecimalValue(s[..|s| - 1]) * 10 + (s[|s| - 1] as int - '0' as int)
  }

  /** `str(n)` for any Python `int`: a minus sign before the digits of a negative number. */
  function IntToDecimal(n: int): (r: string)
    ensures r != [] && (if n < 0 then r[0] == '-' else '0' <= r[0] <= '9')
    ensures forall k :: 0 < k < |r| ==> '0' <= r[k] <= '9'
    // After the sign, the magnitude in canonical form: digits with no leading zero.
    ensures var m := r[if n < 0 then 1 else 0..];
      m != [] && (m[0] == '0' ==> m == "0") &&
      (forall k :: 0 <= k < |m| ==> '0' <= m[k] <= '9') &&
      DecimalValue(m) == (if n < 0 then -n else n)
  {
    if n < 0 then "-" + NatToDecimal(-n) else NatToDecimal(n)
  }
}
