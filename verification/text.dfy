/**
 * The string operations of the JavaScript standard library that the
 * application relies on: `trim`, `toLowerCase`, `includes`, `startsWith`,
 * `split`, `join`, and the `replace` calls with a global character class.
 */
module Text {
  import opened Wrappers

  /**
   * JavaScript's WhiteSpace and LineTerminator characters, which `trim` removes:
   * tab through carriage return, space, U+00A0, U+1680, U+2000 through U+200A,
   * U+2028, U+2029, U+202F, U+205F, U+3000 and U+FEFF.
   */
  predicate IsWhitespace(c: char) {
    || ('\t' <= c <= '\r')
    || c == ' '
    || c == '\U{A0}'
    || c == '\U{1680}'
    || ('\U{2000}' <= c <= '\U{200A}')
    || c == '\U{2028}' || c == '\U{2029}'
    || c == '\U{202F}' || c == '\U{205F}'
    || c == '\U{3000}' || c == '\U{FEFF}'
  }

  /** `s.trimStart()`: what is left is a suffix of `s`, and only whitespace was dropped. */
  function TrimStart(s: string): (r: string)
    ensures |r| <= |s| && r == s[|s| - |r|..]
    ensures forall i :: 0 <= i < |s| - |r| ==> IsWhitespace(s[i])
    ensures r == [] || !IsWhitespace(r[0])
  {
    if s != [] && IsWhitespace(s[0]) then
      var r := TrimStart(s[1..]);
      assert forall i :: 1 <= i < |s| - |r| ==> s[i] == s[1..][i - 1];
      assert s[1..][|s| - 1 - |r|..] == s[|s| - |r|..];
      r
    else s
  }

  /** `s.trimEnd()`: what is left is a prefix of `s`, and only whitespace was dropped. */
  function TrimEnd(s: string): (r: string)
    ensures |r| <= |s| && r == s[..|r|]
    ensures forall i :: |r| <= i < |s| ==> IsWhitespace(s[i])
    ensures r == [] || !IsWhitespace(r[|r| - 1])
  {
    if s != [] && IsWhitespace(s[|s| - 1]) then
      var r := TrimEnd(s[..|s| - 1]);
      assert forall i :: |r| <= i < |s| - 1 ==> s[i] == s[..|s| - 1][i];
      assert s[..|s| - 1][..|r|] == s[..|r|];
      r
    else s
  }

  /** `s.trim()`: a slice of `s` with no whitespace at either end. */
  function Trim(s: string): (r: string)
    ensures |r| <= |s|
    ensures r == [] || (!IsWhitespace(r[0]) && !IsWhitespace(r[|r| - 1]))
  {
    TrimEnd(TrimStart(s))
  }

  /** Trimming a string that is already trimmed changes nothing. */
  lemma TrimIdempotent(s: string)
    ensures Trim(Trim(s)) == Trim(s)
  {
    var t := Trim(s);
    assert TrimStart(t) == t;
    assert TrimEnd(t) == t;
  }

  /** `toLowerCase` on one character; only ASCII letters are mapped. */
  function LowerChar(c: char): (r: char)
    ensures !('A' <= r <= 'Z')
    ensures IsWhitespace(r) <==> IsWhitespace(c)
  {
    if 'A' <= c <= 'Z' then (c as int + 32) as char else c
  }

  /** `s.toLowerCase()`, character by character. */
  function ToLower(s: string): (r: string)
    ensures |r| == |s|
    ensures forall i :: 0 <= i < |s| ==> r[i] == LowerChar(s[i])
  {
    seq(|s|, i requires 0 <= i < |s| => LowerChar(s[i]))
  }

  lemma ToLowerIdempotent(s: string)
    ensures ToLower(ToLower(s)) == ToLower(s)
  {
  }

  /** Lower-casing never creates or removes whitespace, so `trim` commutes with it. */
  lemma {:induction false} TrimStartLower(s: string)
    ensures ToLower(TrimStart(s)) == TrimStart(ToLower(s))
    decreases |s|
  {
    if s != [] {
      assert ToLower(s)[0] == LowerChar(s[0]);
      assert ToLower(s)[1..] == ToLower(s[1..]);
      if IsWhitespace(s[0]) {
        TrimStartLower(s[1..]);
      }
    }
  }

  lemma {:induction false} TrimEndLower(s: string)
    ensures ToLower(TrimEnd(s)) == TrimEnd(ToLower(s))
    decreases |s|
  {
    if s != [] {
      assert ToLower(s)[|s| - 1] == LowerChar(s[|s| - 1]);
      assert ToLower(s)[..|s| - 1] == ToLower(s[..|s| - 1]);
      if IsWhitespace(s[|s| - 1]) {
        TrimEndLower(s[..|s| - 1]);
      }
    }
  }

  /** `s.trim().toLowerCase()` and `s.toLowerCase().trim()` agree. */
  lemma LowerTrimCommute(s: string)
    ensures ToLower(Trim(s)) == Trim(ToLower(s))
  {
    TrimEndLower(TrimStart(s));
    TrimStartLower(s);
  }

  /** The normal form of an e-mail address: trimmed and lower-cased. */
  function NormalizeEmail(s: string): string {
    ToLower(Trim(s))
  }

  /** A normalised address is no longer than the original, has no upper-case ASCII letter and no whitespace at either end. */
  lemma NormalizeEmailShape(s: string)
    ensures var r := NormalizeEmail(s);
      && |r| <= |s|
      && (forall i :: 0 <= i < |r| ==> !('A' <= r[i] <= 'Z'))
      && (r == [] || (!IsWhitespace(r[0]) && !IsWhitespace(r[|r| - 1])))
  {
    var t := Trim(s);
    if t != [] {
    }
  }

  /** An address in normal form: no upper-case ASCII letter and no whitespace at either end. */
  predicate IsNormalizedEmail(s: string) {
    && (forall i :: 0 <= i < |s| ==> !('A' <= s[i] <= 'Z'))
    && (s == [] || (!IsWhitespace(s[0]) && !IsWhitespace(s[|s| - 1])))
  }

  /** Normalising an address already in normal form changes nothing. */
  lemma NormalFormUnchanged(s: string)
    requires IsNormalizedEmail(s)
    ensures NormalizeEmail(s) == s
  {
    assert TrimStart(s) == s;
    assert TrimEnd(s) == s;
    assert ToLower(s) == s;
  }

  /** The normal form is exactly what normalising leaves unchanged. */
  lemma NormalizedIsFixpoint(s: string)
    ensures IsNormalizedEmail(s) <==> NormalizeEmail(s) == s
  {
    if IsNormalizedEmail(s) {
      NormalFormUnchanged(s);
    } else if NormalizeEmail(s) == s {
      NormalizeEmailShape(s);
    }
  }

  /** Normalising yields the normal form, normalising twice is normalising once, and the two steps commute. */
  lemma NormalizeEmailIdempotent(s: string)
    ensures IsNormalizedEmail(NormalizeEmail(s))
    ensures NormalizeEmail(NormalizeEmail(s)) == NormalizeEmail(s)
    ensures NormalizeEmail(s) == Trim(ToLower(s))
  {
    NormalizeEmailShape(s);
    LowerTrimCommute(s);
    NormalizedIsFixpoint(NormalizeEmail(s));
  }

  /** Normalising yields the normal form. */
  lemma NormalizeEmailIsNormal(s: string)
    ensures IsNormalizedEmail(NormalizeEmail(s))
  {
    NormalizeEmailShape(s);
  }

  /** `s.startsWith(prefix)`. */
  predicate StartsWith(s: string, prefix: string) {
    |prefix| <= |s| && s[..|prefix|] == prefix
  }

  /** `sub` occurs in `s` starting at index `i`. */
  predicate OccursAt(s: string, sub: string, i: int) {
    0 <= i <= |s| - |sub| && s[i..i + |sub|] == sub
  }

  /** `s.includes(sub)`. */
  predicate Contains(s: string, sub: string) {
    exists i | 0 <= i <= |s| - |sub| :: OccursAt(s, sub, i)
  }

  /** `s.split(sep)` for a one-character separator. */
  function Split(s: string, sep: char): (r: seq<string>)
    ensures |r| >= 1
    decreases |s|
  {
    if s == [] then [""]
    else
      var rest := Split(s[1..], sep);
      if s[0] == sep then [""] + rest else [[s[0]] + rest[0]] + rest[1..]
  }

  /** A piece without separators is split off intact in front of the rest. */
  lemma {:induction false} SplitPrefix(p: string, s: string, sep: char)
    requires sep !in p
    ensures Split(p + s, sep) == [p + Split(s, sep)[0]] + Split(s, sep)[1..]
    decreases |p|
  {
    if p != [] {
      var rest := Split((p + s)[1..], sep);
      assert (p + s)[1..] == p[1..] + s;
      SplitPrefix(p[1..], s, sep);
      assert rest == [p[1..] + Split(s, sep)[0]] + Split(s, sep)[1..];
      assert rest[0] == p[1..] + Split(s, sep)[0];
      assert rest[1..] == Split(s, sep)[1..];
      assert (p + s)[0] == p[0] && p[0] != sep;
      assert Split(p + s, sep) == [[p[0]] + rest[0]] + rest[1..];
      assert [p[0]] + (p[1..] + Split(s, sep)[0]) == p + Split(s, sep)[0];
    } else {
      var r := Split(s, sep);
      assert p + s == s && p + r[0] == r[0];
      assert [r[0]] + r[1..] == r;
    }
  }

  /** `s.split(sep)` yields `s` alone when `sep` does not occur in it. */
  lemma SplitWithoutSeparator(s: string, sep: char)
    requires sep !in s
    ensures Split(s, sep) == [s]
  {
    SplitPrefix(s, "", sep);
    assert s + "" == s;
  }

  /** `parts.join(sep)`. */
  function Join(parts: seq<string>, sep: string): (r: string)
    ensures parts == [] ==> r == ""
    ensures |parts| == 1 ==> r == parts[0]
  {
    if parts == [] then ""
    else if |parts| == 1 then parts[0]
    else parts[0] + sep + Join(parts[1..], sep)
  }

  /** `s.replace(/x/g, y)` for single characters: every `from` becomes `to`. */
  function ReplaceChar(s: string, from: char, to: char): (r: string)
    ensures |r| == |s|
    ensures forall i :: 0 <= i < |s| ==> r[i] == (if s[i] == from then to else s[i])
  {
    seq(|s|, i requires 0 <= i < |s| => if s[i] == from then to else s[i])
  }

  /** The characters of `s` that satisfy `keep`, in order (`s.replace(/[^...]/g, "")`). */
  function Keep(s: string, keep: char -> bool): (r: string)
    ensures |r| <= |s|
    ensures forall i :: 0 <= i < |r| ==> keep(r[i])
  {
    if s == [] then ""
    else if keep(s[0]) then [s[0]] + Keep(s[1..], keep) else Keep(s[1..], keep)
  }

  /** Every passing character is kept as often as it occurs, every other one never. */
  lemma {:induction false} KeepCounts(s: string, keep: char -> bool)
    ensures forall c :: multiset(Keep(s, keep))[c] == if keep(c) then multiset(s)[c] else 0
    decreases |s|
  {
    if s != [] {
      assert s == [s[0]] + s[1..];
      KeepCounts(s[1..], keep);
    }
  }

  /**
   * Filtering distributes over concatenation: the kept characters of `a + b`
   * are those of `a` followed by those of `b`, so the order is preserved.
   * With `KeepSingle` this determines `Keep` completely.
   */
  lemma {:induction false} KeepConcat(a: string, b: string, keep: char -> bool)
    ensures Keep(a + b, keep) == Keep(a, keep) + Keep(b, keep)
    decreases |a|
  {
    if a == [] {
      assert a + b == b;
    } else {
      var ab := a + b;
      assert ab[0] == a[0] && ab[1..] == a[1..] + b;
      KeepConcat(a[1..], b, keep);
      if keep(a[0]) {
        calc {
          Keep(ab, keep);
          [a[0]] + Keep(a[1..] + b, keep);
          [a[0]] + (Keep(a[1..], keep) + Keep(b, keep));
          ([a[0]] + Keep(a[1..], keep)) + Keep(b, keep);
          Keep(a, keep) + Keep(b, keep);
        }
      } else {
        calc {
          Keep(ab, keep);
          Keep(a[1..] + b, keep);
          Keep(a, keep) + Keep(b, keep);
        }
      }
    }
  }

  /** One character is kept exactly when it passes. */
  lemma KeepSingle(c: char, keep: char -> bool)
    ensures Keep([c], keep) == if keep(c) then [c] else []
  {
    assert [c][1..] == [];
  }

  /** A string whose every character passes is kept whole. */
  lemma {:induction false} KeepAll(s: string, keep: char -> bool)
    requires forall i :: 0 <= i < |s| ==> keep(s[i])
    ensures Keep(s, keep) == s
    decreases |s|
  {
    if s != [] {
      var rest := s[1..];
      assert forall i :: 0 <= i < |rest| ==> rest[i] == s[i + 1];
      KeepAll(rest, keep);
      assert keep(s[0]);
      assert s == [s[0]] + rest;
    }
  }

  /** A string that JavaScript treats as true: present and not empty. */
  predicate Truthy(v: Option<string>) {
    v.Some? && v.value != ""
  }

  /** JavaScript's `v || fallback` for a string that may be absent or empty. */
  function OrElse(v: Option<string>, fallback: string): (r: string)
    ensures v.Some? && v.value != "" ==> r == v.value
    ensures v.None? || v.value == "" ==> r == fallback
  {
    if v.Some? && v.value != "" then v.value else fallback
  }
}
