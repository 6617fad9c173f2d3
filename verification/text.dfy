/**
 * The few string operations of JavaScript the core relies on: `String.prototype.trim`
 * (and the `\s` / `\S` regular-expression classes, which use the same character set),
 * `String.prototype.split` on a one-character separator, ASCII case folding for a
 * case-insensitive regular expression, and the `<` order on strings.
 */
module Text {

  /**
   * ECMAScript WhiteSpace and LineTerminator code points: what `trim` strips and what `\s`
   * matches (the Zs category is listed as of Unicode 15).
   */
  predicate IsSpace(c: char) {
    var n := c as int;
    (0x09 <= n <= 0x0D) || n == 0x20 || n == 0xA0 || n == 0x1680
    || (0x2000 <= n <= 0x200A) || n == 0x2028 || n == 0x2029
    || n == 0x202F || n == 0x205F || n == 0x3000 || n == 0xFEFF
  }

  /** Every character is white space (so `s.trim()` is empty and `!s.trim()` holds). */
  predicate Blank(s: string) {
    forall i :: 0 <= i < |s| ==> IsSpace(s[i])
  }

  /** No character is white space: the string is matched by `\S*`. */
  predicate NoSpace(s: string) {
    forall i :: 0 <= i < |s| ==> !IsSpace(s[i])
  }

  /** `s` with its leading white space removed. */
  function TrimStart(s: string): (r: string)
    ensures |r| <= |s| && r == s[|s| - |r|..]
    ensures Blank(s[..|s| - |r|])
    ensures r != [] ==> !IsSpace(r[0])
  {
    if s != [] && IsSpace(s[0]) then
      var r := TrimStart(s[1..]);
      assert s[1..][..|s| - 1 - |r|] == s[1..|s| - |r|];
      r
    else s
  }

  /** `s` with its trailing white space removed. */
  function TrimEnd(s: string): (r: string)
    ensures |r| <= |s| && r == s[..|r|]
    ensures Blank(s[|r|..])
    ensures r != [] ==> !IsSpace(r[|r| - 1])
  {
    if s != [] && IsSpace(s[|s| - 1]) then
      var r := TrimEnd(s[..|s| - 1]);
      BlankThenSpace(s, |r|);
      r
    else s
  }

  /** White space from `k` to the last character, followed by a last white-space character. */
  lemma BlankThenSpace(s: string, k: nat)
    requires s != [] && k <= |s| - 1 && IsSpace(s[|s| - 1]) && Blank(s[..|s| - 1][k..])
    ensures s[..|s| - 1][..k] == s[..k]
    ensures Blank(s[k..])
  {
    assert s[k..] == s[..|s| - 1][k..] + [s[|s| - 1]];
  }

  /** `s[i..j]` is what is left of `s` once white space is taken off both ends. */
  predicate BetweenBlanks(s: string, i: nat, j: nat) {
    i <= j <= |s| && Blank(s[..i]) && Blank(s[j..])
  }

  /**
   * `s.trim()`: the slice of `s` left when the white space before and after it is removed;
   * it neither starts nor ends with white space.
   */
  function Trim(s: string): (r: string)
    ensures exists i: nat, j: nat {:trigger BetweenBlanks(s, i, j)} ::
              BetweenBlanks(s, i, j) && r == s[i..j]
    ensures r != [] ==> !IsSpace(r[0]) && !IsSpace(r[|r| - 1])
  {
    var t := TrimStart(s);
    var r := TrimEnd(t);
    SliceBetweenBlanks(s, t, r);
    r
  }

  /**
   * A prefix `r` of a suffix `t` of `s`, where what `t` leaves before it and what `r`
   * leaves after it are white space, is a slice of `s` between blanks.
   */
  lemma SliceBetweenBlanks(s: string, t: string, r: string)
    requires |t| <= |s| && t == s[|s| - |t|..] && Blank(s[..|s| - |t|])
    requires |r| <= |t| && r == t[..|r|] && Blank(t[|r|..])
    ensures BetweenBlanks(s, |s| - |t|, |s| - |t| + |r|)
    ensures r == s[|s| - |t|..|s| - |t| + |r|]
  {
    assert t[|r|..] == s[|s| - |t| + |r|..];
  }

  /** A string trims to the empty string exactly when it consists of white space only. */
  lemma TrimEmptyIffBlank(s: string)
    ensures Trim(s) == "" <==> Blank(s)
  {
    var t := TrimStart(s);
    if Trim(s) == "" {
      assert t[|TrimEnd(t)|..] == t;
      assert t == [];
      assert s[..|s|] == s;
    }
    if Blank(s) {
      TrimStartOfBlank(s);
    }
  }

  /** Trimming the start of a blank string leaves nothing. */
  lemma {:induction false} TrimStartOfBlank(s: string)
    requires Blank(s)
    ensures TrimStart(s) == ""
  {
    if s != [] {
      TrimStartOfBlank(s[1..]);
    }
  }

  /** Number of occurrences of `c` in `s`. */
  function Count(s: string, c: char): (n: nat)
    ensures n <= |s|
    ensures n == 0 <==> c !in s
  {
    if s == [] then 0
    else (if s[0] == c then 1 else 0) + Count(s[1..], c)
  }

  /** Occurrences add up over a concatenation. */
  lemma {:induction false} CountConcat(a: string, b: string, c: char)
    ensures Count(a + b, c) == Count(a, c) + Count(b, c)
  {
    if a != [] {
      CountConcat(a[1..], b, c);
      assert (a + b)[0] == a[0] && (a + b)[1..] == a[1..] + b;
    } else {
      assert a + b == b;
    }
  }

  /**
   * `s.split(sep)` for a one-character separator: the pieces between separators, including
   * empty ones (`"".split(" ")` is `[""]`, `"a  b".split(" ")` is `["a", "", "b"]`).
   */
  function Split(s: string, sep: char): (parts: seq<string>)
    ensures |parts| >= 1
    ensures forall k :: 0 <= k < |parts| ==> sep !in parts[k]
  {
    if s == [] then [""]
    else
      var rest := Split(s[1..], sep);
      if s[0] == sep then [""] + rest
      else [[s[0]] + rest[0]] + rest[1..]
  }

  /** Joins pieces with a separator: `parts.join(sep)`. */
  function Join(parts: seq<string>, sep: char): string
    requires |parts| >= 1
  {
    if |parts| == 1 then parts[0]
    else parts[0] + [sep] + Join(parts[1..], sep)
  }

  /** Splitting loses nothing: joining the pieces gives back the string. */
  lemma {:induction false} SplitJoin(s: string, sep: char)
    ensures Join(Split(s, sep), sep) == s
  {
    if s != [] {
      SplitJoin(s[1..], sep);
      var rest := Split(s[1..], sep);
      if s[0] != sep && |rest| > 1 {
        assert ([[s[0]] + rest[0]] + rest[1..])[1..] == rest[1..];
      }
    }
  }

  /** There is one more piece than there are separators. */
  lemma {:induction false} SplitCount(s: string, sep: char)
    ensures |Split(s, sep)| == Count(s, sep) + 1
  {
    if s != [] {
      SplitCount(s[1..], sep);
    }
  }

  /**
   * With exactly one separator, at position `k`, the two pieces are the text before it and
   * the text after it.
   */
  lemma {:induction false} SplitAtSoleSeparator(s: string, sep: char, k: nat)
    requires k < |s| && s[k] == sep && Count(s, sep) == 1
    ensures Split(s, sep) == [s[..k], s[k + 1..]]
  {
    if k == 0 {
      assert sep !in s[1..];
      SplitWithoutSeparator(s[1..], sep);
    } else {
      assert s[0] != sep;
      SplitAtSoleSeparator(s[1..], sep, k - 1);
      assert [s[0]] + s[1..][..k - 1] == s[..k];
      assert s[1..][k..] == s[k + 1..];
    }
  }

  /** Without a separator, the string is its own single piece. */
  lemma {:induction false} SplitWithoutSeparator(s: string, sep: char)
    requires sep !in s
    ensures Split(s, sep) == [s]
  {
    if s != [] {
      assert sep !in s[1..];
      SplitWithoutSeparator(s[1..], sep);
      assert [s[0]] + s[1..] == s;
    }
  }

  /**
   * ASCII upper case: the result is never a lower-case ASCII letter, and a character is
   * ASCII exactly when its upper case is, so no other character folds onto an ASCII one.
   */
  function AsciiUpper(c: char): (u: char)
    ensures !('a' <= u <= 'z')
    ensures c as int < 128 <==> u as int < 128
    ensures c as int >= 128 ==> u == c
    ensures 'a' <= c <= 'z' ==> u as int == c as int - 32
    ensures !('a' <= c <= 'z') ==> u == c
  {
    if 'a' <= c <= 'z' then (c as int - 32) as char else c
  }

  /** Upper-casing twice is upper-casing once. */
  lemma AsciiUpperIdempotent(c: char)
    ensures AsciiUpper(AsciiUpper(c)) == AsciiUpper(c)
  {
  }

  /**
   * Equality up to case, as a non-unicode `i` regular expression decides it against an
   * all-ASCII pattern: both sides are upper-cased, and a non-ASCII character never folds
   * onto an ASCII one.
   */
  predicate EqualsIgnoringCase(s: string, t: string) {
    |s| == |t| && forall i :: 0 <= i < |s| ==> AsciiUpper(s[i]) == AsciiUpper(t[i])
  }

  /**
   * The `<=` order of JavaScript strings: lexicographic by character, a proper prefix
   * first. (JavaScript compares UTF-16 code units; for characters of the Basic
   * Multilingual Plane that is the same order.)
   */
  predicate Below(a: string, b: string) {
    a == [] || (b != [] && (a[0] < b[0] || (a[0] == b[0] && Below(a[1..], b[1..]))))
  }

  /** `a < b` on strings. */
  predicate Less(a: string, b: string) {
    !Below(b, a)
  }

  /** Any two strings are comparable. */
  lemma {:induction false} BelowTotal(a: string, b: string)
    ensures Below(a, b) || Below(b, a)
  {
    if a != [] && b != [] && a[0] == b[0] {
      BelowTotal(a[1..], b[1..]);
    }
  }

  /** The string order is transitive. */
  lemma {:induction false} BelowTransitive(a: string, b: string, c: string)
    requires Below(a, b) && Below(b, c)
    ensures Below(a, c)
  {
    if a != [] && b != [] && c != [] && a[0] == b[0] && b[0] == c[0] {
      BelowTransitive(a[1..], b[1..], c[1..]);
    }
  }

  /** The string order is antisymmetric, so `Less` is strict. */
  lemma {:induction false} BelowAntisymmetric(a: string, b: string)
    requires Below(a, b) && Below(b, a)
    ensures a == b
  {
    if a != [] && b != [] {
      BelowAntisymmetric(a[1..], b[1..]);
      assert a == [a[0]] + a[1..];
      assert b == [b[0]] + b[1..];
    }
  }
}
