/** Character classes and string operations shared by the codecs and builders:
    the ECMAScript regular-expression classes `\w` and `\s`, `String.prototype.trim`,
    ASCII case mapping, `includes`, `startsWith` and a code-point order on strings. */
module Strings {

  predicate IsAsciiUpper(c: char) { 'A' <= c <= 'Z' }
  predicate IsAsciiLower(c: char) { 'a' <= c <= 'z' }
  predicate IsDigit(c: char) { '0' <= c <= '9' }
  predicate IsAsciiAlnum(c: char) { IsAsciiUpper(c) || IsAsciiLower(c) || IsDigit(c) }

  /** `\w` in a regular expression without the `u` flag: `[A-Za-z0-9_]`. */
  predicate IsWordChar(c: char) { IsAsciiAlnum(c) || c == '_' }

  /** `\s`, and the characters `trim` removes: the WhiteSpace and LineTerminator
      code points of ECMAScript (tab, vertical tab, form feed, the Zs space
      separators, the byte order mark, line feed, carriage return, U+2028, U+2029). */
  predicate IsSpace(c: char)
  {
    || ('\t' <= c <= '\r') || c == ' '
    || ('\U{A0}' <= c && IsWideSpace(c))
  }

  /** The whitespace code points from U+00A0 up. */
  predicate IsWideSpace(c: char)
  {
    || c == '\U{A0}' || c == '\U{1680}'
    || ('\U{2000}' <= c <= '\U{200A}')
    || c == '\U{2028}' || c == '\U{2029}' || c == '\U{202F}' || c == '\U{205F}'
    || c == '\U{3000}' || c == '\U{FEFF}'
  }

  lemma WordCharIsNotSpace(c: char)
    ensures IsWordChar(c) ==> !IsSpace(c)
    ensures c == '-' ==> !IsSpace(c)
  {
  }

  /** ASCII case mapping of one character. */
  function LowerChar(c: char): (r: char)
    ensures !IsAsciiUpper(r)
    ensures IsAsciiUpper(c) ==> IsAsciiLower(r)
    ensures !IsAsciiUpper(c) ==> r == c
  {
    if IsAsciiUpper(c) then (c as int + 32) as char else c
  }

  function UpperChar(c: char): (r: char)
    ensures !IsAsciiLower(r)
    ensures IsAsciiLower(c) ==> IsAsciiUpper(r)
    ensures !IsAsciiLower(c) ==> r == c
  {
    if IsAsciiLower(c) then (c as int - 32) as char else c
  }

  /** `toLowerCase`, restricted to the ASCII case mapping. */
  function ToLower(s: string): (r: string)
    ensures |r| == |s|
    ensures forall i :: 0 <= i < |s| ==> r[i] == LowerChar(s[i])
  {
    seq(|s|, i requires 0 <= i < |s| => LowerChar(s[i]))
  }

  predicate HasNoUpper(s: string) { forall i :: 0 <= i < |s| ==> !IsAsciiUpper(s[i]) }

  lemma ToLowerHasNoUpper(s: string)
    ensures HasNoUpper(ToLower(s))
  {
  }

  lemma ToLowerOfLower(s: string)
    requires HasNoUpper(s)
    ensures ToLower(s) == s
  {
  }

  lemma ToLowerConcat(a: string, b: string)
    ensures ToLower(a + b) == ToLower(a) + ToLower(b)
  {
  }

  /** The index of the first character at or after `i` that is not whitespace. */
  function SkipSpaces(s: string, i: nat): (j: nat)
    requires i <= |s|
    ensures i <= j <= |s|
    ensures forall k :: i <= k < j ==> IsSpace(s[k])
    ensures j < |s| ==> !IsSpace(s[j])
    decreases |s| - i
  {
    if i < |s| && IsSpace(s[i]) then SkipSpaces(s, i + 1) else i
  }

  /** The index just past the last character before `j`, and not before `lo`,
      that is not whitespace. */
  function SkipSpacesBack(s: string, lo: nat, j: nat): (e: nat)
    requires lo <= j <= |s|
    ensures lo <= e <= j
    ensures forall k :: e <= k < j ==> IsSpace(s[k])
    ensures e > lo ==> !IsSpace(s[e - 1])
    decreases j
  {
    if j > lo && IsSpace(s[j - 1]) then SkipSpacesBack(s, lo, j - 1) else j
  }

  /** Where the text that `trim` keeps begins. */
  function TrimLead(s: string): (n: nat)
    ensures n <= |s|
  {
    SkipSpaces(s, 0)
  }

  /** `String.prototype.trim`: `s` without its leading and trailing whitespace. */
  function Trim(s: string): (r: string)
    ensures TrimLead(s) + |r| <= |s|
    ensures forall i :: 0 <= i < |r| ==> r[i] == s[TrimLead(s) + i]
    ensures forall i :: 0 <= i < TrimLead(s) ==> IsSpace(s[i])
    ensures forall i :: TrimLead(s) + |r| <= i < |s| ==> IsSpace(s[i])
    ensures r != [] ==> !IsSpace(r[0]) && !IsSpace(r[|r| - 1])
  {
    s[TrimLead(s)..SkipSpacesBack(s, TrimLead(s), |s|)]
  }

  predicate HasNoEdgeSpace(s: string)
  {
    s != [] ==> !IsSpace(s[0]) && !IsSpace(s[|s| - 1])
  }

  /** Trimming a string with no whitespace at either end changes nothing. */
  lemma TrimOfTrimmed(s: string)
    requires HasNoEdgeSpace(s)
    ensures Trim(s) == s
  {
    if s != [] {
      assert SkipSpaces(s, 0) == 0;
      assert SkipSpacesBack(s, 0, |s|) == |s|;
    }
  }

  /** `trim` is idempotent. */
  lemma TrimIdempotent(s: string)
    ensures Trim(Trim(s)) == Trim(s)
  {
    TrimOfTrimmed(Trim(s));
  }

  /** `trim` removes exactly the whitespace at the edges: it is empty iff `s` is all whitespace. */
  lemma TrimEmptyIffBlank(s: string)
    ensures Trim(s) == [] <==> forall i :: 0 <= i < |s| ==> IsSpace(s[i])
  {
    if forall i :: 0 <= i < |s| ==> IsSpace(s[i]) {
      SkipSpacesOfBlank(s, 0);
    }
  }

  lemma {:induction false} SkipSpacesOfBlank(s: string, i: nat)
    requires i <= |s|
    requires forall k :: i <= k < |s| ==> IsSpace(s[k])
    ensures SkipSpaces(s, i) == |s|
    decreases |s| - i
  {
    if i < |s| {
      SkipSpacesOfBlank(s, i + 1);
    }
  }

  /** Every property of all characters of `s` holds of all characters of `trim(s)`. */
  lemma TrimPreserves(s: string, q: char -> bool)
    requires forall i :: 0 <= i < |s| ==> q(s[i])
    ensures forall i :: 0 <= i < |Trim(s)| ==> q(Trim(s)[i])
  {
  }

  lemma {:induction false} SkipSpacesLower(s: string, i: nat)
    requires i <= |s|
    ensures SkipSpaces(ToLower(s), i) == SkipSpaces(s, i)
    decreases |s| - i
  {
    if i < |s| {
      assert IsSpace(ToLower(s)[i]) == IsSpace(s[i]);
      SkipSpacesLower(s, i + 1);
    }
  }

  lemma {:induction false} SkipSpacesBackLower(s: string, lo: nat, j: nat)
    requires lo <= j <= |s|
    ensures SkipSpacesBack(ToLower(s), lo, j) == SkipSpacesBack(s, lo, j)
    decreases j
  {
    if j > lo {
      assert IsSpace(ToLower(s)[j - 1]) == IsSpace(s[j - 1]);
      SkipSpacesBackLower(s, lo, j - 1);
    }
  }

  /** Lower-casing and trimming commute: case mapping never makes or removes whitespace. */
  lemma ToLowerTrimCommute(s: string)
    ensures Trim(ToLower(s)) == ToLower(Trim(s))
  {
    SkipSpacesLower(s, 0);
    var a := SkipSpaces(s, 0);
    SkipSpacesBackLower(s, a, |s|);
    var b := SkipSpacesBack(s, a, |s|);
    TrimIsSlice(ToLower(s));
    TrimIsSlice(s);
    ToLowerSlice(s, a, b);
  }

  lemma TrimIsSlice(s: string)
    ensures Trim(s) == s[SkipSpaces(s, 0)..SkipSpacesBack(s, SkipSpaces(s, 0), |s|)]
  {
  }

  lemma ToLowerSlice(s: string, a: nat, b: nat)
    requires a <= b <= |s|
    ensures ToLower(s)[a..b] == ToLower(s[a..b])
  {
  }

  /** Replaces every occurrence of one character, as `replace(/x/g, y)` does. */
  function ReplaceChar(s: string, from: char, to: char): (r: string)
    ensures |r| == |s|
    ensures forall i :: 0 <= i < |s| ==> r[i] == if s[i] == from then to else s[i]
  {
    seq(|s|, i requires 0 <= i < |s| => if s[i] == from then to else s[i])
  }

  lemma ReplaceCharBack(s: string, a: char, b: char)
    requires b !in s
    ensures ReplaceChar(ReplaceChar(s, a, b), b, a) == s
  {
  }

  /** `startsWith`. */
  predicate StartsWith(s: string, prefix: string)
  {
    |prefix| <= |s| && s[..|prefix|] == prefix
  }

  /** `endsWith`. */
  predicate EndsWith(s: string, suffix: string)
  {
    |suffix| <= |s| && s[|s| - |suffix|..] == suffix
  }

  lemma StartsWithConcat(a: string, b: string)
    ensures StartsWith(a + b, a)
  {
    assert (a + b)[..|a|] == a;
  }

  lemma EndsWithConcat(a: string, b: string)
    ensures EndsWith(a + b, b)
  {
    assert (a + b)[|a + b| - |b|..] == b;
  }

  /** `includes`: `needle` occurs in `s` at some position. */
  predicate Contains(s: string, needle: string)
  {
    exists i | 0 <= i <= |s| - |needle| :: OccursAt(s, needle, i)
  }

  predicate OccursAt(s: string, needle: string, i: int)
  {
    0 <= i <= |s| - |needle| && s[i..i + |needle|] == needle
  }

  lemma ContainsEmpty(s: string)
    ensures Contains(s, "")
  {
    assert OccursAt(s, "", 0);
  }

  /** Strict lexicographic order on code points; stands for `localeCompare(...) < 0`. */
  predicate StrLt(a: string, b: string)
    decreases |a|
  {
    if a == [] then b != []
    else if b == [] then false
    else if a[0] != b[0] then a[0] < b[0]
    else StrLt(a[1..], b[1..])
  }

  lemma {:induction false} StrLtIrreflexive(a: string)
    ensures !StrLt(a, a)
  {
    if a != [] { StrLtIrreflexive(a[1..]); }
  }

  lemma {:induction false} StrLtTransitive(a: string, b: string, c: string)
    requires StrLt(a, b) && StrLt(b, c)
    ensures StrLt(a, c)
    decreases |a|
  {
    if a != [] && b != [] && c != [] && a[0] == b[0] && b[0] == c[0] {
      StrLtTransitive(a[1..], b[1..], c[1..]);
    }
  }

  lemma {:induction false} StrLtTotal(a: string, b: string)
    ensures a == b || StrLt(a, b) || StrLt(b, a)
    decreases |a|
  {
    if a != [] && b != [] && a[0] == b[0] {
      StrLtTotal(a[1..], b[1..]);
      if a[1..] == b[1..] {
        assert a == [a[0]] + a[1..] && b == [b[0]] + b[1..];
      }
    }
  }

  lemma StrLtAsymmetric(a: string, b: string)
    ensures !(StrLt(a, b) && StrLt(b, a))
  {
    if StrLt(a, b) && StrLt(b, a) {
      StrLtTransitive(a, b, a);
      StrLtIrreflexive(a);
    }
  }

  /** Not being smaller is transitive too, so `StrLt` is a strict weak order. */
  lemma StrLtNegativelyTransitive(a: string, b: string, c: string)
    requires StrLt(a, c)
    ensures StrLt(a, b) || StrLt(b, c)
  {
    if !StrLt(a, b) && !StrLt(b, c) {
      StrLtTotal(a, b);
      StrLtTotal(b, c);
      if b != a && c != b {
        StrLtTransitive(c, b, a);
        StrLtAsymmetric(a, c);
      } else if b == a {
        StrLtAsymmetric(a, c);
      } else {
        StrLtAsymmetric(a, b);
      }
    }
  }

  /** Joins strings with a separator, as `Array.prototype.join` does. */
  function Join(parts: seq<string>, sep: string): (r: string)
    ensures parts == [] ==> r == ""
    ensures |parts| == 1 ==> r == parts[0]
  {
    if parts == [] then ""
    else if |parts| == 1 then parts[0]
    else parts[0] + sep + Join(parts[1..], sep)
  }

  /** Concatenates strings. */
  function Concat(parts: seq<string>): string
  {
    if parts == [] then "" else parts[0] + Concat(parts[1..])
  }

  lemma {:induction false} ConcatAppend(a: seq<string>, b: seq<string>)
    ensures Concat(a + b) == Concat(a) + Concat(b)
  {
    if a == [] {
      assert a + b == b;
    } else {
      assert (a + b)[1..] == a[1..] + b;
      ConcatAppend(a[1..], b);
    }
  }
}
