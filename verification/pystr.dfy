/** The pieces of Python's `str` semantics the scripts rely on: `strip()`, `in`,
    `split("\t")`, `"\n".join`, repetition `" " * n`, `int()` on a digit string, ASCII
    case folding, and deleting a class of characters.

    Whitespace (for `strip()` and the regex class `\s`) is the six ASCII whitespace
    characters; digits (for `\d`, `int()` and `isdigit()`) are the ASCII digits. */
module PyStr {

  /** The space and the control characters from tab to carriage return: tab, line feed,
      vertical tab, form feed and carriage return. */
  predicate IsSpace(c: char) {
    c == ' ' || '\t' <= c <= '\r'
  }

  predicate IsDigit(c: char) {
    '0' <= c <= '9'
  }

  /** The regex class `[A-Za-z0-9]`. */
  predicate IsAsciiAlnum(c: char) {
    '0' <= c <= '9' || 'a' <= c <= 'z' || 'A' <= c <= 'Z'
  }

  predicate AllSpace(s: string) {
    forall i :: 0 <= i < |s| ==> IsSpace(s[i])
  }

  predicate AllDigits(s: string) {
    forall i :: 0 <= i < |s| ==> IsDigit(s[i])
  }

  /** What `strip()` leaves: no whitespace at either end. */
  predicate NoEdgeSpace(s: string) {
    s == [] || (!IsSpace(s[0]) && !IsSpace(s[|s| - 1]))
  }

  function Max(a: int, b: int): int {
    if a < b then b else a
  }

  /** The number of whitespace characters `lstrip()` removes. */
  function LeadingSpaceCount(s: string): (n: nat)
    ensures n <= |s| && AllSpace(s[..n])
    ensures n < |s| ==> !IsSpace(s[n])
  {
    if s != [] && IsSpace(s[0]) then
      var n := 1 + LeadingSpaceCount(s[1..]);
      assert s[..n] == [s[0]] + s[1..][..n - 1];
      n
    else 0
  }

  /** The number of whitespace characters `rstrip()` removes. */
  function TrailingSpaceCount(s: string): (n: nat)
    ensures n <= |s| && AllSpace(s[|s| - n..])
    ensures n < |s| ==> !IsSpace(s[|s| - n - 1])
  {
    if s != [] && IsSpace(s[|s| - 1]) then
      var n := 1 + TrailingSpaceCount(s[..|s| - 1]);
      assert s[|s| - n..] == s[..|s| - 1][|s| - n..] + [s[|s| - 1]];
      n
    else 0
  }

  /** A whitespace prefix followed by a non-whitespace character (or the end) fixes the count. */
  lemma {:induction false} LeadingSpaceCountAt(s: string, m: nat)
    requires m <= |s| && AllSpace(s[..m])
    requires m < |s| ==> !IsSpace(s[m])
    ensures LeadingSpaceCount(s) == m
  {
    if m > 0 {
      assert IsSpace(s[..m][0]);
      assert s[1..][..m - 1] == s[..m][1..];
      LeadingSpaceCountAt(s[1..], m - 1);
    }
  }

  /** `s.rstrip()` */
  function RStrip(s: string): (r: string)
    ensures |r| <= |s| && r == s[..|r|] && AllSpace(s[|r|..])
    ensures r == [] || !IsSpace(r[|r| - 1])
  {
    s[..|s| - TrailingSpaceCount(s)]
  }

  /** `s.strip()`: the slice of `s` between its leading and its trailing whitespace. */
  function Strip(s: string): (r: string)
    ensures NoEdgeSpace(r)
    ensures LeadingSpaceCount(s) + |r| <= |s|
    ensures r == s[LeadingSpaceCount(s)..LeadingSpaceCount(s) + |r|]
    ensures AllSpace(s[LeadingSpaceCount(s) + |r|..])
    ensures r == [] <==> AllSpace(s)
    ensures NoEdgeSpace(s) ==> r == s
  {
    var a := LeadingSpaceCount(s);
    var t := s[a..];
    var b := TrailingSpaceCount(t);
    var r := t[..|t| - b];
    StripEdges(s, a, t, b, r);
    StripSlice(s, a, t, b, r);
    StripRest(s, a, t, b, r);
    StripEmpty(s, a, t, b, r);
    StripFixed(s, a, t, b, r);
    r
  }

  lemma StripEdges(s: string, a: nat, t: string, b: nat, r: string)
    requires a == LeadingSpaceCount(s) && t == s[a..] && b == TrailingSpaceCount(t) && r == t[..|t| - b]
    ensures NoEdgeSpace(r)
  {
    if r != [] {
      assert r[0] == t[0];
    }
  }

  lemma StripSlice(s: string, a: nat, t: string, b: nat, r: string)
    requires a == LeadingSpaceCount(s) && t == s[a..] && b == TrailingSpaceCount(t) && r == t[..|t| - b]
    ensures a + |r| <= |s| && r == s[a..a + |r|]
  {
    SliceOfSuffix(s, a, t, r);
  }

  lemma StripRest(s: string, a: nat, t: string, b: nat, r: string)
    requires a == LeadingSpaceCount(s) && t == s[a..] && b == TrailingSpaceCount(t) && r == t[..|t| - b]
    ensures a + |r| <= |s| && AllSpace(s[a + |r|..])
  {
    SliceOfSuffix(s, a, t, r);
  }

  /** Slices of the suffix `s[a..]` are slices of `s`. */
  lemma SliceOfSuffix(s: string, a: nat, t: string, r: string)
    requires a <= |s| && t == s[a..] && |r| <= |t| && r == t[..|r|]
    ensures r == s[a..a + |r|] && t[|r|..] == s[a + |r|..]
  {
  }

  lemma StripEmpty(s: string, a: nat, t: string, b: nat, r: string)
    requires a == LeadingSpaceCount(s) && t == s[a..] && b == TrailingSpaceCount(t) && r == t[..|t| - b]
    ensures r == [] <==> AllSpace(s)
  {
    if r == [] {
      assert t == [];
      assert s == s[..a];
    }
  }

  lemma StripFixed(s: string, a: nat, t: string, b: nat, r: string)
    requires a == LeadingSpaceCount(s) && t == s[a..] && b == TrailingSpaceCount(t) && r == t[..|t| - b]
    ensures NoEdgeSpace(s) ==> r == s
  {
    if s != [] && NoEdgeSpace(s) {
      assert t == s;
    }
  }

  /** `strip()` leaves `s[a..b]` when only whitespace lies outside it and its ends are not
      whitespace. */
  lemma StripAt(s: string, a: nat, b: nat)
    requires a <= b <= |s| && AllSpace(s[..a]) && AllSpace(s[b..])
    requires a < b ==> !IsSpace(s[a]) && !IsSpace(s[b - 1])
    ensures Strip(s) == s[a..b]
  {
    var r := Strip(s);
    var e := LeadingSpaceCount(s) + |r|;
    SpacesFrom(s, b);
    SpacesFrom(s, e);
    if a < b {
      LeadingSpaceCountAt(s, a);
      assert r != [] && r[|r| - 1] == s[e - 1];
    } else {
      assert forall k :: 0 <= k < |s| ==> IsSpace(s[k]) by {
        forall k | 0 <= k < |s| ensures IsSpace(s[k]) {
          if k < a { assert s[..a][k] == s[k]; }
        }
      }
    }
  }

  lemma SpacesFrom(s: string, b: nat)
    requires b <= |s| && AllSpace(s[b..])
    ensures forall k :: b <= k < |s| ==> IsSpace(s[k])
  {
    forall k | b <= k < |s| ensures IsSpace(s[k]) { assert s[b..][k - b] == s[k]; }
  }

  /** Whitespace appended to `s` does not survive `strip()`. */
  lemma StripAppendSpace(s: string, w: string)
    requires AllSpace(w)
    ensures Strip(s + w) == Strip(s)
  {
    var r := Strip(s);
    if r != [] {
      StripAppendSpaceAt(s, w, LeadingSpaceCount(s), r);
    } else {
      AllSpaceConcat(s, w);
    }
  }

  lemma StripAppendSpaceAt(s: string, w: string, a: nat, r: string)
    requires AllSpace(w) && a + |r| <= |s| && r != [] && NoEdgeSpace(r)
    requires AllSpace(s[..a]) && r == s[a..a + |r|] && AllSpace(s[a + |r|..])
    ensures Strip(s + w) == r
  {
    var sw := s + w;
    var b := a + |r|;
    assert sw[..a] == s[..a];
    assert sw[b..] == s[b..] + w;
    AllSpaceConcat(s[b..], w);
    assert sw[a] == r[0] && sw[b - 1] == r[|r| - 1];
    StripAt(sw, a, b);
    assert sw[a..b] == r;
  }

  lemma AllSpaceConcat(x: string, y: string)
    requires AllSpace(x) && AllSpace(y)
    ensures AllSpace(x + y)
  {
    assert forall i :: |x| <= i < |x + y| ==> (x + y)[i] == y[i - |x|];
  }

  /** Python's `needle in hay` on strings. */
  predicate Contains(hay: string, needle: string) {
    exists i, j :: 0 <= i <= j <= |hay| && hay[i..j] == needle
  }

  lemma ContainsSelf(s: string)
    ensures Contains(s, s)
  {
    assert s[0..|s|] == s;
  }

  /** A slice of a slice of `hay` is a slice of `hay`. */
  lemma ContainsSlice(hay: string, a: nat, b: nat, needle: string)
    requires a <= b <= |hay| && Contains(hay[a..b], needle)
    ensures Contains(hay, needle)
  {
    var i, j :| 0 <= i <= j <= b - a && hay[a..b][i..j] == needle;
    assert forall k :: 0 <= k < j - i ==> hay[a + i..a + j][k] == hay[a..b][i..j][k];
    assert hay[a + i..a + j] == needle;
  }

  lemma PrefixOfPrefix(s: string, p: string, q: string)
    requires |p| <= |s| && p == s[..|p|]
    requires |q| <= |p| && q == p[..|q|]
    ensures q == s[..|q|]
  {
  }

  /** Stripping a prefix of `s` leaves a piece of `s`. */
  lemma StripOfPrefix(s: string, p: string)
    requires |p| <= |s| && p == s[..|p|]
    ensures Contains(s, Strip(p))
  {
    var r := Strip(p);
    var a := LeadingSpaceCount(p);
    assert r == s[a..a + |r|];
  }

  /** `in` is transitive. */
  lemma ContainsTrans(hay: string, mid: string, needle: string)
    requires Contains(hay, mid) && Contains(mid, needle)
    ensures Contains(hay, needle)
  {
    var a, b :| 0 <= a <= b <= |hay| && hay[a..b] == mid;
    ContainsSlice(hay, a, b, needle);
  }

  lemma StripContained(s: string)
    ensures Contains(s, Strip(s))
  {
    assert s[..|s|] == s;
    StripOfPrefix(s, s);
  }

  predicate StartsWith(s: string, prefix: string) {
    |prefix| <= |s| && s[..|prefix|] == prefix
  }

  predicate EndsWith(s: string, suffix: string) {
    |suffix| <= |s| && s[|s| - |suffix|..] == suffix
  }

  /** `" " * n`, which is the empty string when `n <= 0`. */
  function Spaces(n: int): (r: string)
    ensures |r| == Max(n, 0)
    ensures forall i :: 0 <= i < |r| ==> r[i] == ' '
    decreases Max(n, 0)
  {
    if n <= 0 then "" else Spaces(n - 1) + " "
  }

  /** `int(s)` for a string of decimal digits (leading zeros allowed). */
  function DigitsValue(s: string): nat
    requires AllDigits(s)
  {
    if s == [] then 0
    else DigitsValue(s[..|s| - 1]) * 10 + (s[|s| - 1] as int - '0' as int)
  }

  function LowerChar(c: char): char {
    if 'A' <= c <= 'Z' then (c as int - 'A' as int + 'a' as int) as char else c
  }

  /** Lower-casing restricted to ASCII letters: how `re.IGNORECASE` and `str.lower()`
      are modelled. */
  function LowerAscii(s: string): (r: string)
    ensures |r| == |s|
    ensures forall i :: 0 <= i < |s| ==> r[i] == LowerChar(s[i])
  {
    seq(|s|, i requires 0 <= i < |s| => LowerChar(s[i]))
  }

  /** `sep.join(parts)` */
  function Join(parts: seq<string>, sep: string): string {
    if |parts| == 0 then ""
    else if |parts| == 1 then parts[0]
    else Join(parts[..|parts| - 1], sep) + sep + parts[|parts| - 1]
  }

  /** `s.split(c, 1)[0]`, equally `s.split(c)[0]`: the text before the first `c`. */
  function BeforeFirst(s: string, c: char): (r: string)
    ensures |r| <= |s| && r == s[..|r|] && c !in r
    ensures |r| < |s| ==> s[|r|] == c
  {
    if s == [] || s[0] == c then "" else [s[0]] + BeforeFirst(s[1..], c)
  }

  /** The first `c` of `s` is at `i` (or there is none and `i` is the end). */
  lemma BeforeFirstAt(s: string, c: char, i: nat)
    requires i <= |s| && c !in s[..i]
    requires i < |s| ==> s[i] == c
    ensures BeforeFirst(s, c) == s[..i]
  {
    var r := BeforeFirst(s, c);
  }

  /** Without a `c` there is nothing to cut. */
  lemma BeforeFirstNone(text: string, c: char)
    requires c !in text
    ensures BeforeFirst(text, c) == text
  {
    BeforeFirstAt(text, c, |text|);
    assert text[..|text|] == text;
  }

  /** `s.split(c)[-1]`: the text after the last `c`. */
  function AfterLast(s: string, c: char): (r: string)
    ensures |r| <= |s| && r == s[|s| - |r|..] && c !in r
    ensures |r| < |s| ==> s[|s| - |r| - 1] == c
  {
    if s == [] || s[|s| - 1] == c then "" else AfterLast(s[..|s| - 1], c) + [s[|s| - 1]]
  }

  /** The last `c` of `s` is right before `suffix`. */
  lemma AfterLastAt(s: string, c: char, suffix: string)
    requires |suffix| < |s| && s[|s| - |suffix|..] == suffix && s[|s| - |suffix| - 1] == c
    requires c !in suffix
    ensures AfterLast(s, c) == suffix
  {
    var r := AfterLast(s, c);
    NoCharFrom(s, c, |s| - |suffix|);
    NoCharFrom(s, c, |s| - |r|);
  }

  lemma NoCharFrom(s: string, c: char, i: nat)
    requires i <= |s| && c !in s[i..]
    ensures forall k :: i <= k < |s| ==> s[k] != c
  {
    forall k | i <= k < |s| ensures s[k] != c {
      assert s[i..][k - i] == s[k];
    }
  }

  /** Python's `$` without MULTILINE also matches just before one string-final newline. */
  function DropFinalNewline(s: string): (r: string)
    ensures s == r || s == r + "\n"
  {
    if |s| > 0 && s[|s| - 1] == '\n' then s[..|s| - 1] else s
  }

  /** The characters of `s` that satisfy `keep`, in order: `re.sub("[...]", "", s)` for the
      complementary character class. */
  function Filter(s: string, keep: char -> bool): (r: string)
    ensures |r| <= |s|
    ensures forall i :: 0 <= i < |r| ==> keep(r[i])
  {
    if s == [] then "" else (if keep(s[0]) then [s[0]] else "") + Filter(s[1..], keep)
  }

  lemma {:induction false} FilterAppend(a: string, b: string, keep: char -> bool)
    ensures Filter(a + b, keep) == Filter(a, keep) + Filter(b, keep)
  {
    if a != [] {
      var head := if keep(a[0]) then [a[0]] else "";
      assert (a + b)[0] == a[0] && (a + b)[1..] == a[1..] + b;
      FilterAppend(a[1..], b, keep);
      assert Filter(a + b, keep) == head + Filter(a[1..] + b, keep);
      assert Filter(a, keep) == head + Filter(a[1..], keep);
    } else {
      assert a + b == b;
    }
  }

  lemma {:induction false} FilterKeepsAll(s: string, keep: char -> bool)
    requires forall i :: 0 <= i < |s| ==> keep(s[i])
    ensures Filter(s, keep) == s
  {
    if s != [] {
      FilterKeepsAll(s[1..], keep);
    }
  }

  lemma {:induction false} FilterDropsAll(s: string, keep: char -> bool)
    requires forall i :: 0 <= i < |s| ==> !keep(s[i])
    ensures Filter(s, keep) == ""
  {
    if s != [] {
      FilterDropsAll(s[1..], keep);
    }
  }

  /** Filtering loses a character exactly when some character is not kept. */
  lemma {:induction false} FilterShortens(s: string, keep: char -> bool)
    ensures |Filter(s, keep)| == |s| <==> forall i :: 0 <= i < |s| ==> keep(s[i])
  {
    if s != [] {
      FilterShortens(s[1..], keep);
      assert forall i :: 1 <= i < |s| ==> s[i] == s[1..][i - 1];
    }
  }

  /** Filtering with a weaker test first changes nothing. */
  lemma {:induction false} FilterCompose(s: string, weak: char -> bool, strong: char -> bool)
    requires forall c :: strong(c) ==> weak(c)
    ensures Filter(Filter(s, weak), strong) == Filter(s, strong)
  {
    if s != [] {
      var head := if weak(s[0]) then [s[0]] else "";
      FilterAppend(head, Filter(s[1..], weak), strong);
      FilterCompose(s[1..], weak, strong);
    }
  }

  /** Filtering keeps the number of occurrences of every kept character. */
  lemma {:induction false} FilterCount(s: string, keep: char -> bool, c: char)
    requires keep(c)
    ensures multiset(Filter(s, keep))[c] == multiset(s)[c]
  {
    if s != [] {
      FilterCount(s[1..], keep, c);
      assert s == [s[0]] + s[1..];
    }
  }
}
