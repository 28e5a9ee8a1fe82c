/** The two "page number at the end" substitutions of the TOC cleaners:

      re.sub(r'\.{3,}\s*\d+\s*$', '', text)     a dot leader and its page number
      re.sub(r'\s+\d+\s*$', '', text)           a page number after whitespace

    Both patterns end in `\s*$`. Trying the greedy `\s*` first, the engine reaches the true
    end of the string whenever a match exists at all (a final "\n" is whitespace, so the
    "before a final newline" reading of `$` never yields a shorter match), and no pattern
    matches the empty string. So a substitution removes exactly one piece: the suffix that
    starts at the leftmost position from which the rest of the string has the pattern's
    shape. `CutTail` is that operation for any shape; the two shapes are given once as
    computable tests and once as declarative decompositions, and proved equal. */
module TocTails {
  import opened PyStr

  predicate AllDots(s: string) {
    forall i :: 0 <= i < |s| ==> s[i] == '.'
  }

  /** The number of digits `s` ends with. */
  function TrailingDigitCount(s: string): (n: nat)
    ensures n <= |s| && AllDigits(s[|s| - n..])
    ensures n < |s| ==> !IsDigit(s[|s| - n - 1])
  {
    if s != [] && IsDigit(s[|s| - 1]) then
      var n := 1 + TrailingDigitCount(s[..|s| - 1]);
      assert s[|s| - n..] == s[..|s| - 1][|s| - n..] + [s[|s| - 1]];
      n
    else 0
  }

  /** A digit suffix preceded by a non-digit (or the start) fixes the count. */
  lemma {:induction false} TrailingDigitCountAt(s: string, m: nat)
    requires m <= |s| && AllDigits(s[|s| - m..])
    requires m < |s| ==> !IsDigit(s[|s| - m - 1])
    ensures TrailingDigitCount(s) == m
  {
    if m > 0 {
      var front := s[..|s| - 1];
      assert IsDigit(s[|s| - m..][m - 1]);
      assert front[|front| - (m - 1)..] == s[|s| - m..|s| - 1];
      if m - 1 < |front| {
        assert front[|front| - (m - 1) - 1] == s[|s| - m - 1];
      }
      TrailingDigitCountAt(front, m - 1);
    }
  }

  /** A whitespace suffix preceded by a non-whitespace character (or the start) is exactly
      what `rstrip()` removes. */
  lemma RStripAt(s: string, m: nat)
    requires m <= |s| && AllSpace(s[m..])
    requires m > 0 ==> !IsSpace(s[m - 1])
    ensures RStrip(s) == s[..m]
  {
    var r := RStrip(s);
  }

  // ----- the dot-leader tail: \.{3,}\s*\d+\s* -----

  /** Does all of `t` have the shape `\.{3,}\s*\d+\s*`? */
  predicate IsDotLeaderTail(t: string) {
    var u := RStrip(t);
    var n := TrailingDigitCount(u);
    var v := RStrip(u[..|u| - n]);
    n > 0 && |v| >= 3 && AllDots(v)
  }

  /** `t` splits as dots `t[..a]` (at least three), whitespace `t[a..b]`, digits
      `t[b..c]` (at least one) and whitespace `t[c..]`. */
  ghost predicate DotLeaderAt(t: string, a: int, b: int, c: int) {
    3 <= a <= b < c <= |t| && AllDots(t[..a]) && AllSpace(t[a..b]) && AllDigits(t[b..c]) && AllSpace(t[c..])
  }

  /** A string that passes the computable test has the regular expression's shape. */
  lemma DotLeaderTailSound(t: string) returns (a: int, b: int, c: int)
    requires IsDotLeaderTail(t)
    ensures DotLeaderAt(t, a, b, c)
  {
    var u := RStrip(t);
    var n := TrailingDigitCount(u);
    var w := u[..|u| - n];
    var v := RStrip(w);
    a, b, c := |v|, |u| - n, |u|;
    DotLeaderPieces(t, u, n, w, v);
  }

  /** The pieces the computable test finds are the regular expression's pieces. */
  lemma DotLeaderPieces(t: string, u: string, n: nat, w: string, v: string)
    requires |u| <= |t| && u == t[..|u|] && AllSpace(t[|u|..])
    requires n <= |u| && AllDigits(u[|u| - n..]) && w == u[..|u| - n]
    requires |v| <= |w| && v == w[..|v|] && AllSpace(w[|v|..])
    requires n > 0 && |v| >= 3 && AllDots(v)
    ensures DotLeaderAt(t, |v|, |u| - n, |u|)
  {
    PrefixOfPrefix(t, u, w);
    PrefixOfPrefix(t, w, v);
    assert t[|v|..|u| - n] == w[|v|..];
    assert t[|u| - n..|u|] == u[|u| - n..];
  }

  /** A string of the regular expression's shape passes the computable test. */
  lemma DotLeaderTailComplete(t: string, a: int, b: int, c: int)
    requires DotLeaderAt(t, a, b, c)
    ensures IsDotLeaderTail(t)
  {
    var u := t[..c];
    assert RStrip(t) == u by {
      assert IsDigit(t[b..c][c - b - 1]);
      RStripAt(t, c);
    }
    assert TrailingDigitCount(u) == c - b by {
      assert u[b..] == t[b..c];
      if a < b {
        assert IsSpace(t[a..b][b - a - 1]);
      } else {
        assert t[..a][a - 1] == '.';
      }
      TrailingDigitCountAt(u, c - b);
    }
    var n := c - b;
    var w := u[..|u| - n];
    var v := t[..a];
    assert RStrip(w) == v by {
      assert w[a..] == t[a..b];
      assert t[..a][a - 1] == '.';
      RStripAt(w, a);
      assert w[..a] == v;
    }
    assert |v| >= 3 && AllDots(v);
    DotLeaderTailOf(t, u, n, v);
  }

  /** The computable test, with its intermediate values named. */
  lemma DotLeaderTailOf(t: string, u: string, n: nat, v: string)
    requires u == RStrip(t) && n == TrailingDigitCount(u) && v == RStrip(u[..|u| - n])
    requires n > 0 && |v| >= 3 && AllDots(v)
    ensures IsDotLeaderTail(t)
  {
  }

  /** The computable test is the regular expression's shape. */
  lemma DotLeaderTailShape(t: string)
    ensures IsDotLeaderTail(t) <==> exists a, b, c :: DotLeaderAt(t, a, b, c)
  {
    if IsDotLeaderTail(t) {
      var a, b, c := DotLeaderTailSound(t);
    }
    if a, b, c :| DotLeaderAt(t, a, b, c) {
      DotLeaderTailComplete(t, a, b, c);
    }
  }

  /** A dot-leader tail holds a digit: the last one before its trailing whitespace. */
  lemma DotLeaderTailDigit(t: string)
    ensures IsDotLeaderTail(t) ==> |RStrip(t)| > 0 && IsDigit(t[|RStrip(t)| - 1])
  {
    var u := RStrip(t);
    var n := TrailingDigitCount(u);
    assert n > 0 ==> IsDigit(u[|u| - n..][n - 1]);
  }

  /** A dot-leader tail holds only dots, whitespace and digits, and no dot follows a digit. */
  lemma DotLeaderTailChars(t: string)
    ensures IsDotLeaderTail(t) ==>
      forall i :: 0 <= i < |t| ==> t[i] == '.' || IsSpace(t[i]) || IsDigit(t[i])
    ensures IsDotLeaderTail(t) ==>
      forall i :: 0 <= i < |t| - 1 && IsDigit(t[i]) ==> t[i + 1] != '.'
  {
    if IsDotLeaderTail(t) {
      var a, b, c := DotLeaderTailSound(t);
      forall i | 0 <= i < |t|
        ensures t[i] == '.' || IsSpace(t[i]) || IsDigit(t[i])
        ensures i >= b ==> t[i] != '.'
        ensures IsDigit(t[i]) ==> i >= b
      {
        if i < a {
          assert t[..a][i] == '.';
        } else if i < b {
          assert IsSpace(t[a..b][i - a]);
        } else if i < c {
          assert IsDigit(t[b..c][i - b]);
        } else {
          assert IsSpace(t[c..][i - c]);
        }
      }
    }
  }

  /** A dot-leader tail begins with a dot. */
  lemma DotLeaderTailStart(t: string)
    requires IsDotLeaderTail(t)
    ensures |t| > 0 && t[0] == '.'
  {
    DotLeaderTailShape(t);
    var a, b, c :| DotLeaderAt(t, a, b, c);
    assert t[..a][0] == '.';
  }

  // ----- the spaced-number tail: \s+\d+\s* -----

  /** Does all of `t` have the shape `\s+\d+\s*`? */
  predicate IsSpacedNumberTail(t: string) {
    var u := RStrip(t);
    var n := TrailingDigitCount(u);
    var v := u[..|u| - n];
    n > 0 && |v| > 0 && AllSpace(v)
  }

  /** `t` splits as whitespace `t[..b]` (at least one), digits `t[b..c]` (at least one)
      and whitespace `t[c..]`. */
  ghost predicate SpacedNumberAt(t: string, b: int, c: int) {
    0 < b < c <= |t| && AllSpace(t[..b]) && AllDigits(t[b..c]) && AllSpace(t[c..])
  }

  /** A string that passes the computable test has the regular expression's shape. */
  lemma SpacedNumberTailSound(t: string) returns (b: int, c: int)
    requires IsSpacedNumberTail(t)
    ensures SpacedNumberAt(t, b, c)
  {
    var u := RStrip(t);
    var n := TrailingDigitCount(u);
    var v := u[..|u| - n];
    b, c := |v|, |u|;
    assert t[..b] == v;
    assert t[b..c] == u[|u| - n..];
  }

  /** A string of the regular expression's shape passes the computable test. */
  lemma SpacedNumberTailComplete(t: string, b: int, c: int)
    requires SpacedNumberAt(t, b, c)
    ensures IsSpacedNumberTail(t)
  {
    var u := t[..c];
    assert RStrip(t) == u by {
      assert IsDigit(t[b..c][c - b - 1]);
      RStripAt(t, c);
    }
    var n := c - b;
    assert TrailingDigitCount(u) == n by {
      assert u[b..] == t[b..c];
      assert IsSpace(t[..b][b - 1]);
      TrailingDigitCountAt(u, n);
    }
    var v := u[..|u| - n];
    assert v == t[..b];
    SpacedNumberTailOf(t, u, n, v);
  }

  /** The computable test, with its intermediate values named. */
  lemma SpacedNumberTailOf(t: string, u: string, n: nat, v: string)
    requires u == RStrip(t) && n == TrailingDigitCount(u) && v == u[..|u| - n]
    requires n > 0 && |v| > 0 && AllSpace(v)
    ensures IsSpacedNumberTail(t)
  {
  }

  /** The computable test is the regular expression's shape. */
  lemma SpacedNumberTailShape(t: string)
    ensures IsSpacedNumberTail(t) <==> exists b, c :: SpacedNumberAt(t, b, c)
  {
    if IsSpacedNumberTail(t) {
      var b, c := SpacedNumberTailSound(t);
    }
    if b, c :| SpacedNumberAt(t, b, c) {
      SpacedNumberTailComplete(t, b, c);
    }
  }

  /** A spaced-number tail holds a digit: the last one before its trailing whitespace. */
  lemma SpacedNumberTailDigit(t: string)
    ensures IsSpacedNumberTail(t) ==> |RStrip(t)| > 0 && IsDigit(t[|RStrip(t)| - 1])
  {
    var u := RStrip(t);
    var n := TrailingDigitCount(u);
    assert n > 0 ==> IsDigit(u[|u| - n..][n - 1]);
  }

  /** A spaced-number tail holds only whitespace and digits. */
  lemma SpacedNumberTailChars(t: string)
    ensures IsSpacedNumberTail(t) ==> forall i :: 0 <= i < |t| ==> IsSpace(t[i]) || IsDigit(t[i])
  {
    if IsSpacedNumberTail(t) {
      SpacedNumberTailShape(t);
      var b, c :| SpacedNumberAt(t, b, c);
      forall i | 0 <= i < |t|
        ensures IsSpace(t[i]) || IsDigit(t[i])
      {
        if i < b {
          assert IsSpace(t[..b][i]);
        } else if i < c {
          assert IsDigit(t[b..c][i - b]);
        } else {
          assert IsSpace(t[c..][i - c]);
        }
      }
    }
  }

  /** A spaced-number tail begins with whitespace. */
  lemma SpacedNumberTailStart(t: string)
    requires IsSpacedNumberTail(t)
    ensures |t| > 0 && IsSpace(t[0])
  {
    SpacedNumberTailShape(t);
    var b, c :| SpacedNumberAt(t, b, c);
    assert IsSpace(t[..b][0]);
  }

  // ----- one substitution -----

  /** The suffix of `s` from `j` on has the shape `tail`. */
  predicate TailAt(s: string, tail: string -> bool, j: nat)
    requires j <= |s|
  {
    tail(s[j..])
  }

  /** The leftmost position at or after `from` whose suffix has the shape `tail`;
      `|s| + 1` when there is none. */
  function FirstTailStart(s: string, tail: string -> bool, from: nat): (i: nat)
    requires from <= |s| + 1
    ensures from <= i <= |s| + 1
    decreases |s| + 1 - from
  {
    if from > |s| || TailAt(s, tail, from) then from
    else FirstTailStart(s, tail, from + 1)
  }

  lemma {:induction false} FirstTailStartSpec(s: string, tail: string -> bool, from: nat)
    requires from <= |s| + 1
    ensures var i := FirstTailStart(s, tail, from);
      (i <= |s| ==> TailAt(s, tail, i)) &&
      forall j :: from <= j < i && j <= |s| ==> !TailAt(s, tail, j)
    decreases |s| + 1 - from
  {
    if !(from > |s| || TailAt(s, tail, from)) {
      FirstTailStartSpec(s, tail, from + 1);
    }
  }

  /** `re.sub(pattern + '$', '', s)` for a pattern whose matches all run to the end:
      a prefix of `s` (what the cut is, `CutTailSpec` says). */
  function CutTail(s: string, tail: string -> bool): (r: string)
    ensures |r| <= |s| && r == s[..|r|]
  {
    var i := FirstTailStart(s, tail, 0);
    if i <= |s| then s[..i] else s
  }

  /** The cut removes the suffix that starts at the leftmost position from which the rest
      has the shape `tail`, and nothing when there is no such position. */
  lemma CutTailSpec(s: string, tail: string -> bool)
    ensures var r := CutTail(s, tail);
      (|r| < |s| ==> TailAt(s, tail, |r|)) &&
      (forall j :: 0 <= j < |r| ==> !TailAt(s, tail, j)) &&
      ((exists j :: 0 <= j <= |s| && TailAt(s, tail, j)) ==> TailAt(s, tail, |r|))
  {
    FirstTailStartSpec(s, tail, 0);
  }

  /** The cut is at `i` when the suffix at `i` has the shape and no earlier one does. */
  lemma CutTailAt(s: string, tail: string -> bool, i: nat)
    requires i <= |s| && TailAt(s, tail, i)
    requires forall j :: 0 <= j < i ==> !TailAt(s, tail, j)
    ensures CutTail(s, tail) == s[..i]
  {
    CutTailSpec(s, tail);
    var r := CutTail(s, tail);
    if |r| == |s| {
      assert r == s;
    }
  }

  /** With no suffix of the shape, the substitution changes nothing. */
  lemma CutTailNone(s: string, tail: string -> bool)
    requires forall j :: 0 <= j <= |s| ==> !TailAt(s, tail, j)
    ensures CutTail(s, tail) == s
  {
    CutTailSpec(s, tail);
  }

  /** `re.sub(r'\.{3,}\s*\d+\s*$', '', s)` */
  function CutDotLeader(s: string): string {
    CutTail(s, IsDotLeaderTail)
  }

  /** The dot-leader substitution removes the suffix that starts at the leftmost position
      from which the rest is dots, whitespace, digits, whitespace, and nothing else. */
  lemma CutDotLeaderShape(s: string)
    ensures var r := CutDotLeader(s);
      |r| <= |s| && r == s[..|r|] &&
      (|r| < |s| ==> exists a, b, c :: DotLeaderAt(s[|r|..], a, b, c)) &&
      (forall j :: 0 <= j < |r| ==> !exists a, b, c :: DotLeaderAt(s[j..], a, b, c))
  {
    var r := CutDotLeader(s);
    CutTailSpec(s, IsDotLeaderTail);
    if |r| < |s| {
      assert TailAt(s, IsDotLeaderTail, |r|);
      DotLeaderTailShape(s[|r|..]);
    }
    forall j | 0 <= j < |r|
      ensures !exists a, b, c :: DotLeaderAt(s[j..], a, b, c)
    {
      assert !TailAt(s, IsDotLeaderTail, j);
      DotLeaderTailShape(s[j..]);
    }
  }

  /** `re.sub(r'\s+\d+\s*$', '', s)` */
  function CutSpacedNumber(s: string): string {
    CutTail(s, IsSpacedNumberTail)
  }

  /** The page-number substitution removes the suffix that starts at the leftmost position
      from which the rest is whitespace, digits, whitespace, and nothing else. */
  lemma CutSpacedNumberShape(s: string)
    ensures var r := CutSpacedNumber(s);
      |r| <= |s| && r == s[..|r|] &&
      (|r| < |s| ==> exists b, c :: SpacedNumberAt(s[|r|..], b, c)) &&
      (forall j :: 0 <= j < |r| ==> !exists b, c :: SpacedNumberAt(s[j..], b, c))
  {
    var r := CutSpacedNumber(s);
    CutTailSpec(s, IsSpacedNumberTail);
    if |r| < |s| {
      assert TailAt(s, IsSpacedNumberTail, |r|);
      SpacedNumberTailShape(s[|r|..]);
    }
    forall j | 0 <= j < |r|
      ensures !exists b, c :: SpacedNumberAt(s[j..], b, c)
    {
      assert !TailAt(s, IsSpacedNumberTail, j);
      SpacedNumberTailShape(s[j..]);
    }
  }

  /** Without a digit there is nothing for either substitution to remove. */
  lemma CutsWithoutDigits(s: string)
    requires forall i :: 0 <= i < |s| ==> !IsDigit(s[i])
    ensures CutDotLeader(s) == s && CutSpacedNumber(s) == s
  {
    forall j | 0 <= j <= |s|
      ensures !TailAt(s, IsDotLeaderTail, j)
    {
      DotLeaderTailDigit(s[j..]);
    }
    CutTailNone(s, IsDotLeaderTail);
    forall j | 0 <= j <= |s|
      ensures !TailAt(s, IsSpacedNumberTail, j)
    {
      SpacedNumberTailDigit(s[j..]);
    }
    CutTailNone(s, IsSpacedNumberTail);
  }

  /** Dots, whitespace, digits, whitespace: a dot-leader tail. */
  lemma DotLeaderPiece(leader: string, gap: string, page: string, end: string)
    requires |leader| >= 3 && AllDots(leader) && AllSpace(gap) && page != "" && AllDigits(page) && AllSpace(end)
    ensures IsDotLeaderTail(leader + gap + page + end)
  {
    var tail := leader + gap + page + end;
    assert tail[..|leader|] == leader;
    assert tail[|leader|..|leader| + |gap|] == gap;
    assert tail[|leader| + |gap|..|leader| + |gap| + |page|] == page;
    assert tail[|leader| + |gap| + |page|..] == end;
    DotLeaderTailComplete(tail, |leader|, |leader| + |gap|, |leader| + |gap| + |page|);
  }

  /** The dot-leader substitution cuts right after a text that ends in neither a dot nor
      whitespace and is followed by a dot-leader tail. */
  lemma LeaderCut(title: string, tail: string)
    requires title != [] && IsDotLeaderTail(tail)
    requires var last := title[|title| - 1]; last != '.' && !IsSpace(last)
    ensures CutDotLeader(title + tail) == title
  {
    var text := title + tail;
    var j0 := |title|;
    assert text[j0..] == tail;
    assert TailAt(text, IsDotLeaderTail, j0);
    DotLeaderTailStart(tail);
    var last := text[j0 - 1];
    assert last == title[|title| - 1];
    assert text[j0] == '.';
    forall j | 0 <= j < j0
      ensures !TailAt(text, IsDotLeaderTail, j)
    {
      DotLeaderTailChars(text[j..]);
      assert text[j..][j0 - 1 - j] == last;
      assert text[j..][j0 - j] == '.';
    }
    CutTailAt(text, IsDotLeaderTail, j0);
    assert text[..j0] == title;
  }

  /** Whitespace then digits: a spaced-number tail. */
  lemma SpacedNumberPiece(sep: string, num: string)
    requires sep != "" && AllSpace(sep) && num != "" && AllDigits(num)
    ensures IsSpacedNumberTail(sep + num)
  {
    var t := sep + num;
    assert t[..|sep|] == sep;
    assert t[|sep|..|t|] == num;
    assert SpacedNumberAt(t, |sep|, |t|);
    SpacedNumberTailShape(t);
  }

  /** The page-number substitution cuts right after a text that ends in neither whitespace
      nor a digit and is followed by a spaced-number tail. */
  lemma SpacedCut(title: string, tail: string)
    requires title != [] && IsSpacedNumberTail(tail)
    requires var last := title[|title| - 1]; !IsSpace(last) && !IsDigit(last)
    ensures CutSpacedNumber(title + tail) == title
  {
    var text := title + tail;
    var j0 := |title|;
    assert text[j0..] == tail;
    assert TailAt(text, IsSpacedNumberTail, j0);
    var last := text[j0 - 1];
    assert last == title[|title| - 1];
    forall j | 0 <= j < j0
      ensures !TailAt(text, IsSpacedNumberTail, j)
    {
      SpacedNumberTailChars(text[j..]);
      assert text[j..][j0 - 1 - j] == last;
    }
    CutTailAt(text, IsSpacedNumberTail, j0);
    assert text[..j0] == title;
  }
}
