/** Word_highlight.py: each paragraph's text is cut into segments around the formula
    matches, and a match is highlighted when its normalised form already occurred earlier
    in the document.

    The matches of the formula pattern are an input here: for each paragraph, the spans
    `re.finditer` reports, which are non-empty, inside the text, in order and
    non-overlapping. */
module WordHighlight {
  import opened Wrappers
  import opened PyStr

  /** `match.span()` */
  datatype Span = Span(start: nat, end: nat)

  /** One run of the rebuilt paragraph: its text and whether it is highlighted yellow. */
  datatype Segment = Segment(text: string, highlighted: bool)

  /** A paragraph: its text and the spans of the formula matches in it. */
  datatype Para = Para(text: string, spans: seq<Span>)

  /** What `re.finditer` guarantees about its matches in `text`. */
  predicate ValidSpans(text: string, spans: seq<Span>) {
    (forall k :: 0 <= k < |spans| ==> spans[k].start < spans[k].end <= |text|) &&
    (forall k :: 0 < k < |spans| ==> spans[k - 1].end <= spans[k].start)
  }

  predicate ValidParas(paras: seq<Para>) {
    forall p :: 0 <= p < |paras| ==> ValidSpans(paras[p].text, paras[p].spans)
  }

  /** `match.group()`, for a span inside the text. */
  function Match(text: string, s: Span): string {
    if s.start <= s.end <= |text| then text[s.start..s.end] else ""
  }

  /** `expr.replace("−", "-")`: the minus sign U+2212 becomes a hyphen-minus. */
  function ReplaceMinus(s: string): (r: string)
    ensures |r| == |s| && '\U{2212}' !in r
    ensures forall i :: 0 <= i < |s| ==> r[i] == (if s[i] == '\U{2212}' then '-' else s[i])
  {
    seq(|s|, i requires 0 <= i < |s| => if s[i] == '\U{2212}' then '-' else s[i])
  }

  predicate NotBlank(c: char) {
    c != ' '
  }

  /** What one character of a formula becomes in its normal form. */
  function NormalChar(c: char): string {
    if c == ' ' then "" else if c == '\U{2212}' then "-" else [c]
  }

  /** The normal form of a matched formula, one character at a time. */
  function Normalize(expr: string): string {
    if expr == [] then "" else NormalChar(expr[0]) + Normalize(expr[1..])
  }

  /** The normal form is what the line's two replacements produce:
      `expr.replace("−", "-").replace(" ", "")`. */
  lemma {:induction false} NormalizeIsReplacements(expr: string)
    ensures Normalize(expr) == Filter(ReplaceMinus(expr), NotBlank)
  {
    if expr != [] {
      NormalizeIsReplacements(expr[1..]);
      assert ReplaceMinus(expr)[1..] == ReplaceMinus(expr[1..]);
    }
  }

  /** A normal form has no space and no minus sign U+2212 left. */
  lemma {:induction false} NormalizeClean(expr: string)
    ensures ' ' !in Normalize(expr) && '\U{2212}' !in Normalize(expr)
    ensures |Normalize(expr)| <= |expr|
  {
    if expr != [] {
      NormalizeClean(expr[1..]);
    }
  }

  /** A formula without spaces or U+2212 is its own normal form. */
  lemma {:induction false} NormalizeFixed(expr: string)
    requires ' ' !in expr && '\U{2212}' !in expr
    ensures Normalize(expr) == expr
  {
    if expr != [] {
      assert expr == [expr[0]] + expr[1..];
      NormalizeFixed(expr[1..]);
    }
  }

  /** Normalising twice is normalising once: two spellings of a formula that differ only
      in spaces and minus signs meet in one normal form. */
  lemma NormalizeIdempotent(expr: string)
    ensures Normalize(Normalize(expr)) == Normalize(expr)
  {
    NormalizeClean(expr);
    NormalizeFixed(Normalize(expr));
  }

  /** Where the last match ended: `last_index`. */
  function LastIndex(spans: seq<Span>): nat {
    if spans == [] then 0 else spans[|spans| - 1].end
  }

  /** The matches before the `k`-th are matches as well. */
  lemma ValidPrefix(text: string, spans: seq<Span>, k: nat)
    requires ValidSpans(text, spans) && k <= |spans|
    ensures ValidSpans(text, spans[..k])
  {
    assert forall i :: 0 <= i < k ==> spans[..k][i] == spans[i];
  }

  lemma LastIndexBound(text: string, spans: seq<Span>)
    requires ValidSpans(text, spans)
    ensures LastIndex(spans) <= |text|
    ensures spans != [] ==> LastIndex(spans[..|spans| - 1]) <= spans[|spans| - 1].start
  {
  }

  /** The unhighlighted text between `from` and `to`, if there is any. */
  function Gap(text: string, from: nat, to: nat): seq<Segment> {
    if from < to <= |text| then [Segment(text[from..to], false)] else []
  }

  /** `seen` after the matches in `spans`, starting from `seen`. */
  function SeenAfter(text: string, spans: seq<Span>, seen: set<string>, norm: string -> string): set<string> {
    if spans == [] then seen
    else
      var m := spans[|spans| - 1];
      SeenAfter(text, spans[..|spans| - 1], seen, norm) + {norm(Match(text, m))}
  }

  /** The normal forms of the matches in `spans`. */
  function NormSet(text: string, spans: seq<Span>, norm: string -> string): set<string> {
    set i | 0 <= i < |spans| :: norm(Match(text, spans[i]))
  }

  /** `seen` only grows, and by exactly the normal forms of the paragraph's matches. */
  lemma {:induction false} SeenAfterSpec(text: string, spans: seq<Span>, seen: set<string>, norm: string -> string)
    ensures SeenAfter(text, spans, seen, norm) == seen + NormSet(text, spans, norm)
  {
    if spans != [] {
      var front := spans[..|spans| - 1];
      SeenAfterSpec(text, front, seen, norm);
      var n := |spans| - 1;
      assert forall i :: 0 <= i < n ==> front[i] == spans[i];
      assert NormSet(text, spans, norm) == NormSet(text, front, norm) + {norm(Match(text, spans[n]))};
    }
  }

  /** The segments the inner loop appends for the matches in `spans`: before each match the
      text since the previous one, then the match, highlighted when its normal form was
      already seen. */
  function Pieces(text: string, spans: seq<Span>, seen: set<string>, norm: string -> string): seq<Segment> {
    if spans == [] then []
    else
      var n := |spans| - 1;
      Pieces(text, spans[..n], seen, norm) + Gap(text, LastIndex(spans[..n]), spans[n].start) + [MatchSegment(text, spans, n, seen, norm)]
  }

  /** The segment of the `i`-th match: highlighted when its normal form is among those seen
      before it. */
  function MatchSegment(text: string, spans: seq<Span>, i: nat, seen: set<string>, norm: string -> string): Segment
    requires i < |spans|
  {
    var t := Match(text, spans[i]);
    Segment(t, norm(t) in SeenAfter(text, spans[..i], seen, norm))
  }

  /** All the segments of a paragraph, the remainder after the last match included. */
  function ParagraphSegments(text: string, spans: seq<Span>, seen: set<string>, norm: string -> string): seq<Segment> {
    Pieces(text, spans, seen, norm) + Gap(text, LastIndex(spans), |text|)
  }

  /** No segment is empty. */
  predicate NoEmptySegment(segs: seq<Segment>) {
    forall k :: 0 <= k < |segs| ==> segs[k].text != ""
  }

  lemma {:induction false} PiecesNonEmpty(text: string, spans: seq<Span>, seen: set<string>, norm: string -> string)
    requires ValidSpans(text, spans)
    ensures NoEmptySegment(Pieces(text, spans, seen, norm))
  {
    if spans != [] {
      var n := |spans| - 1;
      ValidPrefix(text, spans, n);
      LastIndexBound(text, spans);
      PiecesNonEmpty(text, spans[..n], seen, norm);
      var p := Pieces(text, spans[..n], seen, norm);
      var g := Gap(text, LastIndex(spans[..n]), spans[n].start);
      assert Pieces(text, spans, seen, norm) == p + g + [MatchSegment(text, spans, n, seen, norm)];
    }
  }

  /** Every segment of a paragraph has some text: the gap before a match and the remainder
      are added only when they are not empty. */
  lemma SegmentsNonEmpty(text: string, spans: seq<Span>, seen: set<string>, norm: string -> string)
    requires ValidSpans(text, spans)
    ensures NoEmptySegment(ParagraphSegments(text, spans, seen, norm))
  {
    PiecesNonEmpty(text, spans, seen, norm);
    LastIndexBound(text, spans);
    assert ParagraphSegments(text, spans, seen, norm) == Pieces(text, spans, seen, norm) + Gap(text, LastIndex(spans), |text|);
  }

  /** The text of a list of segments, in order. */
  function Texts(segs: seq<Segment>): string {
    if segs == [] then "" else Texts(segs[..|segs| - 1]) + segs[|segs| - 1].text
  }

  lemma {:induction false} TextsAppend(a: seq<Segment>, b: seq<Segment>)
    ensures Texts(a + b) == Texts(a) + Texts(b)
    decreases |b|
  {
    if b == [] {
      assert a + b == a;
    } else {
      var n := |b| - 1;
      var ab := a + b;
      assert ab != [] && ab[..|ab| - 1] == a + b[..n] && ab[|ab| - 1] == b[n];
      TextsAppend(a, b[..n]);
      assert Texts(ab) == Texts(a + b[..n]) + b[n].text;
      assert Texts(b) == Texts(b[..n]) + b[n].text;
    }
  }

  lemma SliceJoin(s: string, a: nat, b: nat, c: nat)
    requires a <= b <= c <= |s|
    ensures s[a..b] + s[b..c] == s[a..c]
  {
  }

  /** The segments for the matches cover the text up to the end of the last match. */
  lemma {:induction false} PiecesCover(text: string, spans: seq<Span>, seen: set<string>, norm: string -> string)
    requires ValidSpans(text, spans)
    ensures LastIndex(spans) <= |text|
    ensures Texts(Pieces(text, spans, seen, norm)) == text[..LastIndex(spans)]
  {
    LastIndexBound(text, spans);
    if spans != [] {
      var n := |spans| - 1;
      var front := spans[..n];
      var m := spans[n];
      var l := LastIndex(front);
      ValidPrefix(text, spans, n);
      PiecesCover(text, front, seen, norm);
      var g := Gap(text, l, m.start);
      var seg := [MatchSegment(text, spans, n, seen, norm)];
      var p := Pieces(text, front, seen, norm);
      assert Pieces(text, spans, seen, norm) == p + g + seg;
      assert Texts(p + g + seg) == Texts(p) + Texts(g) + Texts(seg) by {
        TextsAppend(p, g);
        TextsAppend(p + g, seg);
      }
      assert Texts(seg) == text[m.start..m.end] by { assert seg[..0] == []; }
      assert Texts(g) == text[l..m.start] by {
        if l < m.start { assert g[..0] == []; }
      }
      assert text[..l] + text[l..m.start] + text[m.start..m.end] == text[..m.end] by {
        SliceJoin(text, 0, l, m.start);
        SliceJoin(text, 0, m.start, m.end);
      }
    }
  }

  /** Joining the segments gives back the paragraph's text. */
  lemma SegmentsCover(text: string, spans: seq<Span>, seen: set<string>, norm: string -> string)
    requires ValidSpans(text, spans)
    ensures Texts(ParagraphSegments(text, spans, seen, norm)) == text
  {
    PiecesCover(text, spans, seen, norm);
    var l := LastIndex(spans);
    var g := Gap(text, l, |text|);
    TextsAppend(Pieces(text, spans, seen, norm), g);
    assert Texts(g) == text[l..] by {
      if l < |text| { assert g[..0] == []; }
    }
    SliceJoin(text, 0, l, |text|);
    assert text[0..|text|] == text;
  }

  /** There are no segments, and the paragraph is left alone, exactly when its text is
      empty. */
  lemma SegmentsEmpty(text: string, spans: seq<Span>, seen: set<string>, norm: string -> string)
    requires ValidSpans(text, spans)
    ensures ParagraphSegments(text, spans, seen, norm) == [] <==> text == ""
  {
    SegmentsCover(text, spans, seen, norm);
    if text == "" {
      assert forall k :: 0 <= k < |spans| ==> spans[k].end <= 0;
    }
  }

  /** `s` is one of the matches, and its normal form was already seen when that match was
      reached. */
  ghost predicate IsRepeat(text: string, spans: seq<Span>, seen: set<string>, s: string, norm: string -> string) {
    exists i :: 0 <= i < |spans| && s == Match(text, spans[i]) && norm(s) in SeenAfter(text, spans[..i], seen, norm)
  }

  /** Every highlighted segment of `segs` is a repeat. */
  ghost predicate RepeatsOnly(text: string, spans: seq<Span>, seen: set<string>, segs: seq<Segment>, norm: string -> string) {
    forall k :: 0 <= k < |segs| && segs[k].highlighted ==> IsRepeat(text, spans, seen, segs[k].text, norm)
  }

  lemma IsRepeatPrefix(text: string, spans: seq<Span>, n: nat, seen: set<string>, s: string, norm: string -> string)
    requires n <= |spans| && IsRepeat(text, spans[..n], seen, s, norm)
    ensures IsRepeat(text, spans, seen, s, norm)
  {
    var i :| 0 <= i < n && s == Match(text, spans[..n][i]) && norm(s) in SeenAfter(text, spans[..n][..i], seen, norm);
    assert spans[..n][..i] == spans[..i];
  }

  /** A highlighted segment is a match whose normal form was seen before it: gaps and
      remainders are never highlighted. */
  lemma HighlightedAreRepeats(text: string, spans: seq<Span>, seen: set<string>, norm: string -> string)
    ensures RepeatsOnly(text, spans, seen, ParagraphSegments(text, spans, seen, norm), norm)
  {
    PiecesRepeats(text, spans, seen, norm);
    var p := Pieces(text, spans, seen, norm);
    var g := Gap(text, LastIndex(spans), |text|);
    var segs := ParagraphSegments(text, spans, seen, norm);
    assert segs == p + g;
    assert RepeatsOnly(text, spans, seen, p, norm);
    forall k | 0 <= k < |segs|
      ensures segs[k].highlighted ==> IsRepeat(text, spans, seen, segs[k].text, norm)
    {
      if k < |p| {
        assert segs[k] == p[k];
      } else {
        assert segs[k] == g[k - |p|];
      }
    }
  }

  lemma {:induction false} PiecesRepeats(text: string, spans: seq<Span>, seen: set<string>, norm: string -> string)
    ensures RepeatsOnly(text, spans, seen, Pieces(text, spans, seen, norm), norm)
  {
    if spans != [] {
      var n := |spans| - 1;
      var front := spans[..n];
      PiecesRepeats(text, front, seen, norm);
        var p := Pieces(text, front, seen, norm);
      var g := Gap(text, LastIndex(front), spans[n].start);
      var segs := Pieces(text, spans, seen, norm);
      assert segs == p + g + [MatchSegment(text, spans, n, seen, norm)];
      assert RepeatsOnly(text, front, seen, p, norm);
      forall k | 0 <= k < |segs|
        ensures segs[k].highlighted ==> IsRepeat(text, spans, seen, segs[k].text, norm)
      {
        if k < |p| {
          assert segs[k] == p[k];
          if p[k].highlighted {
            IsRepeatPrefix(text, spans, n, seen, p[k].text, norm);
          }
        } else if k < |p| + |g| {
          assert segs[k] == g[k - |p|];
        } else {
          assert segs[k] == MatchSegment(text, spans, n, seen, norm);
        }
      }
    }
  }

  /** Every match appears as a segment of its own, highlighted exactly when its normal form
      was seen before it. */
  lemma MatchesAppear(text: string, spans: seq<Span>, seen: set<string>, norm: string -> string)
    ensures forall i :: 0 <= i < |spans| ==> MatchSegment(text, spans, i, seen, norm) in ParagraphSegments(text, spans, seen, norm)
  {
    PiecesAppear(text, spans, seen, norm);
  }

  lemma {:induction false} PiecesAppear(text: string, spans: seq<Span>, seen: set<string>, norm: string -> string)
    ensures forall i :: 0 <= i < |spans| ==> MatchSegment(text, spans, i, seen, norm) in Pieces(text, spans, seen, norm)
  {
    if spans != [] {
      var n := |spans| - 1;
      var front := spans[..n];
      PiecesAppear(text, front, seen, norm);
        var p := Pieces(text, front, seen, norm);
      var segs := Pieces(text, spans, seen, norm);
      assert segs == p + Gap(text, LastIndex(front), spans[n].start) + [MatchSegment(text, spans, n, seen, norm)];
      forall i | 0 <= i < n
        ensures MatchSegment(text, spans, i, seen, norm) in segs
      {
        assert front[i] == spans[i] && front[..i] == spans[..i];
        assert MatchSegment(text, front, i, seen, norm) == MatchSegment(text, spans, i, seen, norm);
        assert MatchSegment(text, front, i, seen, norm) in p;
      }
    }
  }

  /** One more match: the segments, `seen` and `last_index` after `spans[..k + 1]`. */
  lemma PiecesStep(text: string, spans: seq<Span>, k: nat, seen: set<string>, norm: string -> string)
    requires ValidSpans(text, spans) && k < |spans|
    ensures ValidSpans(text, spans[..k]) && ValidSpans(text, spans[..k + 1])
    ensures LastIndex(spans[..k]) <= spans[k].start && LastIndex(spans[..k + 1]) == spans[k].end
    ensures Pieces(text, spans[..k + 1], seen, norm) ==
      Pieces(text, spans[..k], seen, norm) + Gap(text, LastIndex(spans[..k]), spans[k].start) + [MatchSegment(text, spans, k, seen, norm)]
    ensures SeenAfter(text, spans[..k + 1], seen, norm) == SeenAfter(text, spans[..k], seen, norm) + {norm(Match(text, spans[k]))}
  {
    ValidPrefix(text, spans, k);
    ValidPrefix(text, spans, k + 1);
    var s := spans[..k + 1];
    assert s[..k] == spans[..k];
    assert s[k] == spans[k];
    LastIndexBound(text, s);
    assert MatchSegment(text, s, k, seen, norm) == MatchSegment(text, spans, k, seen, norm);
  }

  /** The segment of the `k`-th match, spelled out. */
  lemma MatchSegmentAt(text: string, spans: seq<Span>, k: nat, seen: set<string>, norm: string -> string)
    requires ValidSpans(text, spans) && k < |spans|
    ensures var t := text[spans[k].start..spans[k].end];
      MatchSegment(text, spans, k, seen, norm) == Segment(t, norm(t) in SeenAfter(text, spans[..k], seen, norm))
  {
  }

  /** One iteration of the match loop: the `k`-th match lies after the previous one, and
      adds the gap before it and its own segment, highlighted when its normal form was
      already seen. */
  lemma ScanStep(text: string, spans: seq<Span>, k: nat, seen: set<string>, lastIndex: nat)
    requires ValidSpans(text, spans) && k < |spans| && lastIndex == LastIndex(spans[..k])
    ensures lastIndex <= spans[k].start < spans[k].end <= |text|
    ensures spans[k].end == LastIndex(spans[..k + 1])
    ensures var m := spans[k];
      var expr := text[m.start..m.end];
      Pieces(text, spans[..k + 1], seen, Normalize) ==
        Pieces(text, spans[..k], seen, Normalize) + Gap(text, lastIndex, m.start) +
        [Segment(expr, Normalize(expr) in SeenAfter(text, spans[..k], seen, Normalize))] &&
      SeenAfter(text, spans[..k + 1], seen, Normalize) == SeenAfter(text, spans[..k], seen, Normalize) + {Normalize(expr)}
  {
    PiecesStep(text, spans, k, seen, Normalize);
    MatchSegmentAt(text, spans, k, seen, Normalize);
  }

  /** The body of the match loop for the match `m`: the text between the previous match
      and `m`, if any, then `m` itself, highlighted exactly when its normal form is in
      `seen`, which then holds that normal form. */
  method AddMatch(text: string, m: Span, runs: seq<Segment>, seen: set<string>, lastIndex: nat)
    returns (runs': seq<Segment>, seen': set<string>)
    requires lastIndex <= m.start < m.end <= |text|
    ensures var expr := text[m.start..m.end];
      runs' == runs + Gap(text, lastIndex, m.start) + [Segment(expr, Normalize(expr) in seen)] &&
      seen' == seen + {Normalize(expr)}
  {
    var expr := text[m.start..m.end];
    var normExpr := Normalize(expr);
    runs' := runs;
    if m.start > lastIndex {
      runs' := runs' + [Segment(text[lastIndex..m.start], false)];
    }
    assert runs' == runs + Gap(text, lastIndex, m.start);
    seen' := seen;
    if normExpr in seen {
      runs' := runs' + [Segment(text[m.start..m.end], true)];
    } else {
      runs' := runs' + [Segment(text[m.start..m.end], false)];
      seen' := seen' + {normExpr};
    }
  }

  /** The inner loop over one paragraph's matches: the runs up to the end of the last
      match, `seen` after them, and `last_index`. */
  method ScanMatches(text: string, spans: seq<Span>, seen0: set<string>)
    returns (newRuns: seq<Segment>, seen: set<string>, lastIndex: nat)
    requires ValidSpans(text, spans)
    ensures newRuns == Pieces(text, spans, seen0, Normalize)
    ensures seen == SeenAfter(text, spans, seen0, Normalize)
    ensures lastIndex == LastIndex(spans) <= |text|
  {
    newRuns := [];
    seen := seen0;
    lastIndex := 0;
    var k := 0;
    while k < |spans|
      invariant 0 <= k <= |spans|
      invariant lastIndex == LastIndex(spans[..k])
      invariant newRuns == Pieces(text, spans[..k], seen0, Normalize)
      invariant seen == SeenAfter(text, spans[..k], seen0, Normalize)
    {
      ScanStep(text, spans, k, seen0, lastIndex);
      newRuns, seen := AddMatch(text, spans[k], newRuns, seen, lastIndex);
      lastIndex := spans[k].end;
      k := k + 1;
    }
    assert spans[..k] == spans;
    LastIndexBound(text, spans);
  }

  /** One paragraph: its matches, then the remaining text. */
  method HighlightParagraph(text: string, spans: seq<Span>, seen0: set<string>)
    returns (newRuns: seq<Segment>, seen: set<string>)
    requires ValidSpans(text, spans)
    ensures newRuns == ParagraphSegments(text, spans, seen0, Normalize)
    ensures seen == SeenAfter(text, spans, seen0, Normalize)
  {
    var lastIndex;
    newRuns, seen, lastIndex := ScanMatches(text, spans, seen0);
    ghost var pieces := newRuns;
    if lastIndex < |text| {
      newRuns := newRuns + [Segment(text[lastIndex..], false)];
      assert text[lastIndex..] == text[lastIndex..|text|];
    } else {
      assert pieces + [] == pieces;
    }
  }

  /** `seen` after the paragraphs in `paras`, starting from the empty set. */
  function DocSeen(paras: seq<Para>, norm: string -> string): set<string> {
    if paras == [] then {}
    else
      var last := paras[|paras| - 1];
      SeenAfter(last.text, last.spans, DocSeen(paras[..|paras| - 1], norm), norm)
  }

  /** The document-wide `seen` holds the normal form of every match in every paragraph,
      and nothing else. */
  lemma {:induction false} DocSeenSpec(paras: seq<Para>, norm: string -> string)
    ensures forall x :: x in DocSeen(paras, norm) <==>
      exists p :: 0 <= p < |paras| && x in NormSet(paras[p].text, paras[p].spans, norm)
  {
    if paras != [] {
      var n := |paras| - 1;
      var front := paras[..n];
      DocSeenSpec(front, norm);
      SeenAfterSpec(paras[n].text, paras[n].spans, DocSeen(front, norm), norm);
      assert forall p :: 0 <= p < n ==> front[p] == paras[p];
    }
  }

  /** A paragraph's new runs, or `None` when it has none and is left as it was. */
  function Rebuild(segs: seq<Segment>): Option<seq<Segment>> {
    if segs == [] then None else Some(segs)
  }

  /** What the outer loop does to each paragraph, `seen` carried from one to the next. */
  function Rebuilt(paras: seq<Para>, norm: string -> string): (r: seq<Option<seq<Segment>>>)
    ensures |r| == |paras|
  {
    if paras == [] then []
    else
      var n := |paras| - 1;
      Rebuilt(paras[..n], norm) + [Rebuild(ParagraphSegments(paras[n].text, paras[n].spans, DocSeen(paras[..n], norm), norm))]
  }

  /** The paragraphs before the `p`-th have valid matches as well. */
  lemma ValidParasPrefix(paras: seq<Para>, p: nat)
    requires ValidParas(paras) && p <= |paras|
    ensures ValidParas(paras[..p])
  {
    assert forall i :: 0 <= i < p ==> paras[..p][i] == paras[i];
  }

  /** One more paragraph: the rebuilt paragraphs and `seen` after `paras[..p + 1]`. */
  lemma DocStep(paras: seq<Para>, p: nat, norm: string -> string)
    requires p < |paras|
    ensures DocSeen(paras[..p + 1], norm) == SeenAfter(paras[p].text, paras[p].spans, DocSeen(paras[..p], norm), norm)
    ensures Rebuilt(paras[..p + 1], norm) ==
      Rebuilt(paras[..p], norm) + [Rebuild(ParagraphSegments(paras[p].text, paras[p].spans, DocSeen(paras[..p], norm), norm))]
  {
    var q := paras[..p + 1];
    assert q[..p] == paras[..p];
    assert q[p] == paras[p];
  }

  /** Paragraph `p` is cut by its own matches and highlighted against the normal forms of
      the matches in the paragraphs before it. */
  lemma {:induction false} RebuiltAt(paras: seq<Para>, p: nat, norm: string -> string)
    requires p < |paras|
    ensures Rebuilt(paras, norm)[p] == Rebuild(ParagraphSegments(paras[p].text, paras[p].spans, DocSeen(paras[..p], norm), norm))
    decreases |paras|
  {
    var n := |paras| - 1;
    var front := paras[..n];
    var last := Rebuild(ParagraphSegments(paras[n].text, paras[n].spans, DocSeen(front, norm), norm));
    assert Rebuilt(paras, norm) == Rebuilt(front, norm) + [last];
    if p < n {
      assert front[p] == paras[p] && front[..p] == paras[..p];
      assert Rebuilt(front, norm)[p] == Rebuild(ParagraphSegments(paras[p].text, paras[p].spans, DocSeen(paras[..p], norm), norm)) by {
        RebuiltAt(front, p, norm);
      }
    }
  }

  /** Only a paragraph with empty text is left as it was. */
  lemma RebuiltNone(paras: seq<Para>, p: nat, norm: string -> string)
    requires ValidParas(paras) && p < |paras|
    ensures Rebuilt(paras, norm)[p] == None <==> paras[p].text == ""
  {
    RebuiltAt(paras, p, norm);
    SegmentsEmpty(paras[p].text, paras[p].spans, DocSeen(paras[..p], norm), norm);
  }

  /** The outer loop over the document's paragraphs. */
  method HighlightDocument(paras: seq<Para>) returns (rebuilt: seq<Option<seq<Segment>>>, seen: set<string>)
    requires ValidParas(paras)
    ensures rebuilt == Rebuilt(paras, Normalize)
    ensures seen == DocSeen(paras, Normalize)
  {
    seen := {};
    rebuilt := [];
    var p := 0;
    while p < |paras|
      invariant 0 <= p <= |paras|
      invariant ValidParas(paras[..p])
      invariant rebuilt == Rebuilt(paras[..p], Normalize)
      invariant seen == DocSeen(paras[..p], Normalize)
    {
      DocStep(paras, p, Normalize);
      var para := paras[p];
      var newRuns;
      newRuns, seen := HighlightParagraph(para.text, para.spans, seen);
      if newRuns != [] {
        rebuilt := rebuilt + [Some(newRuns)];
      } else {
        rebuilt := rebuilt + [None];
      }
      p := p + 1;
    }
    assert paras[..p] == paras;
  }
}
