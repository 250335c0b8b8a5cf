/** Term highlighting and the excerpt window of gmtui/src/ui.rs. Case folding is
    per character and keeps positions, so the folded text lines up with the text. */
module Highlight {
  import opened Common

  datatype Span = Span(text: string, hl: bool)

  function LcChars(lower: char -> char, chars: string): (lc: string)
    ensures |lc| == |chars| && forall i :: 0 <= i < |lc| ==> lc[i] == lower(chars[i])
  {
    seq(|chars|, i requires 0 <= i < |chars| => lower(chars[i]))
  }

  predicate OccursAt(lc: string, i: nat, t: string) {
    t != "" && i + |t| <= |lc| && lc[i..i + |t|] == t
  }

  /** A term occurs where the text can be split around it. */
  lemma OccurrenceIff(lc: string, i: nat, t: string)
    ensures OccursAt(lc, i, t) <==> t != "" && exists before, after :: |before| == i && lc == before + t + after
  {
    if OccursAt(lc, i, t) {
      assert lc == lc[..i] + t + lc[i + |t|..];
    }
    if before, after :| t != "" && |before| == i && lc == before + t + after {
      assert (before + t + after)[i..i + |t|] == t;
    }
  }

  /** The length of the first term, in list order, that occurs at i. */
  function MatchLenAt(lc: string, i: nat, terms: seq<string>): (r: Option<nat>)
    ensures r.Some? ==> 0 < r.value && i + r.value <= |lc|
  {
    if terms == [] then None
    else if OccursAt(lc, i, terms[0]) then Some(|terms[0]|)
    else MatchLenAt(lc, i, terms[1..])
  }

  lemma {:induction false} MatchLenMeaning(lc: string, i: nat, terms: seq<string>)
    ensures var r := MatchLenAt(lc, i, terms);
            && (r.None? <==> forall t :: t in terms ==> !OccursAt(lc, i, t))
            && (r.Some? ==> exists t :: t in terms && OccursAt(lc, i, t) && |t| == r.value)
  {
    if terms != [] {
      hide OccursAt;
      assert terms == [terms[0]] + terms[1..];
      MatchLenMeaning(lc, i, terms[1..]);
    }
  }

  /** Which characters from i on are highlighted: a match is taken whole and the
      scan goes on after it. */
  function Marks(lc: string, terms: seq<string>, i: nat): (m: seq<bool>)
    requires i <= |lc|
    ensures |m| == |lc| - i
    decreases |lc| - i
  {
    if i == |lc| then []
    else
      var n := MatchLenAt(lc, i, terms);
      if n.Some? then Repeat(true, n.value) + Marks(lc, terms, i + n.value)
      else [false] + Marks(lc, terms, i + 1)
  }

  function Repeat(b: bool, n: nat): (r: seq<bool>)
    ensures |r| == n
  {
    seq(n, i requires 0 <= i < n => b)
  }

  function SpanText(spans: seq<Span>): string {
    if spans == [] then "" else SpanText(spans[..|spans| - 1]) + spans[|spans| - 1].text
  }

  function SpanMarks(spans: seq<Span>): seq<bool> {
    if spans == [] then []
    else SpanMarks(spans[..|spans| - 1]) + Repeat(spans[|spans| - 1].hl, |spans[|spans| - 1].text|)
  }

  /** No empty span, and neighbours differ in style. */
  predicate Normal(spans: seq<Span>) {
    && (forall i :: 0 <= i < |spans| ==> spans[i].text != "")
    && forall i :: 0 < i < |spans| ==> spans[i - 1].hl != spans[i].hl
  }

  method Flush(spans: seq<Span>, run: string, hl: bool) returns (r: seq<Span>)
    requires Normal(spans) && (spans != [] ==> run != "" && spans[|spans| - 1].hl != hl)
    ensures Normal(r) && SpanText(r) == SpanText(spans) + run
    ensures SpanMarks(r) == SpanMarks(spans) + Repeat(hl, |run|)
    ensures r != [] ==> r[|r| - 1].hl == hl
  {
    if run == "" {
      return spans;
    }
    return spans + [Span(run, hl)];
  }

  predicate TextAt(spans: seq<Span>, run: string, text: string, i: nat) {
    i <= |text| && SpanText(spans) + run == text[..i]
  }

  predicate MarksAt(spans: seq<Span>, hl: bool, n: nat, lc: string, terms: seq<string>, i: nat) {
    i <= |lc| && SpanMarks(spans) + Repeat(hl, n) + Marks(lc, terms, i) == Marks(lc, terms, 0)
  }

  /** Where the scan stands before character i. */
  ghost predicate Scanned(text: string, lc: string, terms: seq<string>, spans: seq<Span>, run: string, hl: bool, i: nat) {
    && i <= |text| == |lc| && TextAt(spans, run, text, i) && MarksAt(spans, hl, |run|, lc, terms, i)
    && Normal(spans)
    && (spans != [] ==> run != "" && spans[|spans| - 1].hl != hl)
  }

  /** After an optional flush, the run has the style of the next character. */
  ghost predicate Ready(text: string, lc: string, terms: seq<string>, spans: seq<Span>, run: string, hl: bool, i: nat) {
    && i < |text| == |lc| && hl == MatchLenAt(lc, i, terms).Some?
    && TextAt(spans, run, text, i) && MarksAt(spans, hl, |run|, lc, terms, i)
    && Normal(spans)
    && (spans != [] ==> spans[|spans| - 1].hl != hl)
  }

  lemma Flushed(text: string, lc: string, terms: seq<string>, spans: seq<Span>, run: string, hl: bool, i: nat, r: seq<Span>)
    requires Scanned(text, lc, terms, spans, run, hl, i) && i < |text| && hl != MatchLenAt(lc, i, terms).Some?
    requires Normal(r) && SpanText(r) == SpanText(spans) + run
    requires SpanMarks(r) == SpanMarks(spans) + Repeat(hl, |run|)
    requires r != [] ==> r[|r| - 1].hl == hl
    ensures Ready(text, lc, terms, r, "", !hl, i)
  {
    hide SpanText, SpanMarks, Marks, Normal, MatchLenAt;
    assert SpanText(r) + "" == SpanText(r);
    assert SpanMarks(r) + Repeat(!hl, 0) == SpanMarks(r);
  }

  lemma Taken(text: string, lc: string, terms: seq<string>, spans: seq<Span>, run: string, hl: bool, i: nat)
    requires Ready(text, lc, terms, spans, run, hl, i)
    ensures var m := MatchLenAt(lc, i, terms);
            var take := if m.Some? then m.value else 1;
            Scanned(text, lc, terms, spans, run + text[i..i + take], hl, i + take)
  {
    hide MatchLenAt, Normal, TextAt, MarksAt, SpanText, SpanMarks, Marks, Repeat, Scanned;
    var m := MatchLenAt(lc, i, terms);
    var take := if m.Some? then m.value else 1;
    TakenMarks(spans, |run|, lc, terms, i);
    TakenText(spans, run, text, i, take);
    ScannedParts(text, lc, terms, spans, run + text[i..i + take], hl, i + take);
  }

  lemma ScannedParts(text: string, lc: string, terms: seq<string>, spans: seq<Span>, run: string, hl: bool, i: nat)
    requires i <= |text| == |lc| && TextAt(spans, run, text, i) && MarksAt(spans, hl, |run|, lc, terms, i)
    requires Normal(spans) && run != "" && (spans != [] ==> spans[|spans| - 1].hl != hl)
    ensures Scanned(text, lc, terms, spans, run, hl, i)
  {
  }

  lemma TakenText(spans: seq<Span>, run: string, text: string, i: nat, n: nat)
    requires i + n <= |text| && TextAt(spans, run, text, i)
    ensures TextAt(spans, run + text[i..i + n], text, i + n)
  {
    hide SpanText;
    assert text[..i + n] == text[..i] + text[i..i + n];
    assert SpanText(spans) + run + text[i..i + n] == SpanText(spans) + (run + text[i..i + n]);
  }

  lemma TakenMarks(spans: seq<Span>, n: nat, lc: string, terms: seq<string>, i: nat)
    requires i < |lc| && MarksAt(spans, MatchLenAt(lc, i, terms).Some?, n, lc, terms, i)
    ensures var m := MatchLenAt(lc, i, terms);
            var take := if m.Some? then m.value else 1;
            MarksAt(spans, m.Some?, n + take, lc, terms, i + take)
  {
    hide Marks, MatchLenAt, SpanMarks, Repeat;
    var m := MatchLenAt(lc, i, terms);
    var take := if m.Some? then m.value else 1;
    MarksStep(lc, terms, i);
    RepeatCat(m.Some?, n, take);
  }

  lemma MarksStep(lc: string, terms: seq<string>, i: nat)
    requires i < |lc|
    ensures var m := MatchLenAt(lc, i, terms);
            var take := if m.Some? then m.value else 1;
            Marks(lc, terms, i) == Repeat(m.Some?, take) + Marks(lc, terms, i + take)
  {
    hide MatchLenAt;
  }

  lemma RepeatCat(b: bool, m: nat, n: nat)
    ensures Repeat(b, m) + Repeat(b, n) == Repeat(b, m + n)
  {
  }

  /** The spans spell the text, mark exactly the characters the scan marks, and
      are in normal form. */
  method HighlightSpans(text: string, lower: char -> char, terms: seq<string>) returns (spans: seq<Span>)
    ensures SpanText(spans) == text
    ensures SpanMarks(spans) == Marks(LcChars(lower, text), terms, 0)
    ensures Normal(spans)
  {
    var lc := LcChars(lower, text);
    spans := [];
    var run, runHl, i := "", false, 0;
    assert Scanned(text, lc, terms, spans, run, runHl, i);
    hide SpanText, SpanMarks, Marks, Normal, MatchLenAt;
    while i < |text|
      invariant Scanned(text, lc, terms, spans, run, runHl, i)
    {
      var hlLen := MatchLenAt(lc, i, terms);
      var hl := hlLen.Some?;
      if hl != runHl {
        var flushed := Flush(spans, run, runHl);
        Flushed(text, lc, terms, spans, run, runHl, i, flushed);
        spans, run, runHl := flushed, "", hl;
      }
      var take := if hlLen.Some? then hlLen.value else 1;
      Taken(text, lc, terms, spans, run, runHl, i);
      run := run + text[i..i + take];
      i := i + take;
    }
    assert text[..|text|] == text;
    assert Marks(lc, terms, |text|) == [];
    spans := Flush(spans, run, runHl);
  }

  // ---- what the marks mean ----

  /** Every highlighted character lies inside an occurrence of some term. */
  lemma {:induction false} MarkedIsInsideATerm(lc: string, terms: seq<string>, i: nat, p: nat)
    requires i <= p < |lc| && Marks(lc, terms, i)[p - i]
    ensures exists s: nat, t :: i <= s <= p < s + |t| && t in terms && OccursAt(lc, s, t)
    decreases |lc| - i
  {
    MatchLenMeaning(lc, i, terms);
    hide OccursAt, MatchLenAt;
    var n := MatchLenAt(lc, i, terms);
    var take := if n.Some? then n.value else 1;
    if p >= i + take {
      MarkedIsInsideATerm(lc, terms, i + take, p);
    } else {
      var t :| t in terms && OccursAt(lc, i, t) && |t| == n.value;
      assert i <= i <= p < i + |t|;
    }
  }

  /** The first character of every occurrence of every term is highlighted. */
  lemma {:induction false} OccurrenceIsMarked(lc: string, terms: seq<string>, i: nat, p: nat, t: string)
    requires i <= p < |lc| && t in terms && OccursAt(lc, p, t)
    ensures Marks(lc, terms, i)[p - i]
    decreases |lc| - i
  {
    MatchLenMeaning(lc, i, terms);
    hide OccursAt, MatchLenAt;
    var n := MatchLenAt(lc, i, terms);
    var take := if n.Some? then n.value else 1;
    if p >= i + take {
      OccurrenceIsMarked(lc, terms, i + take, p, t);
    }
  }

  /** Spans in normal form are determined by the text and the marks. */
  lemma {:induction false} NormalSpansAreUnique(a: seq<Span>, b: seq<Span>)
    requires Normal(a) && Normal(b) && SpanText(a) == SpanText(b) && SpanMarks(a) == SpanMarks(b)
    ensures a == b
    decreases |a| + |b|
  {
    hide SpanMarks, Normal;
    SameLength(a);
    SameLength(b);
    if a != [] && b != [] {
      var x, y := a[|a| - 1], b[|b| - 1];
      if |x.text| > |y.text| {
        LongerLastSpan(a, b);
      } else if |x.text| < |y.text| {
        LongerLastSpan(b, a);
      } else {
        LastSpans(a, b);
        NormalSpansAreUnique(a[..|a| - 1], b[..|b| - 1]);
        assert a == a[..|a| - 1] + [x] && b == b[..|b| - 1] + [y];
      }
    }
  }

  /** Last spans of one length are equal, and so are the text and marks before them. */
  lemma LastSpans(a: seq<Span>, b: seq<Span>)
    requires Normal(a) && Normal(b) && a != [] && b != []
    requires SpanText(a) == SpanText(b) && SpanMarks(a) == SpanMarks(b)
    requires |a[|a| - 1].text| == |b[|b| - 1].text|
    ensures a[|a| - 1] == b[|b| - 1]
    ensures SpanText(a[..|a| - 1]) == SpanText(b[..|b| - 1]) && SpanMarks(a[..|a| - 1]) == SpanMarks(b[..|b| - 1])
    ensures Normal(a[..|a| - 1]) && Normal(b[..|b| - 1])
  {
    hide SpanText, SpanMarks, Repeat, Normal;
    var x, y := a[|a| - 1], b[|b| - 1];
    var n := |x.text|;
    LastAdds(a);
    LastAdds(b);
    SplitEnd(SpanText(a[..|a| - 1]), x.text, SpanText(b[..|b| - 1]), y.text);
    SplitEnd(SpanMarks(a[..|a| - 1]), Repeat(x.hl, n), SpanMarks(b[..|b| - 1]), Repeat(y.hl, n));
    RepeatFirst(x.hl, n);
    RepeatFirst(y.hl, n);
  }

  lemma RepeatFirst(b: bool, n: nat)
    ensures n > 0 ==> Repeat(b, n)[0] == b
  {
  }

  lemma LastAdds(a: seq<Span>)
    requires a != [] && Normal(a)
    ensures var c, x := a[..|a| - 1], a[|a| - 1];
      && SpanText(a) == SpanText(c) + x.text && SpanMarks(a) == SpanMarks(c) + Repeat(x.hl, |x.text|)
      && Normal(c) && x.text != ""
  {
  }

  lemma SplitEnd<T>(u: seq<T>, v: seq<T>, w: seq<T>, z: seq<T>)
    requires u + v == w + z && |v| == |z|
    ensures u == w && v == z
  {
    assert (u + v)[..|u|] == u && (w + z)[..|w|] == w;
    assert (u + v)[|u|..] == v && (w + z)[|w|..] == z;
  }

  lemma {:induction false} SameLength(a: seq<Span>)
    ensures |SpanMarks(a)| == |SpanText(a)|
    ensures Normal(a) && a != [] ==> SpanText(a) != ""
  {
    if a != [] {
      SameLength(a[..|a| - 1]);
    }
  }

  /** The marks of the last span, and the one just before it. */
  lemma LastMarks(b: seq<Span>)
    requires Normal(b) && b != []
    ensures var m, y := SpanMarks(b), b[|b| - 1];
            && 0 < |y.text| <= |m| && m[|m| - 1] == y.hl && (forall k :: |m| - |y.text| <= k < |m| ==> m[k] == y.hl)
            && (|y.text| < |m| ==> m[|m| - |y.text| - 1] != y.hl)
  {
    var c := b[..|b| - 1];
    if c != [] {
      assert c[|c| - 1].text != "" && SpanMarks(c)[|SpanMarks(c)| - 1] == c[|c| - 1].hl;
    }
  }

  /** Two last spans cannot differ in length: the marks change where the shorter one starts. */
  lemma LongerLastSpan(a: seq<Span>, b: seq<Span>)
    requires Normal(a) && Normal(b) && a != [] && b != []
    requires SpanText(a) == SpanText(b) && SpanMarks(a) == SpanMarks(b)
    ensures |a[|a| - 1].text| <= |b[|b| - 1].text|
  {
    LastMarks(a);
    LastMarks(b);
  }

  // ---- the excerpt window ----

  function Max(a: int, b: int): int {
    if a > b then a else b
  }

  function Min(a: int, b: int): int {
    if a < b then a else b
  }

  /** How many characters an excerpt may hold: never less than 24. */
  function Budget(width: nat, maxLines: nat): (b: nat)
    ensures b >= 24 && (maxLines >= 1 ==> b >= width)
  {
    assert maxLines >= 1 ==> width * maxLines >= width;
    Max(width * maxLines, 24)
  }

  ghost predicate SomeTermAt(lc: string, i: nat, terms: seq<string>) {
    exists t :: t in terms && OccursAt(lc, i, t)
  }

  method FirstMatch(lc: string, terms: seq<string>) returns (first: Option<nat>)
    ensures first.None? ==> forall i :: 0 <= i < |lc| ==> !SomeTermAt(lc, i, terms)
    ensures first.Some? ==>
              && first.value < |lc| && SomeTermAt(lc, first.value, terms)
              && forall i :: 0 <= i < first.value ==> !SomeTermAt(lc, i, terms)
  {
    for i := 0 to |lc|
      invariant forall k :: 0 <= k < i ==> !SomeTermAt(lc, k, terms)
    {
      MatchLenMeaning(lc, i, terms);
      if MatchLenAt(lc, i, terms).Some? {
        return Some(i);
      }
    }
    return None;
  }

  /** The part of a body that excerpt_lines shows: cut around the earliest match,
      starting at a word boundary if one is near. With at least one line the
      start of that match is always inside the window. */
  method ExcerptWindow(chars: string, lower: char -> char, terms: seq<string>, width: nat, maxLines: nat)
    returns (first: Option<nat>, start: nat, end: nat)
    ensures var lc := LcChars(lower, chars);
            if first.None? then forall i :: 0 <= i < |lc| ==> !SomeTermAt(lc, i, terms)
            else SomeTermAt(lc, first.value, terms) && forall i :: 0 <= i < first.value ==> !SomeTermAt(lc, i, terms)
    ensures start <= end <= |chars|
    ensures end == Min(start + Max(width * maxLines, 24), |chars|)
    ensures first.None? ==> start == 0
    ensures first.Some? ==>
              && first.value - width / 3 - 12 <= start <= Max(first.value - width / 3, 0)
              && (start > 0 ==> chars[start - 1] == ' ' || start == first.value - width / 3 - 12)
              && (forall k :: start <= k < first.value - width / 3 ==> chars[k] != ' ')
    ensures first.Some? && maxLines >= 1 ==> start <= first.value < end
  {
    first := FirstMatch(LcChars(lower, chars), terms);
    var budget := Budget(width, maxLines);
    start := if first.Some? then Max(first.value - width / 3, 0) else 0;
    ghost var start0 := start;
    var limit := Max(start - 12, 0);
    while start > limit && start > 0 && chars[start - 1] != ' '
      invariant limit <= start <= start0
      invariant forall k :: start <= k < start0 ==> chars[k] != ' '
    {
      start := start - 1;
    }
    end := Min(start + budget, |chars|);
  }
}
