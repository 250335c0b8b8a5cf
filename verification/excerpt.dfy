/** The lines that excerpt_lines of gmtui/src/ui.rs keeps: the window of a body is
    trimmed, wrapped, and cut to so many lines. */
module Excerpt {
  import opened Common
  import opened Highlight
  import opened Wrap
  import opened Placement

  /** The lines of a text that are kept. */
  function FirstLines(text: string, width: nat, maxLines: nat): seq<string> {
    var lines := if width == 0 then [text] else Lines(text, width);
    if |lines| > maxLines then lines[..maxLines] else lines
  }

  /** Where trimming leaves off at the left, and at the right. */
  function TrimFrom(isSpace: char -> bool, s: string, from: nat, upto: nat): (r: nat)
    requires from <= upto <= |s|
    ensures from <= r <= upto && (r < upto ==> !isSpace(s[r])) && forall i :: from <= i < r ==> isSpace(s[i])
    decreases upto - from
  {
    if from < upto && isSpace(s[from]) then TrimFrom(isSpace, s, from + 1, upto) else from
  }

  function TrimTo(isSpace: char -> bool, s: string, from: nat, upto: nat): (r: nat)
    requires from <= upto <= |s|
    ensures from <= r <= upto && (from < r ==> !isSpace(s[r - 1])) && forall i :: r <= i < upto ==> isSpace(s[i])
  {
    if from < upto && isSpace(s[upto - 1]) then TrimTo(isSpace, s, from, upto - 1) else upto
  }

  lemma LinesSeeAll(lines: seq<string>, s: string, width: nat)
    requires if width == 0 then lines == [s] else Wrapped(lines, s, width)
    ensures Seen(lines) == NonSpace(s)
  {
    if width == 0 {
      assert [s][1..] == [] && Flatten([s]) == s + Flatten([]) && s + "" == s;
    } else {
      NothingLost(s, lines, width);
    }
  }

  lemma FirstLinesSee(lines: seq<string>, n: nat)
    requires n <= |lines|
    ensures Seen(lines[..n]) <= Seen(lines)
  {
    assert lines == lines[..n] + lines[n..];
    FlattenCat(lines[..n], lines[n..]);
    NonSpaceCat(Flatten(lines[..n]), Flatten(lines[n..]));
  }

  /** A word's end comes so soon after place f that it is on the first line wherever the
      window may start. */
  ghost predicate WordEndsNear(chars: string, f: nat, width: nat) {
    exists e :: f < e <= |chars| && e - f + width / 3 + 12 <= width && (e == |chars| || chars[e] == ' ')
  }

  /** What is shown of a body: the lines kept, and the part of the body they come from,
      which holds the start of the earliest match. They show the first non-space
      characters of that part, all of them unless lines were cut off; and the start of
      the match is surely among them if the word it is in ends soon enough. */
  method ExcerptLines(
    isSpace: char -> bool, chars: string, lower: char -> char, terms: seq<string>, width: nat, maxLines: nat)
    returns (kept: seq<string>, first: Option<nat>, from: nat, upto: nat, ghost start: nat)
    ensures |kept| <= maxLines && from <= upto <= |chars|
    ensures kept == if chars == "" then [] else FirstLines(chars[from..upto], width, maxLines)
    ensures width > 0 ==> forall i :: 0 <= i < |kept| ==> |kept[i]| <= width
    ensures Seen(kept) <= NonSpace(chars[from..upto])
    ensures |kept| < maxLines ==> Seen(kept) == NonSpace(chars[from..upto])
    ensures first.Some? ==> first.value < |chars| && SomeTermAt(LcChars(lower, chars), first.value, terms)
    ensures forall i :: 0 <= i < (if first.Some? then first.value else |chars|) ==>
      !SomeTermAt(LcChars(lower, chars), i, terms)
    ensures first.Some? && maxLines >= 1 && !isSpace(chars[first.value]) ==> from <= first.value < upto
    ensures start <= from && forall i :: start <= i < from ==> isSpace(chars[i])
    ensures first.Some? && start > 0 ==> start == first.value - width / 3 - 12 || chars[start - 1] == ' '
    ensures first.Some? ==> start <= Max(first.value - width / 3, 0)
    ensures first.Some? && maxLines >= 1 && isSpace(' ') && !isSpace(chars[first.value])
              && WordEndsNear(chars, first.value, width) ==>
              from <= first.value < upto && IsSeen(kept, chars[from..upto], first.value - from)
  {
    hide Wrapped, SomeTermAt, WordEndsNear, IsSeen, FirstLines, Seen, NonSpace, Lines, Budget, Min, LcChars, TrimFrom, TrimTo;
    if chars == "" {
      NothingShown();
      return [], None, 0, 0, 0;
    }
    var begin, end;
    first, begin, end := ExcerptWindow(chars, lower, terms, width, maxLines);
    FoundInside(chars, lower, terms, first);
    start := begin;
    from := TrimFrom(isSpace, chars, begin, end);
    upto := TrimTo(isSpace, chars, from, end);
    var lines := WrapText(chars[from..upto], width);
    KeptFacts(lines, chars[from..upto], width, maxLines);
    kept := if |lines| > maxLines then lines[..maxLines] else lines;
    if first.Some? && maxLines >= 1 && isSpace(' ') && !isSpace(chars[first.value]) {
      NearMatch(chars, first.value, from, upto, width, maxLines);
    }
  }

  lemma NothingShown()
    ensures Seen([]) == "" == NonSpace(""[0..0])
  {
  }

  lemma KeptFacts(lines: seq<string>, text: string, width: nat, maxLines: nat)
    requires if width == 0 then lines == [text] else Wrapped(lines, text, width) && lines == Lines(text, width)
    ensures var kept := if |lines| > maxLines then lines[..maxLines] else lines;
      && kept == FirstLines(text, width, maxLines) && |kept| <= maxLines
      && (width > 0 ==> forall i :: 0 <= i < |kept| ==> |kept[i]| <= width)
      && Seen(kept) <= NonSpace(text) && (|kept| < maxLines ==> Seen(kept) == NonSpace(text))
  {
    hide Wrapped, Seen, NonSpace, Lines;
    LinesSeeAll(lines, text, width);
    WidthsKept(lines, text, width);
    if |lines| > maxLines {
      FirstLinesSee(lines, maxLines);
    }
  }

  lemma NearMatch(chars: string, f: nat, from: nat, upto: nat, width: nat, maxLines: nat)
    requires from <= f < upto <= |chars| && f - width / 3 - 12 <= from && chars[f] != ' ' && maxLines >= 1
    ensures WordEndsNear(chars, f, width) ==> IsSeen(FirstLines(chars[from..upto], width, maxLines), chars[from..upto], f - from)
  {
    if e :| f < e <= |chars| && e - f + width / 3 + 12 <= width && (e == |chars| || chars[e] == ' ') {
      EarlyIsSeen(chars[from..upto], width, maxLines, f - from, (if e < upto then e else upto) - from);
    }
  }

  lemma WidthsKept(lines: seq<string>, s: string, width: nat)
    requires if width == 0 then lines == [s] else Wrapped(lines, s, width)
    ensures width > 0 ==> forall i :: 0 <= i < |lines| ==> |lines[i]| <= width
  {
  }

  lemma FoundInside(chars: string, lower: char -> char, terms: seq<string>, first: Option<nat>)
    requires first.Some? ==> SomeTermAt(LcChars(lower, chars), first.value, terms)
    ensures first.Some? ==> first.value < |chars|
  {
  }

  /** The character at place q of the shown part. */
  predicate IsSeen(kept: seq<string>, text: string, q: nat)
    requires q < |text|
  {
    |NonSpace(text[..q])| < |Seen(kept)|
  }

  /** That is how far the kept lines go: the character is the next one of the part
      after those before it, and is among those seen if and only if fewer of these come
      first than are seen. */
  lemma SeenMeans(kept: seq<string>, text: string, q: nat)
    requires Seen(kept) <= NonSpace(text) && q < |text| && text[q] != ' '
    ensures var n := |NonSpace(text[..q])|;
      && n < |NonSpace(text)| && NonSpace(text)[n] == text[q]
      && (IsSeen(kept, text, q) <==> NonSpace(text[..q + 1]) <= Seen(kept))
  {
    var a, b := text[..q], text[q + 1..];
    assert text[..q + 1] == a + [text[q]] && text == text[..q + 1] + b;
    NonSpaceCat(a, [text[q]]);
    NonSpaceCat(text[..q + 1], b);
    assert [text[q]][1..] == "" && NonSpace([text[q]]) == [text[q]];
  }

  /** A character is shown if and only if the line it falls on, reckoned from the
      lengths of the words, is among those kept. */
  lemma {:induction false} SeenIff(text: string, width: nat, maxLines: nat, q: nat)
    requires q < |text| && text[q] != ' '
    ensures IsSeen(FirstLines(text, width, maxLines), text, q) <==> LineOf(text, width, q) < maxLines
  {
    hide LineOf, Lines, OnLine, Seen;
    var rank := |NonSpace(text[..q])|;
    if width == 0 {
      OneLine(text, q);
      InFirstLinesIff([text], 0, rank, maxLines);
      assert LineOf(text, width, q) == 0 by {
        NoWrapping(text, q);
      }
    } else {
      LineOfIs(text, width, q);
      InFirstLinesIff(Lines(text, width), LineOf(text, width, q), rank, maxLines);
    }
  }

  lemma NoWrapping(text: string, q: nat)
    requires q < |text|
    ensures LineOf(text, 0, q) == 0
  {
  }

  lemma OneLine(text: string, q: nat)
    requires q < |text| && text[q] != ' '
    ensures OnLine([text], 0, |NonSpace(text[..q])|)
  {
    SeenOne(text);
    assert [text][..1] == [text] && [text][..0] == [];
    SeenMeans([text], text, q);
  }

  /** What has a word's end behind it, within the width, is always shown. */
  lemma EarlyIsSeen(text: string, width: nat, maxLines: nat, q: nat, e: nat)
    requires q < e <= |text| && e <= width && (e == |text| || text[e] == ' ') && text[q] != ' ' && maxLines >= 1
    ensures IsSeen(FirstLines(text, width, maxLines), text, q)
  {
    hide FirstLines, IsSeen, LineOf;
    EarlyIsOnTheFirst(text, width, q, e);
    SeenIff(text, width, maxLines, q);
  }

  lemma {:induction false} NonSpaceShortens(s: string)
    ensures |NonSpace(s)| <= |s|
  {
    if s != "" {
      NonSpaceShortens(s[1..]);
    }
  }

  lemma {:induction false} LinesHold(kept: seq<string>, width: nat)
    requires forall i :: 0 <= i < |kept| ==> |kept[i]| <= width
    ensures |Flatten(kept)| <= |kept| * width
  {
    if kept != [] {
      LinesHold(kept[1..], width);
      assert |kept| * width == (|kept| - 1) * width + width;
    }
  }

  /** A match with as many non-space characters before it as the lines can hold is
      never shown. */
  lemma TooFarIsNotSeen(kept: seq<string>, text: string, q: nat, width: nat, maxLines: nat)
    requires q < |text| && |kept| <= maxLines && forall i :: 0 <= i < |kept| ==> |kept[i]| <= width
    requires |NonSpace(text[..q])| >= maxLines * width
    ensures !IsSeen(kept, text, q)
  {
    LinesHold(kept, width);
    NonSpaceShortens(Flatten(kept));
    assert |kept| * width <= maxLines * width by {
      Scaled(|kept|, maxLines, width);
    }
  }

  lemma Scaled(a: nat, b: nat, c: nat)
    requires a <= b
    ensures a * c <= b * c
  {
  }

  lemma OnlyAtTheEnd(lower: char -> char, i: nat)
    requires forall c :: lower(c) == c
    ensures SomeTermAt(LcChars(lower, "cccccccccccc x"), i, ["x"]) <==> i == 13
  {
    var lc := LcChars(lower, "cccccccccccc x");
    assert lc == "cccccccccccc x";
    if SomeTermAt(lc, i, ["x"]) {
      var t :| t in ["x"] && OccursAt(lc, i, t);
      assert lc[i..i + 1][0] == lc[i] == 'x';
    }
    assert lc[13..14] == "x";
    assert "x" in ["x"] && OccursAt(lc, 13, "x");
  }

  const LONG := "cccccccccccc x"

  lemma MatchIsLast(lower: char -> char, first: Option<nat>)
    requires forall c :: lower(c) == c
    requires first.Some? ==> SomeTermAt(LcChars(lower, LONG), first.value, ["x"])
    requires forall i :: 0 <= i < (if first.Some? then first.value else |LONG|) ==>
      !SomeTermAt(LcChars(lower, LONG), i, ["x"])
    ensures first == Some(13)
  {
    hide SomeTermAt;
    OnlyAtTheEnd(lower, 13);
    if first.Some? {
      OnlyAtTheEnd(lower, first.value);
    }
    assert SomeTermAt(LcChars(lower, LONG), 13, ["x"]) && |LONG| == 14;
  }

  lemma StartsAtTheLeft(start: nat, from: nat)
    requires start <= from <= 14 && start <= 10
    requires start > 0 ==> LONG[start - 1] == ' '
    requires forall i :: start <= i < from ==> LONG[i] == ' '
    ensures from == 0
  {
    assert forall i :: 0 <= i < 12 ==> LONG[i] == 'c';
    assert LONG[0] == 'c';
  }

  lemma FarBehind(kept: seq<string>, upto: nat)
    requires 13 < upto <= 14 && |kept| <= 1 && forall i :: 0 <= i < |kept| ==> |kept[i]| <= 10
    ensures !IsSeen(kept, LONG[0..upto], 13)
  {
    assert LONG[0..upto][..13] == "cccccccccccc" + " ";
    NonSpaceCat("cccccccccccc", " ");
    LettersStay("cccccccccccc");
    TooFarIsNotSeen(kept, LONG[0..upto], 13, 10, 1);
  }

  /** It does happen that the window has the match and the lines do not: behind a long
      word on one narrow line. */
  method TheMatchCanBeCut(isSpace: char -> bool, lower: char -> char) returns (kept: seq<string>, from: nat, upto: nat)
    requires (forall c :: isSpace(c) <==> c == ' ') && (forall c :: lower(c) == c)
    ensures from <= 13 < upto <= |LONG| && !IsSeen(kept, LONG[from..upto], 13 - from)
  {
    hide SomeTermAt;
    var first;
    ghost var start;
    kept, first, from, upto, start := ExcerptLines(isSpace, LONG, lower, ["x"], 10, 1);
    MatchIsLast(lower, first);
    StartsAtTheLeft(start, from);
    assert LONG[13] == 'x' && |LONG| == 14;
    FarBehind(kept, upto);
  }
}
