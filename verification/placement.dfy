/** On which line of a wrap a character of the text ends up, reckoned from the lengths
    of the words alone. */
module Placement {
  import opened Wrap

  // ---- from the lengths ----

  /** Which piece of the text the character at q belongs to, and how far into it. */
  function Place(s: string, q: nat): (p: (nat, nat))
    requires q < |s|
    ensures p.0 < |Split(s)|
  {
    if q == 0 then (0, 0)
    else
      var (i, r) := Place(s[1..], q - 1);
      if s[0] == ' ' then (i + 1, r) else if i == 0 then (0, r + 1) else (i, r)
  }

  /** After i words: how many lines are finished, and how long the one being filled is. */
  function Reckoned(words: seq<string>, i: nat, width: nat): (nat, nat)
    requires width > 0 && i <= |words|
    decreases i, 0
  {
    if i == 0 then (0, 0)
    else
      var (n, used) := Begins(words, i - 1, width);
      var m := |words[i - 1]|;
      if m > width then (n + (m - 1) / width, (m - 1) % width + 1)
      else (n, if used == 0 then m else used + 1 + m)
  }

  /** Where word i begins: on the line being filled if it fits, or on the next. */
  function Begins(words: seq<string>, i: nat, width: nat): (nat, nat)
    requires width > 0 && i < |words|
    decreases i, 1
  {
    var (n, used) := Reckoned(words, i, width);
    if used > 0 && used + 1 + |words[i]| > width then (n + 1, 0) else (n, used)
  }

  /** The line of the character at q. A width of zero stands for no wrapping. */
  function LineOf(s: string, width: nat, q: nat): nat
    requires q < |s|
  {
    if width == 0 then 0
    else
      var (i, r) := Place(s, q);
      Begins(Split(s), i, width).0 + r / width
  }

  // ---- in the lines themselves ----

  function Seen(lines: seq<string>): string {
    NonSpace(Flatten(lines))
  }

  /** Line k holds the non-space character before which there are rank others. */
  predicate OnLine(lines: seq<string>, k: nat, rank: nat) {
    k < |lines| && |Seen(lines[..k])| <= rank < |Seen(lines[..k + 1])|
  }

  lemma SeenCat(a: seq<string>, b: seq<string>)
    ensures Seen(a + b) == Seen(a) + Seen(b)
  {
    FlattenCat(a, b);
    NonSpaceCat(Flatten(a), Flatten(b));
  }

  lemma SeenOne(line: string)
    ensures Seen([line]) == NonSpace(line)
  {
    assert [line][1..] == [];
    assert Flatten([line]) == line + "" == line;
  }

  lemma {:induction false} LettersStay(s: string)
    requires ' ' !in s
    ensures NonSpace(s) == s
  {
    if s != "" {
      LettersStay(s[1..]);
    }
  }

  lemma {:induction false} PlaceIs(s: string, q: nat)
    requires q < |s| && s[q] != ' '
    ensures var (i, r) := Place(s, q);
      r < |Split(s)[i]| && |NonSpace(s[..q])| == |Flatten(Split(s)[..i])| + r
  {
    hide Flatten;
    if q == 0 {
      assert Split(s)[..0] == [] && Flatten([]) == "" by {
        NothingFlat();
      }
    } else {
      PlaceIs(s[1..], q - 1);
      hide Split;
      var (i, r) := Place(s[1..], q - 1);
      var c, rest := s[0], s[1..];
      assert s == [c] + rest && s[..q][1..] == rest[..q - 1];
      SplitStep(c, rest);
      FirstPieces(c, Split(rest), i);
    }
  }

  lemma NothingFlat()
    ensures Flatten([]) == ""
  {
  }

  lemma FirstPieces(c: char, rest: seq<string>, i: nat)
    requires i < |rest|
    ensures Flatten(([""] + rest)[..i + 1]) == Flatten(rest[..i])
    ensures |Flatten(([[c] + rest[0]] + rest[1..])[..i])| == if i == 0 then 0 else 1 + |Flatten(rest[..i])|
  {
    var spaced, grown := [""] + rest, [[c] + rest[0]] + rest[1..];
    assert spaced[..i + 1][1..] == rest[..i];
    if i > 0 {
      assert grown[..i][1..] == rest[1..i] && rest[..i][1..] == rest[1..i];
    }
  }

  // ---- the wrap goes on from where it stands ----

  function Pages(words: seq<string>, i: nat, width: nat): (p: seq<string>)
    requires width > 0 && i <= |words|
    ensures p != []
  {
    var (lines, current) := Fill(words, i, width);
    lines + [current]
  }

  predicate Extends(a: seq<string>, b: seq<string>)
    requires a != []
  {
    |a| <= |b| && a[..|a| - 1] == b[..|a| - 1] && a[|a| - 1] <= b[|a| - 1]
  }

  lemma ExtendsMore(a: seq<string>, b: seq<string>, c: seq<string>)
    requires a != [] && b != [] && Extends(a, b) && Extends(b, c)
    ensures Extends(a, c)
  {
    var n := |a| - 1;
    assert c[..|b| - 1][..n] == c[..n] && b[..|b| - 1][..n] == b[..n];
    if |a| < |b| {
      assert b[..|b| - 1][n] == c[..|b| - 1][n];
    }
  }

  lemma AddExtends(lines: seq<string>, current: string, word: string, width: nat)
    requires width > 0
    ensures var (l, c) := Add(lines, current, word, width); Extends(lines + [current], l + [c])
  {
    var (l, c) := Add(lines, current, word, width);
    assert (lines + [current])[..|lines|] == lines && (l + [c])[..|lines|] == lines;
  }

  lemma {:induction false} FillExtends(words: seq<string>, i: nat, j: nat, width: nat)
    requires width > 0 && i <= j <= |words|
    ensures Extends(Pages(words, i, width), Pages(words, j, width))
    decreases j
  {
    hide Add;
    if i < j {
      FillExtends(words, i, j - 1, width);
      var (lines, current) := Fill(words, j - 1, width);
      AddExtends(lines, current, words[j - 1], width);
      ExtendsMore(Pages(words, i, width), Pages(words, j - 1, width), Pages(words, j, width));
    }
  }

  /** A line, once it holds a character, goes on holding it. */
  lemma StaysOnLine(a: seq<string>, b: seq<string>, k: nat, rank: nat)
    requires a != [] && Extends(a, b) && OnLine(a, k, rank)
    ensures OnLine(b, k, rank)
  {
    hide Flatten, NonSpace;
    assert a[..k] == a[..|a| - 1][..k] == b[..|a| - 1][..k] == b[..k];
    assert a[..k + 1] == a[..k] + [a[k]] && b[..k + 1] == b[..k] + [b[k]];
    SeenCat(a[..k], [a[k]]);
    SeenCat(b[..k], [b[k]]);
    SeenOne(a[k]);
    SeenOne(b[k]);
    assert a[k] <= b[k] by {
      if k < |a| - 1 {
        assert a[..|a| - 1][k] == b[..|a| - 1][k];
      }
    }
    assert b[k] == a[k] + b[k][|a[k]|..];
    NonSpaceCat(a[k], b[k][|a[k]|..]);
  }

  // ---- what the lines hold ----

  lemma QuotientIs(a: nat, b: nat, q: nat, r: nat)
    requires a == q * b + r && r < b
    ensures a / b == q && a % b == r
  {
    var d := a / b - q;
    assert a == (a / b) * b + a % b;
    assert d * b == (a / b) * b - q * b == r - a % b;
    Multiple(d, b);
  }

  lemma Multiple(d: int, b: int)
    requires b >= 0
    ensures d >= 1 ==> d * b >= b
    ensures d <= -1 ==> d * b <= -b
  {
    assert d * b == (d - 1) * b + b == (d + 1) * b - b;
  }

  lemma OneWidthMore(a: nat, width: nat)
    requires width > 0
    ensures (a + width) / width == a / width + 1 && (a + width) % width == a % width
    ensures a < width ==> a / width == 0 && a % width == a
  {
    var q, r := a / width, a % width;
    assert a + width == (q + 1) * width + r by {
      assert a == q * width + r && (q + 1) * width == q * width + width;
    }
    QuotientIs(a + width, width, q + 1, r);
    if a < width {
      assert 0 * width == 0;
      QuotientIs(a, width, 0, a);
    }
  }

  lemma {:induction false} ChunkHolds(w: string, width: nat, r: nat)
    requires width > 0 && r < |w|
    ensures var c, k := Chunks(w, width), r / width;
      k < |c| && |Flatten(c[..k])| <= r < |Flatten(c[..k + 1])|
    decreases |w|
  {
    OneWidthMore(r, width);
    if r < width {
      var first := Chunks(w, width)[0];
      assert Chunks(w, width)[..1] == [first] && [first][1..] == [] && Flatten([first]) == first + "";
    } else {
      ChunkHolds(w[width..], width, r - width);
      OneWidthMore(r - width, width);
      var rest, k := Chunks(w[width..], width), r / width - 1;
      MoreChunks(w[..width], rest, k);
      MoreChunks(w[..width], rest, k + 1);
    }
  }

  lemma MoreChunks(first: string, rest: seq<string>, k: nat)
    requires k <= |rest|
    ensures |Flatten(([first] + rest)[..k + 1])| == |first| + |Flatten(rest[..k])|
  {
    assert ([first] + rest)[..k + 1] == [first] + rest[..k];
    assert ([first] + rest[..k])[1..] == rest[..k];
  }

  lemma {:induction false} ChunkCount(w: string, width: nat)
    requires width > 0 && w != ""
    ensures var c := Chunks(w, width);
      |c| - 1 == (|w| - 1) / width && |c[|c| - 1]| == (|w| - 1) % width + 1
    decreases |w|
  {
    if |w| > width {
      ChunkCount(w[width..], width);
      OneWidthMore(|w| - width - 1, width);
    } else {
      OneWidthMore(|w| - 1, width);
    }
  }

  /** The reckoning agrees with the wrap. */
  lemma {:induction false} ReckonedIs(words: seq<string>, i: nat, width: nat)
    requires width > 0 && i <= |words|
    ensures var (lines, current) := Fill(words, i, width); Reckoned(words, i, width) == (|lines|, |current|)
    decreases i
  {
    hide Chunks;
    if i > 0 {
      ReckonedIs(words, i - 1, width);
      if words[i - 1] != "" {
        ChunkCount(words[i - 1], width);
      }
    }
  }

  /** The wrap of one word more, cut at the line on which the word begins. */
  lemma AddParts(lines: seq<string>, current: string, word: string, width: nat)
    requires width > 0
    ensures var (l, c) := Add(lines, current, word, width);
      var f := Flushes(current, word, width);
      var before, on := if f then lines + [current] else lines, if f then "" else current;
      && Seen(before + [on]) == Seen(lines + [current])
      && (if |word| > width then on == "" && l + [c] == before + Chunks(word, width)
          else l + [c] == before + [if on == "" then word else on + " " + word])
  {
    hide Chunks, Flatten, NonSpace;
    var f := Flushes(current, word, width);
    var chunks := Chunks(word, width);
    assert chunks[..|chunks| - 1] + [chunks[|chunks| - 1]] == chunks;
    if f {
      SeenCat(lines + [current], [""]);
      SeenOne("");
      assert NonSpace("") == "" by {
        LettersStay("");
      }
    }
  }

  lemma SpaceUnseen()
    ensures NonSpace(" ") == ""
  {
    assert " "[1..] == "";
  }

  lemma WordSeen(on: string, word: string)
    requires ' ' !in word
    ensures NonSpace(if on == "" then word else on + " " + word) == NonSpace(on) + word
  {
    hide NonSpace;
    LettersStay(word);
    if on == "" {
      LettersStay(on);
      assert on + word == word;
    } else {
      SpaceUnseen();
      NonSpaceCat(on, " ");
      NonSpaceCat(on + " ", word);
      assert NonSpace(on) + "" == NonSpace(on);
    }
  }

  lemma AddHolds(lines: seq<string>, current: string, word: string, width: nat)
    requires width > 0 && ' ' !in word
    ensures var (l, c) := Add(lines, current, word, width); Seen(l + [c]) == Seen(lines + [current]) + word
  {
    hide Chunks, Flatten, NonSpace, Add, Seen;
    AddParts(lines, current, word, width);
    var f := Flushes(current, word, width);
    var before, on := if f then lines + [current] else lines, if f then "" else current;
    SeenCat(before, [on]);
    SeenOne(on);
    if |word| > width {
      SeenCat(before, Chunks(word, width));
      ChunksSeen(word, width);
      assert NonSpace("") == "" by {
        LettersStay("");
      }
    } else {
      var line := if on == "" then word else on + " " + word;
      SeenCat(before, [line]);
      SeenOne(line);
      WordSeen(on, word);
    }
  }

  lemma ChunksSeen(word: string, width: nat)
    requires width > 0 && ' ' !in word
    ensures Seen(Chunks(word, width)) == word
  {
    ChunksFlatten(word, width);
    LettersStay(word);
  }

  lemma {:induction false} FillHolds(words: seq<string>, i: nat, width: nat)
    requires width > 0 && i <= |words| && forall w :: w in words ==> ' ' !in w
    ensures Seen(Pages(words, i, width)) == Flatten(words[..i])
    decreases i
  {
    hide Add;
    if i == 0 {
      SeenOne("");
      LettersStay("");
      assert [] + [""] == [""];
    } else {
      FillHolds(words, i - 1, width);
      var (lines, current) := Fill(words, i - 1, width);
      AddHolds(lines, current, words[i - 1], width);
      assert words[..i] == words[..i - 1] + [words[i - 1]];
      FlattenCat(words[..i - 1], [words[i - 1]]);
      assert [words[i - 1]][1..] == [];
    }
  }

  lemma NoneInPart(word: string, width: nat, k: nat)
    requires width > 0 && ' ' !in word && k <= |Chunks(word, width)|
    ensures Seen(Chunks(word, width)[..k]) == Flatten(Chunks(word, width)[..k])
  {
    hide Chunks;
    var c := Chunks(word, width);
    ChunksFlatten(word, width);
    assert c == c[..k] + c[k..];
    FlattenCat(c[..k], c[k..]);
    LettersStay(Flatten(c[..k]));
  }

  lemma LongOnLine(before: seq<string>, word: string, r: nat, width: nat)
    requires 0 < width < |word| && ' ' !in word && r < |word|
    ensures OnLine(before + Chunks(word, width), |before| + r / width, |Seen(before)| + r)
  {
    hide Chunks, Flatten, NonSpace, Seen;
    var chunks, k := Chunks(word, width), r / width;
    var all := before + chunks;
    ChunkHolds(word, width, r);
    NoneInPart(word, width, k);
    NoneInPart(word, width, k + 1);
    assert all[..|before| + k] == before + chunks[..k];
    assert all[..|before| + k + 1] == before + chunks[..k + 1];
    SeenCat(before, chunks[..k]);
    SeenCat(before, chunks[..k + 1]);
  }

  /** A word just placed: its r-th character is on the line where it begins, or as many
      full lines further down as r spans. */
  lemma PlacedOnLine(lines: seq<string>, current: string, word: string, r: nat, width: nat)
    requires width > 0 && ' ' !in word && r < |word|
    ensures var (l, c) := Add(lines, current, word, width);
      var n := if Flushes(current, word, width) then |lines| + 1 else |lines|;
      OnLine(l + [c], n + r / width, |Seen(lines + [current])| + r)
  {
    hide Chunks, Flatten, NonSpace, Add, Seen;
    AddParts(lines, current, word, width);
    AddHolds(lines, current, word, width);
    var (l, c) := Add(lines, current, word, width);
    var f := Flushes(current, word, width);
    var before, on := if f then lines + [current] else lines, if f then "" else current;
    SeenCat(before, [on]);
    if |word| <= width {
      OneWidthMore(r, width);
      assert (l + [c])[..|before|] == before && (l + [c])[..|before| + 1] == l + [c];
    } else {
      hide OnLine;
      SeenOne("");
      LettersStay("");
      LongOnLine(before, word, r, width);
    }
  }

  /** The character at q is on line LineOf of the wrap: the lines above hold fewer
      non-space characters than come before it, or as many, and with that line there
      are more. */
  lemma {:induction false} LineOfIs(s: string, width: nat, q: nat)
    requires width > 0 && q < |s| && s[q] != ' '
    ensures OnLine(Lines(s, width), LineOf(s, width, q), |NonSpace(s[..q])|)
  {
    hide OnLine, Extends, Split, NonSpace, Flatten, Add, Reckoned, Place, Seen;
    var words, n := Split(s), |Split(s)|;
    var (i, r) := Place(s, q);
    PlaceIs(s, q);
    SplitHasNoSpace(s);
    var (lines, current) := Fill(words, i, width);
    PlacedOnLine(lines, current, words[i], r, width);
    ReckonedIs(words, i, width);
    FillHolds(words, i, width);
    var rank := |NonSpace(s[..q])|;
    FillExtends(words, i + 1, n, width);
    StaysOnLine(Pages(words, i + 1, width), Pages(words, n, width), LineOf(s, width, q), rank);
    LastMayGo(Fill(words, n, width).0, Fill(words, n, width).1, LineOf(s, width, q), rank);
  }

  /** An empty last line holds nothing. */
  lemma LastMayGo(lines: seq<string>, current: string, k: nat, rank: nat)
    requires OnLine(lines + [current], k, rank)
    ensures OnLine(if current != "" || lines == [] then lines + [current] else lines, k, rank)
  {
    hide NonSpace, Flatten;
    var all := lines + [current];
    if current == "" && lines != [] {
      assert all[..|lines|] == lines && all[..|lines| + 1] == all;
      SeenCat(lines, [""]);
      SeenOne("");
      LettersStay("");
      assert k < |lines| ==> all[..k] == lines[..k] && all[..k + 1] == lines[..k + 1];
    }
  }

  lemma SeenGrows(lines: seq<string>, a: nat, b: nat)
    requires a <= b <= |lines|
    ensures |Seen(lines[..a])| <= |Seen(lines[..b])|
  {
    hide Seen;
    assert lines[..b] == lines[..a] + lines[a..b];
    SeenCat(lines[..a], lines[a..b]);
  }

  /** So it is among the first n lines if and only if its line is. */
  lemma InFirstLinesIff(lines: seq<string>, k: nat, rank: nat, n: nat)
    requires OnLine(lines, k, rank)
    ensures rank < |Seen(if n < |lines| then lines[..n] else lines)| <==> k < n
  {
    hide Seen;
    assert lines[..|lines|] == lines;
    var m := if n < |lines| then n else |lines|;
    if k < n {
      SeenGrows(lines, k + 1, m);
    } else {
      SeenGrows(lines, m, k);
    }
  }

  // ---- the first line ----

  lemma {:induction false} FirstPiece(s: string, e: nat)
    requires e <= |s| && (e == |s| || s[e] == ' ')
    ensures |Split(s)[0]| <= e
  {
    if s != "" && s[0] != ' ' {
      FirstPiece(s[1..], e - 1);
    }
  }

  lemma UptoFirst(words: seq<string>)
    requires words != []
    ensures Upto(words, 1) == words[0]
  {
  }

  lemma {:induction false} PlaceEnds(s: string, q: nat, e: nat)
    requires q < e <= |s| && (e == |s| || s[e] == ' ')
    ensures |Upto(Split(s), Place(s, q).0 + 1)| <= e
  {
    hide Upto, Split;
    if q == 0 {
      FirstPiece(s, e);
      UptoFirst(Split(s));
    } else {
      PlaceEnds(s[1..], q - 1, e - 1);
      var c, rest, i := s[0], s[1..], Place(s[1..], q - 1).0;
      assert s == [c] + rest;
      SplitStep(c, rest);
      if c == ' ' {
        UptoCat([""], Split(rest), i + 1);
      } else {
        UptoGrow(c, Split(rest), i + 1);
      }
    }
  }

  lemma {:induction false} ReckonedEarly(words: seq<string>, i: nat, width: nat)
    requires width > 0 && i <= |words| && |Upto(words, i)| <= width
    ensures Reckoned(words, i, width).0 == 0 && Reckoned(words, i, width).1 <= |Upto(words, i)|
    decreases i
  {
    if i > 0 {
      ReckonedEarly(words, i - 1, width);
    }
  }

  /** A character with a word's end behind it, within the width, is on the first line. */
  lemma {:induction false} EarlyIsOnTheFirst(s: string, width: nat, q: nat, e: nat)
    requires q < e <= |s| && e <= width && (e == |s| || s[e] == ' ') && s[q] != ' '
    ensures LineOf(s, width, q) == 0
  {
    hide Split, Place, NonSpace, Flatten;
    var (i, r) := Place(s, q);
    var words := Split(s);
    PlaceIs(s, q);
    PlaceEnds(s, q, e);
    ReckonedEarly(words, i, width);
    assert r < |words[i]| <= |Upto(words, i + 1)| <= width;
    OneWidthMore(r, width);
  }
}
