/** wrap_text of gmtui/src/ui.rs: a greedy character wrap at spaces, with a hard
    break for words that are longer than a line. */
module Wrap {

  /** str::split(' '): never empty, and adjacent spaces give empty pieces. */
  function Split(s: string): (r: seq<string>)
    ensures |r| >= 1 && |r[0]| <= |s|
  {
    if s == "" then [""]
    else if s[0] == ' ' then [""] + Split(s[1..])
    else
      var r := Split(s[1..]);
      [[s[0]] + r[0]] + r[1..]
  }

  function NonEmpty(ws: seq<string>): seq<string> {
    if ws == [] then [] else (if ws[0] == "" then [] else [ws[0]]) + NonEmpty(ws[1..])
  }

  function Words(s: string): seq<string> {
    NonEmpty(Split(s))
  }

  /** A word as it may appear in lines: whole if it fits, otherwise cut every width characters. */
  function Chunks(w: string, width: nat): (r: seq<string>)
    requires width > 0
    ensures r != []
    decreases |w|
  {
    if |w| <= width then [w] else [w[..width]] + Chunks(w[width..], width)
  }

  function Broken(ws: seq<string>, width: nat): seq<string>
    requires width > 0
  {
    if ws == [] then [] else Chunks(ws[0], width) + Broken(ws[1..], width)
  }

  function LineWords(lines: seq<string>): seq<string> {
    if lines == [] then [] else Words(lines[0]) + LineWords(lines[1..])
  }

  /** The word does not fit the line being filled. */
  predicate Flushes(current: string, word: string, width: nat) {
    current != "" && |current| + 1 + |word| > width
  }

  /** The wrap one word further on: the lines that are finished and the one being filled. */
  function Add(lines: seq<string>, current: string, word: string, width: nat): (seq<string>, string)
    requires width > 0
  {
    var (lines, current) := if Flushes(current, word, width) then (lines + [current], "") else (lines, current);
    if |word| > width then
      var chunks := Chunks(word, width);
      (lines + chunks[..|chunks| - 1], chunks[|chunks| - 1])
    else (lines, if current == "" then word else current + " " + word)
  }

  function Fill(words: seq<string>, i: nat, width: nat): (seq<string>, string)
    requires width > 0 && i <= |words|
  {
    if i == 0 then ([], "")
    else
      var (lines, current) := Fill(words, i - 1, width);
      Add(lines, current, words[i - 1], width)
  }

  /** The lines as the loop lays them out, word after word. */
  function Lines(s: string, width: nat): seq<string>
    requires width > 0
  {
    var (lines, current) := Fill(Split(s), |Split(s)|, width);
    if current != "" || lines == [] then lines + [current] else lines
  }

  /** A line ends only where the next word, or the next piece of a cut word, would not have fitted. */
  ghost predicate Greedy(lines: seq<string>, width: nat) {
    forall i :: 0 <= i < |lines| - 1 ==> |lines[i]| + 1 + |Split(lines[i + 1])[0]| > width
  }

  // ---- splitting and joining ----

  lemma SplitStep(c: char, s: string)
    ensures var r := Split(s); Split([c] + s) == if c == ' ' then [""] + r else [[c] + r[0]] + r[1..]
  {
    assert ([c] + s)[1..] == s;
  }

  lemma {:induction false} SplitCat(a: string, b: string)
    ensures Split(a + " " + b) == Split(a) + Split(b)
    decreases |a|
  {
    hide Split;
    if a == "" {
      assert a + " " + b == [' '] + b;
      SplitStep(' ', b);
      assert Split(a) == [""] by {
        SplitWord("");
      }
    } else {
      var c, t := a[0], a[1..];
      assert a == [c] + t && a + " " + b == [c] + (t + " " + b);
      SplitCat(t, b);
      SplitStep(c, t);
      SplitStep(c, t + " " + b);
      Regroup(c, Split(t), Split(b));
    }
  }

  lemma Regroup(c: char, r: seq<string>, s: seq<string>)
    requires r != []
    ensures [""] + (r + s) == [""] + r + s
    ensures [[c] + (r + s)[0]] + (r + s)[1..] == [[c] + r[0]] + r[1..] + s
  {
    assert (r + s)[1..] == r[1..] + s;
  }

  lemma {:induction false} SplitWord(w: string)
    requires ' ' !in w
    ensures Split(w) == [w]
  {
    if w != "" {
      SplitWord(w[1..]);
      assert [w[0]] + w[1..] == w;
    }
  }

  lemma {:induction false} SplitHasNoSpace(s: string)
    ensures forall w :: w in Split(s) ==> ' ' !in w
  {
    if s != "" {
      SplitHasNoSpace(s[1..]);
    }
  }

  lemma {:induction false} NonEmptyCat(a: seq<string>, b: seq<string>)
    ensures NonEmpty(a + b) == NonEmpty(a) + NonEmpty(b)
  {
    if a == [] {
      assert a + b == b;
    } else {
      assert (a + b)[1..] == a[1..] + b;
      NonEmptyCat(a[1..], b);
    }
  }

  lemma {:induction false} LineWordsCat(a: seq<string>, b: seq<string>)
    ensures LineWords(a + b) == LineWords(a) + LineWords(b)
  {
    if a == [] {
      assert a + b == b;
    } else {
      assert (a + b)[1..] == a[1..] + b;
      LineWordsCat(a[1..], b);
    }
  }

  lemma {:induction false} BrokenCat(a: seq<string>, b: seq<string>, width: nat)
    requires width > 0
    ensures Broken(a + b, width) == Broken(a, width) + Broken(b, width)
  {
    if a == [] {
      assert a + b == b;
    } else {
      assert (a + b)[1..] == a[1..] + b;
      BrokenCat(a[1..], b, width);
    }
  }

  lemma PushLine(lines: seq<string>, line: string)
    ensures LineWords(lines + [line]) == LineWords(lines) + Words(line)
  {
    LineWordsCat(lines, [line]);
    assert [line][1..] == [];
    assert LineWords([line]) == Words(line) + LineWords([]);
  }

  lemma PushWord(current: string, word: string)
    requires ' ' !in word
    ensures Words(word) == if word == "" then [] else [word]
    ensures Words(current + " " + word) == Words(current) + Words(word)
    ensures Split(current + " " + word)[0] == Split(current)[0]
  {
    SplitWord(word);
    SplitCat(current, word);
    NonEmptyCat(Split(current), Split(word));
    assert [word][1..] == [];
  }

  lemma NextWord(words: seq<string>, i: nat, width: nat)
    requires width > 0 && i < |words|
    ensures Broken(NonEmpty(words[..i + 1]), width) ==
            Broken(NonEmpty(words[..i]), width) + (if words[i] == "" then [] else Chunks(words[i], width))
  {
    assert words[..i + 1] == words[..i] + [words[i]];
    NonEmptyCat(words[..i], [words[i]]);
    var w := NonEmpty([words[i]]);
    assert [words[i]][1..] == [];
    BrokenCat(NonEmpty(words[..i]), w, width);
    if words[i] != "" {
      assert w == [words[i]];
      assert Broken(w, width) == Chunks(words[i], width) + Broken([], width);
    }
  }

  // ---- the method ----

  lemma {:induction false} ChunksHaveNoSpace(w: string, width: nat)
    requires width > 0 && ' ' !in w
    ensures forall c :: c in Chunks(w, width) ==> ' ' !in c
    decreases |w|
  {
    if |w| > width {
      ChunksHaveNoSpace(w[width..], width);
    }
  }

  /** Cuts a word longer than a line into full lines and a last chunk. */
  method BreakWord(word: string, width: nat) returns (full: seq<string>, chunk: string)
    requires 0 < width < |word|
    ensures Chunks(word, width) == full + [chunk] && 0 < |chunk| <= width
    ensures forall i :: 0 <= i < |full| ==> |full[i]| == width
  {
    hide Chunks;
    full, chunk := [], "";
    assert chunk + word[0..] == word;
    for k := 0 to |word|
      invariant Chunks(word, width) == full + Chunks(chunk + word[k..], width)
      invariant |chunk| <= width && (k > 0 ==> chunk != "")
      invariant forall i :: 0 <= i < |full| ==> |full[i]| == width
    {
      if |chunk| == width {
        CutOff(chunk, word[k..]);
        full, chunk := full + [chunk], "";
      }
      assert chunk + word[k..] == (chunk + [word[k]]) + word[k + 1..];
      chunk := chunk + [word[k]];
    }
    assert chunk + word[|word|..] == chunk;
    assert Chunks(chunk, width) == [chunk] by {
      ShortChunk(chunk, width);
    }
  }

  lemma ShortChunk(w: string, width: nat)
    requires width > 0 && |w| <= width
    ensures Chunks(w, width) == [w]
  {
  }

  lemma CutOff(chunk: string, rest: string)
    requires chunk != "" && rest != ""
    ensures Chunks(chunk + rest, |chunk|) == [chunk] + Chunks("" + rest, |chunk|)
  {
    assert (chunk + rest)[..|chunk|] == chunk && (chunk + rest)[|chunk|..] == rest && "" + rest == rest;
  }

  /** Where the wrap stands after the words ws: lines are laid out, current is
      the line being filled; need is what is known to come if it is empty. */
  ghost predicate Laid(lines: seq<string>, current: string, need: nat, ws: seq<string>, width: nat)
    requires width > 0
  {
    && |current| <= width && (forall k :: 0 <= k < |lines| ==> |lines[k]| <= width)
    && LineWords(lines) + Words(current) == Broken(NonEmpty(ws), width)
    && Greedy(lines, width)
    && (lines != [] ==>
          |lines[|lines| - 1]| + 1 + (if current == "" then need else |Split(current)[0]|) > width)
  }

  lemma FlushKeeps(lines: seq<string>, current: string, need: nat, ws: seq<string>, width: nat)
    requires width > 0 && Laid(lines, current, 0, ws, width)
    requires current != "" && |current| + 1 + need > width
    ensures Laid(lines + [current], "", need, ws, width)
  {
    hide Split, Broken, NonEmpty;
    PushLine(lines, current);
    PushWord("", "");
  }

  lemma AddKeeps(lines: seq<string>, current: string, words: seq<string>, i: nat, width: nat)
    requires width > 0 && i < |words| && ' ' !in words[i] && |words[i]| <= width
    requires Laid(lines, current, |words[i]|, words[..i], width)
    requires current != "" ==> |current| + 1 + |words[i]| <= width
    ensures Laid(lines, if current == "" then words[i] else current + " " + words[i], 0, words[..i + 1], width)
  {
    hide Broken, NonEmpty, LineWords;
    NextWord(words, i, width);
    PushWord(current, words[i]);
    SplitWord(words[i]);
    assert Words("") == [] by {
      PushWord("", "");
    }
  }

  lemma ChunkFacts(word: string, full: seq<string>, chunk: string, width: nat)
    requires 0 < width < |word| && ' ' !in word && Chunks(word, width) == full + [chunk]
    ensures full != [] && ' ' !in chunk && forall k :: 0 <= k < |full| ==> ' ' !in full[k]
    ensures (forall l :: l in full ==> Within(l, word)) && Suffix(chunk, word)
  {
    ChunksWithin(word, width);
    ChunksHaveNoSpace(word, width);
    assert Chunks(word[width..], width) != [];
    assert chunk == Chunks(word, width)[|full|];
    forall k | 0 <= k < |full| ensures ' ' !in full[k] {
      assert full[k] == Chunks(word, width)[k];
    }
  }

  lemma LongKeeps(lines: seq<string>, full: seq<string>, chunk: string, words: seq<string>, i: nat, width: nat)
    requires width > 0 && i < |words| && words[i] != ""
    requires Laid(lines, "", |words[i]|, words[..i], width)
    requires Chunks(words[i], width) == full + [chunk] && 0 < |chunk| <= width && ' ' !in chunk
    requires full != [] && forall k :: 0 <= k < |full| ==> |full[k]| == width && ' ' !in full[k]
    ensures Laid(lines + full, chunk, 0, words[..i + 1], width)
  {
    hide Broken, NonEmpty, LineWords, Split, Chunks;
    NextWord(words, i, width);
    PushChunks(lines, full, chunk);
    assert Words("") == [] by {
      PushWord("", "");
    }
    var all := lines + full;
    forall k | 0 <= k < |all| - 1 ensures |all[k]| + 1 + |Split(all[k + 1])[0]| > width {
      if k >= |lines| - 1 {
        assert Split(full[k + 1 - |lines|]) == [full[k + 1 - |lines|]];
      }
    }
  }

  // ---- every line is a piece of the text ----

  ghost predicate Within(line: string, s: string) {
    exists p :: 0 <= p <= |s| && line <= s[p..]
  }

  predicate Suffix(t: string, s: string) {
    |t| <= |s| && s[|s| - |t|..] == t
  }

  /** The text up to and including its i-th piece. */
  function Upto(words: seq<string>, i: nat): string
    requires i <= |words|
  {
    if i == 0 then "" else if i == 1 then words[0] else Upto(words, i - 1) + " " + words[i - 1]
  }

  lemma {:induction false} UptoCat(a: seq<string>, b: seq<string>, i: nat)
    requires 1 <= i <= |b| && |a| == 1
    ensures Upto(a + b, i + 1) == a[0] + " " + Upto(b, i)
  {
    if i > 1 {
      UptoCat(a, b, i - 1);
      assert (a + b)[i] == b[i - 1];
      assert a[0] + " " + (Upto(b, i - 1) + " " + b[i - 1]) == a[0] + " " + Upto(b, i - 1) + " " + b[i - 1];
    }
  }

  lemma {:induction false} UptoGrow(c: char, r: seq<string>, i: nat)
    requires 1 <= i <= |r|
    ensures Upto([[c] + r[0]] + r[1..], i) == [c] + Upto(r, i)
  {
    if i > 1 {
      UptoGrow(c, r, i - 1);
      assert ([[c] + r[0]] + r[1..])[i - 1] == r[i - 1];
      assert [c] + (Upto(r, i - 1) + " " + r[i - 1]) == [c] + Upto(r, i - 1) + " " + r[i - 1];
    }
  }

  lemma {:induction false} UptoAll(s: string)
    ensures Upto(Split(s), |Split(s)|) == s
  {
    if s != "" {
      UptoAll(s[1..]);
      var r := Split(s[1..]);
      if s[0] == ' ' {
        UptoCat([""], r, |r|);
        assert "" + " " + s[1..] == s;
      } else {
        UptoGrow(s[0], r, |r|);
        assert [s[0]] + s[1..] == s;
      }
    }
  }

  /** The lines are pieces of pre, and current is its end. */
  ghost predicate Parts(lines: seq<string>, current: string, pre: string) {
    (forall l :: l in lines ==> Within(l, pre)) && Suffix(current, pre)
  }

  lemma WithinMore(line: string, a: string, b: string, c: string)
    requires Within(line, b)
    ensures Within(line, a + b + c)
  {
    var p :| 0 <= p <= |b| && line <= b[p..];
    assert (a + b + c)[|a| + p..] == b[p..] + c;
    assert line <= (a + b + c)[|a| + p..];
  }

  lemma PartsFlush(lines: seq<string>, current: string, pre: string)
    requires Parts(lines, current, pre)
    ensures Parts(lines + [current], "", pre)
  {
    assert current <= pre[|pre| - |current|..];
  }

  lemma OldParts(lines: seq<string>, words: seq<string>, i: nat)
    requires i < |words| && forall l :: l in lines ==> Within(l, Upto(words, i))
    ensures forall l :: l in lines ==> Within(l, Upto(words, i + 1))
  {
    hide Within;
    var pre, more := Upto(words, i), if i == 0 then words[0] else " " + words[i];
    assert "" + pre + more == Upto(words, i + 1);
    forall l | l in lines ensures Within(l, "" + pre + more) {
      WithinMore(l, "", pre, more);
    }
  }

  lemma PartsBreak(lines: seq<string>, words: seq<string>, i: nat, full: seq<string>, rest: string)
    requires i < |words| && Parts(lines, "", Upto(words, i))
    requires (forall l :: l in full ==> Within(l, words[i])) && Suffix(rest, words[i])
    ensures Parts(lines + full, rest, Upto(words, i + 1))
  {
    hide Within;
    OldParts(lines, words, i);
    var pre := if i == 0 then "" else Upto(words, i) + " ";
    assert Upto(words, i + 1) == pre + words[i] + "";
    forall l | l in full ensures Within(l, pre + words[i] + "") {
      WithinMore(l, pre, words[i], "");
    }
  }

  lemma PartsNext(lines: seq<string>, current: string, words: seq<string>, i: nat)
    requires i < |words| && Parts(lines, current, Upto(words, i)) && (i == 0 ==> current == "")
    ensures Parts(lines, if current == "" then words[i] else current + " " + words[i], Upto(words, i + 1))
  {
    hide Within;
    OldParts(lines, words, i);
  }

  lemma PartsEnd(lines: seq<string>, current: string, s: string)
    requires Parts(lines, current, s)
    ensures forall l :: l in lines + [current] ==> Within(l, s)
  {
    PartsFlush(lines, current, s);
  }

  lemma {:induction false} ChunksWithin(w: string, width: nat)
    requires width > 0
    ensures forall c :: c in Chunks(w, width) ==> Within(c, w)
    ensures var c := Chunks(w, width); c != [] && Suffix(c[|c| - 1], w)
    decreases |w|
  {
    if |w| <= width {
      assert w <= w[0..];
    } else {
      ChunksWithin(w[width..], width);
      assert w[..width] <= w[0..];
      assert w[..width] + w[width..] + "" == w;
      forall c | c in Chunks(w[width..], width) ensures Within(c, w) {
        WithinMore(c, w[..width], w[width..], "");
      }
    }
  }

  // ---- the loop, one word at a time ----

  ghost predicate Stage(lines: seq<string>, current: string, need: nat, words: seq<string>, i: nat, width: nat)
    requires width > 0 && i <= |words|
  {
    && (forall w :: w in words ==> ' ' !in w)
    && Laid(lines, current, need, words[..i], width)
    && Parts(lines, current, Upto(words, i)) && (i == 0 ==> current == "")
  }

  lemma StageStarts(s: string, width: nat)
    requires width > 0
    ensures Stage([], "", 0, Split(s), 0, width)
  {
    SplitHasNoSpace(s);
    PushWord("", "");
    assert Split(s)[..0] == [];
  }

  lemma StageFlushes(lines: seq<string>, current: string, words: seq<string>, i: nat, width: nat)
    requires width > 0 && i < |words| && Stage(lines, current, 0, words, i, width)
    requires current != "" && |current| + 1 + |words[i]| > width
    ensures Stage(lines + [current], "", |words[i]|, words, i, width)
  {
    hide Within, Suffix, Split, LineWords, Broken, Greedy, Words, Upto;
    FlushKeeps(lines, current, |words[i]|, words[..i], width);
    PartsFlush(lines, current, Upto(words, i));
  }

  lemma StageAdds(lines: seq<string>, current: string, words: seq<string>, i: nat, width: nat)
    requires width > 0 && i < |words| && |words[i]| <= width
    requires Stage(lines, current, |words[i]|, words, i, width)
    requires current != "" ==> |current| + 1 + |words[i]| <= width
    ensures Stage(lines, (if current == "" then current else current + " ") + words[i], 0, words, i + 1, width)
  {
    hide Laid, Parts;
    assert "" + words[i] == words[i];
    AddKeeps(lines, current, words, i, width);
    PartsNext(lines, current, words, i);
  }

  lemma StageBreaks(lines: seq<string>, full: seq<string>, chunk: string, words: seq<string>, i: nat, width: nat)
    requires width > 0 && i < |words| && |words[i]| > width
    requires Stage(lines, "", |words[i]|, words, i, width)
    requires Chunks(words[i], width) == full + [chunk] && 0 < |chunk| <= width
    requires forall k :: 0 <= k < |full| ==> |full[k]| == width
    ensures Stage(lines + full, chunk, 0, words, i + 1, width)
  {
    hide Laid, Parts, Within, Suffix;
    ChunkFacts(words[i], full, chunk, width);
    LongKeeps(lines, full, chunk, words, i, width);
    PartsBreak(lines, words, i, full, chunk);
  }

  lemma StageEnds(s: string, lines: seq<string>, current: string, width: nat)
    requires width > 0 && Stage(lines, current, 0, Split(s), |Split(s)|, width)
    ensures Wrapped(if current != "" || lines == [] then lines + [current] else lines, s, width)
  {
    hide Laid, Parts, Within, Broken, LineWords, Greedy;
    var words := Split(s);
    assert words[..|words|] == words;
    UptoAll(s);
    WrapEnds(lines, current, words, width);
    PartsEnd(lines, current, s);
  }

  /** A wrap of s: at least one line, none longer than width, each a piece of s,
      together holding exactly the words of s in order, with only the words
      longer than width broken, and no line ended before it had to be. */
  ghost predicate Wrapped(lines: seq<string>, s: string, width: nat)
    requires width > 0
  {
    && |lines| >= 1
    && (forall i :: 0 <= i < |lines| ==> |lines[i]| <= width)
    && (forall l :: l in lines ==> Within(l, s))
    && LineWords(lines) == Broken(Words(s), width)
    && Greedy(lines, width)
  }

  ghost predicate Filled(lines: seq<string>, current: string, words: seq<string>, i: nat, width: nat)
    requires width > 0 && i <= |words|
  {
    Fill(words, i, width) == (lines, current)
  }

  lemma FillStarts(s: string, width: nat)
    requires width > 0
    ensures Filled([], "", Split(s), 0, width)
  {
  }

  lemma FillEnds(s: string, lines: seq<string>, current: string, width: nat)
    requires width > 0 && Filled(lines, current, Split(s), |Split(s)|, width)
    ensures Lines(s, width) == if current != "" || lines == [] then lines + [current] else lines
  {
  }

  /** The next word in the loop's own steps; full and chunk are the pieces of a long word. */
  lemma NextFill(lines: seq<string>, current: string, words: seq<string>, i: nat, full: seq<string>, chunk: string, width: nat)
    requires width > 0 && i < |words| && Filled(lines, current, words, i, width)
    requires |words[i]| > width ==> Chunks(words[i], width) == full + [chunk]
    ensures var l, c := if Flushes(current, words[i], width) then lines + [current] else lines,
                        if Flushes(current, words[i], width) then "" else current;
      if |words[i]| > width then Filled(l + full, chunk, words, i + 1, width)
      else Filled(l, (if c == "" then c else c + " ") + words[i], words, i + 1, width)
  {
    hide Chunks;
    assert |words[i]| > width ==> (full + [chunk])[..|full|] == full;
    assert "" + words[i] == words[i];
  }

  method WrapText(s: string, width: nat) returns (lines: seq<string>)
    ensures if width == 0 then lines == [s] else Wrapped(lines, s, width) && lines == Lines(s, width)
  {
    if width == 0 {
      return [s];
    }
    lines := [];
    var current := "";
    var words := Split(s);
    StageStarts(s, width);
    FillStarts(s, width);
    hide Stage, Wrapped, Chunks, Split, Filled, Lines;
    for i := 0 to |words|
      invariant Stage(lines, current, 0, words, i, width)
      invariant Filled(lines, current, words, i, width)
    {
      ghost var lines0, current0 := lines, current;
      var word := words[i];
      var add := if current == "" then |word| else |word| + 1;
      if |current| + add > width && current != "" {
        StageFlushes(lines, current, words, i, width);
        lines, current := lines + [current], "";
      }
      // Hard-break words longer than the width.
      if |word| > width {
        var full, chunk := BreakWord(word, width);
        StageBreaks(lines, full, chunk, words, i, width);
        NextFill(lines0, current0, words, i, full, chunk, width);
        lines, current := lines + full, chunk;
        continue;
      }
      StageAdds(lines, current, words, i, width);
      NextFill(lines0, current0, words, i, [], "", width);
      if current != "" {
        current := current + " ";
      }
      current := current + word;
    }
    StageEnds(s, lines, current, width);
    FillEnds(s, lines, current, width);
    if current != "" || lines == [] {
      lines := lines + [current];
    }
  }

  lemma WrapEnds(lines: seq<string>, current: string, ws: seq<string>, width: nat)
    requires width > 0 && Laid(lines, current, 0, ws, width)
    ensures var all := if current != "" || lines == [] then lines + [current] else lines;
            && (forall i :: 0 <= i < |all| ==> |all[i]| <= width)
            && LineWords(all) == Broken(NonEmpty(ws), width)
            && Greedy(all, width)
  {
    hide Split, Broken, NonEmpty;
    PushLine(lines, current);
    assert Words("") == [] by {
      PushWord("", "");
    }
  }

  lemma {:induction false} WordLines(full: seq<string>)
    requires forall i :: 0 <= i < |full| ==> full[i] != "" && ' ' !in full[i]
    ensures LineWords(full) == full
  {
    if full != [] {
      WordLines(full[1..]);
      PushWord("", full[0]);
    }
  }

  lemma PushChunks(lines: seq<string>, full: seq<string>, chunk: string)
    requires forall i :: 0 <= i < |full| ==> full[i] != "" && ' ' !in full[i]
    requires chunk != "" && ' ' !in chunk
    ensures LineWords(lines + full) + Words(chunk) == LineWords(lines) + (full + [chunk])
    ensures Split(chunk) == [chunk] && forall i :: 0 <= i < |full| ==> Split(full[i]) == [full[i]]
  {
    hide LineWords, Split, Words;
    LineWordsCat(lines, full);
    WordLines(full);
    PushWord("", chunk);
    SplitWord(chunk);
    forall i | 0 <= i < |full| ensures Split(full[i]) == [full[i]] {
      SplitWord(full[i]);
    }
  }

  // ---- what the words say about the characters ----

  function Flatten(ws: seq<string>): string {
    if ws == [] then "" else ws[0] + Flatten(ws[1..])
  }

  function NonSpace(s: string): string {
    if s == "" then "" else (if s[0] == ' ' then "" else [s[0]]) + NonSpace(s[1..])
  }

  lemma {:induction false} FlattenCat(a: seq<string>, b: seq<string>)
    ensures Flatten(a + b) == Flatten(a) + Flatten(b)
  {
    if a == [] {
      assert a + b == b;
    } else {
      assert (a + b)[1..] == a[1..] + b;
      FlattenCat(a[1..], b);
    }
  }

  lemma {:induction false} NonSpaceCat(a: string, b: string)
    ensures NonSpace(a + b) == NonSpace(a) + NonSpace(b)
  {
    if a == "" {
      assert a + b == b;
    } else {
      assert (a + b)[1..] == a[1..] + b;
      NonSpaceCat(a[1..], b);
    }
  }

  lemma FirstPieceGrows(c: char, r: seq<string>)
    requires r != []
    ensures Flatten([[c] + r[0]] + r[1..]) == [c] + Flatten(r)
  {
    assert ([[c] + r[0]] + r[1..])[1..] == r[1..];
    assert [c] + r[0] + Flatten(r[1..]) == [c] + (r[0] + Flatten(r[1..]));
  }

  lemma {:induction false} PiecesAreNonSpace(s: string)
    ensures Flatten(Split(s)) == NonSpace(s)
  {
    if s == "" {
      assert Split(s)[1..] == [];
    } else {
      PiecesAreNonSpace(s[1..]);
      var r := Split(s[1..]);
      if s[0] == ' ' {
        assert Split(s) == [""] + r && Split(s)[1..] == r;
      } else {
        FirstPieceGrows(s[0], r);
      }
    }
  }

  lemma {:induction false} EmptyPiecesVanish(ws: seq<string>)
    ensures Flatten(NonEmpty(ws)) == Flatten(ws)
  {
    if ws != [] {
      EmptyPiecesVanish(ws[1..]);
      FlattenCat(if ws[0] == "" then [] else [ws[0]], NonEmpty(ws[1..]));
    }
  }

  lemma WordsAreNonSpace(s: string)
    ensures Flatten(Words(s)) == NonSpace(s)
  {
    PiecesAreNonSpace(s);
    EmptyPiecesVanish(Split(s));
  }

  lemma {:induction false} ChunksFlatten(w: string, width: nat)
    requires width > 0
    ensures Flatten(Chunks(w, width)) == w
    decreases |w|
  {
    if |w| <= width {
      assert [w][1..] == [];
    } else {
      ChunksFlatten(w[width..], width);
    }
  }

  lemma {:induction false} BrokenFlatten(ws: seq<string>, width: nat)
    requires width > 0
    ensures Flatten(Broken(ws, width)) == Flatten(ws)
  {
    if ws != [] {
      ChunksFlatten(ws[0], width);
      FlattenCat(Chunks(ws[0], width), Broken(ws[1..], width));
      BrokenFlatten(ws[1..], width);
    }
  }

  lemma {:induction false} LineWordsFlatten(lines: seq<string>)
    ensures Flatten(LineWords(lines)) == NonSpace(Flatten(lines))
  {
    if lines != [] {
      FlattenCat(Words(lines[0]), LineWords(lines[1..]));
      WordsAreNonSpace(lines[0]);
      NonSpaceCat(lines[0], Flatten(lines[1..]));
      LineWordsFlatten(lines[1..]);
    }
  }

  /** The lines of a wrap hold the text's non-space characters, in order,
      none lost and none repeated. */
  lemma NothingLost(s: string, lines: seq<string>, width: nat)
    requires width > 0 && Wrapped(lines, s, width)
    ensures NonSpace(Flatten(lines)) == NonSpace(s)
  {
    LineWordsFlatten(lines);
    BrokenFlatten(Words(s), width);
    WordsAreNonSpace(s);
  }

  /** A word that fits a line is never broken. */
  lemma {:induction false} ShortWordsStayWhole(ws: seq<string>, width: nat)
    requires width > 0
    ensures (forall w :: w in ws ==> |w| <= width) ==> Broken(ws, width) == ws
    ensures forall w :: w in ws && |w| <= width ==> w in Broken(ws, width)
  {
    if ws != [] {
      ShortWordsStayWhole(ws[1..], width);
    }
  }
}
