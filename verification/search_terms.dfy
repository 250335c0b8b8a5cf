/** What a search takes from a query, said of the query itself: its fields, the terms worth
    searching for, and whether it is deliberate FTS5 syntax. */
module SearchTerms {
  import opened Common
  import opened FtsQuery

  /** f is the stretch of q from i to j, which has no space in it and ends at spaces or at
      the ends of q. */
  predicate IsField(cs: Classes, q: string, i: int, j: int, f: string) {
    && 0 <= i < j <= |q| && f == q[i..j]
    && (forall c :: c in f ==> !cs.isSpace(c))
    && (i == 0 || cs.isSpace(q[i - 1])) && (j == |q| || cs.isSpace(q[j]))
  }

  /** With field read before s, the field goes on to j and is f. */
  predicate GoesOn(cs: Classes, s: string, j: int, field: string, f: string) {
    && 0 <= j <= |s| && f == field + s[..j] && f != ""
    && (forall c :: c in s[..j] ==> !cs.isSpace(c)) && (j == |s| || cs.isSpace(s[j]))
  }

  ghost predicate Now(cs: Classes, s: string, field: string, f: string) {
    exists j :: GoesOn(cs, s, j, field, f)
  }

  ghost predicate Later(cs: Classes, s: string, f: string) {
    exists i, j :: i > 0 && IsField(cs, s, i, j, f)
  }

  ghost predicate First(cs: Classes, s: string, f: string) {
    exists j :: IsField(cs, s, 0, j, f)
  }

  lemma OneLetterOn(cs: Classes, s: string, j: int, field: string, f: string)
    requires s != "" && !cs.isSpace(s[0])
    ensures GoesOn(cs, s, j, field, f) <==> GoesOn(cs, s[1..], j - 1, field + [s[0]], f)
  {
    var t := s[1..];
    if 0 < j <= |s| {
      assert s[..j] == [s[0]] + t[..j - 1];
      assert field + s[..j] == field + [s[0]] + t[..j - 1];
      assert forall c :: c in s[..j] <==> c == s[0] || c in t[..j - 1];
    }
  }

  lemma NowMore(cs: Classes, s: string, field: string, f: string)
    requires s != "" && !cs.isSpace(s[0])
    ensures Now(cs, s, field, f) <==> Now(cs, s[1..], field + [s[0]], f)
  {
    hide GoesOn;
    if j :| GoesOn(cs, s, j, field, f) {
      OneLetterOn(cs, s, j, field, f);
    }
    if j :| GoesOn(cs, s[1..], j, field + [s[0]], f) {
      OneLetterOn(cs, s, j + 1, field, f);
    }
  }

  lemma FieldShift(cs: Classes, s: string, i: int, j: int, f: string)
    requires s != "" && i > 0
    ensures IsField(cs, s, i, j, f) <==> IsField(cs, s[1..], i - 1, j - 1, f) && (i == 1 ==> cs.isSpace(s[0]))
  {
    if 0 < i < j <= |s| {
      assert s[i..j] == s[1..][i - 1..j - 1];
    }
  }

  lemma LaterMore(cs: Classes, s: string, f: string)
    requires s != ""
    ensures Later(cs, s, f) <==> Later(cs, s[1..], f) || (cs.isSpace(s[0]) && First(cs, s[1..], f))
  {
    hide IsField;
    if i, j :| i > 0 && IsField(cs, s, i, j, f) {
      FieldShift(cs, s, i, j, f);
    }
    if i, j :| i > 0 && IsField(cs, s[1..], i, j, f) {
      FieldShift(cs, s, i + 1, j + 1, f);
    }
    if j :| IsField(cs, s[1..], 0, j, f) {
      FieldShift(cs, s, 1, j + 1, f);
    }
  }

  lemma FirstIsNow(cs: Classes, s: string, f: string)
    ensures First(cs, s, f) <==> Now(cs, s, "", f)
  {
    forall j ensures IsField(cs, s, 0, j, f) <==> GoesOn(cs, s, j, "", f) {
      if 0 <= j <= |s| {
        assert s[0..j] == s[..j] == "" + s[..j];
      }
    }
  }

  lemma NowAtASpace(cs: Classes, s: string, field: string, f: string)
    requires s == "" || cs.isSpace(s[0])
    ensures Now(cs, s, field, f) <==> f == field && f != ""
  {
    assert field + s[..0] == field;
    if f == field && f != "" {
      assert GoesOn(cs, s, 0, field, f);
    }
    forall k | 0 < k <= |s| ensures s[0] in s[..k] {
      assert s[..k][0] == s[0];
    }
  }

  lemma {:induction false} FieldsRead(cs: Classes, s: string, field: string, f: string)
    ensures f in Fields(cs, s, field) <==> Now(cs, s, field, f) || Later(cs, s, f)
    decreases |s|
  {
    hide Now, First;
    if s == "" {
      NowAtASpace(cs, s, field, f);
    } else {
      hide Later;
      LaterMore(cs, s, f);
      if cs.isSpace(s[0]) {
        FieldsRead(cs, s[1..], "", f);
        FirstIsNow(cs, s[1..], f);
        NowAtASpace(cs, s, field, f);
      } else {
        FieldsRead(cs, s[1..], field + [s[0]], f);
        NowMore(cs, s, field, f);
      }
    }
  }

  /** The fields of a query are its stretches between spaces. */
  lemma {:induction false} FieldsIff(cs: Classes, q: string, f: string)
    ensures f in Fields(cs, q, "") <==> exists i, j :: IsField(cs, q, i, j, f)
  {
    hide Fields, Now, IsField;
    FieldsRead(cs, q, "", f);
    FirstIsNow(cs, q, f);
    if i, j :| IsField(cs, q, i, j, f) {
      FieldBounds(cs, q, i, j, f);
    }
  }

  lemma FieldBounds(cs: Classes, q: string, i: int, j: int, f: string)
    requires IsField(cs, q, i, j, f)
    ensures i >= 0
  {
  }

  predicate IsSpecial(c: char) {
    c == '"' || c == '(' || c == ')' || c == '*' || c == ':' || c == '^' || c == '{' || c == '}'
  }

  lemma SpecialIff(c: char)
    ensures c in "\"()*:^{}" <==> IsSpecial(c)
  {
    var all := "\"()*:^{}";
    assert |all| == 8 && all[0] == '"' && all[1] == '(' && all[2] == ')' && all[3] == '*';
    assert all[4] == ':' && all[5] == '^' && all[6] == '{' && all[7] == '}';
  }

  /** Deliberate syntax: one of FTS5's special characters, or a capital operator standing
      alone. */
  lemma {:induction false} SyntaxIff(cs: Classes, q: string)
    ensures LooksLikeFTSSyntax(cs, q) <==>
      || (exists c :: c in q && IsSpecial(c))
      || (exists i, j, w :: IsField(cs, q, i, j, w) && (w == "AND" || w == "OR" || w == "NOT" || w == "NEAR"))
  {
    hide IsField, Fields, IsSpecial;
    var fields := Fields(cs, q, "");
    forall w ensures w in fields <==> exists i, j :: IsField(cs, q, i, j, w) {
      FieldsIff(cs, q, w);
    }
    forall c ensures c in "\"()*:^{}" <==> IsSpecial(c) {
      SpecialIff(c);
    }
    if k :| 0 <= k < |q| && q[k] in "\"()*:^{}" {
      assert q[k] in q && IsSpecial(q[k]);
    }
    if c :| c in q && IsSpecial(c) {
      var k :| 0 <= k < |q| && q[k] == c;
      assert q[k] in "\"()*:^{}";
    }
    if k :| 0 <= k < |fields| && fields[k] in {"AND", "OR", "NOT", "NEAR"} {
      assert fields[k] in fields;
    }
    if i, j, w :| IsField(cs, q, i, j, w) && (w == "AND" || w == "OR" || w == "NOT" || w == "NEAR") {
      assert w in fields;
      var k :| 0 <= k < |fields| && fields[k] == w;
    }
  }

  // ---- trimming ----

  /** The part of f from its first word character to its last. */
  ghost predicate IsCore(cs: Classes, f: string, t: string) {
    exists a, b :: 0 <= a <= b <= |f| && t == f[a..b]
      && (forall k :: 0 <= k < a || b <= k < |f| ==> !cs.isWord(f[k]))
      && (a < b ==> cs.isWord(f[a]) && cs.isWord(f[b - 1]))
  }

  lemma {:induction false} LeftTrimmed(cs: Classes, f: string) returns (a: nat)
    ensures a <= |f| && TrimLeft(cs, f) == f[a..] && (a < |f| ==> cs.isWord(f[a]))
    ensures forall k :: 0 <= k < a ==> !cs.isWord(f[k])
  {
    if f == "" || cs.isWord(f[0]) {
      a := 0;
    } else {
      a := LeftTrimmed(cs, f[1..]);
      assert f[1..][a..] == f[a + 1..];
      forall k | 0 <= k < a + 1 ensures !cs.isWord(f[k]) {
        assert k > 0 ==> f[k] == f[1..][k - 1];
      }
      a := a + 1;
    }
  }

  lemma {:induction false} RightTrimmed(cs: Classes, f: string) returns (b: nat)
    ensures b <= |f| && TrimRight(cs, f) == f[..b] && (b > 0 ==> cs.isWord(f[b - 1]))
    ensures forall k :: b <= k < |f| ==> !cs.isWord(f[k])
  {
    if f == "" || cs.isWord(f[|f| - 1]) {
      b := |f|;
    } else {
      b := RightTrimmed(cs, f[..|f| - 1]);
      assert f[..|f| - 1][..b] == f[..b];
    }
  }

  lemma TrimIsCore(cs: Classes, f: string)
    ensures IsCore(cs, f, Trim(cs, f))
  {
    hide TrimLeft, TrimRight;
    var a := LeftTrimmed(cs, f);
    var g := f[a..];
    var b := RightTrimmed(cs, g);
    assert g[..b] == f[a..a + b];
    forall k | 0 <= k < a || a + b <= k < |f| ensures !cs.isWord(f[k]) {
      if k >= a + b {
        assert f[k] == g[k - a];
      }
    }
    if b > 0 {
      assert f[a] == g[0] && f[a + b - 1] == g[b - 1];
      assert a < |f|;
    }
  }

  lemma CoreIsUnique(cs: Classes, f: string, t: string, u: string)
    requires IsCore(cs, f, t) && IsCore(cs, f, u)
    ensures t == u
  {
    var a, b :| 0 <= a <= b <= |f| && t == f[a..b]
      && (forall k :: 0 <= k < a || b <= k < |f| ==> !cs.isWord(f[k])) && (a < b ==> cs.isWord(f[a]) && cs.isWord(f[b - 1]));
    var c, d :| 0 <= c <= d <= |f| && u == f[c..d]
      && (forall k :: 0 <= k < c || d <= k < |f| ==> !cs.isWord(f[k])) && (c < d ==> cs.isWord(f[c]) && cs.isWord(f[d - 1]));
    if a < b || c < d {
      assert a < b ==> c <= a && b <= d;
      assert c < d ==> a <= c && d <= b;
    }
  }

  lemma {:induction false} KeptIff(cs: Classes, fields: seq<string>, t: string)
    ensures t in Keep(cs, fields) <==> Kept(cs, t) && exists f :: f in fields && Trim(cs, f) == t
  {
    if fields != [] {
      KeptIff(cs, fields[1..], t);
      assert fields == [fields[0]] + fields[1..];
    }
  }

  /** A term worth searching for: what is left of a field without the punctuation at its
      ends, if that has three characters or more and is no stopword in lower case. */
  lemma {:induction false} TermsIff(cs: Classes, q: string, t: string)
    ensures t in Terms(cs, q) <==>
      && |t| > 2 && !(exists w :: w in FALLBACK_STOPWORDS && |w| == |t| && forall k :: 0 <= k < |t| ==> w[k] == cs.lower(t[k]))
      && exists i, j, f :: IsField(cs, q, i, j, f) && IsCore(cs, f, t)
  {
    hide IsField, Fields, Trim, IsCore, FALLBACK_STOPWORDS;
    KeptIff(cs, Fields(cs, q, ""), t);
    LowerIs(cs, t);
    if t in Terms(cs, q) {
      var f :| f in Fields(cs, q, "") && Trim(cs, f) == t;
      FieldsIff(cs, q, f);
      TrimIsCore(cs, f);
      assert IsCore(cs, f, t);
    }
    if i, j, f :| IsField(cs, q, i, j, f) && IsCore(cs, f, t) {
      FieldsIff(cs, q, f);
      TrimIsCore(cs, f);
      CoreIsUnique(cs, f, t, Trim(cs, f));
    }
  }

  lemma LowerIs(cs: Classes, t: string)
    ensures Lower(cs, t) in FALLBACK_STOPWORDS <==>
      exists w :: w in FALLBACK_STOPWORDS && |w| == |t| && forall k :: 0 <= k < |t| ==> w[k] == cs.lower(t[k])
  {
    hide FALLBACK_STOPWORDS;
    if w :| w in FALLBACK_STOPWORDS && |w| == |t| && forall k :: 0 <= k < |t| ==> w[k] == cs.lower(t[k]) {
      assert w == Lower(cs, t);
    }
  }
}
