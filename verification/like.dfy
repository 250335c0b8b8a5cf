/** LIKE patterns built from user input (internal/store/search.go,
    internal/store/contacts.go), against SQLite's LIKE with ESCAPE '\'. */
module Like {
  import opened Common

  // ---- the matcher ----

  /** LIKE folds ASCII letters only. */
  function Fold(c: char): char {
    if 'A' <= c <= 'Z' then (c as int + 32) as char else c
  }

  /** The 26 letters of each case, in order, and nothing else. */
  lemma FoldIsAscii(c: char)
    ensures var upper, lower := "ABCDEFGHIJKLMNOPQRSTUVWXYZ", "abcdefghijklmnopqrstuvwxyz";
      && (forall i :: 0 <= i < 26 && upper[i] == c ==> Fold(c) == lower[i])
      && (c !in upper ==> Fold(c) == c)
  {
    var upper, lower := "ABCDEFGHIJKLMNOPQRSTUVWXYZ", "abcdefghijklmnopqrstuvwxyz";
    assert forall i :: 0 <= i < 26 ==> upper[i] as int == 65 + i && lower[i] as int == 97 + i;
    if 'A' <= c <= 'Z' {
      assert upper[c as int - 65] == c;
    }
  }

  /** p LIKE-matches the whole of s: '%' is any run, '_' any one character,
      and '\' makes the next pattern character literal. */
  predicate Matches(p: string, s: string)
    decreases |p|
  {
    if p == "" then s == ""
    else if p[0] == '%' then exists k :: 0 <= k <= |s| && Matches(p[1..], s[k..])
    else if p[0] == '\\' then |p| > 1 && s != "" && Fold(p[1]) == Fold(s[0]) && Matches(p[2..], s[1..])
    else s != "" && (p[0] == '_' || Fold(p[0]) == Fold(s[0])) && Matches(p[1..], s[1..])
  }

  // ---- the patterns ----

  /** strings.ReplaceAll of a one-character string. */
  function ReplaceAll(s: string, c: char, r: string): string {
    if s == "" then "" else (if s[0] == c then r else [s[0]]) + ReplaceAll(s[1..], c, r)
  }

  function EscapeLike(s: string): string {
    ReplaceAll(ReplaceAll(ReplaceAll(s, '\\', "\\\\"), '%', "\\%"), '_', "\\_")
  }

  /** SearchContacts escapes the backslash and '%', but not '_'. */
  function EscapeContacts(s: string): string {
    ReplaceAll(ReplaceAll(s, '\\', "\\\\"), '%', "\\%")
  }

  function FindPattern(q: string): string {
    "%" + EscapeLike(q) + "%"
  }

  function ContactsPattern(q: string): string {
    "%" + EscapeContacts(q) + "%"
  }

  // ---- what the patterns should mean ----

  /** q occurs in s at k, ASCII case folded; with wild, a '_' in q stands for any character. */
  predicate At(q: string, s: string, k: nat, wild: bool) {
    k + |q| <= |s| && forall i :: 0 <= i < |q| ==> (wild && q[i] == '_') || Fold(q[i]) == Fold(s[k + i])
  }

  ghost predicate Occurs(q: string, s: string) {
    exists k: nat :: At(q, s, k, false)
  }

  ghost predicate OccursWild(q: string, s: string) {
    exists k: nat :: At(q, s, k, true)
  }

  // ---- the three passes are one pass ----

  predicate Special(c: char, wild: bool) {
    c == '\\' || c == '%' || (!wild && c == '_')
  }

  function EscapeEach(s: string, wild: bool): string {
    if s == "" then "" else (if Special(s[0], wild) then ['\\', s[0]] else [s[0]]) + EscapeEach(s[1..], wild)
  }

  lemma {:induction false} ReplaceCat(a: string, b: string, c: char, r: string)
    ensures ReplaceAll(a + b, c, r) == ReplaceAll(a, c, r) + ReplaceAll(b, c, r)
  {
    if a == "" {
      assert a + b == b;
    } else {
      assert (a + b)[1..] == a[1..] + b;
      ReplaceCat(a[1..], b, c, r);
    }
  }

  lemma ReplaceShort(c: char, d: char, e: char, r: string)
    ensures ReplaceAll([d], c, r) == if d == c then r else [d]
    ensures ReplaceAll([d, e], c, r) == (if d == c then r else [d]) + (if e == c then r else [e])
  {
    assert [d][1..] == "" && [d, e][1..] == [e];
    assert ReplaceAll([e], c, r) == (if e == c then r else [e]) + "" && [e][1..] == "";
  }

  /** The order of the passes matters: the backslash goes first, so that later
      passes do not escape the backslashes they put in. */
  lemma {:induction false} EscapeIsPerCharacter(s: string)
    ensures EscapeLike(s) == EscapeEach(s, false)
    ensures EscapeContacts(s) == EscapeEach(s, true)
  {
    if s != "" {
      var t := s[1..];
      EscapeIsPerCharacter(t);
      var a1 := if s[0] == '\\' then "\\\\" else [s[0]];
      var b1 := ReplaceAll(t, '\\', "\\\\");
      assert ReplaceAll(s, '\\', "\\\\") == a1 + b1;
      var a2 := if s[0] == '\\' then "\\\\" else if s[0] == '%' then "\\%" else [s[0]];
      var b2 := ReplaceAll(b1, '%', "\\%");
      ReplaceCat(a1, b1, '%', "\\%");
      ReplaceShort('%', a1[0], a1[|a1| - 1], "\\%");
      assert ReplaceAll(a1, '%', "\\%") == a2;
      ReplaceCat(a2, b2, '_', "\\_");
      ReplaceShort('_', a2[0], a2[|a2| - 1], "\\_");
    }
  }

  // ---- exactness ----

  /** An escaped query followed by '%' matches exactly the strings that start with the query. */
  lemma {:induction false} PrefixMatches(q: string, s: string, wild: bool)
    ensures Matches(EscapeEach(q, wild) + "%", s) <==> At(q, s, 0, wild)
  {
    var p := EscapeEach(q, wild) + "%";
    if q == "" {
      assert p == "%" && p[1..] == "" && s[|s|..] == "";
      assert Matches(p[1..], s[|s|..]);
    } else {
      var rest := EscapeEach(q[1..], wild) + "%";
      if s != "" {
        PrefixMatches(q[1..], s[1..], wild);
        assert At(q, s, 0, wild) <==>
               ((wild && q[0] == '_') || Fold(q[0]) == Fold(s[0])) && At(q[1..], s[1..], 0, wild) by {
          assert forall i :: 0 <= i < |q| - 1 ==> q[1..][i] == q[i + 1];
          assert forall i :: 1 <= i < |q| ==> q[i] == q[1..][i - 1];
        }
      }
      if Special(q[0], wild) {
        assert p[2..] == rest;
      } else {
        assert p[1..] == rest;
      }
    }
  }

  lemma SubstringMatches(q: string, s: string, wild: bool)
    ensures Matches("%" + EscapeEach(q, wild) + "%", s) <==> exists k: nat :: At(q, s, k, wild)
  {
    var p := "%" + EscapeEach(q, wild) + "%";
    assert p[1..] == EscapeEach(q, wild) + "%";
    forall k | 0 <= k <= |s| ensures Matches(p[1..], s[k..]) <==> At(q, s, k, wild) {
      PrefixMatches(q, s[k..], wild);
    }
  }

  /** The pattern FindConversations builds matches exactly the strings in which
      the query occurs literally, ASCII case folded. */
  lemma FindPatternIsExact(q: string, s: string)
    ensures Matches(FindPattern(q), s) <==> Occurs(q, s)
  {
    EscapeIsPerCharacter(q);
    SubstringMatches(q, s, false);
  }

  /** The pattern SearchContacts builds treats '_' as any character, and so
      accepts at least what a literal search accepts. */
  lemma ContactsPatternMeaning(q: string, s: string)
    ensures Matches(ContactsPattern(q), s) <==> OccursWild(q, s)
    ensures Occurs(q, s) ==> Matches(ContactsPattern(q), s)
  {
    EscapeIsPerCharacter(q);
    SubstringMatches(q, s, true);
    if k: nat :| At(q, s, k, false) {
      assert At(q, s, k, true);
    }
  }

  /** It is exact for a query if and only if the query has no '_'. */
  lemma ContactsPatternIsExactIff(q: string)
    ensures (forall s :: Matches(ContactsPattern(q), s) <==> Occurs(q, s)) <==> '_' !in q
  {
    if '_' in q {
      var i :| 0 <= i < |q| && q[i] == '_';
      var s := q[i := 'x'];
      assert At(q, s, 0, true);
      ContactsPatternMeaning(q, s);
      assert Fold(q[i]) != Fold(s[i]);
      assert !Occurs(q, s);
    } else {
      forall s ensures Matches(ContactsPattern(q), s) <==> Occurs(q, s) {
        ContactsPatternMeaning(q, s);
        if k: nat :| At(q, s, k, true) {
          assert At(q, s, k, false);
        }
      }
    }
  }

  // ---- FindConversations ----

  datatype Conversation = Conversation(name: string, alias: Option<string>, participantsJson: string)

  /** One row of the query: name, alias and participants against the query, and
      participants against each matched contact id; a missing alias is NULL and
      never matches, an empty contact id is skipped. */
  predicate RowMatches(c: Conversation, query: string, contactIds: seq<string>) {
    || Matches(FindPattern(query), c.name)
    || (c.alias.Some? && Matches(FindPattern(query), c.alias.value))
    || Matches(FindPattern(query), c.participantsJson)
    || exists i :: 0 <= i < |contactIds| && contactIds[i] != "" &&
         Matches("%\"id\":\"" + EscapeLike(contactIds[i]) + "\"%", c.participantsJson)
  }

  /** A conversation is found exactly when the query, or the quoted id of a
      matched contact, occurs literally in what the row says about it. */
  lemma FindConversationsIsExact(c: Conversation, query: string, contactIds: seq<string>)
    ensures RowMatches(c, query, contactIds) <==>
              || Occurs(query, c.name)
              || (c.alias.Some? && Occurs(query, c.alias.value))
              || Occurs(query, c.participantsJson)
              || exists i :: 0 <= i < |contactIds| && contactIds[i] != "" &&
                   Occurs("\"id\":\"" + contactIds[i] + "\"", c.participantsJson)
  {
    FindPatternIsExact(query, c.name);
    if c.alias.Some? {
      FindPatternIsExact(query, c.alias.value);
    }
    FindPatternIsExact(query, c.participantsJson);
    forall i | 0 <= i < |contactIds|
      ensures "%\"id\":\"" + EscapeLike(contactIds[i]) + "\"%" == FindPattern("\"id\":\"" + contactIds[i] + "\"")
    {
      QuotedIdPattern(contactIds[i]);
    }
    forall i | 0 <= i < |contactIds| {
      FindPatternIsExact("\"id\":\"" + contactIds[i] + "\"", c.participantsJson);
    }
  }

  lemma {:induction false} EscapeCat(a: string, b: string)
    ensures EscapeEach(a + b, false) == EscapeEach(a, false) + EscapeEach(b, false)
  {
    if a == "" {
      assert a + b == b;
    } else {
      assert (a + b)[1..] == a[1..] + b;
      EscapeCat(a[1..], b);
    }
  }

  lemma {:induction false} EscapePlain(a: string)
    requires forall c :: c in a ==> !Special(c, false)
    ensures EscapeEach(a, false) == a
  {
    if a != "" {
      EscapePlain(a[1..]);
    }
  }

  lemma EscapeAround(pre: string, id: string, post: string)
    requires forall c :: c in pre + post ==> !Special(c, false)
    ensures EscapeLike(pre + id + post) == pre + EscapeLike(id) + post
  {
    EscapePlain(pre);
    EscapePlain(post);
    EscapeCat(pre, id + post);
    EscapeCat(id, post);
    assert pre + (id + post) == pre + id + post;
    EscapeIsPerCharacter(pre + id + post);
    EscapeIsPerCharacter(id);
  }

  lemma QuotedIdPattern(id: string)
    ensures "%\"id\":\"" + EscapeLike(id) + "\"%" == FindPattern("\"id\":\"" + id + "\"")
  {
    hide EscapeLike;
    EscapeAround("\"id\":\"", id, "\"");
  }

  predicate SameFolded(t: string, s: string) {
    |s| == |t| && forall i :: 0 <= i < |t| ==> Fold(t[i]) == Fold(s[i])
  }

  lemma SameFoldedFirst(t: string, s: string)
    requires t != ""
    ensures SameFolded(t, s) <==> s != "" && Fold(t[0]) == Fold(s[0]) && SameFolded(t[1..], s[1..])
  {
    hide Fold;
    if s != "" && Fold(t[0]) == Fold(s[0]) && SameFolded(t[1..], s[1..]) {
      forall i | 0 <= i < |t| ensures Fold(t[i]) == Fold(s[i]) {
        assert i > 0 ==> t[i] == t[1..][i - 1] && s[i] == s[1..][i - 1];
      }
    }
  }

  lemma {:induction false} EachIsLiteral(t: string, s: string)
    ensures Matches(EscapeEach(t, false), s) <==> SameFolded(t, s)
  {
    if t != "" {
      hide Fold, SameFolded;
      var p, rest := EscapeEach(t, false), EscapeEach(t[1..], false);
      SameFoldedFirst(t, s);
      assert p[if Special(t[0], false) then 2 else 1..] == rest;
      if s != "" {
        EachIsLiteral(t[1..], s[1..]);
      }
    }
  }

  /** An escaped text on its own matches that text and no other, ASCII case folded. */
  lemma {:induction false} EscapedIsLiteral(t: string, s: string)
    ensures Matches(EscapeLike(t), s) <==> SameFolded(t, s)
  {
    EscapeIsPerCharacter(t);
    EachIsLiteral(t, s);
  }
}
