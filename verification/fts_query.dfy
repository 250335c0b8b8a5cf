/** The full-text queries of internal/store/search.go: term extraction, quoting,
    and the three tiers of SearchMessagesRich, read back through the query
    syntax of SQLite's FTS5. */
module FtsQuery {
  import opened Common

  // ---- FTS5 query syntax, as far as the fallback queries use it ----

  datatype Token = Str(text: string) | Word(text: string)

  /** Reads a string after its opening quote: the text, with doubled quotes
      undone, and what follows the closing quote. */
  function ReadString(s: string): (r: Option<(string, string)>)
    ensures r.Some? ==> |r.value.1| < |s|
  {
    if s == "" then None
    else if s[0] == '"' && (|s| == 1 || s[1] != '"') then Some(("", s[1..]))
    else
      var n := if s[0] == '"' then 2 else 1;
      match ReadString(s[n..])
      case None => None
      case Some((text, rest)) => Some(([s[0]] + text, rest))
  }

  predicate IsBlank(c: char) {
    c == ' ' || c == '\t' || c == '\n' || c == '\r'
  }

  predicate IsBare(c: char) {
    'a' <= c <= 'z' || 'A' <= c <= 'Z' || '0' <= c <= '9' || c == '_' || c as int >= 128
  }

  function BareEnd(s: string): (n: nat)
    ensures n <= |s| && (s != "" && IsBare(s[0]) ==> n > 0)
  {
    if s != "" && IsBare(s[0]) then 1 + BareEnd(s[1..]) else 0
  }

  /** None for an unterminated string or for syntax that is not modelled. */
  function Lex(s: string): Option<seq<Token>>
    decreases |s|
  {
    if s == "" then Some([])
    else if IsBlank(s[0]) then Lex(s[1..])
    else if s[0] == '"' then
      match ReadString(s[1..])
      case None => None
      case Some((text, rest)) => Prepend(Str(text), Lex(rest))
    else if IsBare(s[0]) then Prepend(Word(s[..BareEnd(s)]), Lex(s[BareEnd(s)..]))
    else None
  }

  function Prepend(t: Token, ts: Option<seq<Token>>): Option<seq<Token>> {
    if ts.Some? then Some([t] + ts.value) else None
  }

  /** Whether a text satisfies a query, given the phrases it contains: adjacent
      terms are all required, OR separates alternatives and binds less tightly. */
  predicate Sat(ts: seq<Token>, soFar: bool, contains: string -> bool)
    decreases |ts|
  {
    if ts == [] then soFar
    else if ts[0] == Word("OR") then soFar || Sat(ts[1..], true, contains)
    else Sat(ts[1..], soFar && contains(ts[0].text), contains)
  }

  // ---- quoting ----

  function DoubleQuotes(t: string): string {
    if t == "" then "" else (if t[0] == '"' then "\"\"" else [t[0]]) + DoubleQuotes(t[1..])
  }

  function Quote(t: string): string {
    "\"" + DoubleQuotes(t) + "\""
  }

  function Join(parts: seq<string>, sep: string): string {
    if parts == [] then "" else if |parts| == 1 then parts[0] else parts[0] + sep + Join(parts[1..], sep)
  }

  function QuotedAll(terms: seq<string>): (r: seq<string>)
    ensures |r| == |terms| && forall i :: 0 <= i < |terms| ==> r[i] == Quote(terms[i])
  {
    seq(|terms|, i requires 0 <= i < |terms| => Quote(terms[i]))
  }

  function JoinedQuoted(terms: seq<string>, sep: string): string {
    Join(QuotedAll(terms), sep)
  }

  method JoinQuoted(terms: seq<string>, sep: string) returns (r: string)
    ensures r == JoinedQuoted(terms, sep)
  {
    var quoted := new string[|terms|];
    for i := 0 to |terms|
      invariant forall k :: 0 <= k < i ==> quoted[k] == Quote(terms[k])
    {
      quoted[i] := "\"" + DoubleQuotes(terms[i]) + "\"";
    }
    assert quoted[..] == QuotedAll(terms);
    r := Join(quoted[..], sep);
  }

  // ---- reading the quoted query back ----

  lemma {:induction false} ReadQuoted(t: string, rest: string)
    requires rest == "" || rest[0] != '"'
    ensures ReadString(DoubleQuotes(t) + "\"" + rest) == Some((t, rest))
  {
    var s := DoubleQuotes(t) + "\"" + rest;
    if t == "" {
      assert s == "\"" + rest && s[1..] == rest;
    } else {
      ReadQuoted(t[1..], rest);
      var head := if t[0] == '"' then ['"', '"'] else [t[0]];
      var n := |head|;
      assert s == head + (DoubleQuotes(t[1..]) + "\"" + rest);
      assert s[n..] == DoubleQuotes(t[1..]) + "\"" + rest;
      assert [t[0]] + t[1..] == t;
    }
  }

  /** The separators in use, and the tokens they read as. */
  predicate Separator(sep: string) {
    sep == " " || sep == " OR "
  }

  function Interleave(terms: seq<string>, sep: string): seq<Token> {
    if terms == [] then []
    else if |terms| == 1 then [Str(terms[0])]
    else [Str(terms[0])] + (if sep == " " then [] else [Word("OR")]) + Interleave(terms[1..], sep)
  }

  lemma LexSeparator(sep: string, s: string)
    requires Separator(sep) && s != "" && s[0] == '"'
    ensures Lex(sep + s) == if sep == " " then Lex(s) else Prepend(Word("OR"), Lex(s))
  {
    assert (sep + s)[1..] == sep[1..] + s;
    if sep == " " {
      assert sep[1..] + s == s;
    } else {
      var r := "OR " + s;
      assert sep[1..] + s == r;
      assert r[1..] == "R " + s && r[2..] == " " + s && r[1..][1..] == r[2..] && r[2..][1..] == s;
      assert BareEnd(r[2..]) == 0 && BareEnd(r[1..]) == 1 && BareEnd(r) == 2;
      assert r[..2] == "OR" && Lex(r[2..]) == Lex(s);
      assert Lex(r) == Prepend(Word("OR"), Lex(r[2..]));
    }
  }

  lemma LexQuoted(t: string, rest: string)
    requires rest == "" || rest[0] != '"'
    ensures Lex(Quote(t) + rest) == Prepend(Str(t), Lex(rest))
  {
    hide DoubleQuotes, ReadString;
    assert (Quote(t) + rest)[1..] == DoubleQuotes(t) + "\"" + rest;
    ReadQuoted(t, rest);
    assert (Quote(t) + rest)[0] == '"';
  }

  /** Any terms at all, whatever characters they hold: reading the joined query
      as FTS5 gives the terms back, in order, with only OR between them. */
  lemma {:induction false} QuotingIsUndone(terms: seq<string>, sep: string)
    requires Separator(sep)
    ensures Lex(JoinedQuoted(terms, sep)) == Some(Interleave(terms, sep))
    decreases |terms|
  {
    if terms == [] {
      assert QuotedAll(terms) == [];
    } else {
      var rest := if |terms| == 1 then "" else sep + JoinedQuoted(terms[1..], sep);
      assert QuotedAll(terms)[1..] == QuotedAll(terms[1..]);
      assert JoinedQuoted(terms, sep) == Quote(terms[0]) + rest;
      assert Lex("") == Some([]);
      hide Quote, Lex, JoinedQuoted;
      LexQuoted(terms[0], rest);
      if |terms| > 1 {
        QuotingIsUndone(terms[1..], sep);
        LexSeparator(sep, JoinedQuoted(terms[1..], sep));
        TokensRegroup(Str(terms[0]), Interleave(terms[1..], sep));
      } else {
        assert Lex(rest) == Some([]) && [Str(terms[0])] + [] == [Str(terms[0])];
      }
    }
  }

  lemma TokensRegroup(t: Token, tail: seq<Token>)
    ensures [t] + [] + tail == [t] + tail && [t] + [Word("OR")] + tail == [t] + ([Word("OR")] + tail)
  {
  }

  lemma {:induction false} AllTermsNeeded(terms: seq<string>, soFar: bool, contains: string -> bool)
    ensures Sat(Interleave(terms, " "), soFar, contains) <==> soFar && forall t :: t in terms ==> contains(t)
    decreases |terms|
  {
    if terms != [] {
      AllTermsNeeded(terms[1..], soFar && contains(terms[0]), contains);
      assert terms == [terms[0]] + terms[1..];
      var ts := Interleave(terms, " ");
      if |terms| > 1 {
        assert ts == [Str(terms[0])] + Interleave(terms[1..], " ");
      }
      assert ts[1..] == Interleave(terms[1..], " ");
    }
  }

  lemma {:induction false} AnyTermEnough(terms: seq<string>, contains: string -> bool)
    requires terms != []
    ensures Sat(Interleave(terms, " OR "), true, contains) <==> exists t :: t in terms && contains(t)
    decreases |terms|
  {
    assert terms == [terms[0]] + terms[1..];
    var ts := Interleave(terms, " OR ");
    if |terms| > 1 {
      AnyTermEnough(terms[1..], contains);
      assert ts[1..] == [Word("OR")] + Interleave(terms[1..], " OR ");
      assert ts[1..][1..] == Interleave(terms[1..], " OR ");
    } else {
      assert ts[1..] == [];
    }
  }

  // ---- extracting terms ----

  /** Unicode character classes; every classification is allowed. */
  datatype Classes = Classes(isSpace: char -> bool, isWord: char -> bool, lower: char -> char)

  const FALLBACK_STOPWORDS: set<string> := {
    "the", "and", "for", "are", "was", "were", "you", "your", "has", "have", "had", "this",
    "that", "with", "from", "they", "them", "then", "what", "when", "where", "who", "why", "how",
    "did", "does", "will", "would", "could", "should", "can", "get", "got", "our", "out", "not",
    "but", "all", "any", "about", "there", "here", "just", "into", "some", "been"
  }

  function Lower(cs: Classes, s: string): string {
    seq(|s|, i requires 0 <= i < |s| => cs.lower(s[i]))
  }

  /** strings.Fields, with the field read so far. */
  function Fields(cs: Classes, s: string, field: string): seq<string>
    decreases |s|
  {
    var done := if field == "" then [] else [field];
    if s == "" then done
    else if cs.isSpace(s[0]) then done + Fields(cs, s[1..], "")
    else Fields(cs, s[1..], field + [s[0]])
  }

  function TrimLeft(cs: Classes, s: string): string {
    if s == "" || cs.isWord(s[0]) then s else TrimLeft(cs, s[1..])
  }

  function TrimRight(cs: Classes, s: string): string {
    if s == "" || cs.isWord(s[|s| - 1]) then s else TrimRight(cs, s[..|s| - 1])
  }

  function Trim(cs: Classes, s: string): string {
    TrimRight(cs, TrimLeft(cs, s))
  }

  predicate Kept(cs: Classes, f: string) {
    |f| >= 3 && Lower(cs, f) !in FALLBACK_STOPWORDS
  }

  function Keep(cs: Classes, fields: seq<string>): seq<string> {
    if fields == [] then []
    else
      var f := Trim(cs, fields[0]);
      (if Kept(cs, f) then [f] else []) + Keep(cs, fields[1..])
  }

  function Terms(cs: Classes, q: string): seq<string> {
    Keep(cs, Fields(cs, q, ""))
  }

  method SearchableTerms(cs: Classes, q: string) returns (terms: seq<string>)
    ensures terms == Terms(cs, q)
  {
    var fields := Fields(cs, q, "");
    terms := [];
    for i := 0 to |fields|
      invariant terms + Keep(cs, fields[i..]) == Terms(cs, q)
    {
      var f := Trim(cs, fields[i]);
      assert fields[i..][1..] == fields[i + 1..];
      if |f| < 3 {
        continue;
      }
      if Lower(cs, f) in FALLBACK_STOPWORDS {
        continue;
      }
      terms := terms + [f];
    }
  }

  /** A term that extraction leaves as it is. */
  ghost predicate Clean(cs: Classes, t: string) {
    && Kept(cs, t) && cs.isWord(t[0]) && cs.isWord(t[|t| - 1])
    && forall i :: 0 <= i < |t| ==> !cs.isSpace(t[i])
  }

  lemma {:induction false} FieldsHaveNoSpace(cs: Classes, s: string, field: string)
    requires forall c :: c in field ==> !cs.isSpace(c)
    ensures forall f, c :: f in Fields(cs, s, field) && c in f ==> !cs.isSpace(c)
    decreases |s|
  {
    if s != "" {
      FieldsHaveNoSpace(cs, s[1..], "");
      if !cs.isSpace(s[0]) {
        FieldsHaveNoSpace(cs, s[1..], field + [s[0]]);
      }
    }
  }

  lemma {:induction false} TrimLeftEdge(cs: Classes, s: string)
    ensures var t := TrimLeft(cs, s); (t != "" ==> cs.isWord(t[0])) && forall c :: c in t ==> c in s
  {
    if s != "" && !cs.isWord(s[0]) {
      TrimLeftEdge(cs, s[1..]);
    }
  }

  lemma {:induction false} TrimRightEdge(cs: Classes, s: string)
    ensures var t := TrimRight(cs, s);
            && (t != "" ==> cs.isWord(t[|t| - 1]) && t[0] == s[0])
            && forall c :: c in t ==> c in s
  {
    if s != "" && !cs.isWord(s[|s| - 1]) {
      TrimRightEdge(cs, s[..|s| - 1]);
    }
  }

  lemma {:induction false} KeepIsClean(cs: Classes, fields: seq<string>)
    requires forall f, c :: f in fields && c in f ==> !cs.isSpace(c)
    ensures forall t :: t in Keep(cs, fields) ==> Clean(cs, t)
  {
    if fields != [] {
      TrimLeftEdge(cs, fields[0]);
      TrimRightEdge(cs, TrimLeft(cs, fields[0]));
      KeepIsClean(cs, fields[1..]);
      var t := Trim(cs, fields[0]);
      assert fields[0] in fields;
      assert forall i :: 0 <= i < |t| ==> t[i] in fields[0];
    }
  }

  lemma {:induction false} FieldsOfTerm(cs: Classes, t: string, s: string, field: string)
    requires forall i :: 0 <= i < |t| ==> !cs.isSpace(t[i])
    ensures Fields(cs, t + s, field) == Fields(cs, s, field + t)
    decreases |t|
  {
    if t == "" {
      assert t + s == s && field + t == field;
    } else {
      assert (t + s)[1..] == t[1..] + s && field + [t[0]] + t[1..] == field + t;
      FieldsOfTerm(cs, t[1..], s, field + [t[0]]);
    }
  }

  lemma {:induction false} FieldsOfJoined(cs: Classes, terms: seq<string>)
    requires cs.isSpace(' ') && forall t :: t in terms ==> Clean(cs, t)
    ensures Fields(cs, Join(terms, " "), "") == terms
    decreases |terms|
  {
    if terms != [] {
      assert terms[0] in terms && Clean(cs, terms[0]);
      var rest := if |terms| == 1 then "" else " " + Join(terms[1..], " ");
      assert Join(terms, " ") == terms[0] + rest;
      FieldsOfTerm(cs, terms[0], rest, "");
      assert "" + terms[0] == terms[0];
      if |terms| > 1 {
        assert rest[1..] == Join(terms[1..], " ");
        FieldsOfJoined(cs, terms[1..]);
      }
    }
  }

  lemma {:induction false} KeepOfClean(cs: Classes, terms: seq<string>)
    requires forall t :: t in terms ==> Clean(cs, t)
    ensures Keep(cs, terms) == terms
  {
    if terms != [] {
      assert Clean(cs, terms[0]);
      KeepOfClean(cs, terms[1..]);
    }
  }

  /** Terms are stable: searching for the terms of a query, space separated,
      extracts the same terms again. */
  lemma TermsAreIdempotent(cs: Classes, q: string)
    requires cs.isSpace(' ')
    ensures Terms(cs, Join(Terms(cs, q), " ")) == Terms(cs, q)
  {
    FieldsHaveNoSpace(cs, q, "");
    KeepIsClean(cs, Fields(cs, q, ""));
    FieldsOfJoined(cs, Terms(cs, q));
    KeepOfClean(cs, Terms(cs, q));
  }

  // ---- the three tiers ----

  datatype Answer<H> = Rows(hits: seq<H>) | Rejected

  datatype Tier = Verbatim | AllTerms | AnyTerm

  predicate LooksLikeFTSSyntax(cs: Classes, q: string) {
    || (exists i :: 0 <= i < |q| && q[i] in "\"()*:^{}")
    || (exists i :: 0 <= i < |Fields(cs, q, "")| && Fields(cs, q, "")[i] in {"AND", "OR", "NOT", "NEAR"})
  }

  /** What SearchMessagesRich returns, and which queries it runs on the way. */
  function Tiers<H>(cs: Classes, q: string, db: string -> Answer<H>): (Answer<H>, seq<(Tier, string)>) {
    var terms := Terms(cs, q);
    var first := db(q);
    var asked := [(Verbatim, q)];
    if first == Rejected && terms == [] then (Rows([]), asked)
    else if first == Rejected && JoinedQuoted(terms, " ") == q then (Rejected, asked)
    else
      var second := if first == Rejected then db(JoinedQuoted(terms, " ")) else first;
      var asked2 := if first == Rejected then asked + [(AllTerms, JoinedQuoted(terms, " "))] else asked;
      if second == Rejected then (Rejected, asked2)
      else if second.hits == [] && !LooksLikeFTSSyntax(cs, q) && |terms| > 1 then
        (db(JoinedQuoted(terms, " OR ")), asked2 + [(AnyTerm, JoinedQuoted(terms, " OR "))])
      else (second, asked2)
  }

  method SearchMessagesRich<H(!new,==)>(cs: Classes, q: string, db: string -> Answer<H>)
    returns (r: Answer<H>, ghost asked: seq<(Tier, string)>)
    ensures r == Tiers(cs, q, db).0
    ensures asked == Tiers(cs, q, db).1
    ensures forall all: set<H>, contains: H -> string -> bool :: Answers(db, all, contains) ==> Meant(cs, q, db, all, contains, r)
  {
    TiersAreMeant(cs, q, db);
    hide Answers, Meant, Terms, JoinedQuoted;
    asked := [(Verbatim, q)];
    r := db(q);
    if r == Rejected {
      var terms := SearchableTerms(cs, q);
      if |terms| == 0 {
        r := Rows([]);
        return;
      }
      var fallback := JoinQuoted(terms, " ");
      if fallback == q {
        return;
      }
      asked := asked + [(AllTerms, fallback)];
      r := db(fallback);
      if r == Rejected {
        return;
      }
    }
    if |r.hits| == 0 && !LooksLikeFTSSyntax(cs, q) {
      var terms := SearchableTerms(cs, q);
      if |terms| > 1 {
        var anyTerm := JoinQuoted(terms, " OR ");
        asked := asked + [(AnyTerm, anyTerm)];
        r := db(anyTerm);
      }
    }
  }

  /** The query is always tried verbatim first; the OR tier runs at most once,
      last, and never for a query that is deliberate FTS5 syntax. */
  lemma {:induction false} TierOrder<H>(cs: Classes, q: string, db: string -> Answer<H>)
    ensures var asked := Tiers(cs, q, db).1;
            && 1 <= |asked| <= 3 && asked[0] == (Verbatim, q)
            && forall i :: 0 < i < |asked| ==>
                 && (asked[i].0 == AllTerms ==> i == 1 && db(q) == Rejected)
                 && (asked[i].0 == AnyTerm ==>
                       i == |asked| - 1 && !LooksLikeFTSSyntax(cs, q) && db(asked[i - 1].1) == Rows([]))
                 && asked[i].0 != Verbatim
  {
  }

  /** The index answers a query of quoted terms with exactly the messages that satisfy it. */
  ghost predicate Answers<H(!new)>(db: string -> Answer<H>, all: set<H>, contains: H -> string -> bool) {
    forall terms, sep :: terms != [] && Separator(sep) ==>
      var q := JoinedQuoted(terms, sep);
      && db(q).Rows?
      && Lex(q).Some?
      && forall h :: h in db(q).hits <==> h in all && Sat(Lex(q).value, true, contains(h))
  }

  /** Natural-language queries always work: whatever is typed, no error comes back. */
  lemma {:induction false} SearchNeverFails<H(!new)>(cs: Classes, q: string, db: string -> Answer<H>, all: set<H>, contains: H -> string -> bool)
    requires Answers(db, all, contains)
    ensures Tiers(cs, q, db).0.Rows?
  {
    hide Sat, Lex, Terms, LooksLikeFTSSyntax, JoinedQuoted;
    var terms := Terms(cs, q);
    if terms != [] {
      assert Separator(" ") && Separator(" OR ");
      assert db(JoinedQuoted(terms, " ")).Rows? && db(JoinedQuoted(terms, " OR ")).Rows?;
    }
  }

  /** What a search should give, by the index's answer to the query as typed. One that is
      accepted gives its hits; but if there are none, and the query is plain and has two
      terms or more, the messages with some term. One that is rejected gives nothing if it
      has no terms; otherwise the messages with every term, but if there are none, and the
      query is plain, those with some term. */
  ghost predicate Meant<H(!new)>(
    cs: Classes, q: string, db: string -> Answer<H>, all: set<H>, contains: H -> string -> bool, r: Answer<H>)
  {
    var terms, plain := Terms(cs, q), !LooksLikeFTSSyntax(cs, q);
    var full := set h | h in all && forall t :: t in terms ==> contains(h)(t);
    && r.Rows?
    && match db(q)
       case Rows(hits) =>
         if hits == [] && plain && |terms| > 1 then
           forall h :: h in r.hits <==> h in all && exists t :: t in terms && contains(h)(t)
         else r.hits == hits
       case Rejected =>
         forall h :: h in r.hits <==>
           && terms != [] && h in all
           && if full != {} || !plain then h in full else exists t :: t in terms && contains(h)(t)
  }

  lemma {:induction false} AcceptedMeaning<H(!new)>(
    cs: Classes, q: string, db: string -> Answer<H>, all: set<H>, contains: H -> string -> bool)
    requires Answers(db, all, contains) && db(q).Rows?
    ensures Meant(cs, q, db, all, contains, Tiers(cs, q, db).0)
  {
    hide Lex, LooksLikeFTSSyntax, JoinedQuoted, Interleave, Sat, Terms;
    var terms := Terms(cs, q);
    if db(q).hits == [] && !LooksLikeFTSSyntax(cs, q) && |terms| > 1 {
      assert Separator(" OR ");
      var any := JoinedQuoted(terms, " OR ");
      QuotingIsUndone(terms, " OR ");
      assert db(any).Rows?;
      forall h | h in all ensures h in db(any).hits <==> exists t :: t in terms && contains(h)(t) {
        AnyTermEnough(terms, contains(h));
      }
    }
  }

  lemma TiersAreMeant<H(!new)>(cs: Classes, q: string, db: string -> Answer<H>)
    ensures forall all: set<H>, contains: H -> string -> bool ::
      Answers(db, all, contains) ==> Meant(cs, q, db, all, contains, Tiers(cs, q, db).0)
  {
    hide Answers, Meant, Tiers;
    forall all: set<H>, contains: H -> string -> bool | Answers(db, all, contains)
      ensures Meant(cs, q, db, all, contains, Tiers(cs, q, db).0)
    {
      if db(q).Rows? {
        AcceptedMeaning(cs, q, db, all, contains);
      } else {
        RejectedMeaning(cs, q, db, all, contains);
      }
    }
  }

  lemma {:induction false} RejectedMeaning<H(!new)>(
    cs: Classes, q: string, db: string -> Answer<H>, all: set<H>, contains: H -> string -> bool)
    requires Answers(db, all, contains) && db(q) == Rejected
    ensures Meant(cs, q, db, all, contains, Tiers(cs, q, db).0)
  {
    hide LooksLikeFTSSyntax, Terms, Tiers, Answers, Lex;
    FallbackMeaning(cs, q, db, all, contains);
  }

  /** What a rejected query finds: nothing if it has no terms; the messages with every
      term if there are any, or if the query is deliberate syntax; and otherwise the
      messages with some term. */
  lemma {:induction false} FallbackMeaning<H(!new)>(cs: Classes, q: string, db: string -> Answer<H>, all: set<H>, contains: H -> string -> bool)
    requires Answers(db, all, contains) && db(q) == Rejected
    ensures var terms := Terms(cs, q);
            var full := set h | h in all && forall t :: t in terms ==> contains(h)(t);
            var r := Tiers(cs, q, db).0;
            && r.Rows?
            && forall h :: h in r.hits <==>
                 && terms != [] && h in all
                 && if full != {} || LooksLikeFTSSyntax(cs, q) then h in full else exists t :: t in terms && contains(h)(t)
  {
    hide Lex, LooksLikeFTSSyntax, JoinedQuoted, Interleave, Sat, Terms;
    var terms := Terms(cs, q);
    if terms != [] {
      assert Separator(" ") && Separator(" OR ");
      var q1, q2 := JoinedQuoted(terms, " "), JoinedQuoted(terms, " OR ");
      assert q1 != q;
      assert db(q1).Rows? && db(q2).Rows?;
      QuotingIsUndone(terms, " ");
      QuotingIsUndone(terms, " OR ");
      forall h | h in all
        ensures h in db(q1).hits <==> forall t :: t in terms ==> contains(h)(t)
        ensures h in db(q2).hits <==> exists t :: t in terms && contains(h)(t)
      {
        AllTermsNeeded(terms, true, contains(h));
        AnyTermEnough(terms, contains(h));
      }
      var full := set h | h in all && forall t :: t in terms ==> contains(h)(t);
      if db(q1).hits == [] {
        assert full == {};
      } else {
        assert db(q1).hits[0] in full;
      }
      assert |terms| == 1 ==> terms == [terms[0]];
    }
  }
}
