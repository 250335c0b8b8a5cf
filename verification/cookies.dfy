/** Reading a Cookie header and keeping the Google cookies, internal/gm/cookies.go.
    The header's form is the cookie-string of section 4.2.1 of RFC 6265. */
module Cookies {
  import opened Common

  /** Unicode classes, as parameters. */
  datatype Chars = Chars(isSpace: char -> bool, lower: char -> char)

  datatype Cookie = Cookie(name: string, value: string)

  const REQUIRED := ["SID", "HSID", "OSID", "SSID", "APISID", "SAPISID"]
  const OPTIONAL := ["__Secure-1PSIDTS"]
  const LABEL := "cookie:"

  /** The separators are not space and have no other case, and a blank is space. */
  predicate Usual(cs: Chars) {
    !cs.isSpace('=') && !cs.isSpace(';') && cs.isSpace(' ') && cs.lower('=') == '='
  }

  // ---- strings ----

  function TrimLeft(cs: Chars, s: string): string {
    if s != "" && cs.isSpace(s[0]) then TrimLeft(cs, s[1..]) else s
  }

  function TrimRight(cs: Chars, s: string): string {
    if s != "" && cs.isSpace(s[|s| - 1]) then TrimRight(cs, s[..|s| - 1]) else s
  }

  function Trim(cs: Chars, s: string): string {
    TrimRight(cs, TrimLeft(cs, s))
  }

  /** The pieces between occurrences of c. */
  function Split(s: string, c: char): (r: seq<string>)
    ensures r != []
  {
    if s == "" then [""]
    else
      var rest := Split(s[1..], c);
      if s[0] == c then [""] + rest else [[s[0]] + rest[0]] + rest[1..]
  }

  /** The text before and after the first '=', if there is one. */
  function Cut(s: string): Option<(string, string)> {
    if s == "" then None
    else if s[0] == '=' then Some(("", s[1..]))
    else
      match Cut(s[1..])
      case None => None
      case Some((a, b)) => Some(([s[0]] + a, b))
  }

  predicate Labelled(cs: Chars, s: string) {
    |LABEL| <= |s| && forall i :: 0 <= i < |LABEL| ==> cs.lower(s[i]) == LABEL[i]
  }

  // ---- parsing ----

  function Unlabelled(cs: Chars, header: string): string {
    var h := Trim(cs, header);
    if Labelled(cs, h) then Trim(cs, h[|LABEL|..]) else h
  }

  function ReadCookie(cs: Chars, part: string): Option<Cookie> {
    match Cut(Trim(cs, part))
    case None => None
    case Some((name, value)) =>
      var c := Cookie(Trim(cs, name), Trim(cs, value));
      if c.name != "" && c.value != "" then Some(c) else None
  }

  /** Later parts overwrite earlier ones. */
  function ReadAll(cs: Chars, parts: seq<string>): map<string, string> {
    if parts == [] then map[]
    else
      var before := ReadAll(cs, parts[..|parts| - 1]);
      match ReadCookie(cs, parts[|parts| - 1])
      case None => before
      case Some(c) => before[c.name := c.value]
  }

  function Parsed(cs: Chars, header: string): map<string, string> {
    ReadAll(cs, Split(Unlabelled(cs, header), ';'))
  }

  method ParseCookieHeader(cs: Chars, header: string) returns (cookies: map<string, string>)
    ensures cookies == Parsed(cs, header)
  {
    cookies := map[];
    var h := Trim(cs, header);
    if Labelled(cs, h) {
      h := Trim(cs, h[|LABEL|..]);
    }
    var parts := Split(h, ';');
    for i := 0 to |parts|
      invariant cookies == ReadAll(cs, parts[..i])
    {
      assert parts[..i + 1][..i] == parts[..i];
      var cut := Cut(Trim(cs, parts[i]));
      if cut.Some? {
        var name, value := Trim(cs, cut.value.0), Trim(cs, cut.value.1);
        if name != "" && value != "" {
          cookies := cookies[name := value];
        }
      }
    }
    assert parts[..|parts|] == parts;
  }

  // ---- cookies that a header can hold ----

  /** Not empty, and without space at either end. */
  predicate Tight(cs: Chars, s: string) {
    s != "" && !cs.isSpace(s[0]) && !cs.isSpace(s[|s| - 1])
  }

  predicate Holdable(cs: Chars, c: Cookie) {
    Tight(cs, c.name) && Tight(cs, c.value) && '=' !in c.name && ';' !in c.name && ';' !in c.value
  }

  lemma {:induction false} TrimLeftIs(cs: Chars, s: string)
    ensures var r := TrimLeft(cs, s);
      && |r| <= |s| && r == s[|s| - |r|..] && (r != "" ==> !cs.isSpace(r[0]))
      && (s != "" && !cs.isSpace(s[|s| - 1]) ==> r != "" && r[|r| - 1] == s[|s| - 1])
  {
    if s != "" && cs.isSpace(s[0]) {
      TrimLeftIs(cs, s[1..]);
    }
  }

  lemma {:induction false} TrimRightIs(cs: Chars, s: string)
    ensures var r := TrimRight(cs, s);
      && |r| <= |s| && r == s[..|r|] && (r != "" ==> !cs.isSpace(r[|r| - 1]))
  {
    if s != "" && cs.isSpace(s[|s| - 1]) {
      TrimRightIs(cs, s[..|s| - 1]);
    }
  }

  lemma TrimIs(cs: Chars, s: string)
    ensures var r := Trim(cs, s); (r == "" || Tight(cs, r)) && forall c :: c in r ==> c in s
    ensures Tight(cs, s) ==> Trim(cs, s) == s
  {
    TrimLeftIs(cs, s);
    TrimRightIs(cs, TrimLeft(cs, s));
  }

  /** A blank before it is all that separates a later pair from its semicolon. */
  lemma TrimBlank(cs: Chars, s: string)
    requires cs.isSpace(' ') && Tight(cs, s)
    ensures Trim(cs, " " + s) == s
  {
    assert (" " + s)[1..] == s;
    TrimIs(cs, s);
  }

  lemma {:induction false} CutIs(s: string)
    ensures match Cut(s)
      case None => '=' !in s
      case Some((a, b)) => s == a + "=" + b && '=' !in a
  {
    if s != "" && s[0] != '=' {
      CutIs(s[1..]);
      assert s == [s[0]] + s[1..];
      if Cut(s[1..]).Some? {
        var (a, b) := Cut(s[1..]).value;
        assert [s[0]] + (a + "=" + b) == [s[0]] + a + "=" + b;
      }
    }
  }

  lemma {:induction false} CutPair(a: string, b: string)
    requires '=' !in a
    ensures Cut(a + "=" + b) == Some((a, b))
  {
    var s := a + "=" + b;
    if a == "" {
      assert s[1..] == b;
    } else {
      assert s[1..] == a[1..] + "=" + b;
      CutPair(a[1..], b);
      assert [a[0]] + a[1..] == a;
    }
  }

  lemma {:induction false} SplitHasNone(s: string, c: char)
    ensures forall i :: 0 <= i < |Split(s, c)| ==> c !in Split(s, c)[i]
  {
    if s != "" {
      SplitHasNone(s[1..], c);
    }
  }

  /** Whatever the header, what is read from it can be held by a header. */
  lemma ReadIsHoldable(cs: Chars, part: string)
    requires ';' !in part
    ensures ReadCookie(cs, part).Some? ==> Holdable(cs, ReadCookie(cs, part).value)
  {
    var p := Trim(cs, part);
    TrimIs(cs, part);
    CutIs(p);
    if Cut(p).Some? {
      var (name, value) := Cut(p).value;
      TrimIs(cs, name);
      TrimIs(cs, value);
      assert ';' !in name && ';' !in value;
    }
  }

  ghost predicate AllHoldable(cs: Chars, m: map<string, string>) {
    forall n :: n in m ==> Holdable(cs, Cookie(n, m[n]))
  }

  lemma {:induction false} ReadAllIsHoldable(cs: Chars, parts: seq<string>)
    requires forall i :: 0 <= i < |parts| ==> ';' !in parts[i]
    ensures AllHoldable(cs, ReadAll(cs, parts))
    decreases |parts|
  {
    hide Holdable, ReadCookie;
    if parts != [] {
      ReadAllIsHoldable(cs, parts[..|parts| - 1]);
      ReadIsHoldable(cs, parts[|parts| - 1]);
    }
  }

  lemma ParsedIsHoldable(cs: Chars, header: string)
    ensures AllHoldable(cs, Parsed(cs, header))
  {
    hide AllHoldable;
    SplitHasNone(Unlabelled(cs, header), ';');
    ReadAllIsHoldable(cs, Split(Unlabelled(cs, header), ';'));
  }

  // ---- writing a header and reading it back ----

  function Pair(c: Cookie): string {
    c.name + "=" + c.value
  }

  /** The cookie-string of the cookies, in their order. */
  function Header(cookies: seq<Cookie>): string {
    if cookies == [] then "" else if |cookies| == 1 then Pair(cookies[0]) else Pair(cookies[0]) + "; " + Header(cookies[1..])
  }

  function MapOf(cookies: seq<Cookie>): map<string, string> {
    if cookies == [] then map[]
    else MapOf(cookies[..|cookies| - 1])[cookies[|cookies| - 1].name := cookies[|cookies| - 1].value]
  }

  ghost predicate Distinct(cookies: seq<Cookie>) {
    forall i, j :: 0 <= i < j < |cookies| ==> cookies[i].name != cookies[j].name
  }

  ghost predicate CanHold(cs: Chars, cookies: seq<Cookie>) {
    forall i :: 0 <= i < |cookies| ==> Holdable(cs, cookies[i])
  }

  /** The parts that the header splits into. */
  function Parts(cookies: seq<Cookie>, lead: string): seq<string> {
    if cookies == [] then [] else [lead + Pair(cookies[0])] + Parts(cookies[1..], " ")
  }

  lemma {:induction false} SplitFirst(a: string, rest: string, c: char)
    requires c !in a
    ensures Split(a, c) == [a] && Split(a + [c] + rest, c) == [a] + Split(rest, c)
  {
    if a == "" {
      assert ([] + [c] + rest)[1..] == rest;
    } else {
      var s := a + [c] + rest;
      assert s[1..] == a[1..] + [c] + rest;
      SplitFirst(a[1..], rest, c);
      assert [a[0]] + a[1..] == a;
      assert ([a[1..]] + Split(rest, c))[1..] == Split(rest, c);
    }
  }

  lemma PairHasNoSemicolon(cs: Chars, c: Cookie)
    requires Holdable(cs, c)
    ensures ';' !in Pair(c) && ';' !in " " + Pair(c) && (Usual(cs) ==> Tight(cs, Pair(c)))
  {
    var p := Pair(c);
    assert p[0] == c.name[0] && p[|p| - 1] == c.value[|c.value| - 1];
  }

  lemma {:induction false} SplitHeader(cs: Chars, cookies: seq<Cookie>, lead: string)
    requires CanHold(cs, cookies) && cookies != [] && (lead == "" || lead == " ")
    ensures Split(lead + Header(cookies), ';') == Parts(cookies, lead)
    decreases |cookies|
  {
    hide Holdable, Pair;
    var first := lead + Pair(cookies[0]);
    PairHasNoSemicolon(cs, cookies[0]);
    assert "" + Pair(cookies[0]) == Pair(cookies[0]);
    if |cookies| == 1 {
      SplitFirst(first, "", ';');
      assert Parts(cookies, lead) == [first] + [];
      assert lead + Header(cookies) == first;
    } else {
      var rest := " " + Header(cookies[1..]);
      SplitHeader(cs, cookies[1..], " ");
      SplitFirst(first, rest, ';');
      assert lead + (Pair(cookies[0]) + "; " + Header(cookies[1..])) == first + [';'] + rest;
    }
  }

  lemma ReadPair(cs: Chars, c: Cookie, lead: string)
    requires Usual(cs) && Holdable(cs, c) && (lead == "" || lead == " ")
    ensures ReadCookie(cs, lead + Pair(c)) == Some(c)
  {
    hide TrimLeft, TrimRight;
    PairHasNoSemicolon(cs, c);
    TrimIs(cs, Pair(c));
    TrimBlank(cs, Pair(c));
    assert "" + Pair(c) == Pair(c);
    CutPair(c.name, c.value);
    TrimIs(cs, c.name);
    TrimIs(cs, c.value);
  }

  lemma PartAt(cookies: seq<Cookie>, lead: string, i: nat)
    requires i < |cookies|
    ensures |Parts(cookies, lead)| == |cookies|
    ensures Parts(cookies, lead)[i] == (if i == 0 then lead else " ") + Pair(cookies[i])
    decreases i
  {
    PartsLength(cookies, lead);
    if i > 0 {
      PartAt(cookies[1..], " ", i - 1);
    }
  }

  lemma {:induction false} PartsLength(cookies: seq<Cookie>, lead: string)
    ensures |Parts(cookies, lead)| == |cookies|
  {
    if cookies != [] {
      PartsLength(cookies[1..], " ");
    }
  }

  lemma {:induction false} ReadParts(cs: Chars, cookies: seq<Cookie>, parts: seq<string>)
    requires |parts| == |cookies|
    requires forall i :: 0 <= i < |cookies| ==> ReadCookie(cs, parts[i]) == Some(cookies[i])
    ensures ReadAll(cs, parts) == MapOf(cookies)
    decreases |cookies|
  {
    hide ReadCookie;
    if cookies != [] {
      ReadParts(cs, cookies[..|cookies| - 1], parts[..|parts| - 1]);
    }
  }

  /** What follows the first name and its '='. */
  function Tail(cookies: seq<Cookie>): string
    requires cookies != []
  {
    if |cookies| == 1 then cookies[0].value else cookies[0].value + "; " + Header(cookies[1..])
  }

  lemma HeaderIs(cookies: seq<Cookie>)
    requires cookies != []
    ensures Header(cookies) == cookies[0].name + "=" + Tail(cookies)
  {
    hide Header;
    HeaderUnfolds(cookies);
  }

  lemma HeaderUnfolds(cookies: seq<Cookie>)
    requires cookies != []
    ensures Header(cookies) ==
      if |cookies| == 1 then Pair(cookies[0]) else Pair(cookies[0]) + "; " + Header(cookies[1..])
  {
  }

  lemma {:induction false} TailEnds(cs: Chars, cookies: seq<Cookie>)
    requires CanHold(cs, cookies) && cookies != []
    ensures Tail(cookies) != "" && !cs.isSpace(Tail(cookies)[|Tail(cookies)| - 1])
    decreases |cookies|
  {
    hide Header;
    if |cookies| > 1 {
      TailEnds(cs, cookies[1..]);
      HeaderIs(cookies[1..]);
    }
    assert Holdable(cs, cookies[0]);
  }

  lemma HeaderEnds(cs: Chars, cookies: seq<Cookie>)
    requires CanHold(cs, cookies) && cookies != []
    ensures Tight(cs, Header(cookies))
  {
    hide Header, Tail;
    HeaderIs(cookies);
    TailEnds(cs, cookies);
    assert Holdable(cs, cookies[0]);
  }

  /** The header without its label is read as what was written. */
  lemma BodyReadsBack(cs: Chars, cookies: seq<Cookie>)
    requires Usual(cs) && CanHold(cs, cookies)
    ensures ReadAll(cs, Split(Header(cookies), ';')) == MapOf(cookies)
  {
    hide Holdable, ReadCookie, Pair;
    if cookies == [] {
      assert Split("", ';') == [""] && [""][..0] == [];
      NothingInEmpty(cs);
    } else {
      SplitHeader(cs, cookies, "");
      assert "" + Header(cookies) == Header(cookies);
      PartsLength(cookies, "");
      forall i | 0 <= i < |cookies| ensures ReadCookie(cs, Parts(cookies, "")[i]) == Some(cookies[i]) {
        PartAt(cookies, "", i);
        ReadPair(cs, cookies[i], if i == 0 then "" else " ");
      }
      ReadParts(cs, cookies, Parts(cookies, ""));
    }
  }

  lemma NothingInEmpty(cs: Chars)
    ensures ReadCookie(cs, "").None?
  {
  }

  lemma LabelIsInTheName(cs: Chars, cookies: seq<Cookie>)
    requires Usual(cs) && CanHold(cs, cookies)
    ensures Labelled(cs, Header(cookies)) <==> cookies != [] && Labelled(cs, cookies[0].name)
  {
    hide Header, Tail, CanHold;
    if cookies == [] {
      assert Header(cookies) == "" by {
        EmptyHeader();
      }
    } else {
      HeaderIs(cookies);
      LabelBefore(cs, cookies[0].name, Tail(cookies));
    }
  }

  lemma EmptyHeader()
    ensures Header([]) == ""
  {
  }

  lemma LabelBefore(cs: Chars, a: string, b: string)
    requires Usual(cs)
    ensures Labelled(cs, a + "=" + b) <==> Labelled(cs, a)
  {
    var s := a + "=" + b;
    assert s[|a|] == '=' && forall i :: 0 <= i < |a| ==> s[i] == a[i];
  }

  /** The first cookie once its name has lost a label, if a name is left. */
  function Stripped(cs: Chars, c: Cookie): (r: seq<Cookie>)
    requires |LABEL| <= |c.name|
  {
    var name := TrimLeft(cs, c.name[|LABEL|..]);
    if name == "" then [] else [Cookie(name, c.value)]
  }

  lemma TrimLeftPast(cs: Chars, a: string, b: string)
    requires Usual(cs)
    ensures TrimLeft(cs, a + "=" + b) == TrimLeft(cs, a) + "=" + b
    decreases |a|
  {
    if a == "" {
      assert a + "=" + b == "=" + b;
    } else {
      assert (a + "=" + b)[1..] == a[1..] + "=" + b;
      TrimLeftPast(cs, a[1..], b);
    }
  }

  lemma TrimTail(cs: Chars, s: string)
    requires s != "" && !cs.isSpace(s[|s| - 1])
    ensures Trim(cs, s) == TrimLeft(cs, s)
  {
    TrimLeftIs(cs, s);
  }

  /** What a labelled header is read as: the first name is cut short or lost. */
  lemma {:induction false} LabelledReads(cs: Chars, cookies: seq<Cookie>)
    requires Usual(cs) && CanHold(cs, cookies) && cookies != [] && Labelled(cs, cookies[0].name)
    ensures |LABEL| <= |cookies[0].name|
    ensures Parsed(cs, Header(cookies)) == MapOf(Stripped(cs, cookies[0]) + cookies[1..])
  {
    hide Labelled, ReadCookie, MapOf, ReadAll, Tail, Header, Unlabelled, Split, TrimLeft, Holdable, CanHold;
    var c := cookies[0];
    LabelFits(cs, c.name);
    var name := TrimLeft(cs, c.name[|LABEL|..]);
    UnlabelledHeader(cs, cookies);
    if name == "" {
      assert name + "=" + Tail(cookies) == "=" + Tail(cookies);
      LosesName(cs, cookies);
      assert [] + cookies[1..] == cookies[1..];
    } else {
      KeepsName(cs, cookies, name);
    }
  }

  lemma LosesName(cs: Chars, cookies: seq<Cookie>)
    requires Usual(cs) && CanHold(cs, cookies) && cookies != []
    ensures ReadAll(cs, Split("=" + Tail(cookies), ';')) == MapOf(cookies[1..])
  {
    hide ReadCookie, MapOf, ReadAll, Tail, Header, Split;
    assert Holdable(cs, cookies[0]);
    TailIs(cookies);
    NamelessReads(cs, cookies[0].value, cookies[1..], Tail(cookies));
  }

  lemma KeepsName(cs: Chars, cookies: seq<Cookie>, name: string)
    requires Usual(cs) && CanHold(cs, cookies) && cookies != [] && |LABEL| <= |cookies[0].name|
    requires name == TrimLeft(cs, cookies[0].name[|LABEL|..]) && name != ""
    ensures ReadAll(cs, Split(name + "=" + Tail(cookies), ';')) == MapOf([Cookie(name, cookies[0].value)] + cookies[1..])
  {
    hide ReadCookie, MapOf, ReadAll, Tail, Header, Split, TrimLeft, Holdable;
    var kept := [Cookie(name, cookies[0].value)] + cookies[1..];
    assert kept[1..] == cookies[1..];
    TailIs(cookies);
    TailIs(kept);
    HeaderIs(kept);
    StrippedHolds(cs, cookies[0], name);
    BodyReadsBack(cs, kept);
  }

  lemma TailIs(cookies: seq<Cookie>)
    requires cookies != []
    ensures Tail(cookies) ==
      if cookies[1..] == [] then cookies[0].value else cookies[0].value + "; " + Header(cookies[1..])
  {
    hide Header;
  }

  lemma StrippedHolds(cs: Chars, c: Cookie, name: string)
    requires Holdable(cs, c) && |LABEL| <= |c.name| && name == TrimLeft(cs, c.name[|LABEL|..]) && name != ""
    ensures Holdable(cs, Cookie(name, c.value))
  {
    TrimLeftIs(cs, c.name[|LABEL|..]);
    assert forall x :: x in name ==> x in c.name;
  }

  lemma UnlabelledHeader(cs: Chars, cookies: seq<Cookie>)
    requires Usual(cs) && CanHold(cs, cookies) && cookies != [] && Labelled(cs, cookies[0].name)
    ensures |LABEL| <= |cookies[0].name|
    ensures Unlabelled(cs, Header(cookies)) == TrimLeft(cs, cookies[0].name[|LABEL|..]) + "=" + Tail(cookies)
  {
    hide Labelled, Tail, Header, TrimLeft, TrimRight;
    var h, name, rest := Header(cookies), cookies[0].name, Tail(cookies);
    LabelFits(cs, name);
    LabelIsInTheName(cs, cookies);
    HeaderEnds(cs, cookies);
    TrimIs(cs, h);
    HeaderIs(cookies);
    TailEnds(cs, cookies);
    var cut := name[|LABEL|..] + "=" + rest;
    assert h[|LABEL|..] == cut && cut[|cut| - 1] == rest[|rest| - 1];
    TrimTail(cs, cut);
    TrimLeftPast(cs, name[|LABEL|..], rest);
  }

  lemma NamelessReads(cs: Chars, value: string, later: seq<Cookie>, rest: string)
    requires Usual(cs) && CanHold(cs, later) && Tight(cs, value) && ';' !in value
    requires rest == if later == [] then value else value + "; " + Header(later)
    ensures ReadAll(cs, Split("=" + rest, ';')) == MapOf(later)
  {
    hide Holdable, ReadCookie, Pair;
    var first := "=" + value;
    Nameless(cs, value);
    if later == [] {
      SplitFirst(first, "", ';');
      assert [first][..0] == [];
    } else {
      SplitFirst(first, " " + Header(later), ';');
      assert "=" + rest == first + [';'] + (" " + Header(later));
      SplitHeader(cs, later, " ");
      PartsLength(later, " ");
      forall i | 0 <= i < |later| ensures ReadCookie(cs, Parts(later, " ")[i]) == Some(later[i]) {
        PartAt(later, " ", i);
        ReadPair(cs, later[i], " ");
      }
      ReadParts(cs, later, Parts(later, " "));
      SkipFirst(cs, first, Parts(later, " "));
    }
  }

  lemma Nameless(cs: Chars, value: string)
    requires Usual(cs) && Tight(cs, value)
    ensures ReadCookie(cs, "=" + value).None?
  {
    TrimIs(cs, "=" + value);
    CutPair("", value);
    assert "" + "=" + value == "=" + value;
  }

  lemma {:induction false} SkipFirst(cs: Chars, first: string, parts: seq<string>)
    requires ReadCookie(cs, first).None?
    ensures ReadAll(cs, [first] + parts) == ReadAll(cs, parts)
    decreases |parts|
  {
    hide ReadCookie;
    if parts == [] {
      assert [first] + parts == [first] && [first][..0] == [];
    } else {
      assert ([first] + parts)[..|parts|] == [first] + parts[..|parts| - 1];
      SkipFirst(cs, first, parts[..|parts| - 1]);
    }
  }

  lemma {:induction false} MapOfHas(cookies: seq<Cookie>, name: string)
    ensures name in MapOf(cookies) <==> exists i :: 0 <= i < |cookies| && cookies[i].name == name
  {
    if cookies != [] {
      MapOfHas(cookies[..|cookies| - 1], name);
    }
  }

  /** Writing cookies of different names as a header and reading it gives them back,
      in whatever order, if and only if the first name does not start with the label
      of the header line. */
  lemma {:induction false} ReadsBackIff(cs: Chars, cookies: seq<Cookie>)
    requires Usual(cs) && CanHold(cs, cookies) && Distinct(cookies)
    ensures Parsed(cs, Header(cookies)) == MapOf(cookies) <==> cookies == [] || !Labelled(cs, cookies[0].name)
  {
    hide Labelled, ReadCookie, MapOf, ReadAll, TrimLeft, TrimRight, Split, Header;
    LabelIsInTheName(cs, cookies);
    if cookies != [] && Labelled(cs, cookies[0].name) {
      var name := cookies[0].name;
      LabelFits(cs, name);
      LabelledReads(cs, cookies);
      var read := Stripped(cs, cookies[0]) + cookies[1..];
      TrimLeftIs(cs, name[|LABEL|..]);
      MapOfHas(cookies, name);
      MapOfHas(read, name);
    } else {
      UnlabelledIs(cs, cookies);
      BodyReadsBack(cs, cookies);
    }
  }

  lemma LabelFits(cs: Chars, s: string)
    requires Labelled(cs, s)
    ensures |LABEL| <= |s|
  {
  }

  lemma UnlabelledIs(cs: Chars, cookies: seq<Cookie>)
    requires Usual(cs) && CanHold(cs, cookies) && !Labelled(cs, Header(cookies))
    ensures Unlabelled(cs, Header(cookies)) == Header(cookies)
  {
    if cookies != [] {
      HeaderEnds(cs, cookies);
      TrimIs(cs, Header(cookies));
    }
  }

  // ---- the Google cookies ----

  /** The Google cookies that have a value, trimmed. */
  function Google(cs: Chars, cookies: map<string, string>): map<string, string> {
    map n | n in cookies && (n in REQUIRED || n in OPTIONAL) && Trim(cs, cookies[n]) != "" :: Trim(cs, cookies[n])
  }

  method FilterGoogleCookies(cs: Chars, cookies: map<string, string>) returns (filtered: map<string, string>)
    ensures filtered == Google(cs, cookies)
  {
    hide Trim;
    filtered := map[];
    var names := REQUIRED + OPTIONAL;
    for i := 0 to |names|
      invariant forall n :: n in filtered <==> n in names[..i] && n in cookies && Trim(cs, cookies[n]) != ""
      invariant forall n :: n in filtered ==> filtered[n] == Trim(cs, cookies[n])
    {
      assert names[..i + 1] == names[..i] + [names[i]];
      if names[i] in cookies {
        var value := Trim(cs, cookies[names[i]]);
        if value != "" {
          filtered := filtered[names[i] := value];
        }
      }
    }
    assert names[..|names|] == names;
  }

  /** The required cookies that are missing, in their order; the input is accepted if
      there are none. */
  method ValidateGoogleCookies(cookies: map<string, string>) returns (missing: seq<string>)
    ensures forall n :: n in missing <==> n in REQUIRED && (n !in cookies || cookies[n] == "")
    ensures missing == [] <==> forall i :: 0 <= i < |REQUIRED| ==> REQUIRED[i] in cookies && cookies[REQUIRED[i]] != ""
  {
    missing := [];
    for i := 0 to |REQUIRED|
      invariant forall n :: n in missing <==> n in REQUIRED[..i] && (n !in cookies || cookies[n] == "")
      invariant missing == [] <==> forall j :: 0 <= j < i ==> REQUIRED[j] in cookies && cookies[REQUIRED[j]] != ""
    {
      var n := REQUIRED[i];
      assert REQUIRED[..i + 1] == REQUIRED[..i] + [n];
      if n !in cookies || cookies[n] == "" {
        missing := missing + [n];
      }
    }
    assert REQUIRED[..|REQUIRED|] == REQUIRED;
  }

  /** From any header, what is kept is exactly the Google cookies it holds, with the
      values it gives them: values are already trimmed and none is empty. */
  lemma {:induction false} GoogleKeepsValues(cs: Chars, header: string)
    ensures var read := Parsed(cs, header);
      Google(cs, read) == map n | n in read && (n in REQUIRED || n in OPTIONAL) :: read[n]
  {
    hide Parsed, Trim;
    ParsedIsHoldable(cs, header);
    var read := Parsed(cs, header);
    forall n | n in read ensures Trim(cs, read[n]) == read[n] && read[n] != "" {
      TrimIs(cs, read[n]);
      assert Holdable(cs, Cookie(n, read[n]));
    }
  }

  /** Cookies written as a header, in any order and among any others, come through
      reading and filtering with their values; nothing required is then missing
      exactly if all the required ones were written. */
  lemma {:induction false} GoogleCookiesComeThrough(cs: Chars, cookies: seq<Cookie>, i: nat)
    requires Usual(cs) && CanHold(cs, cookies) && Distinct(cookies) && i < |cookies|
    requires !Labelled(cs, cookies[0].name)
    ensures var kept := Google(cs, Parsed(cs, Header(cookies)));
      && (cookies[i].name in REQUIRED || cookies[i].name in OPTIONAL <==> cookies[i].name in kept)
      && (cookies[i].name in kept ==> kept[cookies[i].name] == cookies[i].value)
      && (forall n :: n in kept ==> exists j :: 0 <= j < |cookies| && cookies[j].name == n)
  {
    hide Labelled, ReadCookie, MapOf, Parsed, Header, Google;
    ReadsBackIff(cs, cookies);
    GoogleKeepsValues(cs, Header(cookies));
    MapOfAt(cookies, i);
    forall n ensures n in MapOf(cookies) ==> exists j :: 0 <= j < |cookies| && cookies[j].name == n {
      MapOfHas(cookies, n);
    }
  }

  lemma {:induction false} MapOfAt(cookies: seq<Cookie>, i: nat)
    requires Distinct(cookies) && i < |cookies|
    ensures cookies[i].name in MapOf(cookies) && MapOf(cookies)[cookies[i].name] == cookies[i].value
  {
    if i < |cookies| - 1 {
      MapOfAt(cookies[..|cookies| - 1], i);
    }
  }
}
