/** GetMessageContext of internal/store/messages.go: the messages around an anchor,
    fetched by two queries that look outwards from it. */
module MessageContext {
  import opened Common
  import opened Archive

  // ---- the order of messages ----

  predicate LexLess(a: string, b: string) {
    b != "" && (a == "" || a[0] < b[0] || (a[0] == b[0] && LexLess(a[1..], b[1..])))
  }

  lemma {:induction false} LexTotal(a: string, b: string)
    ensures LexLess(a, b) || LexLess(b, a) || a == b
    ensures LexLess(a, b) ==> !LexLess(b, a) && a != b
  {
    if a != "" && b != "" {
      LexTotal(a[1..], b[1..]);
      if a[0] == b[0] && a[1..] == b[1..] {
        assert a == [a[0]] + a[1..] && b == [b[0]] + b[1..];
      }
    }
  }

  lemma {:induction false} LexTransitive(a: string, b: string, c: string)
    requires LexLess(a, b) && LexLess(b, c)
    ensures LexLess(a, c)
  {
    if a != "" && a[0] == b[0] && b[0] == c[0] {
      LexTransitive(a[1..], b[1..], c[1..]);
    }
  }

  /** Ordered by time, then by id. */
  predicate Less(a: Message, b: Message) {
    a.timestampMs < b.timestampMs || (a.timestampMs == b.timestampMs && LexLess(a.id, b.id))
  }

  lemma LessTotal(a: Message, b: Message)
    ensures Less(a, b) ==> !Less(b, a)
    ensures Less(a, b) || Less(b, a) || a.id == b.id
    ensures !Less(a, a)
  {
    LexTotal(a.id, b.id);
    LexTotal(a.id, a.id);
  }

  lemma LessTransitive(a: Message, b: Message, c: Message)
    requires Less(a, b) && Less(b, c)
    ensures Less(a, c)
  {
    if a.timestampMs == b.timestampMs == c.timestampMs {
      LexTransitive(a.id, b.id, c.id);
    }
  }

  // ---- the timeline of a conversation ----

  predicate In(db: Db, conversation: string, m: Message) {
    m.id in db.messages && db.messages[m.id].value == m && m.conversationId == conversation
  }

  ghost predicate Ascending(all: seq<Message>) {
    forall i, j :: 0 <= i < j < |all| ==> Less(all[i], all[j])
  }

  /** All messages of the conversation, each once, in order. */
  ghost predicate Timeline(all: seq<Message>, db: Db, conversation: string) {
    Ascending(all) && forall m :: m in all <==> In(db, conversation, m)
  }

  lemma AscendingOrder(all: seq<Message>, i: nat, j: nat)
    requires Ascending(all) && i < |all| && j < |all|
    ensures Less(all[i], all[j]) <==> i < j
  {
    LessTotal(all[i], all[j]);
    if i == j {
      LessTotal(all[i], all[i]);
    }
  }

  /** b is further out than a, looking back or forth. */
  predicate Beyond(a: Message, b: Message, back: bool) {
    if back then Less(b, a) else Less(a, b)
  }

  /** What the query asks for: at most limit messages of the anchor's conversation
      beyond the anchor, nearest first, and none of those left out nearer than one
      that is given. */
  ghost predicate Answers(db: Db, anchor: Message, back: bool, limit: nat, rows: seq<Message>) {
    && |rows| <= limit
    && (forall k :: 0 <= k < |rows| ==> In(db, anchor.conversationId, rows[k]) && Beyond(anchor, rows[k], back))
    && (forall j, k :: 0 <= j < k < |rows| ==> Beyond(rows[j], rows[k], back))
    && (forall m :: In(db, anchor.conversationId, m) && Beyond(anchor, m, back) ==>
          m in rows || (|rows| == limit && forall k :: 0 <= k < |rows| ==> Beyond(rows[k], m, back)))
  }

  /** The nearest message of the conversation beyond a. */
  method Nearest(st: Store, conversation: string, a: Message, back: bool) returns (r: Option<Message>)
    requires Filed(st.State())
    ensures r.Some? ==> In(st.State(), conversation, r.value) && Beyond(a, r.value, back)
    ensures r.None? ==> forall m :: In(st.State(), conversation, m) ==> !Beyond(a, m, back)
    ensures r.Some? ==> forall m :: In(st.State(), conversation, m) && Beyond(a, m, back) ==>
      m == r.value || Beyond(r.value, m, back)
  {
    hide Less;
    r := None;
    var left := st.messages.Keys;
    while left != {}
      invariant left <= st.messages.Keys
      invariant r.Some? ==> In(st.State(), conversation, r.value) && Beyond(a, r.value, back)
      invariant r.None? ==> forall m :: In(st.State(), conversation, m) && m.id !in left ==> !Beyond(a, m, back)
      invariant r.Some? ==> forall m :: In(st.State(), conversation, m) && m.id !in left && Beyond(a, m, back) ==>
        m == r.value || Beyond(r.value, m, back)
      decreases left
    {
      var id :| id in left;
      left := left - {id};
      var m := st.messages[id].value;
      if m.conversationId == conversation && Beyond(a, m, back) {
        if r.None? {
          r := Some(m);
        } else {
          LessTotal(m, r.value);
          if Beyond(m, r.value, back) {
            NearerBeats(st.State(), conversation, a, back, left + {id}, r.value, m);
            r := Some(m);
          }
        }
      }
    }
  }

  lemma NearerBeats(db: Db, conversation: string, a: Message, back: bool, left: set<string>, was: Message, m: Message)
    requires Beyond(m, was, back)
    requires forall x :: In(db, conversation, x) && x.id !in left && Beyond(a, x, back) ==>
      x == was || Beyond(was, x, back)
    ensures forall x :: In(db, conversation, x) && x.id !in left && Beyond(a, x, back) ==> Beyond(m, x, back)
  {
    hide Less;
    forall x | In(db, conversation, x) && x.id !in left && Beyond(a, x, back) ensures Beyond(m, x, back) {
      if x != was {
        if back {
          LessTransitive(x, was, m);
        } else {
          LessTransitive(m, was, x);
        }
      }
    }
  }

  method Query(st: Store, anchor: Message, back: bool, limit: nat) returns (rows: seq<Message>)
    requires Filed(st.State())
    ensures Answers(st.State(), anchor, back, limit, rows)
  {
    hide Less, In, Filed;
    rows := [];
    var last := anchor;
    while |rows| < limit
      invariant |rows| <= limit && last == (if rows == [] then anchor else rows[|rows| - 1])
      invariant Fetched(st.State(), anchor, back, rows)
    {
      var next := Nearest(st, anchor.conversationId, last, back);
      if next.None? {
        return;
      }
      Fetch(st.State(), anchor, back, rows, next.value);
      rows := rows + [next.value];
      last := next.value;
    }
  }

  /** What has been fetched so far is an answer to as large a limit. */
  ghost predicate Fetched(db: Db, anchor: Message, back: bool, rows: seq<Message>) {
    Answers(db, anchor, back, |rows|, rows)
  }

  function Last(anchor: Message, rows: seq<Message>): Message {
    if rows == [] then anchor else rows[|rows| - 1]
  }

  lemma Fetch(db: Db, anchor: Message, back: bool, rows: seq<Message>, next: Message)
    requires Fetched(db, anchor, back, rows)
    requires In(db, anchor.conversationId, next) && Beyond(Last(anchor, rows), next, back)
    requires forall m :: In(db, anchor.conversationId, m) && Beyond(Last(anchor, rows), m, back) ==>
      m == next || Beyond(next, m, back)
    ensures Fetched(db, anchor, back, rows + [next])
  {
    hide Beyond, In;
    var more := rows + [next];
    forall k | 0 <= k < |rows| ensures Beyond(rows[k], next, back) {
      if k < |rows| - 1 {
        BeyondTransitive(rows[k], rows[|rows| - 1], next, back);
      }
    }
    if rows != [] {
      BeyondTransitive(anchor, rows[|rows| - 1], next, back);
    }
    forall m | In(db, anchor.conversationId, m) && Beyond(anchor, m, back) && m !in more
      ensures forall k :: 0 <= k < |more| ==> Beyond(more[k], m, back)
    {
      assert m !in rows && m != more[|rows|];
      assert Beyond(Last(anchor, rows), m, back);
    }
  }

  lemma BeyondTransitive(a: Message, b: Message, c: Message, back: bool)
    requires Beyond(a, b, back) && Beyond(b, c, back)
    ensures Beyond(a, c, back)
  {
    hide Less;
    if back {
      LessTransitive(c, b, a);
    } else {
      LessTransitive(a, b, c);
    }
  }

  // ---- an answer is a stretch of the timeline ----

  function Place(i: int, k: nat, back: bool): int {
    if back then i - 1 - k else i + 1 + k
  }

  lemma BeyondIff(all: seq<Message>, i: nat, j: nat, back: bool)
    requires Ascending(all) && i < |all| && j < |all|
    ensures Beyond(all[i], all[j], back) <==> if back then j < i else i < j
  {
    AscendingOrder(all, i, j);
    AscendingOrder(all, j, i);
  }

  /** Row k of an answer is the k-th message out from the anchor. */
  lemma {:induction false} RowsAreConsecutive(
    db: Db, all: seq<Message>, i: nat, back: bool, limit: nat, rows: seq<Message>, k: nat)
    requires i < |all| && Timeline(all, db, all[i].conversationId) && Answers(db, all[i], back, limit, rows)
    requires k < |rows|
    ensures 0 <= Place(i, k, back) < |all| && rows[k] == all[Place(i, k, back)]
  {
    hide Beyond, In, Ascending;
    if k > 0 {
      RowsAreConsecutive(db, all, i, back, limit, rows, k - 1);
    }
    var p := if k == 0 then i else Place(i, k - 1, back);
    assert Beyond(all[p], rows[k], back);
    var q :| 0 <= q < |all| && all[q] == rows[k];
    BeyondIff(all, p, q, back);
    var n := Place(i, k, back);
    if q != n {
      var m := all[n];
      BeyondIff(all, i, n, back);
      BeyondIff(all, q, n, back);
      assert m in rows;
      var j :| 0 <= j < |rows| && rows[j] == m;
      BeyondIff(all, n, n, back);
      BeyondIff(all, n, q, back);
      if j < k {
        if j < k - 1 {
          assert Beyond(rows[j], rows[k - 1], back);
        }
        BeyondIff(all, n, p, back);
        BeyondIff(all, p, n, back);
      }
    }
  }

  /** An answer is cut short only by its limit or the end of the conversation. */
  lemma AnswerLength(db: Db, all: seq<Message>, i: nat, back: bool, limit: nat, rows: seq<Message>)
    requires i < |all| && Timeline(all, db, all[i].conversationId) && Answers(db, all[i], back, limit, rows)
    ensures var room := if back then i else |all| - 1 - i; |rows| == if limit < room then limit else room
  {
    hide Beyond, In, Ascending;
    var room := if back then i else |all| - 1 - i;
    if |rows| > 0 {
      RowsAreConsecutive(db, all, i, back, limit, rows, |rows| - 1);
    }
    if |rows| < limit && |rows| < room {
      var n := Place(i, |rows|, back);
      BeyondIff(all, i, n, back);
      assert all[n] in rows;
      var j :| 0 <= j < |rows| && rows[j] == all[n];
      RowsAreConsecutive(db, all, i, back, limit, rows, j);
      var p := Place(i, j, back);
      BeyondIff(all, p, n, back);
      BeyondIff(all, n, n, back);
    }
  }

  // ---- the window ----

  function Reversed(s: seq<Message>): (r: seq<Message>)
    ensures |r| == |s| && forall k :: 0 <= k < |s| ==> r[k] == s[|s| - 1 - k]
  {
    seq(|s|, k requires 0 <= k < |s| => s[|s| - 1 - k])
  }

  method ReverseInPlace(pre: array<Message>)
    modifies pre
    ensures pre[..] == Reversed(old(pre[..]))
  {
    var i, j := 0, pre.Length - 1;
    while i < j
      invariant 0 <= i && i + j == pre.Length - 1 && i <= j + 1
      invariant forall k :: 0 <= k < i ==> pre[k] == old(pre[pre.Length - 1 - k])
      invariant forall k :: j < k < pre.Length ==> pre[k] == old(pre[pre.Length - 1 - k])
      invariant forall k :: i <= k <= j ==> pre[k] == old(pre[k])
    {
      pre[i], pre[j] := pre[j], pre[i];
      i, j := i + 1, j - 1;
    }
  }

  function Clamp(n: int): nat {
    if n < 0 then 0 else n
  }

  /** The window of a timeline around place i. */
  function Window(all: seq<Message>, i: nat, before: nat, after: nat): seq<Message>
    requires i < |all|
  {
    all[if i < before then 0 else i - before .. if |all| < i + after + 1 then |all| else i + after + 1]
  }

  /** The anchor is always in the window, with as many messages before and after it
      as were asked for or as there are, in strict order. */
  lemma WindowMeaning(all: seq<Message>, i: nat, before: nat, after: nat)
    requires i < |all| && Ascending(all)
    ensures var w, lead, tail :=
        Window(all, i, before, after), if before < i then before else i, if after < |all| - 1 - i then after else |all| - 1 - i;
      |w| == lead + 1 + tail && w[lead] == all[i] && Ascending(w)
  {
    hide Less;
  }

  lemma WindowFromAnswers(db: Db, all: seq<Message>, i: nat, before: nat, after: nat, pre: seq<Message>, post: seq<Message>)
    requires i < |all| && Timeline(all, db, all[i].conversationId)
    requires Answers(db, all[i], true, before, pre) && Answers(db, all[i], false, after, post)
    ensures Reversed(pre) + [all[i]] + post == Window(all, i, before, after)
  {
    hide Answers, Timeline, Reversed;
    AnswerLength(db, all, i, true, before, pre);
    AnswerLength(db, all, i, false, after, post);
    var out, win := Reversed(pre) + [all[i]] + post, Window(all, i, before, after);
    assert |out| == |win|;
    forall k | 0 <= k < |out| ensures out[k] == win[k] {
      if k < |pre| {
        RowsAreConsecutive(db, all, i, true, before, pre, |pre| - 1 - k);
      } else if k > |pre| {
        RowsAreConsecutive(db, all, i, false, after, post, k - |pre| - 1);
      }
    }
  }

  /** The anchor's place in a timeline, and the window there. */
  ghost predicate IsContext(out: seq<Message>, db: Db, anchorId: string, before: int, after: int) {
    && anchorId in db.messages
    && forall all :: Timeline(all, db, db.messages[anchorId].value.conversationId) ==>
         exists i :: 0 <= i < |all| && all[i] == db.messages[anchorId].value
           && out == Window(all, i, if before > 0 then before else 0, if after > 0 then after else 0)
  }

  /** The stretch of the anchor's conversation from before places ahead of it to
      after places behind it, cut off at the ends; None if there is no such message. */
  method GetMessageContext(st: Store, anchorId: string, before: int, after: int) returns (r: Option<seq<Message>>)
    requires Filed(st.State())
    ensures r.None? <==> anchorId !in st.State().messages
    ensures r.Some? ==> IsContext(r.value, st.State(), anchorId, before, after)
  {
    hide Answers, Timeline, Filed, Window;
    var before', after' := Clamp(before), Clamp(after);
    if anchorId !in st.messages {
      return None;
    }
    var anchor := st.messages[anchorId].value;
    var out := [anchor];
    ghost var pre, post := [], [];
    EmptyAnswer(st.State(), anchor, true);
    EmptyAnswer(st.State(), anchor, false);
    if before' > 0 {
      var rows := Query(st, anchor, true, before');
      var flipped := new Message[|rows|](k requires 0 <= k < |rows| => rows[k]);
      assert flipped[..] == rows;
      ReverseInPlace(flipped);
      out := flipped[..] + out;
      pre := rows;
    }
    if after' > 0 {
      var rows := Query(st, anchor, false, after');
      for k := 0 to |rows|
        invariant out == Reversed(pre) + [anchor] + rows[..k]
      {
        out := out + [rows[k]];
      }
      post := rows;
    }
    assert out == Reversed(pre) + [anchor] + post;
    ContextFromAnswers(st.State(), anchorId, before, after, pre, post);
    return Some(out);
  }

  lemma EmptyAnswer(db: Db, anchor: Message, back: bool)
    ensures Answers(db, anchor, back, 0, [])
  {
  }

  lemma ContextFromAnswers(db: Db, anchorId: string, before: int, after: int, pre: seq<Message>, post: seq<Message>)
    requires Filed(db) && anchorId in db.messages
    requires var a := db.messages[anchorId].value;
      Answers(db, a, true, Clamp(before), pre) && Answers(db, a, false, Clamp(after), post)
    ensures IsContext(Reversed(pre) + [db.messages[anchorId].value] + post, db, anchorId, before, after)
  {
    hide Answers, Reversed, Window;
    var a := db.messages[anchorId].value;
    forall all | Timeline(all, db, a.conversationId)
      ensures exists i :: 0 <= i < |all| && all[i] == a && Reversed(pre) + [a] + post == Window(all, i, Clamp(before), Clamp(after))
    {
      assert In(db, a.conversationId, a);
      var i :| 0 <= i < |all| && all[i] == a;
      WindowFromAnswers(db, all, i, Clamp(before), Clamp(after), pre, post);
    }
  }

  // ---- timelines exist, and there is only one ----

  lemma {:induction false} Insert(all: seq<Message>, m: Message) returns (more: seq<Message>)
    requires Ascending(all) && forall x :: x in all ==> x.id != m.id
    ensures Ascending(more) && forall x :: x in more <==> x in all || x == m
  {
    hide Less;
    if all == [] {
      return [m];
    }
    var last, init := all[|all| - 1], all[..|all| - 1];
    assert all == init + [last];
    LessTotal(last, m);
    if Less(last, m) {
      more := all + [m];
      forall k | 0 <= k < |all| ensures Less(all[k], m) {
        if k < |all| - 1 {
          LessTransitive(all[k], last, m);
        }
      }
    } else {
      var less := Insert(init, m);
      more := less + [last];
      forall x | x in less ensures Less(x, last) {
      }
    }
  }

  lemma {:induction false} SortedIds(db: Db, conversation: string, ids: set<string>) returns (all: seq<Message>)
    requires Filed(db)
    ensures Ascending(all) && forall m :: m in all <==> m.id in ids && In(db, conversation, m)
  {
    hide Filed;
    if ids == {} {
      return [];
    }
    var id :| id in ids;
    all := SortedIds(db, conversation, ids - {id});
    if id in db.messages && db.messages[id].value.conversationId == conversation {
      FiledId(db, id);
      all := Insert(all, db.messages[id].value);
    }
  }

  lemma FiledId(db: Db, id: string)
    requires Filed(db) && id in db.messages
    ensures db.messages[id].value.id == id
  {
  }

  /** Every conversation of a well-kept archive has a timeline. */
  lemma TimelineExists(db: Db, conversation: string) returns (all: seq<Message>)
    requires Filed(db)
    ensures Timeline(all, db, conversation)
  {
    hide Ascending, Filed;
    all := SortedIds(db, conversation, db.messages.Keys);
  }

  /** A conversation has one timeline, so its windows are determined. */
  lemma TimelineIsUnique(db: Db, conversation: string, a: seq<Message>, b: seq<Message>)
    requires Timeline(a, db, conversation) && Timeline(b, db, conversation)
    ensures a == b
  {
    hide Less, In;
    SameMembersSameOrder(a, b);
  }

  lemma LastIsGreatest(all: seq<Message>, m: Message)
    requires Ascending(all) && m in all
    ensures m == all[|all| - 1] || (Less(m, all[|all| - 1]) && m in all[..|all| - 1])
    ensures m in all[..|all| - 1] ==> m != all[|all| - 1]
  {
    hide Less;
    assert all == all[..|all| - 1] + [all[|all| - 1]];
    LessTotal(m, m);
  }

  ghost predicate Covered(a: seq<Message>, b: seq<Message>) {
    forall i :: 0 <= i < |a| ==> a[i] in b
  }

  lemma InitCovered(a: seq<Message>, b: seq<Message>)
    requires Ascending(a) && Ascending(b) && a != [] && b != [] && a[|a| - 1] == b[|b| - 1] && Covered(a, b)
    ensures Covered(a[..|a| - 1], b[..|b| - 1])
  {
    hide Ascending;
    var init := a[..|a| - 1];
    forall i | 0 <= i < |init| ensures init[i] in b[..|b| - 1] {
      assert init[i] == a[i];
      LastIsGreatest(a, a[i]);
      LastIsGreatest(b, a[i]);
    }
  }

  lemma {:induction false} SameMembersSameOrder(a: seq<Message>, b: seq<Message>)
    requires Ascending(a) && Ascending(b) && Covered(a, b) && Covered(b, a)
    ensures a == b
    decreases |a|
  {
    hide Less, Ascending, Covered;
    SameEmptiness(a, b);
    if a != [] {
      LastsAgree(a, b);
      InitCovered(a, b);
      InitCovered(b, a);
      InitAscending(a);
      InitAscending(b);
      SameMembersSameOrder(a[..|a| - 1], b[..|b| - 1]);
      assert a == a[..|a| - 1] + [a[|a| - 1]] && b == b[..|b| - 1] + [b[|b| - 1]];
    }
  }

  lemma SameEmptiness(a: seq<Message>, b: seq<Message>)
    requires Covered(a, b) && Covered(b, a)
    ensures a == [] <==> b == []
  {
    if a != [] {
      assert a[0] in b;
    }
    if b != [] {
      assert b[0] in a;
    }
  }

  lemma LastsAgree(a: seq<Message>, b: seq<Message>)
    requires Ascending(a) && Ascending(b) && Covered(a, b) && Covered(b, a) && a != [] && b != []
    ensures a[|a| - 1] == b[|b| - 1]
  {
    hide Less, Ascending;
    LastIsGreatest(b, a[|a| - 1]);
    LastIsGreatest(a, b[|b| - 1]);
    LessTotal(a[|a| - 1], b[|b| - 1]);
  }

  lemma InitAscending(a: seq<Message>)
    requires Ascending(a) && a != []
    ensures Ascending(a[..|a| - 1])
  {
  }
}
