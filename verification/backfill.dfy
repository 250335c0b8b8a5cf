/** The history backfill of internal/history/history.go: pages of old messages are
    fetched backwards from the oldest stored one and written through the pump. */
module Backfill {
  import opened Common
  import opened Archive
  import opened Sync

  datatype Cursor = Cursor(id: string, ts: int)

  type Page = seq<Option<ProtoMessage>>

  datatype Reply = Fetched(messages: Page, cursor: Option<Cursor>) | Refused

  /** The phone's reply to fetch number i, for a chat, a page size and a cursor; and
      whether the context has ended by then. */
  datatype Phone = Phone(reply: (nat, string, int, Option<Cursor>) -> Reply, cancelled: nat -> bool)

  datatype Error = Cancelled | FetchFailed

  datatype Result = Result(
    conversationId: string, requests: int, count: int, fetched: int, processed: int, before: int, after: int, added: int)

  // ---- what is fetched ----

  /** The pages that fetches i and on bring, and how they end. */
  function Pages(phone: Phone, chat: string, count: int, i: nat, n: nat, cursor: Option<Cursor>): (seq<Page>, Option<Error>)
    decreases n - i
  {
    if i >= n then ([], None)
    else if phone.cancelled(i) then ([], Some(Cancelled))
    else
      match phone.reply(i, chat, count, cursor)
      case Refused => ([], Some(FetchFailed))
      case Fetched(ms, next) =>
        if ms == [] || cursor == next then ([ms], None)
        else
          var (rest, error) := Pages(phone, chat, count, i + 1, n, next);
          ([ms] + rest, error)
  }

  function PageWrites(pages: seq<Page>): seq<Write> {
    if pages == [] then [] else HistoryWrites(pages[0]) + PageWrites(pages[1..])
  }

  function Total(pages: seq<Page>): nat {
    if pages == [] then 0 else |pages[0]| + Total(pages[1..])
  }

  function TotalListed(pages: seq<Page>): nat {
    if pages == [] then 0 else CountListed(pages[0]) + TotalListed(pages[1..])
  }

  /** The ids of a conversation's stored messages. */
  function IdsOf(db: Db, chat: string): set<string> {
    set id | id in db.messages && db.messages[id].value.conversationId == chat
  }

  function OrDefault(n: int, default: int): int {
    if n <= 0 then default else n
  }

  /** A message of the chat that none precedes in time, if it has any. */
  ghost predicate IsOldest(db: Db, chat: string, cursor: Option<Cursor>) {
    && (cursor.None? <==> IdsOf(db, chat) == {})
    && (cursor.Some? ==>
          && cursor.value.id in IdsOf(db, chat)
          && db.messages[cursor.value.id].value.timestampMs == cursor.value.ts
          && forall id :: id in IdsOf(db, chat) ==> cursor.value.ts <= db.messages[id].value.timestampMs)
  }

  method OldestCursor(st: Store, chat: string) returns (cursor: Option<Cursor>)
    ensures IsOldest(st.State(), chat, cursor)
  {
    cursor := None;
    var ids := IdsOf(st.State(), chat);
    var left := ids;
    while left != {}
      invariant left <= ids && (cursor.None? <==> left == ids)
      invariant cursor.Some? ==>
        && cursor.value.id in ids
        && st.messages[cursor.value.id].value.timestampMs == cursor.value.ts
        && forall id :: id in ids && id !in left ==> cursor.value.ts <= st.messages[id].value.timestampMs
      decreases left
    {
      var id :| id in left;
      left := left - {id};
      var ts := st.messages[id].value.timestampMs;
      if cursor.None? || ts < cursor.value.ts {
        cursor := Some(Cursor(id, ts));
      }
    }
  }

  /** What a run reports of its pages. */
  predicate Reports(res: Result, pages: seq<Page>) {
    res.requests == |pages| && res.fetched == Total(pages) && res.processed == TotalListed(pages)
  }

  lemma {:induction false} PageWritesSnoc(pages: seq<Page>, p: Page)
    ensures PageWrites(pages + [p]) == PageWrites(pages) + HistoryWrites(p)
    ensures Total(pages + [p]) == Total(pages) + |p|
    ensures TotalListed(pages + [p]) == TotalListed(pages) + CountListed(p)
  {
    hide HistoryWrites, CountListed;
    if pages == [] {
      assert [p][1..] == [];
    } else {
      assert (pages + [p])[1..] == pages[1..] + [p];
      PageWritesSnoc(pages[1..], p);
    }
  }

  /** One more page is fetched and written. */
  lemma OneMore(db: Db, pages: seq<Page>, p: Page, now: int)
    ensures Written(db, PageWrites(pages + [p]), now) ==
      Written(Written(db, PageWrites(pages), now), HistoryWrites(p), now)
  {
    PageWritesSnoc(pages, p);
    WrittenAppend(db, PageWrites(pages), HistoryWrites(p), now);
  }

  /** After i fetches, those done and those to come make up the run. */
  ghost predicate OnTrack(
    phone: Phone, chat: string, count: int, n: nat, cursor: Option<Cursor>, done: seq<Page>, i: nat, at: Option<Cursor>)
  {
    var whole, rest := Pages(phone, chat, count, 0, n, cursor), Pages(phone, chat, count, i, n, at);
    whole.0 == done + rest.0 && whole.1 == rest.1
  }

  ghost predicate Complete(
    phone: Phone, chat: string, count: int, n: nat, cursor: Option<Cursor>, done: seq<Page>, error: Option<Error>)
  {
    (done, error) == Pages(phone, chat, count, 0, n, cursor)
  }

  lemma Begin(phone: Phone, chat: string, count: int, n: nat, cursor: Option<Cursor>)
    ensures OnTrack(phone, chat, count, n, cursor, [], 0, cursor)
  {
  }

  lemma Advance(
    phone: Phone, chat: string, count: int, n: nat, cursor: Option<Cursor>, done: seq<Page>, i: nat, at: Option<Cursor>)
    requires OnTrack(phone, chat, count, n, cursor, done, i, at)
    requires i < n && !phone.cancelled(i) && phone.reply(i, chat, count, at).Fetched?
    ensures var Fetched(p, next) := phone.reply(i, chat, count, at);
      if p == [] || at == next then Complete(phone, chat, count, n, cursor, done + [p], None)
      else OnTrack(phone, chat, count, n, cursor, done + [p], i + 1, next)
  {
    var Fetched(p, next) := phone.reply(i, chat, count, at);
    if p != [] && at != next {
      var (rest, _) := Pages(phone, chat, count, i + 1, n, next);
      assert done + ([p] + rest) == done + [p] + rest;
    }
  }

  lemma End(
    phone: Phone, chat: string, count: int, n: nat, cursor: Option<Cursor>, done: seq<Page>, i: nat, at: Option<Cursor>)
    requires OnTrack(phone, chat, count, n, cursor, done, i, at)
    requires i >= n || phone.cancelled(i) || phone.reply(i, chat, count, at).Refused?
    ensures Complete(phone, chat, count, n, cursor, done,
      if i >= n then None else if phone.cancelled(i) then Some(Cancelled) else Some(FetchFailed))
  {
    assert done + [] == done;
  }

  /** Which run this was: it starts below an oldest message, asks the phone and writes
      what comes. */
  ghost predicate IsRun(
    was: Db, db: Db, cursor: Option<Cursor>, pages: seq<Page>, phone: Phone, chat: string, requests: int, count: int,
    now: int, res: Result, error: Option<Error>)
  {
    && IsOldest(was, chat, cursor)
    && Complete(phone, chat, OrDefault(count, 50), OrDefault(requests, 10), cursor, pages, error)
    && Reports(res, pages)
    && db == Written(was, PageWrites(pages), now)
  }

  method Backfill(pump: Pump, phone: Phone, chat: string, requests: int, count: int, now: int)
    returns (res: Result, error: Option<Error>, ghost cursor: Option<Cursor>, ghost pages: seq<Page>)
    modifies pump.store
    ensures IsRun(
      old(pump.store.State()), pump.store.State(), cursor, pages, phone, chat, requests, count, now, res, error)
    ensures res.conversationId == chat && res.count == if count > 0 then count else 50
    ensures res.before == |IdsOf(old(pump.store.State()), chat)|
    ensures error.None? ==> res.after == |IdsOf(pump.store.State(), chat)| && res.added == res.after - res.before
    ensures error.Some? ==> res.after == 0 && res.added == 0
  {
    hide Pages, IdsOf, PageWrites, HistoryWrites, CountListed, IsOldest, Written, OnTrack, Total, TotalListed;
    var n, size := OrDefault(requests, 10), OrDefault(count, 50);
    var at := OldestCursor(pump.store, chat);
    cursor := at;
    ghost var was := pump.store.State();
    var before := |IdsOf(pump.store.State(), chat)|;
    res := Result(chat, 0, size, 0, 0, before, 0, 0);
    pages := [];
    error := None;
    NoPages(was, now);
    Begin(phone, chat, size, n, cursor);
    var i := 0;
    while i < n
      invariant 0 <= i <= n && error == None
      invariant Reports(res, pages) && res == Result(chat, res.requests, size, res.fetched, res.processed, before, 0, 0)
      invariant pump.store.State() == Written(was, PageWrites(pages), now)
      invariant OnTrack(phone, chat, size, n, cursor, pages, i, at)
      invariant i == n ==> Complete(phone, chat, size, n, cursor, pages, None)
    {
      if phone.cancelled(i) {
        error := Some(Cancelled);
        End(phone, chat, size, n, cursor, pages, i, at);
        return;
      }
      var reply := phone.reply(i, chat, size, at);
      if reply.Refused? {
        error := Some(FetchFailed);
        End(phone, chat, size, n, cursor, pages, i, at);
        return;
      }
      Advance(phone, chat, size, n, cursor, pages, i, at);
      PageWritesSnoc(pages, reply.messages);
      OneMore(was, pages, reply.messages, now);
      var imported := pump.ImportMessages(reply.messages, now);
      res := res.(requests := res.requests + 1, fetched := res.fetched + |reply.messages|, processed := res.processed + imported);
      pages := pages + [reply.messages];
      if reply.messages == [] || at == reply.cursor {
        break;
      }
      at := reply.cursor;
      i := i + 1;
      if i == n {
        End(phone, chat, size, n, cursor, pages, i, at);
      }
    }
    var after := |IdsOf(pump.store.State(), chat)|;
    res := res.(after := after, added := after - before);
  }

  lemma NoPages(db: Db, now: int)
    ensures Written(db, PageWrites([]), now) == db && Total([]) == 0 && TotalListed([]) == 0
  {
  }

  // ---- what every run keeps ----

  lemma {:induction false} ListedAtMostTotal(pages: seq<Page>)
    ensures TotalListed(pages) <= Total(pages)
  {
    if pages != [] {
      ListedAtMostTotal(pages[1..]);
    }
  }

  lemma {:induction false} PagesBounded(phone: Phone, chat: string, count: int, i: nat, n: nat, cursor: Option<Cursor>)
    ensures i <= n ==> |Pages(phone, chat, count, i, n, cursor).0| <= n - i
    decreases n - i
  {
    if i < n && !phone.cancelled(i) {
      var reply := phone.reply(i, chat, count, cursor);
      if reply.Fetched? && reply.messages != [] && cursor != reply.cursor {
        PagesBounded(phone, chat, count, i + 1, n, reply.cursor);
      }
    }
  }

  /** Whatever the phone does, a run makes no more fetches than were asked for, and
      counts no more records than it fetched. */
  lemma RunIsBounded(
    was: Db, db: Db, cursor: Option<Cursor>, pages: seq<Page>, phone: Phone, chat: string, requests: int, count: int,
    now: int, res: Result, error: Option<Error>)
    requires IsRun(was, db, cursor, pages, phone, chat, requests, count, now, res, error)
    ensures res.requests <= (if requests > 0 then requests else 10) && res.fetched == Total(pages) && res.processed <= res.fetched
  {
    PagesBounded(phone, chat, OrDefault(count, 50), 0, OrDefault(requests, 10), cursor);
    ListedAtMostTotal(pages);
  }

  lemma WrittenMessage(db: Db, ws: seq<Write>, now: int, id: string)
    ensures MessageOf(Written(db, ws, now), id) ==
      if LastMessage(ws, id).Some? then LastMessage(ws, id) else MessageOf(db, id)
  {
    WrittenIsApplied(db, ws, now, []);
    UntimedStamp(ws, now, []);
    assert Stamp(ws, now) + [] == Stamp(ws, now) && ws + [] == ws;
    LastMessageWins(db, Stamp(ws, now), id);
    assert ApplyAll(Written(db, ws, now), []) == Written(db, ws, now);
  }

  /** The fetched records never name another conversation, at last, for a stored
      message of the chat. */
  predicate NothingMoves(was: Db, chat: string, ws: seq<Write>) {
    forall id :: id in IdsOf(was, chat) ==>
      (LastMessage(ws, id).Some? ==> LastMessage(ws, id).value.conversationId == chat)
  }

  /** The ids that the fetched records put into the chat for the first time. */
  ghost predicate NewTo(was: Db, chat: string, ws: seq<Write>, id: string) {
    id !in IdsOf(was, chat) && LastMessage(ws, id).Some? && LastMessage(ws, id).value.conversationId == chat
  }

  lemma AfterIff(was: Db, chat: string, ws: seq<Write>, now: int, id: string)
    ensures id in IdsOf(Written(was, ws, now), chat) <==>
      if LastMessage(ws, id).Some? then LastMessage(ws, id).value.conversationId == chat else id in IdsOf(was, chat)
  {
    hide Written, LastMessage;
    WrittenMessage(was, ws, now, id);
    var db := Written(was, ws, now);
    assert id in IdsOf(db, chat) <==> MessageOf(db, id).Some? && MessageOf(db, id).value.conversationId == chat;
  }

  /** The difference of the two counts is the number of newly stored ids of the chat
      if and only if no stored message of the chat moves to another conversation. */
  lemma AddedIsNewIff(was: Db, chat: string, ws: seq<Write>, now: int)
    ensures var before, after := IdsOf(was, chat), IdsOf(Written(was, ws, now), chat);
      && (forall id :: id in after - before <==> NewTo(was, chat, ws, id))
      && (|after| - |before| == |after - before| <==> NothingMoves(was, chat, ws))
  {
    hide Written, LastMessage, IdsOf;
    var before, after := IdsOf(was, chat), IdsOf(Written(was, ws, now), chat);
    forall id ensures id in after - before <==> NewTo(was, chat, ws, id) {
      AfterIff(was, chat, ws, now, id);
    }
    forall id | id in before
      ensures id in after <==> (LastMessage(ws, id).Some? ==> LastMessage(ws, id).value.conversationId == chat)
    {
      AfterIff(was, chat, ws, now, id);
    }
    assert NothingMoves(was, chat, ws) ==> before - after == {};
    if before - after == {} {
      forall id | id in before ensures id in after {
        assert id !in before - after;
      }
    }
  }

  // ---- a phone with a fixed history ----

  function Listing(ms: seq<ProtoMessage>): (p: Page)
    ensures |p| == |ms| && forall k :: 0 <= k < |p| ==> p[k] == Some(ms[k])
  {
    seq(|ms|, k requires 0 <= k < |ms| => Some(ms[k]))
  }

  function Least(a: int, b: int): int {
    if a < b then a else b
  }

  /** The messages of a chat, oldest first, each once. */
  predicate IsHistory(h: seq<ProtoMessage>, chat: string) {
    && (forall i :: 0 <= i < |h| ==> h[i].id != "" && h[i].conversationId == chat)
    && (forall i, j :: 0 <= i < j < |h| ==> h[i].id != h[j].id)
  }

  /** The cursor names the message at place p, or is nil and stands for the end. */
  predicate Names(h: seq<ProtoMessage>, cursor: Option<Cursor>, p: nat) {
    if cursor.None? then p == |h| else p < |h| && cursor.value.id == h[p].id
  }

  /** The reply that holds the messages just before place p, and names the first. */
  predicate IsPageBelow(h: seq<ProtoMessage>, count: nat, p: nat, r: Reply)
    requires p <= |h|
  {
    var low := p - Least(p, count);
    && r.Fetched? && r.messages == Listing(h[low..p])
    && (low < p ==> r.cursor.Some? && r.cursor.value.id == h[low].id)
  }

  ghost predicate HoldsHistory(phone: Phone, chat: string, h: seq<ProtoMessage>) {
    && (forall i :: !phone.cancelled(i))
    && (forall i, count: nat, cursor, p: nat :: p <= |h| && Names(h, cursor, p) ==>
          IsPageBelow(h, count, p, phone.reply(i, chat, count, cursor)))
  }

  /** How many of the p messages below a place k full pages bring. */
  function Reach(p: nat, k: nat, count: nat): (r: nat)
    ensures r <= p
  {
    Least(p, k * count)
  }

  lemma ReachStep(p: nat, k: nat, count: nat)
    ensures Reach(0, k, count) == 0 && Reach(p, 0, count) == 0
    ensures k > 0 ==> Reach(p, k, count) == Least(p, count) + Reach(p - Least(p, count), k - 1, count)
  {
    assert 0 * count == 0;
    if k > 0 {
      assert k * count == (k - 1) * count + count;
    }
  }

  /** The pages put end to end, oldest first. */
  function Chain(pages: seq<Page>): Page {
    if pages == [] then [] else Chain(pages[1..]) + pages[0]
  }

  lemma {:induction false} PagesGoDown(
    phone: Phone, chat: string, h: seq<ProtoMessage>, count: nat, i: nat, n: nat, cursor: Option<Cursor>, p: nat)
    requires IsHistory(h, chat) && HoldsHistory(phone, chat, h) && count > 0 && i <= n
    requires p <= |h| && Names(h, cursor, p)
    ensures var (pages, error) := Pages(phone, chat, count, i, n, cursor);
      var total := Reach(p, n - i, count);
      && error == None && Total(pages) == total && Chain(pages) == Listing(h[p - total..p])
      && (|pages| < n - i ==> total == p)
    decreases n - i
  {
    hide HoldsHistory, Listing, Chain, Total, Reach, IsHistory;
    var (pages, error) := Pages(phone, chat, count, i, n, cursor);
    if i == n {
      NoneBelow(h, p);
      ReachStep(p, 0, count);
    } else {
      Ask(phone, chat, h, count, i, cursor, p);
      var Fetched(ms, next) := phone.reply(i, chat, count, cursor);
      var low := p - Least(p, count);
      ReachStep(p, n - i, count);
      if p == 0 {
        OnePage(ms);
        NoneBelow(h, p);
      } else {
        DifferentCursor(h, chat, cursor, p, next, low);
        PagesGoDown(phone, chat, h, count, i + 1, n, next, low);
        var (rest, _) := Pages(phone, chat, count, i + 1, n, next);
        assert pages == [ms] + rest;
        MorePages(ms, rest);
        var more := Reach(low, n - i - 1, count);
      }
    }
  }

  lemma Ask(phone: Phone, chat: string, h: seq<ProtoMessage>, count: nat, i: nat, cursor: Option<Cursor>, p: nat)
    requires HoldsHistory(phone, chat, h) && p <= |h| && Names(h, cursor, p)
    ensures !phone.cancelled(i) && IsPageBelow(h, count, p, phone.reply(i, chat, count, cursor))
  {
  }

  lemma DifferentCursor(h: seq<ProtoMessage>, chat: string, cursor: Option<Cursor>, p: nat, next: Option<Cursor>, low: nat)
    requires IsHistory(h, chat) && p <= |h| && low < p && Names(h, cursor, p)
    requires next.Some? && next.value.id == h[low].id
    ensures cursor != next && Names(h, next, low)
  {
  }

  lemma NoneBelow(h: seq<ProtoMessage>, p: nat)
    requires p <= |h|
    ensures Listing(h[p..p]) == [] && Chain([]) == [] && Total([]) == 0
  {
  }

  lemma OnePage(p: Page)
    ensures Chain([p]) == p && Total([p]) == |p|
  {
    assert [p][1..] == [];
    assert [] + p == p;
  }

  lemma MorePages(p: Page, rest: seq<Page>)
    ensures Chain([p] + rest) == Chain(rest) + p && Total([p] + rest) == |p| + Total(rest)
  {
    assert ([p] + rest)[1..] == rest;
  }

  // ---- what such a phone leaves in the store ----

  /** The last record of a history listing for an id of its own. */
  lemma {:induction false} LastOfWrites(ws: seq<Write>, m: Message)
    requires m.platform != "" && Accepted(PutMessage(m)) && PutMessage(m) in ws
    requires forall k :: 0 <= k < |ws| && ws[k].PutMessage? && ws[k].m.id == m.id ==> ws[k] == PutMessage(m)
    ensures LastMessage(ws, m.id) == Some(m)
  {
    if PutMessage(m) in ws[1..] {
      LastOfWrites(ws[1..], m);
    } else {
      assert ws[0] == PutMessage(m);
      NoLastMessage(ws[1..], m);
    }
  }

  lemma {:induction false} NoLastMessage(ws: seq<Write>, m: Message)
    requires PutMessage(m) !in ws
    requires forall k :: 0 <= k < |ws| && ws[k].PutMessage? && ws[k].m.id == m.id ==> ws[k] == PutMessage(m)
    ensures LastMessage(ws, m.id).None?
  {
    if ws != [] {
      NoLastMessage(ws[1..], m);
      assert ws[0] != PutMessage(m);
    }
  }

  function OldRow(m: ProtoMessage): Option<Message> {
    MessageRow(WrappedMessage(Some(m), true, ""))
  }

  lemma OldRowIs(m: ProtoMessage)
    ensures m.id != "" ==>
      && OldRow(m).Some? && OldRow(m).value.id == m.id && OldRow(m).value.platform != ""
      && OldRow(m).value.conversationId == m.conversationId
      && MessageWrites(WrappedMessage(Some(m), true, "")) == [PutMessage(OldRow(m).value)]
  {
  }

  /** The writes of a listing, in place. */
  lemma {:induction false} HistoryWritesOf(ms: seq<ProtoMessage>)
    requires forall k :: 0 <= k < |ms| ==> ms[k].id != ""
    ensures |HistoryWrites(Listing(ms))| == |ms|
    ensures forall k :: 0 <= k < |ms| ==> OldRow(ms[k]).Some? && HistoryWrites(Listing(ms))[k] == PutMessage(OldRow(ms[k]).value)
  {
    hide MessageWrites, OldRow;
    if ms != [] {
      HistoryWritesOf(ms[1..]);
      OldRowIs(ms[0]);
      assert Listing(ms)[1..] == Listing(ms[1..]);
      assert HistoryWrites(Listing(ms)) == [PutMessage(OldRow(ms[0]).value)] + HistoryWrites(Listing(ms[1..]));
    }
  }

  /** Page by page or in one chain, the same records are written. */
  lemma {:induction false} SameWrites(pages: seq<Page>, w: Write)
    ensures w in PageWrites(pages) <==> w in HistoryWrites(Chain(pages))
  {
    hide MessageWrites;
    if pages != [] {
      SameWrites(pages[1..], w);
      HistoryWritesAppend(Chain(pages[1..]), pages[0]);
    }
  }

  lemma {:induction false} HistoryWritesAppend(a: Page, b: Page)
    ensures HistoryWrites(a + b) == HistoryWrites(a) + HistoryWrites(b)
  {
    hide MessageWrites;
    if a == [] {
      assert a + b == b;
    } else {
      assert (a + b)[1..] == a[1..] + b;
      HistoryWritesAppend(a[1..], b);
    }
  }

  /** After a run that fetched the messages ms and no others, each is the last word
      on its id, and no other id is touched. */
  lemma LastWords(ms: seq<ProtoMessage>, chat: string, pages: seq<Page>, id: string)
    requires IsHistory(ms, chat) && chat != "" && Chain(pages) == Listing(ms)
    ensures var last := LastMessage(PageWrites(pages), id);
      if exists k :: 0 <= k < |ms| && ms[k].id == id then last.Some? && last.value.conversationId == chat
      else last.None?
    ensures forall k :: 0 <= k < |ms| && ms[k].id == id ==> LastMessage(PageWrites(pages), id) == OldRow(ms[k])
  {
    hide OldRow, HistoryWrites, Listing, PageWrites, LastMessage, Chain;
    var ws := PageWrites(pages);
    HistoryWritesOf(ms);
    forall k | 0 <= k < |ms| ensures OldRow(ms[k]).Some? && OldRow(ms[k]).value.id == ms[k].id {
      OldRowIs(ms[k]);
    }
    forall j | 0 <= j < |ws| && ws[j].PutMessage? && ws[j].m.id == id
      ensures exists k :: 0 <= k < |ms| && ms[k].id == id && ws[j] == PutMessage(OldRow(ms[k]).value)
    {
      SameWrites(pages, ws[j]);
    }
    if k :| 0 <= k < |ms| && ms[k].id == id {
      OldRowIs(ms[k]);
      SameWrites(pages, HistoryWrites(Listing(ms))[k]);
      LastOfWrites(ws, OldRow(ms[k]).value);
    } else {
      NoWriteNoLast(ws, id);
    }
  }

  lemma {:induction false} NoWriteNoLast(ws: seq<Write>, id: string)
    requires forall j :: 0 <= j < |ws| && ws[j].PutMessage? ==> ws[j].m.id != id
    ensures LastMessage(ws, id).None?
  {
    if ws != [] {
      NoWriteNoLast(ws[1..], id);
    }
  }

  lemma {:induction false} DistinctIdsCount(ms: seq<ProtoMessage>, ids: set<string>)
    requires forall i, j :: 0 <= i < j < |ms| ==> ms[i].id != ms[j].id
    requires forall id :: id in ids <==> exists k :: 0 <= k < |ms| && ms[k].id == id
    ensures |ids| == |ms|
  {
    if ms == [] {
      assert ids == {};
    } else {
      var last := |ms| - 1;
      var fewer := ids - {ms[last].id};
      forall id ensures id in fewer <==> exists k :: 0 <= k < |ms[..last]| && ms[..last][k].id == id {
        if id in fewer {
          var k :| 0 <= k < |ms| && ms[k].id == id;
          assert ms[..last][k].id == id;
        }
      }
      DistinctIdsCount(ms[..last], fewer);
      assert ms[last].id in ids;
    }
  }

  /** Against a phone with one fixed history, whose messages below place p are not yet
      stored, a run that starts at p adds the nearest ones below it without a gap: as
      many as the pages asked for can hold, or all there are. The reported counts are
      their number, and each is stored as the phone gave it. */
  lemma BackfillFetchesTheRunBelow(
    was: Db, db: Db, cursor: Option<Cursor>, pages: seq<Page>, phone: Phone, chat: string, requests: int, count: int,
    now: int, res: Result, error: Option<Error>, h: seq<ProtoMessage>, p: nat)
    requires IsRun(was, db, cursor, pages, phone, chat, requests, count, now, res, error)
    requires chat != "" && IsHistory(h, chat) && HoldsHistory(phone, chat, h) && p <= |h| && Names(h, cursor, p)
    requires forall j :: 0 <= j < p ==> h[j].id !in was.messages
    ensures var low := p - Reach(p, OrDefault(requests, 10), OrDefault(count, 50));
      && error == None && res.fetched == p - low
      && |IdsOf(db, chat)| - |IdsOf(was, chat)| == p - low
      && (forall j :: low <= j < p ==> MessageOf(db, h[j].id) == OldRow(h[j]))
      && (forall j :: 0 <= j < low ==> h[j].id !in db.messages)
      && (res.requests < OrDefault(requests, 10) ==> low == 0)
  {
    hide IsHistory, HoldsHistory, Names, Reach, OldRow, PageWrites, LastMessage, Written, IdsOf, Chain, Listing;
    var n, size := OrDefault(requests, 10), OrDefault(count, 50);
    PagesGoDown(phone, chat, h, size, 0, n, cursor, p);
    var low := p - Reach(p, n, size);
    var ms, ws := h[low..p], PageWrites(pages);
    StretchIsHistory(h, chat, low, p);
    forall j | 0 <= j < p
      ensures if j < low then h[j].id !in db.messages else MessageOf(db, h[j].id) == OldRow(h[j])
    {
      StretchHas(h, chat, low, p, j);
      LastWords(ms, chat, pages, h[j].id);
      WrittenMessage(was, ws, now, h[j].id);
    }
    AddedIsTheStretch(was, chat, ws, now, pages, ms);
  }

  lemma StretchIsHistory(h: seq<ProtoMessage>, chat: string, low: nat, p: nat)
    requires IsHistory(h, chat) && low <= p <= |h|
    ensures IsHistory(h[low..p], chat)
  {
  }

  lemma StretchHas(h: seq<ProtoMessage>, chat: string, low: nat, p: nat, j: nat)
    requires IsHistory(h, chat) && low <= p <= |h| && j < p
    ensures (exists k :: 0 <= k < p - low && h[low..p][k].id == h[j].id) <==> low <= j
    ensures low <= j ==> h[low..p][j - low] == h[j]
  {
    if low <= j {
      assert h[low..p][j - low] == h[j];
    }
  }

  lemma AddedIsTheStretch(was: Db, chat: string, ws: seq<Write>, now: int, pages: seq<Page>, ms: seq<ProtoMessage>)
    requires IsHistory(ms, chat) && chat != "" && Chain(pages) == Listing(ms) && ws == PageWrites(pages)
    requires forall k :: 0 <= k < |ms| ==> ms[k].id !in was.messages
    ensures |IdsOf(Written(was, ws, now), chat)| - |IdsOf(was, chat)| == |ms|
  {
    hide OldRow, PageWrites, LastMessage, Written, Chain, Listing;
    var before, after := IdsOf(was, chat), IdsOf(Written(was, ws, now), chat);
    AddedIsNewIff(was, chat, ws, now);
    forall id ensures LastMessage(ws, id).Some? ==> LastMessage(ws, id).value.conversationId == chat {
      LastWords(ms, chat, pages, id);
    }
    forall id ensures id in after - before <==> exists k :: 0 <= k < |ms| && ms[k].id == id {
      LastWords(ms, chat, pages, id);
    }
    DistinctIdsCount(ms, after - before);
  }
}
