/** Where the pages of a backfill leave the stretch below its start, and where that
    start is the right one: nil cursors and messages of one time. */
module BackfillPages {
  import opened Common
  import opened Archive
  import opened Sync
  import opened Backfill

  // ---- what a run counts ----

  /** A run's count of processed records is the number of writes that the store accepts
      if and only if every fetched message with an id has a conversation id too. */
  lemma {:induction false} ProcessedAreAcceptedIff(pages: seq<Page>)
    ensures CountTaken(PageWrites(pages)) <= TotalListed(pages)
    ensures CountTaken(PageWrites(pages)) == TotalListed(pages) <==> forall k :: 0 <= k < |pages| ==> AllHaveChats(pages[k])
  {
    hide HistoryWrites, CountListed, AllHaveChats;
    if pages != [] {
      ProcessedAreAcceptedIff(pages[1..]);
      CountedAreAcceptedIff(pages[0]);
      CountTakenAppend(HistoryWrites(pages[0]), PageWrites(pages[1..]));
      assert pages == [pages[0]] + pages[1..];
    }
  }

  /** All that was fetched, in the order of the fetches. */
  function Joined(pages: seq<Page>): Page {
    if pages == [] then [] else pages[0] + Joined(pages[1..])
  }

  lemma {:induction false} ListedAppend(a: Page, b: Page)
    ensures CountListed(a + b) == CountListed(a) + CountListed(b)
  {
    if a == [] {
      assert a + b == b;
    } else {
      assert (a + b)[1..] == a[1..] + b;
      ListedAppend(a[1..], b);
    }
  }

  lemma {:induction false} JoinedIs(pages: seq<Page>)
    ensures PageWrites(pages) == HistoryWrites(Joined(pages)) && TotalListed(pages) == CountListed(Joined(pages))
  {
    hide HistoryWrites, CountListed;
    if pages == [] {
      NothingListed();
    } else {
      JoinedIs(pages[1..]);
      HistoryWritesAppend(pages[0], Joined(pages[1..]));
      ListedAppend(pages[0], Joined(pages[1..]));
    }
  }

  lemma NothingListed()
    ensures HistoryWrites([]) == [] && CountListed([]) == 0
  {
  }

  /** A run's count of processed records is the number of different messages it leaves in
      the store if and only if every fetched message with an id has a conversation id
      too and no id was fetched twice; and the number that the store gains if and only
      if moreover none of them was stored before. */
  lemma {:induction false} ProcessedAreStoredIff(
    was: Db, db: Db, cursor: Option<Cursor>, pages: seq<Page>, phone: Phone, chat: string, requests: int, count: int,
    now: int, res: Result, error: Option<Error>)
    requires IsRun(was, db, cursor, pages, phone, chat, requests, count, now, res, error)
    ensures var ms := Joined(pages);
      && db.messages.Keys == was.messages.Keys + TakenIds(ms) && |TakenIds(ms)| <= res.processed
      && (|TakenIds(ms)| == res.processed <==> AllHaveChats(ms) && IdsDiffer(ms))
      && (|db.messages.Keys| - |was.messages.Keys| == res.processed <==>
            AllHaveChats(ms) && IdsDiffer(ms) && forall id :: ListsId(ms, id) ==> id !in was.messages)
  {
    hide Written, Complete, IsOldest, PageWrites, HistoryWrites, TotalListed, CountListed, Joined, TakenIds;
    JoinedIs(pages);
    CountedAreStoredIff(was, Joined(pages), now);
  }

  // ---- nil cursors ----

  /** A page of the messages just before place p; its cursor names the first of them,
      or is nil. */
  predicate IsPageOf(h: seq<ProtoMessage>, count: nat, p: nat, r: Reply)
    requires p <= |h|
  {
    var low := p - Least(p, count);
    && r.Fetched? && r.messages == Listing(h[low..p])
    && (low < p && r.cursor.Some? ==> r.cursor.value.id == h[low].id)
  }

  /** A phone that serves one history, and may or may not say where it got to. */
  ghost predicate Serves(phone: Phone, chat: string, h: seq<ProtoMessage>) {
    && (forall i :: !phone.cancelled(i))
    && (forall i, count: nat, cursor, p: nat :: p <= |h| && Names(h, cursor, p) ==>
          IsPageOf(h, count, p, phone.reply(i, chat, count, cursor)))
  }

  /** Some fetch but the last is answered with messages and a nil cursor, after one
      that was not nil. */
  predicate Restarts(phone: Phone, chat: string, count: nat, i: nat, n: nat, cursor: Option<Cursor>)
    decreases n - i
  {
    && i + 1 < n && !phone.cancelled(i)
    && var r := phone.reply(i, chat, count, cursor);
    && r.Fetched? && r.messages != [] && cursor != r.cursor
    && (r.cursor.None? || Restarts(phone, chat, count, i + 1, n, r.cursor))
  }

  /** The fetched messages, put in order, are those just before place p. */
  predicate IsStretch(h: seq<ProtoMessage>, p: nat, pages: seq<Page>)
    requires p <= |h|
  {
    Total(pages) <= p && Chain(pages) == Listing(h[p - Total(pages)..p])
  }

  lemma {:induction false} ChainLength(pages: seq<Page>)
    ensures |Chain(pages)| == Total(pages)
  {
    if pages != [] {
      ChainLength(pages[1..]);
    }
  }

  lemma AskAny(phone: Phone, chat: string, h: seq<ProtoMessage>, count: nat, i: nat, cursor: Option<Cursor>, p: nat)
    requires Serves(phone, chat, h) && p <= |h| && Names(h, cursor, p)
    ensures !phone.cancelled(i) && IsPageOf(h, count, p, phone.reply(i, chat, count, cursor))
  {
  }

  /** One more page in front of a stretch, or of what is not one. */
  lemma MoreIsStretchIff(h: seq<ProtoMessage>, low: nat, p: nat, rest: seq<Page>)
    requires low <= p <= |h|
    ensures IsStretch(h, p, [Listing(h[low..p])] + rest) <==> IsStretch(h, low, rest)
  {
    hide Chain, Total, Listing;
    var page := Listing(h[low..p]);
    MorePages(page, rest);
    ChainLength(rest);
    var t := Total(rest);
    if t <= low {
      SameEnd(Chain(rest), Listing(h[low - t..low]), page);
    }
  }

  lemma SameEnd<T>(a: seq<T>, b: seq<T>, c: seq<T>)
    requires |a| == |b|
    ensures a + c == b + c <==> a == b
  {
    if a + c == b + c {
      assert (a + c)[..|a|] == a && (b + c)[..|b|] == b;
    }
  }

  /** After a nil cursor the newest message comes again, out of the stretch. */
  lemma NewestIsOutside(h: seq<ProtoMessage>, chat: string, low: nat, p: nat, from: nat, later: seq<Page>)
    requires IsHistory(h, chat) && low < p < |h| && from < |h|
    ensures !IsStretch(h, p, [Listing(h[low..p]), Listing(h[from..])] + later)
  {
    hide Chain, Total, IsHistory;
    var first, second := Listing(h[low..p]), Listing(h[from..]);
    assert [first, second] + later == [first] + ([second] + later);
    MoreIsStretchIff(h, low, p, [second] + later);
    MorePages(second, later);
    ChainLength([second] + later);
    var chain, t := Chain([second] + later), Total([second] + later);
    assert chain[|chain| - 1] == second[|second| - 1] == Some(h[|h| - 1]);
    if t <= low {
      assert Listing(h[low - t..low])[t - 1] == Some(h[low - 1]);
      DistinctPlaces(h, chat, low - 1, |h| - 1);
    }
  }

  lemma DistinctPlaces(h: seq<ProtoMessage>, chat: string, i: nat, j: nat)
    requires IsHistory(h, chat) && i < j < |h|
    ensures h[i] != h[j]
  {
  }

  /** The fetched messages are the stretch just below the start, without a gap or a
      repetition, if and only if no fetch but the last was answered with messages and
      a nil cursor. */
  lemma {:induction false} StretchIff(
    phone: Phone, chat: string, h: seq<ProtoMessage>, count: nat, i: nat, n: nat, cursor: Option<Cursor>, p: nat)
    requires IsHistory(h, chat) && Serves(phone, chat, h) && count > 0 && i <= n
    requires p <= |h| && Names(h, cursor, p)
    ensures IsStretch(h, p, Pages(phone, chat, count, i, n, cursor).0) <==> !Restarts(phone, chat, count, i, n, cursor)
    decreases n - i
  {
    hide Serves, IsStretch, IsHistory, Listing;
    var pages := Pages(phone, chat, count, i, n, cursor).0;
    if i == n {
      EmptyIsStretch(h, p);
    } else {
      AskAny(phone, chat, h, count, i, cursor, p);
      var Fetched(ms, next) := phone.reply(i, chat, count, cursor);
      var low := p - Least(p, count);
      EmptyIsStretch(h, low);
      if p == 0 || cursor == next {
        assert pages == [ms] + [];
        MoreIsStretchIff(h, low, p, []);
      } else {
        var rest := Pages(phone, chat, count, i + 1, n, next).0;
        assert pages == [ms] + rest;
        if next.Some? {
          StretchIff(phone, chat, h, count, i + 1, n, next, low);
          MoreIsStretchIff(h, low, p, rest);
        } else if i + 1 == n {
          MoreIsStretchIff(h, low, p, []);
        } else {
          AskAny(phone, chat, h, count, i + 1, next, |h|);
          var from := |h| - Least(|h|, count);
          assert h[from..|h|] == h[from..];
          assert pages == [Listing(h[low..p]), Listing(h[from..])] + rest[1..];
          NewestIsOutside(h, chat, low, p, from, rest[1..]);
        }
      }
    }
  }

  lemma EmptyIsStretch(h: seq<ProtoMessage>, p: nat)
    requires p <= |h|
    ensures IsStretch(h, p, [])
  {
  }

  function PlaceNamed(h: seq<ProtoMessage>, cursor: Option<Cursor>): (p: nat)
    ensures p <= |h|
  {
    if h == [] || (cursor.Some? && h[0].id == cursor.value.id) then 0 else 1 + PlaceNamed(h[1..], cursor)
  }

  lemma {:induction false} PlaceIsNamed(h: seq<ProtoMessage>, chat: string, cursor: Option<Cursor>, p: nat)
    requires IsHistory(h, chat) && p <= |h| && Names(h, cursor, p)
    ensures PlaceNamed(h, cursor) == p
    decreases |h|
  {
    if h != [] && p > 0 {
      PlaceIsNamed(h[1..], chat, cursor, p - 1);
    }
  }

  function Before(h: seq<ProtoMessage>, p: nat, count: int): (page: Page)
    requires p <= |h|
  {
    Listing(h[p - Least(p, if count < 0 then 0 else count)..p])
  }

  /** A phone that serves its history and never says where it got to. */
  function Forgetful(h: seq<ProtoMessage>): Phone {
    Phone((i, chat, count, cursor) => Fetched(Before(h, PlaceNamed(h, cursor), count), None), i => false)
  }

  lemma ForgetfulServes(h: seq<ProtoMessage>, chat: string)
    requires IsHistory(h, chat)
    ensures Serves(Forgetful(h), chat, h)
  {
    hide IsHistory, Listing;
    var phone := Forgetful(h);
    forall i: nat, count: nat, cursor, p: nat | p <= |h| && Names(h, cursor, p)
      ensures IsPageOf(h, count, p, phone.reply(i, chat, count, cursor))
    {
      PlaceIsNamed(h, chat, cursor, p);
    }
  }

  /** Against such a phone the second fetch brings back the message that the run
      started from, which is stored already. */
  lemma NilCursorRepeats(h: seq<ProtoMessage>, chat: string, ts: int)
    requires IsHistory(h, chat) && |h| >= 2
    ensures var last, start := |h| - 1, Some(Cursor(h[|h| - 1].id, ts));
      && Serves(Forgetful(h), chat, h) && Names(h, start, last)
      && Pages(Forgetful(h), chat, 1, 0, 2, start).0 == [[Some(h[last - 1])], [Some(h[last])]]
      && !IsStretch(h, last, Pages(Forgetful(h), chat, 1, 0, 2, start).0)
  {
    hide IsHistory, Listing, IsStretch, Serves;
    var phone, last, start := Forgetful(h), |h| - 1, Some(Cursor(h[|h| - 1].id, ts));
    ForgetfulServes(h, chat);
    PlaceIsNamed(h, chat, start, last);
    PlaceIsNamed(h, chat, None, |h|);
    assert phone.reply(0, chat, 1, start) == Fetched(Before(h, last, 1), None);
    assert phone.reply(1, chat, 1, None) == Fetched(Before(h, |h|, 1), None);
    OneListed(h, last);
    OneListed(h, |h|);
    assert Pages(phone, chat, 1, 1, 2, None).0 == [[Some(h[last])]];
    StretchIff(phone, chat, h, 1, 0, 2, start, last);
  }

  lemma OneListed(h: seq<ProtoMessage>, p: nat)
    requires 0 < p <= |h|
    ensures Before(h, p, 1) == [Some(h[p - 1])]
  {
  }

  // ---- where a run starts ----

  function TimeOf(m: ProtoMessage): int {
    NormalizeTimestampMs(m.timestamp)
  }

  /** The phone's history in order of time, ties allowed. */
  predicate InOrder(h: seq<ProtoMessage>) {
    forall i, j :: 0 <= i < j < |h| ==> TimeOf(h[i]) <= TimeOf(h[j])
  }

  /** Messages of the history that are stored are filed under the chat and their time. */
  predicate Agrees(db: Db, chat: string, h: seq<ProtoMessage>) {
    forall j :: 0 <= j < |h| && h[j].id in db.messages ==>
      var m := db.messages[h[j].id].value; m.conversationId == chat && m.timestampMs == TimeOf(h[j])
  }

  /** Nothing before the place of the oldest stored message is stored, if and only if
      nothing of its own time that stands before it is. */
  lemma NothingStoredBelowIff(db: Db, chat: string, h: seq<ProtoMessage>, cursor: Option<Cursor>, p: nat)
    requires IsHistory(h, chat) && InOrder(h) && Agrees(db, chat, h)
    requires IsOldest(db, chat, cursor) && p <= |h| && Names(h, cursor, p)
    ensures (forall j :: 0 <= j < p ==> h[j].id !in db.messages) <==>
      forall j :: 0 <= j < p < |h| && TimeOf(h[j]) == TimeOf(h[p]) ==> h[j].id !in db.messages
  {
    forall j | 0 <= j < p && h[j].id in db.messages
      ensures p < |h| && TimeOf(h[j]) == TimeOf(h[p])
    {
      assert h[j].id in IdsOf(db, chat);
    }
  }

  /** A run against a phone with one fixed history, of which the store holds some part:
      if no stored message ties with the oldest from before it, exactly the nearest
      messages below are added, as many as the pages can hold or all there are. */
  lemma BackfillFromTheOldest(
    was: Db, db: Db, cursor: Option<Cursor>, pages: seq<Page>, phone: Phone, chat: string, requests: int, count: int,
    now: int, res: Result, error: Option<Error>, h: seq<ProtoMessage>, p: nat)
    requires IsRun(was, db, cursor, pages, phone, chat, requests, count, now, res, error)
    requires chat != "" && IsHistory(h, chat) && HoldsHistory(phone, chat, h) && p <= |h| && Names(h, cursor, p)
    requires InOrder(h) && Agrees(was, chat, h)
    requires forall j :: 0 <= j < p < |h| && TimeOf(h[j]) == TimeOf(h[p]) ==> h[j].id !in was.messages
    ensures var low := p - Reach(p, OrDefault(requests, 10), OrDefault(count, 50));
      && error == None && res.fetched == p - low
      && |IdsOf(db, chat)| - |IdsOf(was, chat)| == p - low
      && (forall j :: low <= j < p ==> MessageOf(db, h[j].id) == OldRow(h[j]))
      && (forall j :: 0 <= j < low ==> h[j].id !in db.messages)
      && (res.requests < OrDefault(requests, 10) ==> low == 0)
  {
    hide IsHistory, HoldsHistory, Names, IsOldest, Complete, Reports, Written, PageWrites, IdsOf, InOrder, Agrees;
    NothingStoredBelowIff(was, chat, h, cursor, p);
    BackfillFetchesTheRunBelow(was, db, cursor, pages, phone, chat, requests, count, now, res, error, h, p);
  }
}
