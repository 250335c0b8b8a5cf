/** The SQLite archive of internal/store: the rows that internal/sync writes, the
    triggers that keep the full-text mirror, and the search that joins the two. */
module Archive {
  import opened Common

  datatype Conversation = Conversation(
    id: string, platform: string, name: string, isGroup: bool, participants: string,
    lastMessageTs: int, unread: bool, pinned: bool, archived: bool)

  datatype Media = Media(mediaId: string, mimeType: string, key: string)

  datatype Message = Message(
    id: string, conversationId: string, platform: string, senderId: string, body: Option<string>, timestampMs: int,
    status: int, isFromMe: bool, media: Option<Media>, reactions: Option<string>, replyToId: Option<string>, raw: string)

  datatype Contact = Contact(
    participantId: string, platform: string, contactId: string, name: string, e164: string,
    formattedNumber: string, avatarColor: string, isMe: bool)

  /** A row with its updated_at column. */
  datatype Row<T> = Row(value: T, updatedAt: int)

  datatype FtsRow = FtsRow(id: string, body: string)

  datatype Db = Db(
    conversations: map<string, Row<Conversation>>, messages: map<string, Row<Message>>,
    contacts: map<string, Row<Contact>>, fts: seq<FtsRow>, lastEvent: int, lastConnect: int, syncedAt: int)

  datatype Write =
    | PutConversation(c: Conversation)
    | PutMessage(m: Message)
    | PutContact(k: Contact)
    | Mark(eventTs: int)
    | Touch

  datatype Timed = Timed(write: Write, now: int)

  // ---- one write ----

  function Max(a: int, b: int): int {
    if a < b then b else a
  }

  function Platform(p: string): string {
    if p == "" then "gm" else p
  }

  /** The row as it is inserted. */
  function Stored(c: Conversation): Conversation {
    c.(platform := Platform(c.platform), participants := if c.participants == "" then "[]" else c.participants)
  }

  /** The row that a conflict leaves: everything is overwritten but the time of the
      last message, which only grows. */
  function Merged(old_: Conversation, c: Conversation): Conversation {
    Stored(c).(lastMessageTs := Max(old_.lastMessageTs, c.lastMessageTs))
  }

  function Placeholder(id: string, platform: string): Conversation {
    Conversation(id, Platform(platform), "", false, "[]", 0, false, false, false)
  }

  function Coalesced(body: Option<string>): string {
    if body.Some? then body.value else ""
  }

  function FtsDelete(fts: seq<FtsRow>, id: string): seq<FtsRow> {
    if fts == [] then []
    else if fts[0].id == id then FtsDelete(fts[1..], id)
    else [fts[0]] + FtsDelete(fts[1..], id)
  }

  function WithConversation(db: Db, c: Conversation, now: int): Db {
    var row := if c.id in db.conversations then Merged(db.conversations[c.id].value, c) else Stored(c);
    db.(conversations := db.conversations[c.id := Row(row, now)])
  }

  function WithPlaceholder(db: Db, m: Message, now: int): Db {
    if m.conversationId in db.conversations then db
    else
      db.(conversations := db.conversations[m.conversationId := Row(Placeholder(m.conversationId, m.platform), now)])
  }

  /** An insert runs one trigger, an update of the row the other. */
  function WithMessage(db: Db, m: Message, now: int): Db {
    var fts := if m.id in db.messages then FtsDelete(db.fts, m.id) else db.fts;
    db.(messages := db.messages[m.id := Row(m.(platform := Platform(m.platform)), now)],
        fts := fts + [FtsRow(m.id, Coalesced(m.body))])
  }

  function WithContact(db: Db, k: Contact, now: int): Db {
    db.(contacts := db.contacts[k.participantId := Row(k.(platform := Platform(k.platform)), now)])
  }

  /** Whether the store takes the write or answers that an id is missing. */
  predicate Accepted(w: Write) {
    match w
    case PutConversation(c) => c.id != ""
    case PutMessage(m) => m.id != "" && m.conversationId != ""
    case PutContact(k) => k.participantId != ""
    case Mark(_) => true
    case Touch => true
  }

  function Apply(db: Db, t: Timed): Db {
    if !Accepted(t.write) then db
    else
      match t.write
      case PutConversation(c) => WithConversation(db, c, t.now)
      case PutMessage(m) => WithMessage(WithPlaceholder(db, m, t.now), m, t.now)
      case PutContact(k) => WithContact(db, k, t.now)
      case Mark(e) =>
        db.(lastEvent := Max(db.lastEvent, e), lastConnect := Max(db.lastConnect, t.now), syncedAt := t.now)
      case Touch => db.(syncedAt := Max(db.syncedAt, t.now))
  }

  function ApplyAll(db: Db, ts: seq<Timed>): Db
    decreases |ts|
  {
    if ts == [] then db else ApplyAll(Apply(db, ts[0]), ts[1..])
  }

  function Empty(): Db {
    Db(map[], map[], map[], [], 0, 0, 0)
  }

  class Store {
    var conversations: map<string, Row<Conversation>>
    var messages: map<string, Row<Message>>
    var contacts: map<string, Row<Contact>>
    var fts: seq<FtsRow>
    var lastEvent: int
    var lastConnect: int
    var syncedAt: int

    function State(): Db
      reads this
    {
      Db(conversations, messages, contacts, fts, lastEvent, lastConnect, syncedAt)
    }

    constructor ()
      ensures State() == Empty()
    {
      conversations, messages, contacts, fts := map[], map[], map[], [];
      lastEvent, lastConnect, syncedAt := 0, 0, 0;
    }

    method UpsertConversation(c: Conversation, now: int) returns (ok: bool)
      modifies this
      ensures ok == Accepted(PutConversation(c)) && State() == Apply(old(State()), Timed(PutConversation(c), now))
    {
      if c.id == "" {
        return false;
      }
      var row := Stored(c);
      if c.id in conversations {
        row := row.(lastMessageTs := Max(conversations[c.id].value.lastMessageTs, c.lastMessageTs));
      }
      conversations := conversations[c.id := Row(row, now)];
      return true;
    }

    method UpsertMessage(m: Message, now: int) returns (ok: bool)
      modifies this
      ensures ok == Accepted(PutMessage(m)) && State() == Apply(old(State()), Timed(PutMessage(m), now))
    {
      if m.id == "" || m.conversationId == "" {
        return false;
      }
      var platform := Platform(m.platform);
      if m.conversationId !in conversations {
        conversations := conversations[m.conversationId := Row(Placeholder(m.conversationId, platform), now)];
      }
      var known := m.id in messages;
      messages := messages[m.id := Row(m.(platform := platform), now)];
      if known {
        fts := FtsDelete(fts, m.id);
      }
      fts := fts + [FtsRow(m.id, Coalesced(m.body))];
      return true;
    }

    method UpsertContact(k: Contact, now: int) returns (ok: bool)
      modifies this
      ensures ok == Accepted(PutContact(k)) && State() == Apply(old(State()), Timed(PutContact(k), now))
    {
      if k.participantId == "" {
        return false;
      }
      contacts := contacts[k.participantId := Row(k.(platform := Platform(k.platform)), now)];
      return true;
    }

    method MarkSync(eventTs: int, now: int)
      modifies this
      ensures State() == Apply(old(State()), Timed(Mark(eventTs), now))
    {
      lastEvent := Max(lastEvent, eventTs);
      lastConnect := Max(lastConnect, now);
      syncedAt := now;
    }

    method TouchSync(now: int)
      modifies this
      ensures State() == Apply(old(State()), Timed(Touch, now))
    {
      syncedAt := Max(syncedAt, now);
    }

    /** The hits that the join of the mirror with the messages gives are those that
        reading the messages alone would give, each once. */
    method Join(matches: string -> bool, f: Filter) returns (ids: seq<string>)
      requires Mirrored(State())
      ensures Distinct(ids) && (set id | id in ids) == Direct(State(), matches, f)
    {
      hide Distinct, Direct, Mirrored, Passes;
      ids := [];
      for i := 0 to |fts|
        invariant ids + Joined(State(), fts[i..], matches, f) == Joined(State(), fts, matches, f)
      {
        var r := fts[i];
        assert fts[i..][0] == r && fts[i..][1..] == fts[i + 1..];
        if matches(r.body) && r.id in messages && Passes(messages[r.id].value, f) {
          ids := ids + [r.id];
        }
      }
      assert ids + Joined(State(), [], matches, f) == ids && fts[|fts|..] == [];
      MirrorSearchIsDirect(State(), matches, f);
    }

    method NewestOf(ids: set<string>) returns (id: string)
      requires ids != {} && ids <= messages.Keys
      ensures id in ids && forall x :: x in ids ==> TimeOf(State(), x) <= TimeOf(State(), id)
    {
      id :| id in ids;
      var left := ids - {id};
      while left != {}
        invariant left <= ids && id in ids
        invariant forall x :: x in ids && x !in left ==> TimeOf(State(), x) <= TimeOf(State(), id)
        decreases left
      {
        var x :| x in left;
        left := left - {x};
        if TimeOf(State(), id) < TimeOf(State(), x) {
          id := x;
        }
      }
    }

    /** The newest of the messages that a direct filter finds, newest first, each once,
        and as many as the limit allows. */
    method SearchOnce(matches: string -> bool, f: Filter, limit: nat) returns (ids: seq<string>)
      requires Mirrored(State())
      ensures IsNewest(State(), Direct(State(), matches, f), limit, ids)
    {
      hide Mirrored, Passes, Joined, Distinct, TimeOf;
      var joined := Join(matches, f);
      var left := set id | id in joined;
      ids := [];
      ghost var all := left;
      NothingTaken(State(), all, limit);
      while |ids| < limit && left != {}
        invariant left <= all && |ids| <= limit
        invariant Taken(State(), all, left, ids)
        decreases left
      {
        var id := NewestOf(left);
        TakeNewest(State(), all, left, ids, id);
        ids := ids + [id];
        left := left - {id};
      }
    }
  }

  // ---- the mirror ----

  ghost predicate DistinctIds(fts: seq<FtsRow>) {
    forall i, j :: 0 <= i < j < |fts| ==> fts[i].id != fts[j].id
  }

  /** One mirror row for each message, and no other, with its present body. */
  ghost predicate Mirrored(db: Db) {
    && DistinctIds(db.fts)
    && (forall r :: r in db.fts ==> r.id in db.messages && r.body == Coalesced(db.messages[r.id].value.body))
    && (forall id :: id in db.messages ==> FtsRow(id, Coalesced(db.messages[id].value.body)) in db.fts)
  }

  /** Rows are filed under their own id, and every message has its conversation. */
  ghost predicate Filed(db: Db) {
    && (forall id :: id in db.messages ==> id != "" && db.messages[id].value.id == id)
    && (forall id :: id in db.messages ==> db.messages[id].value.conversationId in db.conversations)
    && (forall id :: id in db.conversations ==> id != "" && db.conversations[id].value.id == id)
  }

  ghost predicate Valid(db: Db) {
    Mirrored(db) && Filed(db) && db.lastEvent >= 0
  }

  lemma {:induction false} FtsDeleteKeepsTheRest(fts: seq<FtsRow>, id: string)
    requires DistinctIds(fts)
    ensures DistinctIds(FtsDelete(fts, id))
    ensures forall r :: r in FtsDelete(fts, id) <==> r in fts && r.id != id
  {
    if fts != [] {
      FtsDeleteKeepsTheRest(fts[1..], id);
      assert fts == [fts[0]] + fts[1..];
      forall r | r in fts[1..] ensures r.id != fts[0].id {
      }
    }
  }

  lemma WithMessageMirrors(db: Db, m: Message, now: int)
    requires Mirrored(db)
    ensures Mirrored(WithMessage(db, m, now))
  {
    hide FtsDelete, DistinctIds;
    FtsDeleteKeepsTheRest(db.fts, m.id);
    var t := WithMessage(db, m, now);
    var rest := if m.id in db.messages then FtsDelete(db.fts, m.id) else db.fts;
    var row := FtsRow(m.id, Coalesced(m.body));
    assert forall r :: r in rest ==> r.id != m.id && r in db.fts;
    DistinctSnoc(rest, row);
    forall r ensures r in t.fts <==> r in rest || r == row {
    }
    forall id | id in t.messages ensures FtsRow(id, Coalesced(t.messages[id].value.body)) in t.fts {
      if id != m.id {
        assert FtsRow(id, Coalesced(db.messages[id].value.body)) in rest;
      }
    }
  }

  lemma DistinctSnoc(fts: seq<FtsRow>, row: FtsRow)
    requires DistinctIds(fts) && forall r :: r in fts ==> r.id != row.id
    ensures DistinctIds(fts + [row])
  {
  }

  lemma MessageKeepsFiled(db: Db, m: Message, now: int)
    requires Filed(db) && Accepted(PutMessage(m))
    ensures Filed(WithMessage(WithPlaceholder(db, m, now), m, now))
  {
    hide FtsDelete;
  }

  lemma KeepsMirrored(db: Db, t: Timed)
    requires Mirrored(db)
    ensures Mirrored(Apply(db, t))
  {
    hide DistinctIds, FtsDelete, WithMessage;
    if t.write.PutMessage? && Accepted(t.write) {
      assert Mirrored(WithPlaceholder(db, t.write.m, t.now));
      WithMessageMirrors(WithPlaceholder(db, t.write.m, t.now), t.write.m, t.now);
    }
  }

  lemma KeepsFiled(db: Db, t: Timed)
    requires Filed(db) && db.lastEvent >= 0
    ensures Filed(Apply(db, t)) && Apply(db, t).lastEvent >= 0
  {
    hide DistinctIds, FtsDelete, Mirrored;
    if t.write.PutMessage? && Accepted(t.write) {
      MessageKeepsFiled(db, t.write.m, t.now);
    }
  }

  lemma KeepsValid(db: Db, t: Timed)
    requires Valid(db)
    ensures Valid(Apply(db, t))
  {
    hide Apply, Mirrored, Filed;
    KeepsMirrored(db, t);
    KeepsFiled(db, t);
  }

  /** After any sequence of writes, from a new archive or any valid one, the mirror
      has exactly one row per message, with its present body or the empty one, and
      every message has its conversation. */
  lemma {:induction false} ArchiveStaysValid(db: Db, ts: seq<Timed>)
    requires Valid(db)
    ensures Valid(ApplyAll(db, ts))
    decreases |ts|
  {
    hide Valid, Apply;
    if ts != [] {
      KeepsValid(db, ts[0]);
      ArchiveStaysValid(Apply(db, ts[0]), ts[1..]);
    }
  }

  // ---- searching through the mirror ----

  /** What narrows a search besides its text. */
  datatype Filter = Filter(conversationId: string, since: Option<int>, until: Option<int>)

  predicate Passes(m: Message, f: Filter) {
    && (f.conversationId != "" ==> m.conversationId == f.conversationId)
    && (f.since.Some? ==> f.since.value <= m.timestampMs)
    && (f.until.Some? ==> m.timestampMs <= f.until.value)
  }

  /** The rows that the join gives, in the mirror's order. */
  function Joined(db: Db, fts: seq<FtsRow>, matches: string -> bool, f: Filter): seq<string> {
    if fts == [] then []
    else
      var rest := Joined(db, fts[1..], matches, f);
      var r := fts[0];
      if matches(r.body) && r.id in db.messages && Passes(db.messages[r.id].value, f) then [r.id] + rest else rest
  }

  /** What a search without the mirror would give. */
  function Direct(db: Db, matches: string -> bool, f: Filter): set<string> {
    set id | id in db.messages && matches(Coalesced(db.messages[id].value.body)) && Passes(db.messages[id].value, f)
  }

  /** Which messages a search is after: those whose text matches, a missing body being the
      empty text, unless they are of another conversation than the one asked for, before
      the first moment, or after the last. */
  lemma DirectIff(db: Db, matches: string -> bool, f: Filter, id: string)
    ensures id in Direct(db, matches, f) <==>
      && id in db.messages
      && var m := db.messages[id].value;
         && !(f.conversationId != "" && f.conversationId != m.conversationId)
         && !(f.since.Some? && m.timestampMs < f.since.value) && !(f.until.Some? && f.until.value < m.timestampMs)
         && (m.body == None ==> matches("")) && (m.body.Some? ==> matches(m.body.value))
  {
  }

  ghost predicate Distinct(ids: seq<string>) {
    forall i, j :: 0 <= i < j < |ids| ==> ids[i] != ids[j]
  }

  function TimeOf(db: Db, id: string): int {
    if id in db.messages then db.messages[id].value.timestampMs else 0
  }

  /** The newest of some messages, newest first: none is left out but for the limit, and
      then none that is newer than one taken. */
  ghost predicate IsNewest(db: Db, all: set<string>, limit: nat, ids: seq<string>) {
    && Distinct(ids) && |ids| <= limit
    && (forall i :: 0 <= i < |ids| ==> ids[i] in all)
    && (forall i, j :: 0 <= i < j < |ids| ==> TimeOf(db, ids[i]) >= TimeOf(db, ids[j]))
    && (forall id :: id in all && id !in ids ==>
          |ids| == limit && forall i :: 0 <= i < |ids| ==> TimeOf(db, ids[i]) >= TimeOf(db, id))
  }

  /** Some have been taken, newest first, and the others are left. */
  ghost predicate Taken(db: Db, all: set<string>, left: set<string>, ids: seq<string>) {
    && Distinct(ids)
    && (forall id :: id in all <==> id in left || id in ids)
    && (forall i :: 0 <= i < |ids| ==> ids[i] !in left)
    && (forall i, j :: 0 <= i < j < |ids| ==> TimeOf(db, ids[i]) >= TimeOf(db, ids[j]))
    && (forall i, id :: 0 <= i < |ids| && id in left ==> TimeOf(db, ids[i]) >= TimeOf(db, id))
  }

  lemma NothingTaken(db: Db, all: set<string>, limit: nat)
    ensures Taken(db, all, all, [])
  {
  }

  lemma TakeNewest(db: Db, all: set<string>, left: set<string>, ids: seq<string>, id: string)
    requires Taken(db, all, left, ids) && id in left
    requires forall x :: x in left ==> TimeOf(db, x) <= TimeOf(db, id)
    ensures Taken(db, all, left - {id}, ids + [id])
  {
    hide TimeOf;
  }

  lemma {:induction false} JoinedAre(db: Db, fts: seq<FtsRow>, matches: string -> bool, f: Filter)
    requires DistinctIds(fts)
    ensures Distinct(Joined(db, fts, matches, f))
    ensures forall id :: id in Joined(db, fts, matches, f) <==>
      id in db.messages && Passes(db.messages[id].value, f) && exists r :: r in fts && r.id == id && matches(r.body)
  {
    if fts != [] {
      JoinedAre(db, fts[1..], matches, f);
      assert fts == [fts[0]] + fts[1..];
      forall id | id in db.messages && Passes(db.messages[id].value, f)
        ensures (exists r :: r in fts && r.id == id && matches(r.body)) <==>
                (fts[0].id == id && matches(fts[0].body)) || exists r :: r in fts[1..] && r.id == id && matches(r.body)
      {
      }
    }
  }

  /** Searching through the mirror is filtering the messages themselves: no hit is
      missing, stale or doubled. */
  lemma MirrorSearchIsDirect(db: Db, matches: string -> bool, f: Filter)
    requires Mirrored(db)
    ensures Distinct(Joined(db, db.fts, matches, f))
    ensures (set id | id in Joined(db, db.fts, matches, f)) == Direct(db, matches, f)
  {
    hide Joined;
    JoinedAre(db, db.fts, matches, f);
    forall id | id in Direct(db, matches, f) ensures id in Joined(db, db.fts, matches, f) {
      assert FtsRow(id, Coalesced(db.messages[id].value.body)) in db.fts;
    }
  }

  // ---- what a run of writes leaves in each row ----

  function ConversationOf(db: Db, id: string): Option<Conversation> {
    if id in db.conversations then Some(db.conversations[id].value) else None
  }

  function MessageOf(db: Db, id: string): Option<Message> {
    if id in db.messages then Some(db.messages[id].value) else None
  }

  function ContactOf(db: Db, id: string): Option<Contact> {
    if id in db.contacts then Some(db.contacts[id].value) else None
  }

  function Untimed(ts: seq<Timed>): seq<Write> {
    if ts == [] then [] else [ts[0].write] + Untimed(ts[1..])
  }

  function LastConversation(ws: seq<Write>, id: string): Option<Conversation> {
    if ws == [] then None
    else
      var later := LastConversation(ws[1..], id);
      if later.None? && Accepted(ws[0]) && ws[0].PutConversation? && ws[0].c.id == id then Some(ws[0].c) else later
  }

  function LastMessage(ws: seq<Write>, id: string): Option<Message> {
    if ws == [] then None
    else
      var later := LastMessage(ws[1..], id);
      if later.None? && Accepted(ws[0]) && ws[0].PutMessage? && ws[0].m.id == id then
        Some(ws[0].m.(platform := Platform(ws[0].m.platform)))
      else later
  }

  function LastContact(ws: seq<Write>, id: string): Option<Contact> {
    if ws == [] then None
    else
      var later := LastContact(ws[1..], id);
      if later.None? && Accepted(ws[0]) && ws[0].PutContact? && ws[0].k.participantId == id then
        Some(ws[0].k.(platform := Platform(ws[0].k.platform)))
      else later
  }

  function Latest(ws: seq<Write>, id: string, t: int): int
    decreases |ws|
  {
    if ws == [] then t
    else Latest(ws[1..], id, if ws[0].PutConversation? && ws[0].c.id == id then Max(t, ws[0].c.lastMessageTs) else t)
  }

  function LatestEvent(ws: seq<Write>, t: int): int
    decreases |ws|
  {
    if ws == [] then t else LatestEvent(ws[1..], if ws[0].Mark? then Max(t, ws[0].eventTs) else t)
  }

  lemma RowStep(db: Db, t: Timed, id: string)
    ensures var w := t.write;
      && MessageOf(Apply(db, t), id) ==
           (if Accepted(w) && w.PutMessage? && w.m.id == id then Some(w.m.(platform := Platform(w.m.platform)))
            else MessageOf(db, id))
      && ContactOf(Apply(db, t), id) ==
           (if Accepted(w) && w.PutContact? && w.k.participantId == id then Some(w.k.(platform := Platform(w.k.platform)))
            else ContactOf(db, id))
  {
    hide FtsDelete;
  }

  lemma {:induction false} LastMessageWins(db: Db, ts: seq<Timed>, id: string)
    ensures var last := LastMessage(Untimed(ts), id);
      MessageOf(ApplyAll(db, ts), id) == if last.Some? then last else MessageOf(db, id)
    decreases |ts|
  {
    hide Apply, MessageOf;
    if ts != [] {
      RowStep(db, ts[0], id);
      LastMessageWins(Apply(db, ts[0]), ts[1..], id);
      assert Untimed(ts)[1..] == Untimed(ts[1..]);
    }
  }

  lemma {:induction false} LastContactWins(db: Db, ts: seq<Timed>, id: string)
    ensures var last := LastContact(Untimed(ts), id);
      ContactOf(ApplyAll(db, ts), id) == if last.Some? then last else ContactOf(db, id)
    decreases |ts|
  {
    hide Apply, ContactOf;
    if ts != [] {
      RowStep(db, ts[0], id);
      LastContactWins(Apply(db, ts[0]), ts[1..], id);
      assert Untimed(ts)[1..] == Untimed(ts[1..]);
    }
  }

  lemma ConversationStep(db: Db, t: Timed, id: string)
    requires id in db.conversations
    ensures id in Apply(db, t).conversations
    ensures var row, w := db.conversations[id].value, t.write;
      Apply(db, t).conversations[id].value ==
        if Accepted(w) && w.PutConversation? && w.c.id == id then Merged(row, w.c) else row
  {
    hide FtsDelete;
  }

  /** A conversation row that is there stays, with the last name and flags written to
      it, and the latest time. */
  lemma {:induction false} LastConversationWins(db: Db, ts: seq<Timed>, id: string)
    requires id in db.conversations && id != ""
    ensures id in ApplyAll(db, ts).conversations
    ensures var last, end := LastConversation(Untimed(ts), id), ApplyAll(db, ts).conversations[id].value;
      && end == (if last.Some? then Stored(last.value) else db.conversations[id].value)
                  .(lastMessageTs := end.lastMessageTs)
      && end.lastMessageTs == Latest(Untimed(ts), id, db.conversations[id].value.lastMessageTs)
    decreases |ts|
  {
    hide Apply, Max;
    if ts != [] {
      ConversationStep(db, ts[0], id);
      LastConversationWins(Apply(db, ts[0]), ts[1..], id);
      assert Untimed(ts)[1..] == Untimed(ts[1..]);
    }
  }

  lemma {:induction false} LatestSettles(ws: seq<Write>, id: string, t: int, u: int)
    ensures Latest(ws, id, t) >= t
    ensures u >= Latest(ws, id, t) ==> Latest(ws, id, u) == u
    decreases |ws|
  {
    if ws != [] {
      var t' := if ws[0].PutConversation? && ws[0].c.id == id then Max(t, ws[0].c.lastMessageTs) else t;
      LatestSettles(ws[1..], id, t', u);
    }
  }

  lemma {:induction false} LatestEventSettles(ws: seq<Write>, t: int, u: int)
    ensures LatestEvent(ws, t) >= t
    ensures u >= LatestEvent(ws, t) ==> LatestEvent(ws, u) == u
    decreases |ws|
  {
    if ws != [] {
      LatestEventSettles(ws[1..], if ws[0].Mark? then Max(t, ws[0].eventTs) else t, u);
    }
  }

  /** The latest time is the earlier one or one that was written, and none is later. */
  lemma {:induction false} LatestIsGreatest(ws: seq<Write>, id: string, t: int)
    ensures var last := Latest(ws, id, t);
      && t <= last && (forall w :: w in ws && w.PutConversation? && w.c.id == id ==> w.c.lastMessageTs <= last)
      && (last == t || exists w :: w in ws && w.PutConversation? && w.c.id == id && w.c.lastMessageTs == last)
    decreases |ws|
  {
    if ws != [] {
      LatestIsGreatest(ws[1..], id, if ws[0].PutConversation? && ws[0].c.id == id then Max(t, ws[0].c.lastMessageTs) else t);
      assert ws == [ws[0]] + ws[1..];
      assert ws[0] in ws && forall w :: w in ws[1..] ==> w in ws;
    }
  }

  /** The same for the times of events. */
  lemma {:induction false} LatestEventIsGreatest(ws: seq<Write>, t: int)
    ensures var last := LatestEvent(ws, t);
      && t <= last && (forall w :: w in ws && w.Mark? ==> w.eventTs <= last)
      && (last == t || exists w :: w in ws && w.Mark? && w.eventTs == last)
    decreases |ws|
  {
    if ws != [] {
      LatestEventIsGreatest(ws[1..], if ws[0].Mark? then Max(t, ws[0].eventTs) else t);
      assert ws == [ws[0]] + ws[1..];
      assert ws[0] in ws && forall w :: w in ws[1..] ==> w in ws;
    }
  }

  lemma {:induction false} EventTimeIsLatest(db: Db, ts: seq<Timed>)
    ensures ApplyAll(db, ts).lastEvent == LatestEvent(Untimed(ts), db.lastEvent)
    decreases |ts|
  {
    hide FtsDelete, Max;
    if ts != [] {
      EventTimeIsLatest(Apply(db, ts[0]), ts[1..]);
      assert Untimed(ts)[1..] == Untimed(ts[1..]);
    }
  }

  /** A run of writes leaves a conversation row that the same run would not change. */
  lemma {:induction false} ConversationSettles(db: Db, ts: seq<Timed>, id: string)
    requires id != "" && id in ApplyAll(db, ts).conversations
    ensures var last, row := LastConversation(Untimed(ts), id), ApplyAll(db, ts).conversations[id].value;
      && (last.Some? ==> row == Stored(last.value).(lastMessageTs := row.lastMessageTs))
      && Latest(Untimed(ts), id, row.lastMessageTs) == row.lastMessageTs
    decreases |ts|
  {
    hide Apply, Max, ApplyAll;
    if ts == [] {
    } else if id in db.conversations {
      LastConversationWins(db, ts, id);
      LatestSettles(Untimed(ts), id, db.conversations[id].value.lastMessageTs,
        ApplyAll(db, ts).conversations[id].value.lastMessageTs);
    } else {
      var w, db' := ts[0].write, Apply(db, ts[0]);
      ApplyAllFirst(db, ts);
      assert Untimed(ts)[1..] == Untimed(ts[1..]);
      ConversationSettles(db', ts[1..], id);
      NewConversation(db, ts[0], id);
      if id in db'.conversations {
        var row := ApplyAll(db, ts).conversations[id].value;
        LastConversationWins(db', ts[1..], id);
        LatestSettles(Untimed(ts[1..]), id, db'.conversations[id].value.lastMessageTs, row.lastMessageTs);
        MaxIsLast(row.lastMessageTs, db'.conversations[id].value.lastMessageTs);
      }
    }
  }

  lemma MaxIsLast(a: int, b: int)
    ensures a >= b ==> Max(a, b) == a
  {
  }

  lemma ApplyAllFirst(db: Db, ts: seq<Timed>)
    requires ts != []
    ensures ApplyAll(db, ts) == ApplyAll(Apply(db, ts[0]), ts[1..])
  {
  }

  lemma NewConversation(db: Db, t: Timed, id: string)
    requires id !in db.conversations && id != ""
    ensures var w := t.write;
      if w.PutConversation? && w.c.id == id then
        id in Apply(db, t).conversations && Apply(db, t).conversations[id].value == Stored(w.c)
      else
        id in Apply(db, t).conversations ==> w.PutMessage? && w.m.conversationId == id
  {
    hide FtsDelete;
  }

  /** Equal in every column that is not a clock reading. */
  ghost predicate SameRows(a: Db, b: Db) {
    && (forall id :: ConversationOf(a, id) == ConversationOf(b, id))
    && (forall id :: MessageOf(a, id) == MessageOf(b, id))
    && (forall id :: ContactOf(a, id) == ContactOf(b, id))
    && (forall r :: r in a.fts <==> r in b.fts)
    && a.lastEvent == b.lastEvent
  }

  lemma {:induction false} ConversationsStay(db: Db, ts: seq<Timed>, id: string)
    requires id in db.conversations
    ensures id in ApplyAll(db, ts).conversations
    decreases |ts|
  {
    hide Apply;
    if ts != [] {
      ConversationStep(db, ts[0], id);
      ConversationsStay(Apply(db, ts[0]), ts[1..], id);
    }
  }

  /** A conversation that a run does not make, it does not make the second time. */
  lemma {:induction false} AbsentConversation(db: Db, e: Db, ts: seq<Timed>, again: seq<Timed>, id: string)
    requires id !in ApplyAll(db, ts).conversations && id !in e.conversations && id != ""
    requires Untimed(again) == Untimed(ts)
    ensures id !in ApplyAll(e, again).conversations
    decreases |ts|
  {
    hide Apply;
    if ts != [] {
      if id in db.conversations {
        ConversationsStay(db, ts, id);
      } else {
        if id in Apply(db, ts[0]).conversations {
          ConversationsStay(Apply(db, ts[0]), ts[1..], id);
        }
        assert again != [] && Untimed(again)[0] == again[0].write && Untimed(ts)[0] == ts[0].write;
        MakesConversationIff(db, e, ts[0], again[0], id);
        assert Untimed(ts)[1..] == Untimed(ts[1..]) && Untimed(again)[1..] == Untimed(again[1..]);
        AbsentConversation(Apply(db, ts[0]), Apply(e, again[0]), ts[1..], again[1..], id);
      }
    }
  }

  lemma MakesConversationIff(db: Db, e: Db, t: Timed, u: Timed, id: string)
    requires id !in db.conversations && id !in e.conversations && t.write == u.write
    ensures id in Apply(db, t).conversations <==> id in Apply(e, u).conversations
  {
    hide FtsDelete;
  }

  lemma ReplayedConversation(db: Db, ts: seq<Timed>, again: seq<Timed>, id: string)
    requires Untimed(again) == Untimed(ts) && id != ""
    ensures ConversationOf(ApplyAll(ApplyAll(db, ts), again), id) == ConversationOf(ApplyAll(db, ts), id)
  {
    hide ApplyAll, Untimed;
    var e := ApplyAll(db, ts);
    if id in e.conversations {
      ConversationSettles(db, ts, id);
      LastConversationWins(e, again, id);
    } else {
      AbsentConversation(db, e, ts, again, id);
    }
  }

  /** Writing the same things a second time, whenever that is, leaves every row, the
      mirror and the time of the last event as they were. */
  lemma ReplayChangesNothing(db: Db, ts: seq<Timed>, again: seq<Timed>)
    requires Valid(db) && Untimed(again) == Untimed(ts)
    ensures SameRows(ApplyAll(ApplyAll(db, ts), again), ApplyAll(db, ts))
  {
    hide ApplyAll, Untimed, FtsDelete, DistinctIds;
    var e := ApplyAll(db, ts);
    var f := ApplyAll(e, again);
    ArchiveStaysValid(db, ts);
    ArchiveStaysValid(e, again);
    forall id ensures ConversationOf(f, id) == ConversationOf(e, id) {
      if id != "" {
        ReplayedConversation(db, ts, again, id);
      }
    }
    forall id ensures MessageOf(f, id) == MessageOf(e, id) && ContactOf(f, id) == ContactOf(e, id) {
      LastMessageWins(db, ts, id);
      LastMessageWins(e, again, id);
      LastContactWins(db, ts, id);
      LastContactWins(e, again, id);
    }
    SameMessagesSameMirror(e, f);
    EventTimeIsLatest(db, ts);
    EventTimeIsLatest(e, again);
    LatestEventSettles(Untimed(ts), db.lastEvent, e.lastEvent);
  }

  lemma SameMessagesSameMirror(a: Db, b: Db)
    requires Mirrored(a) && Mirrored(b)
    requires forall id :: MessageOf(a, id) == MessageOf(b, id)
    ensures forall r :: r in a.fts <==> r in b.fts
  {
    forall r | r in a.fts ensures r in b.fts {
      assert MessageOf(a, r.id) == MessageOf(b, r.id);
    }
    forall r | r in b.fts ensures r in a.fts {
      assert MessageOf(a, r.id) == MessageOf(b, r.id);
    }
  }

  /** The connection time is a clock reading, so a replay does move it, exactly when
      the replay marks a sync at a later time than any before. */
  lemma {:induction false} ConnectTimeMovesIff(db: Db, ts: seq<Timed>)
    ensures ApplyAll(db, ts).lastConnect >= db.lastConnect
    ensures ApplyAll(db, ts).lastConnect == db.lastConnect <==>
      forall t :: t in ts && t.write.Mark? ==> t.now <= db.lastConnect
    decreases |ts|
  {
    hide FtsDelete;
    if ts != [] {
      ConnectTimeMovesIff(Apply(db, ts[0]), ts[1..]);
      assert ts == [ts[0]] + ts[1..];
    }
  }

  // ---- the clock readings and the conversations that messages make ----

  /** The write is one to the message, the contact or the conversation of this id. */
  datatype Table = Conversations | Messages | Contacts

  predicate Touches(w: Write, table: Table, id: string) {
    Accepted(w) &&
    match table
    case Conversations => w.PutConversation? && w.c.id == id
    case Messages => w.PutMessage? && w.m.id == id
    case Contacts => w.PutContact? && w.k.participantId == id
  }

  function UpdatedAt(db: Db, table: Table, id: string): Option<int> {
    match table
    case Conversations => if id in db.conversations then Some(db.conversations[id].updatedAt) else None
    case Messages => if id in db.messages then Some(db.messages[id].updatedAt) else None
    case Contacts => if id in db.contacts then Some(db.contacts[id].updatedAt) else None
  }

  lemma DateStep(db: Db, t: Timed, table: Table, id: string)
    ensures Touches(t.write, table, id) ==> UpdatedAt(Apply(db, t), table, id) == Some(t.now)
    ensures !Touches(t.write, table, id) && UpdatedAt(db, table, id).Some? ==>
      UpdatedAt(Apply(db, t), table, id) == UpdatedAt(db, table, id)
  {
    hide FtsDelete;
  }

  lemma {:induction false} DateStays(db: Db, ts: seq<Timed>, table: Table, id: string)
    requires UpdatedAt(db, table, id).Some? && forall k :: 0 <= k < |ts| ==> !Touches(ts[k].write, table, id)
    ensures UpdatedAt(ApplyAll(db, ts), table, id) == UpdatedAt(db, table, id)
    decreases |ts|
  {
    hide Apply, UpdatedAt, Touches;
    if ts != [] {
      assert !Touches(ts[0].write, table, id);
      DateStep(db, ts[0], table, id);
      forall k | 0 <= k < |ts[1..]| ensures !Touches(ts[1..][k].write, table, id) {
        assert ts[1..][k] == ts[k + 1];
      }
      DateStays(Apply(db, ts[0]), ts[1..], table, id);
    }
  }

  /** After any writes a row is dated by the last one made to it. */
  lemma {:induction false} RowsAreDated(db: Db, ts: seq<Timed>, j: nat, table: Table, id: string)
    requires j < |ts| && Touches(ts[j].write, table, id)
    requires forall k :: j < k < |ts| ==> !Touches(ts[k].write, table, id)
    ensures UpdatedAt(ApplyAll(db, ts), table, id) == Some(ts[j].now)
    decreases |ts|
  {
    hide Apply, UpdatedAt, Touches;
    DateStep(db, ts[0], table, id);
    forall k | 0 <= k < |ts[1..]| ensures ts[1..][k] == ts[k + 1] {
    }
    if j == 0 {
      DateStays(Apply(db, ts[0]), ts[1..], table, id);
    } else {
      RowsAreDated(Apply(db, ts[0]), ts[1..], j - 1, table, id);
    }
  }

  predicate IsFilled(stored: string, given: string, default_: string) {
    if given == "" then stored == default_ else stored == given
  }

  /** The write has the ids that its table asks for. */
  predicate HasItsIds(w: Write) {
    && (w.PutConversation? ==> w.c.id != "") && (w.PutContact? ==> w.k.participantId != "")
    && (w.PutMessage? ==> w.m.id != "" && w.m.conversationId != "")
  }

  /** A write without its ids is refused and changes nothing; any other is taken. A row holds
      what was written, with gm for a missing platform and an empty list for missing
      participants; a conversation's time is the later of the one before and the new one. */
  lemma RowsHoldWhatIsWritten(db: Db, w: Write, now: int)
    ensures Accepted(w) <==> HasItsIds(w)
    ensures !HasItsIds(w) ==> Apply(db, Timed(w, now)) == db
    ensures HasItsIds(w) ==>
      var t := Apply(db, Timed(w, now));
      match w
      case PutConversation(c) =>
        && c.id in t.conversations
        && var r := t.conversations[c.id].value;
           && IsFilled(r.platform, c.platform, "gm") && IsFilled(r.participants, c.participants, "[]")
           && r == c.(platform := r.platform, participants := r.participants, lastMessageTs := r.lastMessageTs)
           && (c.id !in db.conversations ==> r.lastMessageTs == c.lastMessageTs)
           && (c.id in db.conversations ==>
                 var before := db.conversations[c.id].value.lastMessageTs;
                 r.lastMessageTs in {before, c.lastMessageTs} && r.lastMessageTs >= before && r.lastMessageTs >= c.lastMessageTs)
      case PutMessage(m) =>
        && m.id in t.messages && IsFilled(t.messages[m.id].value.platform, m.platform, "gm")
        && t.messages[m.id].value == m.(platform := t.messages[m.id].value.platform)
      case PutContact(k) =>
        && k.participantId in t.contacts && IsFilled(t.contacts[k.participantId].value.platform, k.platform, "gm")
        && t.contacts[k.participantId].value == k.(platform := t.contacts[k.participantId].value.platform)
      case Mark(e) => t.lastEvent in {db.lastEvent, e} && t.lastEvent >= e && t.lastConnect >= now && t.syncedAt == now
      case Touch => t.syncedAt >= now && t.syncedAt in {db.syncedAt, now}
  {
    hide FtsDelete;
  }

  /** A message of a conversation that is not there makes a row for it with nothing but its
      id; one that is there it leaves alone. */
  lemma MessageMakesItsChat(db: Db, m: Message, now: int)
    requires Accepted(PutMessage(m))
    ensures var t := Apply(db, Timed(PutMessage(m), now));
      && m.conversationId in t.conversations
      && (forall id :: id in db.conversations ==> id in t.conversations && t.conversations[id] == db.conversations[id])
      && (m.conversationId !in db.conversations ==>
            var c := t.conversations[m.conversationId].value;
            && c.id == m.conversationId && c.name == "" && c.participants == "[]" && c.lastMessageTs == 0
            && !c.isGroup && !c.unread && !c.pinned && !c.archived && c.platform == (if m.platform == "" then "gm" else m.platform))
  {
    hide FtsDelete;
  }
}
