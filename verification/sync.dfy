/** The pump of internal/sync/sync.go, which turns the phone's events into archive
    writes. A nil pointer in a list is None; a clock is read once for each event. */
module Sync {
  import opened Common
  import opened Archive

  datatype Info = Text(content: string) | Attachment(media: Media) | Other

  datatype ProtoMessage = ProtoMessage(
    id: string, conversationId: string, participantId: string, timestamp: int, status: int, outgoing: bool,
    infos: seq<Info>, reactions: Option<string>, replyId: string)

  datatype WrappedMessage = WrappedMessage(message: Option<ProtoMessage>, isOld: bool, data: string)

  datatype Participant = Participant(
    id: string, contactId: string, fullName: string, firstName: string, number: string, formattedNumber: string,
    avatarColor: string, isMe: bool)

  datatype ProtoConversation = ProtoConversation(
    id: string, name: string, isGroup: bool, participants: seq<Option<Participant>>, participantsJson: string,
    lastMessageTs: int, unread: bool, pinned: bool)

  datatype ProtoContact = ProtoContact(
    participantId: string, contactId: string, name: string, number: string, number2: string,
    formattedNumber: string, avatarColor: string)

  datatype Fatal = LoggedOut | ListenFailed

  datatype Event =
    | ClientReady(conversations: seq<Option<ProtoConversation>>)
    | AuthTokenRefreshed
    | ConversationChanged(c: ProtoConversation)
    | MessageArrived(w: WrappedMessage)
    | FatalError(error: Fatal)
    | Unstored

  const PLATFORM := "gm"

  /** The Unix milliseconds of Go's zero time. */
  const ZERO_TIME := -62135596800000

  // ---- conversions ----

  /** Times come in milliseconds or microseconds. */
  function NormalizeTimestampMs(ts: int): int {
    if ts > 100_000_000_000_000 then ts / 1000 else ts
  }

  /** From March 1973 until the year 5138 the two units are told apart. */
  lemma UnitsAreToldApart(ms: int, micros: int)
    requires 100_000_000_000 < ms <= 100_000_000_000_000 && 0 <= micros < 1000
    ensures NormalizeTimestampMs(ms) == ms && NormalizeTimestampMs(1000 * ms + micros) == ms
  {
  }

  function Texts(infos: seq<Info>): seq<string> {
    if infos == [] then []
    else if infos[0].Text? && infos[0].content != "" then [infos[0].content] + Texts(infos[1..])
    else Texts(infos[1..])
  }

  function JoinLines(parts: seq<string>): string {
    if parts == [] then "" else if |parts| == 1 then parts[0] else parts[0] + "\n" + JoinLines(parts[1..])
  }

  function PrimaryMedia(infos: seq<Info>): Option<Media> {
    if infos == [] then None else if infos[0].Attachment? then Some(infos[0].media) else PrimaryMedia(infos[1..])
  }

  function NonEmpty(s: string): Option<string> {
    if s == "" then None else Some(s)
  }

  function FirstNonEmpty(a: string, b: string): string {
    if a != "" then a else b
  }

  function MessageRow(w: WrappedMessage): Option<Message> {
    if w.message.None? || w.message.value.id == "" then None
    else
      var m := w.message.value;
      Some(Message(
        m.id, m.conversationId, PLATFORM, m.participantId, NonEmpty(JoinLines(Texts(m.infos))),
        NormalizeTimestampMs(m.timestamp), m.status, m.outgoing, PrimaryMedia(m.infos), m.reactions,
        NonEmpty(m.replyId), w.data))
  }

  /** A message is stored without a body exactly when none of its parts has text. */
  lemma {:induction false} BodyIff(infos: seq<Info>)
    ensures NonEmpty(JoinLines(Texts(infos))).Some? <==> exists i :: 0 <= i < |infos| && infos[i].Text? && infos[i].content != ""
    decreases |infos|
  {
    if infos != [] {
      BodyIff(infos[1..]);
      if infos[0].Text? && infos[0].content != "" {
        assert JoinLines(Texts(infos)) != "";
      } else if exists i :: 0 <= i < |infos| && infos[i].Text? && infos[i].content != "" {
        var i :| 0 <= i < |infos| && infos[i].Text? && infos[i].content != "";
        assert infos[1..][i - 1] == infos[i];
      }
    }
  }

  function ConversationRow(c: ProtoConversation): Option<Conversation> {
    if c.id == "" then None
    else
      Some(Conversation(
        c.id, PLATFORM, c.name, c.isGroup, c.participantsJson, NormalizeTimestampMs(c.lastMessageTs),
        c.unread, c.pinned, false))
  }

  function ParticipantRow(p: Participant): Contact {
    Contact(
      p.id, PLATFORM, p.contactId, FirstNonEmpty(p.fullName, p.firstName), p.number, p.formattedNumber,
      p.avatarColor, p.isMe)
  }

  function ContactRow(c: ProtoContact): Contact {
    Contact(
      c.participantId, PLATFORM, c.contactId, c.name, FirstNonEmpty(c.number, c.number2), c.formattedNumber,
      c.avatarColor, false)
  }

  // ---- what a message's row says ----

  /** Milliseconds as they are, microseconds cut to milliseconds. */
  predicate IsTime(ms: int, ts: int) {
    if ts <= 100_000_000_000_000 then ms == ts else 1000 * ms <= ts < 1000 * ms + 1000
  }

  /** The non-empty texts of a message, in order. */
  function Contents(infos: seq<Info>): seq<string> {
    if infos == [] then []
    else
      var last := infos[|infos| - 1];
      Contents(infos[..|infos| - 1]) + if last.Text? && last.content != "" then [last.content] else []
  }

  function Spelled(lines: seq<string>): string
    requires lines != []
  {
    var n := |lines| - 1;
    if n == 0 then lines[0] else Spelled(lines[..n]) + "\n" + lines[n]
  }

  predicate IsBody(body: Option<string>, infos: seq<Info>) {
    if Contents(infos) == [] then body == None else body == Some(Spelled(Contents(infos)))
  }

  /** The first attachment, if there is any. */
  predicate IsMedia(media: Option<Media>, infos: seq<Info>) {
    if media.None? then forall i :: 0 <= i < |infos| ==> !infos[i].Attachment?
    else exists i :: 0 <= i < |infos| && infos[i] == Attachment(media.value) && forall k :: 0 <= k < i ==> !infos[k].Attachment?
  }

  predicate SaysMessage(r: Message, w: WrappedMessage) {
    && w.message.Some?
    && var m := w.message.value;
       && r.id == m.id && r.conversationId == m.conversationId && r.platform == "gm"
       && r.senderId == m.participantId && r.status == m.status && r.isFromMe == m.outgoing
       && IsTime(r.timestampMs, m.timestamp) && IsBody(r.body, m.infos) && IsMedia(r.media, m.infos)
       && r.reactions == m.reactions && (if m.replyId == "" then r.replyToId == None else r.replyToId == Some(m.replyId))
       && r.raw == w.data
  }

  lemma {:induction false} TextsAppend(a: seq<Info>, b: seq<Info>)
    ensures Texts(a + b) == Texts(a) + Texts(b)
  {
    if a == [] {
      assert a + b == b;
    } else {
      assert (a + b)[1..] == a[1..] + b;
      TextsAppend(a[1..], b);
    }
  }

  lemma {:induction false} ContentsAreTexts(infos: seq<Info>)
    ensures Contents(infos) == Texts(infos)
  {
    if infos != [] {
      var n := |infos| - 1;
      ContentsAreTexts(infos[..n]);
      assert infos == infos[..n] + [infos[n]];
      TextsAppend(infos[..n], [infos[n]]);
      assert [infos[n]][1..] == [];
    }
  }

  lemma {:induction false} JoinedLast(parts: seq<string>, last: string)
    requires parts != []
    ensures JoinLines(parts + [last]) == JoinLines(parts) + "\n" + last
  {
    var all := parts + [last];
    if |parts| > 1 {
      assert all[1..] == parts[1..] + [last];
      JoinedLast(parts[1..], last);
      assert parts[0] + "\n" + (JoinLines(parts[1..]) + "\n" + last) == parts[0] + "\n" + JoinLines(parts[1..]) + "\n" + last;
    } else {
      assert all[1..] == [last];
    }
  }

  lemma {:induction false} SpelledIsJoined(parts: seq<string>)
    requires parts != []
    ensures Spelled(parts) == JoinLines(parts)
    decreases |parts|
  {
    var n := |parts| - 1;
    if n > 0 {
      SpelledIsJoined(parts[..n]);
      JoinedLast(parts[..n], parts[n]);
      assert parts == parts[..n] + [parts[n]];
    }
  }

  lemma {:induction false} TextsAreNotEmpty(infos: seq<Info>)
    ensures forall t :: t in Texts(infos) ==> t != ""
  {
    if infos != [] {
      TextsAreNotEmpty(infos[1..]);
    }
  }

  lemma BodyIsBody(infos: seq<Info>)
    ensures IsBody(NonEmpty(JoinLines(Texts(infos))), infos)
  {
    ContentsAreTexts(infos);
    TextsAreNotEmpty(infos);
    var parts := Texts(infos);
    if parts != [] {
      SpelledIsJoined(parts);
      assert parts[0] in parts && |JoinLines(parts)| >= |parts[0]|;
    }
  }

  lemma {:induction false} MediaIsMedia(infos: seq<Info>)
    ensures IsMedia(PrimaryMedia(infos), infos)
  {
    if infos != [] {
      MediaIsMedia(infos[1..]);
      if !infos[0].Attachment? && PrimaryMedia(infos).Some? {
        var x := PrimaryMedia(infos).value;
        var i :| 0 <= i < |infos[1..]| && infos[1..][i] == Attachment(x) && forall k :: 0 <= k < i ==> !infos[1..][k].Attachment?;
        assert infos[i + 1] == Attachment(x);
        assert forall k :: 0 < k < i + 1 ==> infos[k] == infos[1..][k - 1];
      }
    }
  }

  lemma TimeIsTime(ts: int)
    ensures IsTime(NormalizeTimestampMs(ts), ts)
  {
  }

  lemma RowSays(w: WrappedMessage)
    ensures MessageRow(w).Some? ==> SaysMessage(MessageRow(w).value, w)
  {
    hide IsBody, IsMedia, IsTime, NormalizeTimestampMs, JoinLines, PrimaryMedia, Texts;
    if w.message.Some? {
      BodyIsBody(w.message.value.infos);
      MediaIsMedia(w.message.value.infos);
      TimeIsTime(w.message.value.timestamp);
    }
  }

  // ---- the writes an event stands for ----

  function ParticipantWrites(ps: seq<Option<Participant>>): seq<Write> {
    if ps == [] then []
    else
      (if ps[0].Some? && ps[0].value.id != "" then [PutContact(ParticipantRow(ps[0].value))] else [])
      + ParticipantWrites(ps[1..])
  }

  function ConversationWrites(c: ProtoConversation): seq<Write> {
    var row := ConversationRow(c);
    if row.None? then [] else [PutConversation(row.value)] + ParticipantWrites(c.participants)
  }

  function SnapshotWrites(cs: seq<Option<ProtoConversation>>): seq<Write> {
    if cs == [] then []
    else (if cs[0].Some? then ConversationWrites(cs[0].value) else []) + SnapshotWrites(cs[1..])
  }

  /** A live message that the store takes also marks the sync. */
  function MessageWrites(w: WrappedMessage): seq<Write> {
    var row := MessageRow(w);
    if row.None? then []
    else if w.isOld || !Accepted(PutMessage(row.value)) then [PutMessage(row.value)]
    else [PutMessage(row.value), Mark(row.value.timestampMs)]
  }

  function EventWrites(e: Event): seq<Write> {
    match e
    case ClientReady(cs) => SnapshotWrites(cs) + [Mark(ZERO_TIME)]
    case AuthTokenRefreshed => [Mark(ZERO_TIME)]
    case ConversationChanged(c) => ConversationWrites(c)
    case MessageArrived(w) => MessageWrites(w)
    case FatalError(_) => []
    case Unstored => []
  }

  function HistoryWrites(ms: seq<Option<ProtoMessage>>): seq<Write> {
    if ms == [] then [] else MessageWrites(WrappedMessage(ms[0], true, "")) + HistoryWrites(ms[1..])
  }

  function Listed(m: Option<ProtoMessage>): bool {
    m.Some? && m.value.id != ""
  }

  function CountListed(ms: seq<Option<ProtoMessage>>): (n: nat)
    ensures n <= |ms|
  {
    if ms == [] then 0 else (if Listed(ms[0]) then 1 else 0) + CountListed(ms[1..])
  }

  function AddressBookWrites(cs: seq<Option<ProtoContact>>): seq<Write> {
    if cs == [] then []
    else
      (if cs[0].Some? && cs[0].value.participantId != "" then [PutContact(ContactRow(cs[0].value))] else [])
      + AddressBookWrites(cs[1..])
  }

  function Stamp(ws: seq<Write>, now: int): (ts: seq<Timed>) {
    if ws == [] then [] else [Timed(ws[0], now)] + Stamp(ws[1..], now)
  }

  /** The archive after writes made at one clock reading. */
  function Written(db: Db, ws: seq<Write>, now: int): Db
    decreases |ws|
  {
    if ws == [] then db else Written(Apply(db, Timed(ws[0], now)), ws[1..], now)
  }

  lemma {:induction false} WrittenAppend(db: Db, a: seq<Write>, b: seq<Write>, now: int)
    ensures Written(db, a + b, now) == Written(Written(db, a, now), b, now)
    decreases |a|
  {
    if a == [] {
      assert a + b == b;
    } else {
      assert (a + b)[1..] == a[1..] + b;
      WrittenAppend(Apply(db, Timed(a[0], now)), a[1..], b, now);
    }
  }

  lemma WrittenOne(db: Db, w: Write, now: int)
    ensures Written(db, [w], now) == Apply(db, Timed(w, now))
  {
    assert [w][1..] == [];
    assert Written(Apply(db, Timed(w, now)), [], now) == Apply(db, Timed(w, now));
  }

  lemma RowIsStored(db: Db, w: WrappedMessage, now: int)
    requires MessageRow(w).Some?
    ensures Accepted(PutMessage(MessageRow(w).value)) ==>
      var id, t := w.message.value.id, Apply(db, Timed(PutMessage(MessageRow(w).value), now));
      id in t.messages && SaysMessage(t.messages[id].value, w)
  {
    hide FtsDelete, IsBody, IsMedia, IsTime, JoinLines, Texts, PrimaryMedia, NormalizeTimestampMs;
    RowSays(w);
  }

  lemma MarkKeepsMessages(db: Db, t: int, now: int)
    ensures Apply(db, Timed(Mark(t), now)).messages == db.messages
  {
  }

  class Pump {
    const store: Store
    /** The channel of capacity one that fail writes to without waiting. */
    var fatal: Option<Fatal>

    constructor (store: Store)
      ensures this.store == store && fatal == None
    {
      this.store := store;
      fatal := None;
    }

    method Handle(e: Event, now: int)
      modifies this, store
      ensures store.State() == Written(old(store.State()), EventWrites(e), now)
      ensures fatal == if e.FatalError? && old(fatal).None? then Some(e.error) else old(fatal)
    {
      hide Apply;
      match e
      case ClientReady(cs) => OnClientReady(cs, now);
      case AuthTokenRefreshed =>
        store.MarkSync(ZERO_TIME, now);
        WrittenOne(old(store.State()), Mark(ZERO_TIME), now);
      case ConversationChanged(c) => OnConversation(c, now);
      case MessageArrived(w) => OnMessage(w, now);
      case FatalError(error) => Fail(error);
      case Unstored =>
    }

    method Fail(error: Fatal)
      modifies this`fatal
      ensures fatal == if old(fatal).None? then Some(error) else old(fatal)
    {
      if fatal.None? {
        fatal := Some(error);
      }
    }

    method OnClientReady(cs: seq<Option<ProtoConversation>>, now: int)
      modifies store
      ensures store.State() == Written(old(store.State()), SnapshotWrites(cs) + [Mark(ZERO_TIME)], now)
    {
      hide Apply, ConversationWrites;
      ghost var was := store.State();
      for i := 0 to |cs|
        invariant Written(store.State(), SnapshotWrites(cs[i..]), now) == Written(was, SnapshotWrites(cs), now)
      {
        assert cs[i..][1..] == cs[i + 1..];
        if cs[i].Some? {
          WrittenAppend(store.State(), ConversationWrites(cs[i].value), SnapshotWrites(cs[i + 1..]), now);
          OnConversation(cs[i].value, now);
        } else {
          assert SnapshotWrites(cs[i..]) == SnapshotWrites(cs[i + 1..]);
        }
      }
      WrittenAppend(was, SnapshotWrites(cs), [Mark(ZERO_TIME)], now);
      WrittenOne(store.State(), Mark(ZERO_TIME), now);
      store.MarkSync(ZERO_TIME, now);
    }

    method OnConversation(c: ProtoConversation, now: int)
      modifies store
      ensures store.State() == Written(old(store.State()), ConversationWrites(c), now)
    {
      hide Apply, ParticipantRow;
      var row := ConversationRow(c);
      if row.None? {
        return;
      }
      ghost var was := store.State();
      WrittenAppend(was, [PutConversation(row.value)], ParticipantWrites(c.participants), now);
      WrittenOne(was, PutConversation(row.value), now);
      var ok := store.UpsertConversation(row.value, now);
      ghost var then_ := store.State();
      for i := 0 to |c.participants|
        invariant Written(store.State(), ParticipantWrites(c.participants[i..]), now)
               == Written(then_, ParticipantWrites(c.participants), now)
      {
        var p, rest := c.participants[i], c.participants[i + 1..];
        assert c.participants[i..][1..] == rest;
        if p.Some? && p.value.id != "" {
          WrittenAppend(store.State(), [PutContact(ParticipantRow(p.value))], ParticipantWrites(rest), now);
          WrittenOne(store.State(), PutContact(ParticipantRow(p.value)), now);
          var _ := store.UpsertContact(ParticipantRow(p.value), now);
        } else {
          assert ParticipantWrites(c.participants[i..]) == ParticipantWrites(rest);
        }
      }
    }

    method OnMessage(w: WrappedMessage, now: int)
      modifies store
      ensures store.State() == Written(old(store.State()), MessageWrites(w), now)
      ensures w.message.Some? && w.message.value.id != "" && w.message.value.conversationId != "" ==>
        var id := w.message.value.id; id in store.messages && SaysMessage(store.messages[id].value, w)
    {
      hide Apply, SaysMessage;
      var row := MessageRow(w);
      if row.None? {
        return;
      }
      ghost var was := store.State();
      RowIsStored(was, w, now);
      WrittenOne(was, PutMessage(row.value), now);
      var ok := store.UpsertMessage(row.value, now);
      if !ok {
        return;
      }
      if !w.isOld {
        WrittenAppend(was, [PutMessage(row.value)], [Mark(row.value.timestampMs)], now);
        WrittenOne(store.State(), Mark(row.value.timestampMs), now);
        MarkKeepsMessages(store.State(), row.value.timestampMs, now);
        store.MarkSync(row.value.timestampMs, now);
      }
    }

    /** The count includes messages that the store then refuses for having no
        conversation id. */
    method ImportMessages(ms: seq<Option<ProtoMessage>>, now: int) returns (imported: nat)
      modifies store
      ensures store.State() == Written(old(store.State()), HistoryWrites(ms), now)
      ensures imported == CountListed(ms)
    {
      hide Apply, MessageRow;
      ghost var was := store.State();
      imported := 0;
      for i := 0 to |ms|
        invariant Written(store.State(), HistoryWrites(ms[i..]), now) == Written(was, HistoryWrites(ms), now)
        invariant imported + CountListed(ms[i..]) == CountListed(ms)
      {
        var w := WrappedMessage(ms[i], true, "");
        assert ms[i..][1..] == ms[i + 1..];
        WrittenAppend(store.State(), MessageWrites(w), HistoryWrites(ms[i + 1..]), now);
        UnlistedWritesNothing(ms[i]);
        if Listed(ms[i]) {
          OnMessage(w, now);
          imported := imported + 1;
        }
      }
    }

    method ImportContacts(cs: seq<Option<ProtoContact>>, now: int) returns (imported: nat)
      modifies store
      ensures store.State() == Written(old(store.State()), AddressBookWrites(cs), now)
      ensures imported == |AddressBookWrites(cs)|
    {
      hide Apply, ContactRow;
      ghost var was := store.State();
      imported := 0;
      for i := 0 to |cs|
        invariant Written(store.State(), AddressBookWrites(cs[i..]), now) == Written(was, AddressBookWrites(cs), now)
        invariant imported + |AddressBookWrites(cs[i..])| == |AddressBookWrites(cs)|
      {
        var c, rest := cs[i], cs[i + 1..];
        assert cs[i..][1..] == rest;
        if c.Some? && c.value.participantId != "" {
          ContactRowId(c.value);
          WrittenAppend(store.State(), [PutContact(ContactRow(c.value))], AddressBookWrites(rest), now);
          WrittenOne(store.State(), PutContact(ContactRow(c.value)), now);
          var ok := store.UpsertContact(ContactRow(c.value), now);
          if ok {
            imported := imported + 1;
          }
        } else {
          assert AddressBookWrites(cs[i..]) == AddressBookWrites(rest);
        }
      }
    }
  }

  lemma UnlistedWritesNothing(m: Option<ProtoMessage>)
    ensures !Listed(m) ==> MessageWrites(WrappedMessage(m, true, "")) == []
  {
  }

  lemma ContactRowId(c: ProtoContact)
    ensures ContactRow(c).participantId == c.participantId
  {
  }

  // ---- whole histories ----

  datatype Timely = Timely(event: Event, now: int)

  function HandleAll(db: Db, es: seq<Timely>): Db
    decreases |es|
  {
    if es == [] then db else HandleAll(Written(db, EventWrites(es[0].event), es[0].now), es[1..])
  }

  function Flat(es: seq<Timely>): seq<Timed> {
    if es == [] then [] else Stamp(EventWrites(es[0].event), es[0].now) + Flat(es[1..])
  }

  function Events(es: seq<Timely>): seq<Event> {
    if es == [] then [] else [es[0].event] + Events(es[1..])
  }

  lemma {:induction false} WrittenIsApplied(db: Db, ws: seq<Write>, now: int, more: seq<Timed>)
    ensures ApplyAll(db, Stamp(ws, now) + more) == ApplyAll(Written(db, ws, now), more)
    decreases |ws|
  {
    hide Apply;
    if ws == [] {
      assert Stamp(ws, now) + more == more;
    } else {
      assert (Stamp(ws, now) + more)[1..] == Stamp(ws[1..], now) + more;
      WrittenIsApplied(Apply(db, Timed(ws[0], now)), ws[1..], now, more);
    }
  }

  lemma {:induction false} HandledIsApplied(db: Db, es: seq<Timely>)
    ensures HandleAll(db, es) == ApplyAll(db, Flat(es))
    decreases |es|
  {
    hide Apply, EventWrites;
    if es != [] {
      WrittenIsApplied(db, EventWrites(es[0].event), es[0].now, Flat(es[1..]));
      HandledIsApplied(Written(db, EventWrites(es[0].event), es[0].now), es[1..]);
    }
  }

  lemma {:induction false} UntimedStamp(ws: seq<Write>, now: int, more: seq<Timed>)
    ensures Untimed(Stamp(ws, now) + more) == ws + Untimed(more)
    decreases |ws|
  {
    if ws == [] {
      assert Stamp(ws, now) + more == more && ws + Untimed(more) == Untimed(more);
    } else {
      var rest, all := ws[1..], Stamp(ws, now) + more;
      assert all[0] == Timed(ws[0], now) && all[1..] == Stamp(rest, now) + more;
      UntimedStamp(rest, now, more);
      UntimedFirst(all);
      SplitFirst(ws, Untimed(more));
    }
  }

  lemma UntimedFirst(ts: seq<Timed>)
    requires ts != []
    ensures Untimed(ts) == [ts[0].write] + Untimed(ts[1..])
  {
  }

  lemma SplitFirst(a: seq<Write>, b: seq<Write>)
    requires a != []
    ensures a + b == [a[0]] + (a[1..] + b)
  {
  }

  lemma {:induction false} SameEventsSameWrites(es: seq<Timely>, fs: seq<Timely>)
    requires Events(es) == Events(fs)
    ensures Untimed(Flat(es)) == Untimed(Flat(fs))
    decreases |es|
  {
    hide EventWrites;
    if es != [] {
      assert fs != [] && Events(es)[0] == es[0].event && Events(fs)[0] == fs[0].event;
      assert Events(es)[1..] == Events(es[1..]) && Events(fs)[1..] == Events(fs[1..]);
      SameEventsSameWrites(es[1..], fs[1..]);
      UntimedStamp(EventWrites(es[0].event), es[0].now, Flat(es[1..]));
      UntimedStamp(EventWrites(fs[0].event), fs[0].now, Flat(fs[1..]));
    }
  }

  /** Replaying a whole history of events, at whatever later times, leaves every row
      of a valid archive as the first pass left it. */
  lemma ReplayedEventsChangeNothing(db: Db, es: seq<Timely>, again: seq<Timely>)
    requires Valid(db) && Events(again) == Events(es)
    ensures Valid(HandleAll(db, es))
    ensures SameRows(HandleAll(HandleAll(db, es), again), HandleAll(db, es))
  {
    hide ApplyAll, Flat, HandleAll, SameRows, Valid;
    HandledIsApplied(db, es);
    HandledIsApplied(HandleAll(db, es), again);
    SameEventsSameWrites(es, again);
    ArchiveStaysValid(db, Flat(es));
    ReplayChangesNothing(db, Flat(es), Flat(again));
  }

  // ---- freshness ----

  predicate SameSync(a: Db, b: Db) {
    a.lastEvent == b.lastEvent && a.lastConnect == b.lastConnect && a.syncedAt == b.syncedAt
  }

  /** Fetching history does not make the archive look fresher. */
  lemma {:induction false} HistoryIsNotFreshness(db: Db, ms: seq<Option<ProtoMessage>>, now: int)
    ensures SameSync(Written(db, HistoryWrites(ms), now), db)
    decreases |ms|
  {
    hide MessageRow, FtsDelete;
    if ms != [] {
      var ws := MessageWrites(WrappedMessage(ms[0], true, ""));
      WrittenAppend(db, ws, HistoryWrites(ms[1..]), now);
      if ws != [] {
        WrittenOne(db, ws[0], now);
      }
      HistoryIsNotFreshness(Written(db, ws, now), ms[1..], now);
    }
  }

  /** A live message that is stored makes the time of the last event at least its own
      and the greatest so far; a token refresh leaves that time alone. */
  lemma LiveMessageIsFreshness(db: Db, w: WrappedMessage, now: int)
    requires Valid(db)
    ensures var t, row := Written(db, EventWrites(MessageArrived(w)), now), MessageRow(w);
      t.lastEvent ==
        if row.Some? && row.value.conversationId != "" && !w.isOld then Max(db.lastEvent, row.value.timestampMs)
        else db.lastEvent
    ensures Written(db, EventWrites(AuthTokenRefreshed), now).lastEvent == db.lastEvent
  {
    hide FtsDelete, Mirrored, Filed;
    WrittenOne(db, Mark(ZERO_TIME), now);
    var row := MessageRow(w);
    if row.Some? {
      if row.value.conversationId != "" && !w.isOld {
        WrittenAppend(db, [PutMessage(row.value)], [Mark(row.value.timestampMs)], now);
        WrittenOne(Apply(db, Timed(PutMessage(row.value), now)), Mark(row.value.timestampMs), now);
      }
    }
  }

  // ---- what an import counts ----

  /** How many messages the store takes. */
  function CountTaken(ws: seq<Write>): nat {
    if ws == [] then 0 else (if ws[0].PutMessage? && Accepted(ws[0]) then 1 else 0) + CountTaken(ws[1..])
  }

  lemma {:induction false} CountTakenAppend(a: seq<Write>, b: seq<Write>)
    ensures CountTaken(a + b) == CountTaken(a) + CountTaken(b)
  {
    if a == [] {
      assert a + b == b;
    } else {
      assert (a + b)[1..] == a[1..] + b;
      CountTakenAppend(a[1..], b);
    }
  }

  predicate AllHaveChats(ms: seq<Option<ProtoMessage>>) {
    forall i :: 0 <= i < |ms| && Listed(ms[i]) ==> ms[i].value.conversationId != ""
  }

  lemma OneCounted(m: Option<ProtoMessage>)
    ensures CountTaken(MessageWrites(WrappedMessage(m, true, ""))) ==
      if Listed(m) && m.value.conversationId != "" then 1 else 0
  {
  }

  /** The count of an import is the number of writes that the store accepts if and only
      if every message with an id has a conversation id too; it is never less. */
  lemma {:induction false} CountedAreAcceptedIff(ms: seq<Option<ProtoMessage>>)
    ensures CountTaken(HistoryWrites(ms)) <= CountListed(ms)
    ensures CountTaken(HistoryWrites(ms)) == CountListed(ms) <==> AllHaveChats(ms)
  {
    hide MessageWrites;
    if ms != [] {
      CountedAreAcceptedIff(ms[1..]);
      CountTakenAppend(MessageWrites(WrappedMessage(ms[0], true, "")), HistoryWrites(ms[1..]));
      OneCounted(ms[0]);
      assert ms == [ms[0]] + ms[1..];
    }
  }

  predicate Takes(m: Option<ProtoMessage>) {
    Listed(m) && m.value.conversationId != ""
  }

  /** The ids under which an import leaves a message in the store. */
  function TakenIds(ms: seq<Option<ProtoMessage>>): set<string> {
    if ms == [] then {} else (if Takes(ms[0]) then {ms[0].value.id} else {}) + TakenIds(ms[1..])
  }

  predicate ListsId(ms: seq<Option<ProtoMessage>>, id: string) {
    exists i :: 0 <= i < |ms| && Listed(ms[i]) && ms[i].value.id == id
  }

  predicate IdsDiffer(ms: seq<Option<ProtoMessage>>) {
    forall i, j :: 0 <= i < j < |ms| && Listed(ms[i]) && Listed(ms[j]) ==> ms[i].value.id != ms[j].value.id
  }

  lemma OneTaken(db: Db, m: Option<ProtoMessage>, now: int)
    ensures Written(db, MessageWrites(WrappedMessage(m, true, "")), now).messages.Keys ==
      db.messages.Keys + if Takes(m) then {m.value.id} else {}
  {
    hide FtsDelete;
    var row := MessageRow(WrappedMessage(m, true, ""));
    if row.Some? {
      WrittenOne(db, PutMessage(row.value), now);
    }
  }

  lemma {:induction false} StoredIds(db: Db, ms: seq<Option<ProtoMessage>>, now: int)
    ensures Written(db, HistoryWrites(ms), now).messages.Keys == db.messages.Keys + TakenIds(ms)
    decreases |ms|
  {
    hide MessageWrites, Apply, Takes;
    if ms != [] {
      var ws := MessageWrites(WrappedMessage(ms[0], true, ""));
      WrittenAppend(db, ws, HistoryWrites(ms[1..]), now);
      OneTaken(db, ms[0], now);
      StoredIds(Written(db, ws, now), ms[1..], now);
    }
  }

  /** One more message in front of a list. */
  lemma ListMore(m: Option<ProtoMessage>, ms: seq<Option<ProtoMessage>>)
    ensures AllHaveChats([m] + ms) <==> (Listed(m) ==> m.value.conversationId != "") && AllHaveChats(ms)
    ensures IdsDiffer([m] + ms) <==> (Listed(m) ==> !ListsId(ms, m.value.id)) && IdsDiffer(ms)
    ensures forall id :: ListsId([m] + ms, id) <==> (Listed(m) && m.value.id == id) || ListsId(ms, id)
  {
    forall id ensures ListsId([m] + ms, id) <==> (Listed(m) && m.value.id == id) || ListsId(ms, id) {
      ListsMore(m, ms, id);
    }
    hide ListsId;
    ChatsMore(m, ms);
    DifferMore(m, ms);
  }

  lemma ListsMore(m: Option<ProtoMessage>, ms: seq<Option<ProtoMessage>>, id: string)
    ensures ListsId([m] + ms, id) <==> (Listed(m) && m.value.id == id) || ListsId(ms, id)
  {
    var all := [m] + ms;
    assert all[0] == m;
    if i :| 0 <= i < |ms| && Listed(ms[i]) && ms[i].value.id == id {
      assert all[i + 1] == ms[i];
    }
  }

  lemma ChatsMore(m: Option<ProtoMessage>, ms: seq<Option<ProtoMessage>>)
    ensures AllHaveChats([m] + ms) <==> (Listed(m) ==> m.value.conversationId != "") && AllHaveChats(ms)
  {
    var all := [m] + ms;
    assert all[0] == m;
    assert forall i :: 0 <= i < |ms| ==> all[i + 1] == ms[i];
  }

  lemma DifferMore(m: Option<ProtoMessage>, ms: seq<Option<ProtoMessage>>)
    ensures IdsDiffer([m] + ms) <==> (Listed(m) ==> !ListsId(ms, m.value.id)) && IdsDiffer(ms)
  {
    var all := [m] + ms;
    assert all[0] == m;
    if IdsDiffer(all) {
      forall i | 0 <= i < |ms| && Listed(m) && Listed(ms[i]) ensures ms[i].value.id != m.value.id {
        assert all[i + 1] == ms[i];
      }
      forall i, j | 0 <= i < j < |ms| && Listed(ms[i]) && Listed(ms[j]) ensures ms[i].value.id != ms[j].value.id {
        assert all[i + 1] == ms[i] && all[j + 1] == ms[j];
      }
    }
  }

  lemma {:induction false} TakenAreListed(ms: seq<Option<ProtoMessage>>, id: string)
    ensures id in TakenIds(ms) ==> ListsId(ms, id)
    ensures AllHaveChats(ms) && ListsId(ms, id) ==> id in TakenIds(ms)
  {
    hide ListsId, AllHaveChats, IdsDiffer;
    if ms != [] {
      assert ms == [ms[0]] + ms[1..];
      ListMore(ms[0], ms[1..]);
      TakenAreListed(ms[1..], id);
    } else {
      NoneListed(id);
    }
  }

  lemma NoneListed(id: string)
    ensures !ListsId([], id) && AllHaveChats([]) && IdsDiffer([])
  {
  }

  lemma {:induction false} DistinctTakenIff(ms: seq<Option<ProtoMessage>>)
    ensures |TakenIds(ms)| <= CountListed(ms)
    ensures |TakenIds(ms)| == CountListed(ms) <==> AllHaveChats(ms) && IdsDiffer(ms)
  {
    hide ListsId, AllHaveChats, IdsDiffer;
    if ms == [] {
      NoneListed("");
    } else {
      var m, rest := ms[0], ms[1..];
      assert ms == [m] + rest;
      ListMore(m, rest);
      DistinctTakenIff(rest);
      if Takes(m) {
        TakenAreListed(rest, m.value.id);
      }
    }
  }

  lemma Growth(before: set<string>, ids: set<string>)
    ensures |before + ids| - |before| <= |ids|
    ensures |before + ids| - |before| == |ids| <==> ids !! before
  {
    var new_ := ids - before;
    assert before + ids == before + new_ && before !! new_ && |before + new_| == |before| + |new_|;
    assert ids == new_ + (ids * before) && |ids| == |new_| + |ids * before|;
  }

  /** The count of an import is the number of different messages it leaves in the store
      if and only if every message with an id has a conversation id too and no id comes
      twice; it is never less. It is the number of messages that the store gains if and
      only if moreover none of them was stored before. */
  lemma {:induction false} CountedAreStoredIff(db: Db, ms: seq<Option<ProtoMessage>>, now: int)
    ensures var keys := Written(db, HistoryWrites(ms), now).messages.Keys;
      && keys == db.messages.Keys + TakenIds(ms) && |TakenIds(ms)| <= CountListed(ms)
      && (|TakenIds(ms)| == CountListed(ms) <==> AllHaveChats(ms) && IdsDiffer(ms))
      && (|keys| - |db.messages.Keys| == CountListed(ms) <==>
            AllHaveChats(ms) && IdsDiffer(ms) && forall id :: ListsId(ms, id) ==> id !in db.messages)
  {
    hide Written, HistoryWrites, TakenIds, CountListed, AllHaveChats, IdsDiffer, ListsId;
    StoredIds(db, ms, now);
    DistinctTakenIff(ms);
    Growth(db.messages.Keys, TakenIds(ms));
    var ids := TakenIds(ms);
    forall id ensures AllHaveChats(ms) ==> (ListsId(ms, id) <==> id in ids) {
      TakenAreListed(ms, id);
    }
  }

  lemma OneMore(m: Option<ProtoMessage>, ms: seq<Option<ProtoMessage>>)
    ensures CountListed([m] + ms) == (if Listed(m) then 1 else 0) + CountListed(ms)
    ensures TakenIds([m] + ms) == (if Takes(m) then {m.value.id} else {}) + TakenIds(ms)
  {
    assert ([m] + ms)[1..] == ms;
  }

  /** A page that lists one message twice counts two, and an empty archive has one
      message after it. */
  lemma CountedTwice(now: int)
    ensures exists ms :: CountListed(ms) == 2 && AllHaveChats(ms) && |Written(Empty(), HistoryWrites(ms), now).messages| == 1
  {
    hide Written, HistoryWrites, Apply;
    var m := Some(ProtoMessage("m", "c", "", 0, 0, false, [], None, ""));
    var ms := [m, m];
    OneMore(m, []);
    OneMore(m, [m]);
    assert [m] + [] == [m] && [m] + [m] == ms;
    assert TakenIds(ms) == {"m"} && CountListed(ms) == 2;
    StoredIds(Empty(), ms, now);
    var db := Written(Empty(), HistoryWrites(ms), now);
    assert db.messages.Keys == {"m"} && |db.messages| == |db.messages.Keys|;
  }

  /** A page that counts one message and stores none. */
  lemma CountedButRefused(db: Db, now: int)
    ensures exists ms :: CountListed(ms) == 1 && Written(db, HistoryWrites(ms), now) == db
  {
    var m := ProtoMessage("m", "", "", 0, 0, false, [], None, "");
    var ms := [Some(m)];
    var w := WrappedMessage(Some(m), true, "");
    assert ms[1..] == [] && HistoryWrites(ms) == MessageWrites(w) + [];
    assert CountListed(ms) == 1 && MessageWrites(w) == [PutMessage(MessageRow(w).value)];
    WrittenOne(db, PutMessage(MessageRow(w).value), now);
    assert MessageWrites(w) + [] == MessageWrites(w);
  }
}
