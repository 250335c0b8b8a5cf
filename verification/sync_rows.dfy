/** What the archive's rows say after any events, against the last event, conversation or
    person that named them. */
module SyncRows {
  import opened Common
  import opened Archive
  import opened Sync

  // ---- what a row should say ----

  predicate SaysConversation(r: Conversation, c: ProtoConversation) {
    && r.id == c.id && r.platform == "gm" && r.name == c.name && r.isGroup == c.isGroup
    && r.participants == (if c.participantsJson == "" then "[]" else c.participantsJson)
    && r.unread == c.unread && r.pinned == c.pinned && !r.archived
  }

  predicate SaysPerson(k: Contact, p: Participant) {
    && k.participantId == p.id && k.platform == "gm" && k.contactId == p.contactId
    && (if p.fullName != "" then k.name == p.fullName else k.name == p.firstName)
    && k.e164 == p.number && k.formattedNumber == p.formattedNumber && k.avatarColor == p.avatarColor && k.isMe == p.isMe
  }

  predicate SaysEntry(k: Contact, c: ProtoContact) {
    && k.participantId == c.participantId && k.platform == "gm" && k.contactId == c.contactId && k.name == c.name
    && (if c.number != "" then k.e164 == c.number else k.e164 == c.number2)
    && k.formattedNumber == c.formattedNumber && k.avatarColor == c.avatarColor && !k.isMe
  }

  // ---- the last of a list ----

  function LastWith<T>(xs: seq<T>, has: T -> bool): Option<T> {
    if xs == [] then None
    else
      var later := LastWith(xs[1..], has);
      if later.Some? then later else if has(xs[0]) then Some(xs[0]) else None
  }

  lemma {:induction false} LastWithCat<T>(a: seq<T>, b: seq<T>, has: T -> bool)
    ensures LastWith(a + b, has) == if LastWith(b, has).Some? then LastWith(b, has) else LastWith(a, has)
  {
    if a == [] {
      assert a + b == b;
    } else {
      assert (a + b)[1..] == a[1..] + b;
      LastWithCat(a[1..], b, has);
    }
  }

  /** x is in the list, has the property, and nothing after it does. */
  ghost predicate IsLast<T(!new)>(xs: seq<T>, has: T -> bool, x: T) {
    exists j :: 0 <= j < |xs| && xs[j] == x && has(x) && forall k :: j < k < |xs| ==> !has(xs[k])
  }

  lemma {:induction false} LastWithIs<T(!new)>(xs: seq<T>, has: T -> bool)
    ensures forall x :: IsLast(xs, has, x) ==> LastWith(xs, has) == Some(x)
    ensures (forall j :: 0 <= j < |xs| ==> !has(xs[j])) ==> LastWith(xs, has) == None
  {
    if xs != [] {
      var rest := xs[1..];
      LastWithIs(rest, has);
      forall x | IsLast(xs, has, x) ensures LastWith(xs, has) == Some(x) {
        var j :| 0 <= j < |xs| && xs[j] == x && has(x) && forall k :: j < k < |xs| ==> !has(xs[k]);
        assert forall k :: 0 <= k < |rest| ==> rest[k] == xs[k + 1];
        if j > 0 {
          assert rest[j - 1] == x;
          assert IsLast(rest, has, x);
        }
      }
      assert forall k :: 0 <= k < |rest| ==> rest[k] == xs[k + 1];
    }
  }

  // ---- messages ----

  /** An event that brings a message of this id which the store takes. */
  function Brings(id: string): Event -> bool {
    (e: Event) => e.MessageArrived? && e.w.message.Some? && e.w.message.value.id == id && id != ""
                  && e.w.message.value.conversationId != ""
  }

  lemma {:induction false} LastMessageCat(a: seq<Write>, b: seq<Write>, id: string)
    ensures LastMessage(a + b, id) == if LastMessage(b, id).Some? then LastMessage(b, id) else LastMessage(a, id)
  {
    if a == [] {
      assert a + b == b;
    } else {
      assert (a + b)[1..] == a[1..] + b;
      LastMessageCat(a[1..], b, id);
    }
  }

  predicate NoMessages(ws: seq<Write>) {
    forall i :: 0 <= i < |ws| ==> !ws[i].PutMessage?
  }

  lemma {:induction false} NoMessagesNoLast(ws: seq<Write>, id: string)
    requires NoMessages(ws)
    ensures LastMessage(ws, id) == None
  {
    if ws != [] {
      NoMessagesNoLast(ws[1..], id);
    }
  }

  lemma {:induction false} SnapshotHasNoMessages(cs: seq<Option<ProtoConversation>>)
    ensures NoMessages(SnapshotWrites(cs))
  {
    if cs != [] {
      SnapshotHasNoMessages(cs[1..]);
      if cs[0].Some? {
        ConversationHasNoMessages(cs[0].value);
      }
    }
  }

  lemma ConversationHasNoMessages(c: ProtoConversation)
    ensures NoMessages(ConversationWrites(c))
  {
    PeopleHaveNoMessages(c.participants);
  }

  lemma {:induction false} PeopleHaveNoMessages(ps: seq<Option<Participant>>)
    ensures NoMessages(ParticipantWrites(ps))
  {
    if ps != [] {
      PeopleHaveNoMessages(ps[1..]);
    }
  }

  /** What one event writes to a message of this id. */
  lemma EventBrings(e: Event, id: string)
    ensures LastMessage(EventWrites(e), id) == if Brings(id)(e) then MessageRow(e.w) else None
  {
    hide MessageRow, SnapshotWrites, ConversationWrites;
    match e
    case ClientReady(cs) =>
      SnapshotHasNoMessages(cs);
      NoMessagesNoLast(EventWrites(e), id);
    case ConversationChanged(c) =>
      ConversationHasNoMessages(c);
      NoMessagesNoLast(EventWrites(e), id);
    case MessageArrived(w) => MessageBrings(w, id);
    case _ => NoMessagesNoLast(EventWrites(e), id);
  }

  lemma MessageBrings(w: WrappedMessage, id: string)
    ensures LastMessage(MessageWrites(w), id) == if Brings(id)(MessageArrived(w)) then MessageRow(w) else None
  {
    RowSays(w);
    var ws := MessageWrites(w);
    if ws != [] {
      NoMessagesNoLast(ws[1..], id);
    }
  }

  function RowBrought(last: Option<Event>): Option<Message> {
    if last.Some? && last.value.MessageArrived? then MessageRow(last.value.w) else None
  }

  lemma {:induction false} LastBrought(es: seq<Timely>, id: string)
    ensures LastMessage(Untimed(Flat(es)), id) == RowBrought(LastWith(Events(es), Brings(id)))
    decreases |es|
  {
    hide EventWrites, MessageRow;
    if es != [] {
      var e := es[0].event;
      LastBrought(es[1..], id);
      UntimedStamp(EventWrites(e), es[0].now, Flat(es[1..]));
      LastMessageCat(EventWrites(e), Untimed(Flat(es[1..])), id);
      EventBrings(e, id);
      assert Events(es)[0] == e && Events(es)[1..] == Events(es[1..]);
      BroughtHasARow(Events(es[1..]), id);
    }
  }

  lemma {:induction false} FoundHas<T>(xs: seq<T>, has: T -> bool)
    ensures var last := LastWith(xs, has); last.Some? ==> has(last.value)
  {
    if xs != [] {
      FoundHas(xs[1..], has);
    }
  }

  lemma BroughtHasARow(es: seq<Event>, id: string)
    ensures var last := LastWith(es, Brings(id)); RowBrought(last).Some? <==> last.Some?
  {
    FoundHas(es, Brings(id));
  }

  /** After any events, a message row says what the last event that brought its id said,
      field by field; and it is as it was if none did. */
  lemma {:induction false} MessagesSayTheLast(db: Db, es: seq<Timely>, id: string)
    ensures var t := HandleAll(db, es);
      && (forall e :: IsLast(Events(es), Brings(id), e) ==> id in t.messages && SaysMessage(t.messages[id].value, e.w))
      && ((forall j :: 0 <= j < |Events(es)| ==> !Brings(id)(Events(es)[j])) ==> MessageOf(t, id) == MessageOf(db, id))
  {
    hide HandleAll, ApplyAll, Flat, MessageRow, SaysMessage, LastMessage;
    HandledIsApplied(db, es);
    LastMessageWins(db, Flat(es), id);
    LastBrought(es, id);
    LastWithIs(Events(es), Brings(id));
    forall e | IsLast(Events(es), Brings(id), e) ensures MessageRow(e.w).Some? && SaysMessage(MessageRow(e.w).value, e.w) {
      BroughtHasARow(Events(es), id);
      RowSays(e.w);
    }
  }

  // ---- imported messages ----

  function Imports(id: string): Option<ProtoMessage> -> bool {
    (m: Option<ProtoMessage>) => m.Some? && m.value.id == id && id != "" && m.value.conversationId != ""
  }

  lemma {:induction false} LastImported(ms: seq<Option<ProtoMessage>>, id: string)
    ensures LastMessage(HistoryWrites(ms), id) ==
      var last := LastWith(ms, Imports(id)); if last.Some? then MessageRow(WrappedMessage(last.value, true, "")) else None
  {
    hide MessageWrites, MessageRow;
    if ms != [] {
      var w := WrappedMessage(ms[0], true, "");
      LastImported(ms[1..], id);
      LastMessageCat(MessageWrites(w), HistoryWrites(ms[1..]), id);
      MessageBrings(w, id);
      FoundHas(ms[1..], Imports(id));
      ImportHasARow(ms[1..], id);
    }
  }

  lemma ImportHasARow(ms: seq<Option<ProtoMessage>>, id: string)
    ensures var last := LastWith(ms, Imports(id)); last.Some? ==> MessageRow(WrappedMessage(last.value, true, "")).Some?
  {
    FoundHas(ms, Imports(id));
  }

  lemma WrittenMessageIs(db: Db, ws: seq<Write>, now: int, id: string)
    ensures MessageOf(Written(db, ws, now), id) == if LastMessage(ws, id).Some? then LastMessage(ws, id) else MessageOf(db, id)
  {
    WrittenIsApplied(db, ws, now, []);
    UntimedStamp(ws, now, []);
    assert Stamp(ws, now) + [] == Stamp(ws, now) && ws + [] == ws;
    LastMessageWins(db, Stamp(ws, now), id);
    assert ApplyAll(Written(db, ws, now), []) == Written(db, ws, now);
  }

  /** After an import, a message row says what the last listed message of its id said. */
  lemma {:induction false} ImportsSayTheLast(db: Db, ms: seq<Option<ProtoMessage>>, now: int, id: string)
    ensures var t := Written(db, HistoryWrites(ms), now);
      forall m :: IsLast(ms, Imports(id), m) ==> id in t.messages && SaysMessage(t.messages[id].value, WrappedMessage(m, true, ""))
  {
    hide Written, HistoryWrites, MessageRow, SaysMessage, LastMessage;
    WrittenMessageIs(db, HistoryWrites(ms), now, id);
    LastImported(ms, id);
    LastWithIs(ms, Imports(id));
    forall m | IsLast(ms, Imports(id), m)
      ensures MessageRow(WrappedMessage(m, true, "")).Some?
      ensures SaysMessage(MessageRow(WrappedMessage(m, true, "")).value, WrappedMessage(m, true, ""))
    {
      ImportHasARow(ms, id);
      RowSays(WrappedMessage(m, true, ""));
    }
  }

  // ---- conversations ----

  /** The conversations that an event describes, in order. */
  function Described(e: Event): seq<ProtoConversation> {
    match e
    case ClientReady(cs) => Present(cs)
    case ConversationChanged(c) => [c]
    case _ => []
  }

  function Present<T>(xs: seq<Option<T>>): seq<T> {
    if xs == [] then [] else (if xs[0].Some? then [xs[0].value] else []) + Present(xs[1..])
  }

  function AllDescribed(es: seq<Event>): seq<ProtoConversation> {
    if es == [] then [] else Described(es[0]) + AllDescribed(es[1..])
  }

  function IsChat(id: string): ProtoConversation -> bool {
    (c: ProtoConversation) => c.id == id && id != ""
  }

  lemma {:induction false} LastConversationCat(a: seq<Write>, b: seq<Write>, id: string)
    ensures LastConversation(a + b, id) ==
      if LastConversation(b, id).Some? then LastConversation(b, id) else LastConversation(a, id)
  {
    if a == [] {
      assert a + b == b;
    } else {
      assert (a + b)[1..] == a[1..] + b;
      LastConversationCat(a[1..], b, id);
    }
  }

  predicate NoConversations(ws: seq<Write>) {
    forall i :: 0 <= i < |ws| ==> !ws[i].PutConversation?
  }

  lemma {:induction false} NoConversationsNoLast(ws: seq<Write>, id: string)
    requires NoConversations(ws)
    ensures LastConversation(ws, id) == None
  {
    if ws != [] {
      NoConversationsNoLast(ws[1..], id);
    }
  }

  lemma {:induction false} PeopleHaveNoConversations(ps: seq<Option<Participant>>)
    ensures NoConversations(ParticipantWrites(ps))
  {
    if ps != [] {
      PeopleHaveNoConversations(ps[1..]);
    }
  }

  function RowOf(last: Option<ProtoConversation>): Option<Conversation> {
    if last.Some? then ConversationRow(last.value) else None
  }

  lemma OneDescribed(c: ProtoConversation, id: string)
    ensures LastConversation(ConversationWrites(c), id) == RowOf(LastWith([c], IsChat(id)))
  {
    assert [c][1..] == [];
    if c.id != "" {
      var ws := ConversationWrites(c);
      PeopleHaveNoConversations(c.participants);
      assert ws[1..] == ParticipantWrites(c.participants);
      NoConversationsNoLast(ws[1..], id);
    }
  }

  lemma {:induction false} SnapshotDescribes(cs: seq<Option<ProtoConversation>>, id: string)
    ensures LastConversation(SnapshotWrites(cs), id) == RowOf(LastWith(Present(cs), IsChat(id)))
  {
    hide ConversationWrites, ConversationRow;
    if cs != [] {
      SnapshotDescribes(cs[1..], id);
      if cs[0].Some? {
        var c := cs[0].value;
        OneDescribed(c, id);
        LastConversationCat(ConversationWrites(c), SnapshotWrites(cs[1..]), id);
        LastWithCat([c], Present(cs[1..]), IsChat(id));
        ChatHasARow(Present(cs[1..]), id);
      } else {
        assert [] + SnapshotWrites(cs[1..]) == SnapshotWrites(cs[1..]) && [] + Present(cs[1..]) == Present(cs[1..]);
      }
    }
  }

  lemma ChatHasARow(cs: seq<ProtoConversation>, id: string)
    ensures RowOf(LastWith(cs, IsChat(id))).Some? <==> LastWith(cs, IsChat(id)).Some?
  {
    FoundHas(cs, IsChat(id));
  }

  lemma EventDescribes(e: Event, id: string)
    ensures LastConversation(EventWrites(e), id) == RowOf(LastWith(Described(e), IsChat(id)))
  {
    hide ConversationRow, ConversationWrites, SnapshotWrites, Present;
    match e
    case ClientReady(cs) =>
      SnapshotDescribes(cs, id);
      NoConversationsNoLast([Mark(ZERO_TIME)], id);
      LastConversationCat(SnapshotWrites(cs), [Mark(ZERO_TIME)], id);
    case ConversationChanged(c) => OneDescribed(c, id);
    case _ => NoConversationsNoLast(EventWrites(e), id);
  }

  lemma {:induction false} LastDescribed(es: seq<Timely>, id: string)
    ensures LastConversation(Untimed(Flat(es)), id) == RowOf(LastWith(AllDescribed(Events(es)), IsChat(id)))
    decreases |es|
  {
    hide EventWrites, ConversationRow, Described;
    if es != [] {
      var e := es[0].event;
      LastDescribed(es[1..], id);
      UntimedStamp(EventWrites(e), es[0].now, Flat(es[1..]));
      LastConversationCat(EventWrites(e), Untimed(Flat(es[1..])), id);
      EventDescribes(e, id);
      assert Events(es)[0] == e && Events(es)[1..] == Events(es[1..]);
      LastWithCat(Described(e), AllDescribed(Events(es[1..])), IsChat(id));
      ChatHasARow(AllDescribed(Events(es[1..])), id);
    }
  }

  lemma StoredSays(c: ProtoConversation)
    ensures ConversationRow(c).Some? ==> SaysConversation(Stored(ConversationRow(c).value), c)
  {
  }

  lemma RowIsThere(db: Db, ts: seq<Timed>, id: string)
    requires LastConversation(Untimed(ts), id).Some? && id != ""
    ensures id in ApplyAll(db, ts).conversations
    decreases |ts|
  {
    hide Apply;
    if ts != [] {
      var t := ts[0];
      assert Untimed(ts)[1..] == Untimed(ts[1..]);
      if LastConversation(Untimed(ts[1..]), id).Some? {
        RowIsThere(Apply(db, t), ts[1..], id);
      } else {
        PutIsThere(db, t, id);
        ConversationsStay(Apply(db, t), ts[1..], id);
      }
    }
  }

  lemma PutIsThere(db: Db, t: Timed, id: string)
    requires Accepted(t.write) && t.write.PutConversation? && t.write.c.id == id
    ensures id in Apply(db, t).conversations
  {
  }

  /** After any events, a conversation row says what the last description of it said, in
      everything but its time, which no description of it exceeds. */
  lemma {:induction false} ConversationsSayTheLast(db: Db, es: seq<Timely>, id: string)
    ensures var t := HandleAll(db, es);
      forall c :: IsLast(AllDescribed(Events(es)), IsChat(id), c) ==>
        id in t.conversations && SaysConversation(t.conversations[id].value, c)
  {
    hide HandleAll, ApplyAll, Flat, ConversationRow, SaysConversation, LastConversation, Stored, AllDescribed;
    HandledIsApplied(db, es);
    LastDescribed(es, id);
    LastWithIs(AllDescribed(Events(es)), IsChat(id));
    forall c | IsLast(AllDescribed(Events(es)), IsChat(id), c)
      ensures id in HandleAll(db, es).conversations && SaysConversation(HandleAll(db, es).conversations[id].value, c)
    {
      ChatHasARow(AllDescribed(Events(es)), id);
      RowIsThere(db, Flat(es), id);
      ConversationSettles(db, Flat(es), id);
      StoredSays(c);
      TimeApart(Stored(ConversationRow(c).value), c, HandleAll(db, es).conversations[id].value.lastMessageTs);
    }
  }

  lemma TimeApart(r: Conversation, c: ProtoConversation, ms: int)
    requires SaysConversation(r, c)
    ensures SaysConversation(r.(lastMessageTs := ms), c)
  {
  }

  // ---- people ----

  /** The people that an event describes: those of the conversations with an id. */
  function People(cs: seq<ProtoConversation>): seq<Participant> {
    if cs == [] then [] else (if cs[0].id == "" then [] else Present(cs[0].participants)) + People(cs[1..])
  }

  function IsPerson(id: string): Participant -> bool {
    (p: Participant) => p.id == id && id != ""
  }

  lemma {:induction false} PeopleCat(a: seq<ProtoConversation>, b: seq<ProtoConversation>)
    ensures People(a + b) == People(a) + People(b)
  {
    if a == [] {
      assert a + b == b;
    } else {
      assert (a + b)[1..] == a[1..] + b;
      PeopleCat(a[1..], b);
    }
  }

  lemma {:induction false} LastContactCat(a: seq<Write>, b: seq<Write>, id: string)
    ensures LastContact(a + b, id) == if LastContact(b, id).Some? then LastContact(b, id) else LastContact(a, id)
  {
    if a == [] {
      assert a + b == b;
    } else {
      assert (a + b)[1..] == a[1..] + b;
      LastContactCat(a[1..], b, id);
    }
  }

  predicate NoContacts(ws: seq<Write>) {
    forall i :: 0 <= i < |ws| ==> !ws[i].PutContact?
  }

  lemma {:induction false} NoContactsNoLast(ws: seq<Write>, id: string)
    requires NoContacts(ws)
    ensures LastContact(ws, id) == None
  {
    if ws != [] {
      NoContactsNoLast(ws[1..], id);
    }
  }

  function PersonRow(last: Option<Participant>): Option<Contact> {
    if last.Some? then Some(ParticipantRow(last.value)) else None
  }

  lemma OnePerson(p: Participant, id: string)
    ensures LastContact(ParticipantWrites([Some(p)]), id) == PersonRow(LastWith([p], IsPerson(id)))
  {
    assert [Some(p)][1..] == [] && [p][1..] == [];
    if p.id != "" {
      assert ParticipantWrites([Some(p)])[1..] == [];
    }
  }

  lemma FirstPerson(p: Option<Participant>, ps: seq<Option<Participant>>)
    ensures ParticipantWrites([p] + ps) == ParticipantWrites([p]) + ParticipantWrites(ps)
    ensures Present([p] + ps) == (if p.Some? then [p.value] else []) + Present(ps)
    ensures p.None? ==> ParticipantWrites([p]) == []
  {
    assert ([p] + ps)[1..] == ps && [p][1..] == [];
  }

  lemma {:induction false} ListedPeople(ps: seq<Option<Participant>>, id: string)
    ensures LastContact(ParticipantWrites(ps), id) == PersonRow(LastWith(Present(ps), IsPerson(id)))
  {
    if ps != [] {
      ListedPeople(ps[1..], id);
      assert ps == [ps[0]] + ps[1..];
      hide ParticipantRow, ParticipantWrites, Present, LastContact, LastWith;
      FirstPerson(ps[0], ps[1..]);
      LastContactCat(ParticipantWrites([ps[0]]), ParticipantWrites(ps[1..]), id);
      if ps[0].Some? {
        OnePerson(ps[0].value, id);
        LastWithCat([ps[0].value], Present(ps[1..]), IsPerson(id));
      } else {
        assert [] + ParticipantWrites(ps[1..]) == ParticipantWrites(ps[1..]) && [] + Present(ps[1..]) == Present(ps[1..]);
      }
    }
  }

  lemma ChatPeople(c: ProtoConversation, id: string)
    ensures LastContact(ConversationWrites(c), id) == PersonRow(LastWith(People([c]), IsPerson(id)))
  {
    hide ParticipantRow, ParticipantWrites, Present;
    assert [c][1..] == [];
    if c.id != "" {
      var ws := ConversationWrites(c);
      ListedPeople(c.participants, id);
      assert ws[1..] == ParticipantWrites(c.participants);
      assert Present(c.participants) + [] == Present(c.participants);
    }
  }

  lemma {:induction false} SnapshotPeople(cs: seq<Option<ProtoConversation>>, id: string)
    ensures LastContact(SnapshotWrites(cs), id) == PersonRow(LastWith(People(Present(cs)), IsPerson(id)))
  {
    hide ConversationWrites, ParticipantRow, People;
    if cs != [] {
      SnapshotPeople(cs[1..], id);
      if cs[0].Some? {
        var c := cs[0].value;
        ChatPeople(c, id);
        LastContactCat(ConversationWrites(c), SnapshotWrites(cs[1..]), id);
        PeopleCat([c], Present(cs[1..]));
        LastWithCat(People([c]), People(Present(cs[1..])), IsPerson(id));
      } else {
        assert [] + SnapshotWrites(cs[1..]) == SnapshotWrites(cs[1..]) && [] + Present(cs[1..]) == Present(cs[1..]);
      }
    } else {
      assert People([]) == [] by {
        NoPeople();
      }
    }
  }

  lemma NoPeople()
    ensures People([]) == []
  {
  }

  lemma EventPeople(e: Event, id: string)
    ensures LastContact(EventWrites(e), id) == PersonRow(LastWith(People(Described(e)), IsPerson(id)))
  {
    hide ConversationWrites, SnapshotWrites, ParticipantRow, Present, People;
    NoPeople();
    match e
    case ClientReady(cs) =>
      SnapshotPeople(cs, id);
      NoContactsNoLast([Mark(ZERO_TIME)], id);
      LastContactCat(SnapshotWrites(cs), [Mark(ZERO_TIME)], id);
    case ConversationChanged(c) => ChatPeople(c, id);
    case _ => NoContactsNoLast(EventWrites(e), id);
  }

  lemma {:induction false} LastPeople(es: seq<Timely>, id: string)
    ensures LastContact(Untimed(Flat(es)), id) == PersonRow(LastWith(People(AllDescribed(Events(es))), IsPerson(id)))
    decreases |es|
  {
    hide EventWrites, ParticipantRow, Described, People;
    if es != [] {
      var e := es[0].event;
      LastPeople(es[1..], id);
      UntimedStamp(EventWrites(e), es[0].now, Flat(es[1..]));
      LastContactCat(EventWrites(e), Untimed(Flat(es[1..])), id);
      EventPeople(e, id);
      assert Events(es)[0] == e && Events(es)[1..] == Events(es[1..]);
      PeopleCat(Described(e), AllDescribed(Events(es[1..])));
      LastWithCat(People(Described(e)), People(AllDescribed(Events(es[1..]))), IsPerson(id));
    } else {
      NoPeople();
    }
  }

  lemma PersonSays(p: Participant)
    ensures SaysPerson(ParticipantRow(p), p)
  {
  }

  /** After any events, a contact row says what the last description of the person said; and
      it is as it was if there was none. */
  lemma {:induction false} PeopleSayTheLast(db: Db, es: seq<Timely>, id: string)
    ensures var t, people := HandleAll(db, es), People(AllDescribed(Events(es)));
      && (forall p :: IsLast(people, IsPerson(id), p) ==> id in t.contacts && SaysPerson(t.contacts[id].value, p))
      && ((forall j :: 0 <= j < |people| ==> !IsPerson(id)(people[j])) ==> ContactOf(t, id) == ContactOf(db, id))
  {
    hide HandleAll, ApplyAll, Flat, ParticipantRow, SaysPerson, LastContact, People, AllDescribed;
    HandledIsApplied(db, es);
    LastContactWins(db, Flat(es), id);
    LastPeople(es, id);
    var people := People(AllDescribed(Events(es)));
    LastWithIs(people, IsPerson(id));
    forall p | IsLast(people, IsPerson(id), p) ensures SaysPerson(ParticipantRow(p), p) {
      PersonSays(p);
    }
  }

  // ---- the address book ----

  function Books(id: string): Option<ProtoContact> -> bool {
    (c: Option<ProtoContact>) => c.Some? && c.value.participantId == id && id != ""
  }

  lemma OneEntry(c: Option<ProtoContact>, id: string)
    ensures LastContact(AddressBookWrites([c]), id) == if Books(id)(c) then Some(ContactRow(c.value)) else None
  {
    assert [c][1..] == [];
    if c.Some? && c.value.participantId != "" {
      assert AddressBookWrites([c]) == [PutContact(ContactRow(c.value))];
      assert [PutContact(ContactRow(c.value))][1..] == [];
    }
  }

  lemma FirstEntry(cs: seq<Option<ProtoContact>>)
    requires cs != []
    ensures AddressBookWrites(cs) == AddressBookWrites([cs[0]]) + AddressBookWrites(cs[1..])
  {
    assert [cs[0]][1..] == [];
  }

  lemma NoEntries(id: string)
    ensures LastContact(AddressBookWrites([]), id) == None
  {
  }

  lemma {:induction false} LastEntry(cs: seq<Option<ProtoContact>>, id: string)
    ensures LastContact(AddressBookWrites(cs), id) ==
      var last := LastWith(cs, Books(id)); if last.Some? && last.value.Some? then Some(ContactRow(last.value.value)) else None
  {
    hide ContactRow, AddressBookWrites, LastContact;
    if cs == [] {
      NoEntries(id);
    } else {
      LastEntry(cs[1..], id);
      OneEntry(cs[0], id);
      FirstEntry(cs);
      LastContactCat(AddressBookWrites([cs[0]]), AddressBookWrites(cs[1..]), id);
      FoundHas(cs[1..], Books(id));
    }
  }

  /** After the address book came in, a contact row says what the last entry of its id said,
      the first of its numbers if it has two. */
  lemma {:induction false} EntriesSayTheLast(db: Db, cs: seq<Option<ProtoContact>>, now: int, id: string)
    ensures var t := Written(db, AddressBookWrites(cs), now);
      forall c :: IsLast(cs, Books(id), c) ==> id in t.contacts && SaysEntry(t.contacts[id].value, c.value)
  {
    hide Written, AddressBookWrites, LastContact, SaysEntry, ContactRow;
    var ws := AddressBookWrites(cs);
    WrittenIsApplied(db, ws, now, []);
    UntimedStamp(ws, now, []);
    assert Stamp(ws, now) + [] == Stamp(ws, now) && ws + [] == ws;
    LastContactWins(db, Stamp(ws, now), id);
    assert ApplyAll(Written(db, ws, now), []) == Written(db, ws, now);
    LastEntry(cs, id);
    LastWithIs(cs, Books(id));
    forall c | IsLast(cs, Books(id), c) ensures SaysEntry(ContactRow(c.value), c.value) {
      EntrySays(c.value);
    }
  }

  lemma EntrySays(c: ProtoContact)
    ensures SaysEntry(ContactRow(c), c)
  {
  }
}
