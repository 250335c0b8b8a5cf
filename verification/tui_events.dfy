/** What the daemon's events do to the terminal client, part by part. */
module TuiEvents {
  import opened Common
  import opened Tui
  import opened TuiRuns

  // ---- messages ----

  /** The selection for a list that has just come: the message that was looked for, or the
      last one. */
  ghost predicate Lands(messages: seq<Message>, anchor: Option<string>, sel: Option<nat>) {
    if messages == [] then sel == None
    else
      && sel.Some? && sel.value < |messages|
      && if anchor.Some? && (exists i :: 0 <= i < |messages| && messages[i].id == anchor.value)
         then messages[sel.value].id == anchor.value else sel.value == |messages| - 1
  }

  lemma AnchorLands(s: State)
    ensures Lands(s.messages, s.anchor, AnchorSelected(s).msgSel)
    ensures AnchorSelected(s) == s.(msgSel := AnchorSelected(s).msgSel)
  {
  }

  /** A list of messages is taken for the current chat and no other; the surroundings of a
      message make its chat current and are always taken. */
  lemma {:induction false} ListsLand(p: Platform, s: State, id: string, messages: seq<Message>, anchor: string)
    ensures var t := Handled(p, s, Messages(id, messages));
      if s.currentChat == Some(id)
      then t == s.(messages := messages, msgSel := t.msgSel) && Lands(messages, s.anchor, t.msgSel) else t == s
    ensures var t := Handled(p, s, ContextReady(anchor, id, messages));
      && t == s.(currentChat := Some(id), messages := messages, anchor := Some(anchor), focus := MessageList, msgSel := t.msgSel)
      && Lands(messages, Some(anchor), t.msgSel)
  {
    hide AnchorSelected, Lands;
    AnchorLands(s.(messages := messages));
    AnchorLands(s.(currentChat := Some(id), messages := messages, anchor := Some(anchor), focus := MessageList));
  }

  /** The last message is selected, or none. */
  predicate AtBottom(s: State) {
    s.msgSel.None? || s.msgSel == Some(if s.messages == [] then 0 else |s.messages| - 1)
  }

  /** From the bottom of the list the selection goes to the new bottom; from further up it
      stays; and a message of another chat leaves the list on screen alone. */
  lemma {:induction false} NewMessageSelection(p: Platform, s: State, m: Message, isOld: bool)
    ensures var t := Handled(p, s, NewMessage(m, isOld));
      && (s.currentChat != Some(m.conversationId) ==> t.messages == s.messages && t.msgSel == s.msgSel)
      && (s.currentChat == Some(m.conversationId) ==>
            t.messages != [] && t.msgSel == if AtBottom(s) then Some(|t.messages| - 1) else s.msgSel)
  {
    hide ChatTouched, Sorted;
    TouchKeeps(p, s, m, isOld);
    SortedHas(s.messages + [m]);
  }

  lemma TouchKeeps(p: Platform, s: State, m: Message, isOld: bool)
    ensures var t := ChatTouched(p, s, m, isOld);
      && t == s.(chats := t.chats, chatSel := t.chatSel, omni := t.omni, calls := t.calls)
      && t.omni == s.omni.(chatResults := t.omni.chatResults)
  {
    hide ChatsSorted, RecentsRefreshed;
    var at := Find(s.chats, (c: Conversation) => c.id == m.conversationId);
    if at < |s.chats| {
      var c := s.chats[at];
      var u := s.(chats := s.chats[at := if m.timestampMs > c.lastMs then c.(lastMs := m.timestampMs) else c]);
      ChatsSortedHas(u);
      RecentsKeepChats(p, ChatsSorted(u));
    }
  }

  lemma SortedHas(ms: seq<Message>)
    ensures |Sorted(ms, MessageBefore)| == |ms|
  {
    SortedIs(ms, MessageBefore);
    assert |multiset(Sorted(ms, MessageBefore))| == |multiset(ms)|;
  }

  // ---- chats ----

  /** The time of a chat after a message in it: that of the message if it is later. */
  predicate TimeAfter(c: Conversation, m: Message, d: Conversation) {
    d.id == c.id && d.name == c.name && d.pinned == c.pinned && d.lastMs == if m.timestampMs > c.lastMs then m.timestampMs else c.lastMs
  }

  ghost predicate FirstOf(chats: seq<Conversation>, id: string, at: int) {
    0 <= at < |chats| && chats[at].id == id && forall i :: 0 <= i < at ==> chats[i].id != id
  }

  /** The chats after an event: those that came; with the changed one in its place, or added;
      or with the time of a message's chat moved on. */
  ghost predicate ChatsBecome(s: State, e: Event, chats: seq<Conversation>) {
    match e
    case Chats(list) => multiset(chats) == multiset(list)
    case NewConversation(conv) =>
      && (forall at :: FirstOf(s.chats, conv.id, at) ==> multiset(chats) == multiset(s.chats[at := conv]))
      && ((forall i :: 0 <= i < |s.chats| ==> s.chats[i].id != conv.id) ==> multiset(chats) == multiset(s.chats) + multiset{conv})
    case NewMessage(m, _) =>
      && (forall at :: FirstOf(s.chats, m.conversationId, at) ==>
            exists d :: TimeAfter(s.chats[at], m, d) && multiset(chats) == multiset(s.chats[at := d]))
      && ((forall i :: 0 <= i < |s.chats| ==> s.chats[i].id != m.conversationId) ==> chats == s.chats)
    case _ => chats == s.chats
  }

  lemma FirstIs(chats: seq<Conversation>, id: string)
    ensures var at := Find(chats, (c: Conversation) => c.id == id);
      if at < |chats| then FirstOf(chats, id, at) && (forall k :: FirstOf(chats, id, k) ==> k == at)
      else forall i :: 0 <= i < |chats| ==> chats[i].id != id
  {
  }

  lemma ChatsSortedHas(s: State)
    ensures multiset(ChatsSorted(s).chats) == multiset(s.chats)
    ensures var t := ChatsSorted(s); t == s.(chats := t.chats, chatSel := t.chatSel)
  {
    SortedIs(s.chats, ChatBefore);
  }

  lemma RecentsKeepChats(p: Platform, s: State)
    ensures RecentsRefreshed(p, s) == s.(omni := s.omni.(chatResults := RecentsRefreshed(p, s).omni.chatResults))
  {
    hide LocalMatches;
  }

  lemma {:induction false} ChatsAfter(p: Platform, s: State, e: Event)
    requires e.Chats? || e.NewConversation? || e.NewMessage?
    ensures ChatsBecome(s, e, Handled(p, s, e).chats)
  {
    hide ChatsBecome, ChatsCame, ConversationUpdated, MessageCame;
    match e
    case Chats(list) => ListBecomes(p, s, list);
    case NewConversation(conv) => ConversationBecomes(p, s, conv);
    case NewMessage(m, isOld) => MessageMovesChat(p, s, m, isOld);
  }

  lemma ListBecomes(p: Platform, s: State, list: seq<Conversation>)
    ensures ChatsBecome(s, Chats(list), ChatsCame(p, s, list).chats)
  {
    hide ChatsSorted, RecentsRefreshed;
    ChatsSortedHas(s.(chats := list));
    var t := ChatsSorted(s.(chats := list));
    RecentsKeepChats(p, if t.chatSel.None? && t.chats != [] then t.(chatSel := Some(0)) else t);
  }

  lemma ConversationBecomes(p: Platform, s: State, conv: Conversation)
    ensures ChatsBecome(s, NewConversation(conv), ConversationUpdated(p, s, conv).chats)
  {
    hide ChatsSorted, RecentsRefreshed, FirstOf;
    FirstIs(s.chats, conv.id);
    var at := Find(s.chats, (c: Conversation) => c.id == conv.id);
    var chats := if at < |s.chats| then s.chats[at := conv] else s.chats + [conv];
    ChatsSortedHas(s.(chats := chats));
    RecentsKeepChats(p, ChatsSorted(s.(chats := chats)));
    FirstIsThere(s.chats, conv.id);
  }

  lemma FirstIsThere(chats: seq<Conversation>, id: string)
    ensures (forall i :: 0 <= i < |chats| ==> chats[i].id != id) ==> forall at :: !FirstOf(chats, id, at)
    ensures forall at :: FirstOf(chats, id, at) ==> 0 <= at < |chats| && chats[at].id == id
  {
  }

  lemma MessageMovesChat(p: Platform, s: State, m: Message, isOld: bool)
    ensures ChatsBecome(s, NewMessage(m, isOld), MessageCame(p, s, m, isOld).chats)
  {
    hide ChatsSorted, RecentsRefreshed, FirstOf, MessageShown;
    FirstIs(s.chats, m.conversationId);
    FirstIsThere(s.chats, m.conversationId);
    var at := Find(s.chats, (c: Conversation) => c.id == m.conversationId);
    if at < |s.chats| {
      var c := s.chats[at];
      var d := if m.timestampMs > c.lastMs then c.(lastMs := m.timestampMs) else c;
      assert TimeAfter(c, m, d);
      ChatsSortedHas(s.(chats := s.chats[at := d]));
      RecentsKeepChats(p, ChatsSorted(s.(chats := s.chats[at := d])));
    }
    ShownKeepsChats(ChatTouched(p, s, m, isOld), m);
  }

  lemma ShownKeepsChats(s: State, m: Message)
    ensures MessageShown(s, m).chats == s.chats
  {
  }

  /** When a list of chats comes, the first is selected if none was; otherwise the selection
      goes with the chat that is at its place in the list that came. */
  lemma {:induction false} ChatSelectionAfter(p: Platform, s: State, list: seq<Conversation>)
    ensures var t := Handled(p, s, Chats(list));
      && (s.chatSel == None ==> t.chatSel == if list == [] then None else Some(0))
      && (s.chatSel.Some? && s.chatSel.value < |list| ==>
            t.chatSel.Some? && t.chatSel.value < |t.chats| && t.chats[t.chatSel.value].id == list[s.chatSel.value].id)
      && (s.chatSel.Some? && s.chatSel.value >= |list| ==> t.chatSel == s.chatSel)
  {
    hide ChatsSorted, RecentsRefreshed;
    var u := s.(chats := list);
    var t := ChatsSorted(u);
    SortingChats(u);
    ChatsSortedHas(u);
    assert |multiset(t.chats)| == |multiset(list)|;
    RecentsKeepChats(p, if t.chatSel.None? && t.chats != [] then t.(chatSel := Some(0)) else t);
  }

  /** With an empty query the search screen of t shows its chats; else it is that of s. */
  predicate ShowsRecents(p: Platform, s: State, t: State) {
    if s.focus == OmniBox && p.trim(s.omni.input) == ""
    then t.omni.chatResults == (if |t.chats| <= 50 then t.chats else t.chats[..50])
    else t.omni == s.omni
  }

  lemma RecentsAre(p: Platform, s: State, u: State)
    requires u.focus == s.focus && u.omni == s.omni
    ensures ShowsRecents(p, s, RecentsRefreshed(p, u))
  {
  }

  lemma ListShowsRecents(p: Platform, s: State, list: seq<Conversation>)
    ensures ShowsRecents(p, s, ChatsCame(p, s, list))
  {
    hide ChatsSorted, RecentsRefreshed, ShowsRecents;
    ChatsSortedHas(s.(chats := list));
    var t := ChatsSorted(s.(chats := list));
    RecentsAre(p, s, if t.chatSel.None? && t.chats != [] then t.(chatSel := Some(0)) else t);
  }

  lemma ConversationShowsRecents(p: Platform, s: State, conv: Conversation)
    ensures ShowsRecents(p, s, ConversationUpdated(p, s, conv))
  {
    hide ChatsSorted, RecentsRefreshed, ShowsRecents;
    var at := Find(s.chats, (c: Conversation) => c.id == conv.id);
    var chats := if at < |s.chats| then s.chats[at := conv] else s.chats + [conv];
    ChatsSortedHas(s.(chats := chats));
    RecentsAre(p, s, ChatsSorted(s.(chats := chats)));
  }

  /** With an empty query the search screen shows the chats as they are after any event that
      changes them. */
  lemma {:induction false} RecentsFollow(p: Platform, s: State, e: Event)
    requires e.Chats? || e.NewConversation?
    ensures ShowsRecents(p, s, Handled(p, s, e))
  {
    hide ChatsCame, ConversationUpdated, ShowsRecents;
    if e.Chats? {
      ListShowsRecents(p, s, e.chats);
    } else {
      ConversationShowsRecents(p, s, e.conv);
    }
  }

  // ---- approvals ----

  /** The approvals after an event: the list that came; the new one on top, and not twice;
      those that are left. */
  ghost predicate ApprovalsBecome(s: State, e: Event, list: seq<Approval>) {
    match e
    case Approvals(came) => list == came
    case Requested(a) =>
      list != [] && list[0] == a && forall x :: x in list[1..] <==> x in s.approvals && x.id != a.id
    case Resolved(id) => forall x :: x in list <==> x in s.approvals && x.id != id
    case _ => list == s.approvals
  }

  lemma {:induction false} LeftOver(xs: seq<Approval>, id: string, x: Approval)
    ensures x in Tui.Without(xs, id) <==> x in xs && x.id != id
  {
    if xs != [] {
      LeftOver(xs[1..], id, x);
      assert xs == [xs[0]] + xs[1..];
    }
  }

  lemma {:induction false} ApprovalsAfter(p: Platform, s: State, e: Event)
    requires e.Approvals? || e.Requested? || e.Resolved?
    ensures ApprovalsBecome(s, e, Handled(p, s, e).approvals)
    ensures var t := Handled(p, s, e);
      && t == s.(approvals := t.approvals, approvalSel := t.approvalSel)
      && (e.Requested? && s.approvalSel.Some? ==> t.approvalSel == s.approvalSel)
      && (s.approvalSel.Some? && s.approvalSel.value < |t.approvals| ==> t.approvalSel == s.approvalSel)
      && (s.approvalSel.Some? && s.approvalSel.value >= |t.approvals| && t.approvals != [] && !e.Requested? ==>
            t.approvalSel == Some(|t.approvals| - 1))
  {
    hide Tui.Without;
    if e.Requested? {
      forall x ensures x in Tui.Without(s.approvals, e.a.id) <==> x in s.approvals && x.id != e.a.id {
        LeftOver(s.approvals, e.a.id, x);
      }
      assert ([e.a] + Tui.Without(s.approvals, e.a.id))[1..] == Tui.Without(s.approvals, e.a.id);
    } else if e.Resolved? {
      forall x ensures x in Tui.Without(s.approvals, e.approvalId) <==> x in s.approvals && x.id != e.approvalId {
        LeftOver(s.approvals, e.approvalId, x);
      }
    }
  }

  // ---- previews, pairing and refreshes ----

  /** A preview that came is kept, and shown if it is the one wanted; and the kept ones are
      thrown away before it if there are more than two hundred. */
  lemma {:induction false} PreviewsAfter(p: Platform, s: State, preview: Preview)
    ensures var t := Handled(p, s, PreviewReady(preview));
      && preview.key in t.cache && t.cache[preview.key] == preview
      && (forall key :: key != preview.key ==>
            (key in t.cache <==> key in s.cache && |s.cache| <= 200) && (key in t.cache ==> t.cache[key] == s.cache[key]))
      && t.omni.preview == (if s.omni.previewKey == Some(preview.key) then Some(preview) else s.omni.preview)
      && t.omni.previewKey == s.omni.previewKey
  {
  }

  /** The answer to the latest search ends the search and brings its hits; the selection stays
      if there is still something at it, and is the last result otherwise. An older answer
      changes nothing. */
  lemma {:induction false} ResultsAfter(p: Platform, s: State, generation: nat, chats: seq<Conversation>, msgs: seq<Hit>)
    ensures var t := Handled(p, s, Results(generation, chats, msgs));
      && (generation != s.omni.generation ==> t == s)
      && (generation == s.omni.generation ==>
            var n := |t.omni.chatResults| + |msgs|;
            && t == s.(omni := t.omni) && !t.omni.searching && t.omni.msgResults == msgs
            && (s.omni.selected < n ==> t.omni.selected == s.omni.selected)
            && (0 < n <= s.omni.selected ==> t.omni.selected == n - 1) && (n == 0 ==> t.omni.selected == 0))
  {
    hide Merged;
  }

  lemma {:induction false} MergedFrom(have: seq<Conversation>, more: seq<Conversation>)
    ensures forall c :: c in Merged(have, more) ==> c in have || c in more
    decreases |more|
  {
    if more != [] && |have| < 50 {
      MergedFrom(have, more[1..]);
      MergedFrom(have + [more[0]], more[1..]);
    }
  }

  lemma ResultsMerge(p: Platform, s: State, chats: seq<Conversation>, msgs: seq<Hit>)
    ensures Handled(p, s, Results(s.omni.generation, chats, msgs)).omni.chatResults == Merged(s.omni.chatResults, chats)
  {
  }

  /** The daemon's chats go behind those found before, none a second time, as far as there is
      room for fifty; and nothing else does. */
  lemma {:induction false} ResultChatsAfter(p: Platform, s: State, chats: seq<Conversation>, msgs: seq<Hit>)
    requires |s.omni.chatResults| <= 50
    ensures var have, r := s.omni.chatResults, Handled(p, s, Results(s.omni.generation, chats, msgs)).omni.chatResults;
      && |have| <= |r| <= 50 && r[..|have|] == have && (DistinctChats(have) ==> DistinctChats(r))
      && (forall c :: c in r ==> c in have || c in chats)
      && (forall c :: c in chats ==> |r| == 50 || exists x :: x in r && x.id == c.id)
  {
    var have, r := s.omni.chatResults, Merged(s.omni.chatResults, chats);
    hide Merged, DistinctChats, Handled;
    ResultsMerge(p, s, chats, msgs);
    MergedGrows(have, chats);
    MergedFrom(have, chats);
    forall c | c in chats ensures |r| == 50 || exists x :: x in r && x.id == c.id {
      var k :| 0 <= k < |chats| && chats[k] == c;
      MergedCovers(have, chats, k);
      if |r| != 50 {
        var i :| 0 <= i < |r| && r[i].id == c.id;
        assert r[i] in r;
      }
    }
  }

  /** Pairing goes through its stages only while it is open. */
  lemma {:induction false} PairingAfter(p: Platform, s: State, stage: Stage)
    ensures var t := Handled(p, s, PairStage(stage));
      && t == s.(pairing := t.pairing)
      && (s.pairing.None? ==> t.pairing == None)
      && (s.pairing.Some? ==> t.pairing == Some(Pairing(stage, s.pairing.value.input)))
  {
  }

  /** A refresh of the data closes pairing that has succeeded; both a refresh and a
      reconnection forget the previews. */
  lemma {:induction false} RefreshesAfter(p: Platform, s: State)
    ensures var t := Handled(p, s, DataRefreshed);
      && t.cache == map[]
      && t.pairing == (if s.pairing.Some? && s.pairing.value.stage == Succeeded then None else s.pairing)
      && t.currentChat == s.currentChat && t.anchor == (if s.currentChat.Some? then None else s.anchor)
    ensures Handled(p, s, Reconnected) == s.(cache := map[], calls := Handled(p, s, Reconnected).calls)
  {
    RefreshedIs(s);
    hide Refreshed;
  }

  lemma RefreshedIs(s: State)
    ensures var t := Refreshed(s);
      && t.cache == map[]
      && t.pairing == (if s.pairing.Some? && s.pairing.value.stage == Succeeded then None else s.pairing)
      && t.currentChat == s.currentChat && t.anchor == (if s.currentChat.Some? then None else s.anchor)
  {
  }

  lemma DispatchedIs(p: Platform, s: State)
    ensures var u := if s.omni.dirty then Dispatched(p, s.(omni := s.omni.(dirty := false))) else s;
      && u == s.(omni := u.omni, calls := u.calls)
      && u.omni == s.omni.(dirty := false, generation := u.omni.generation, searching := u.omni.searching)
      && u.omni.generation == (if s.omni.dirty then s.omni.generation + 1 else s.omni.generation)
      && u.omni.searching == (s.omni.searching || (s.omni.dirty && |p.trim(s.omni.input)| >= 2))
  {
  }

  /** A tick sends a due search under the next generation, and on the search screen brings the
      preview of the selection, from those kept if it is there. */
  lemma {:induction false} TickAfter(p: Platform, s: State)
    ensures var t := Ticked(p, s);
      && !t.omni.dirty && t.omni.generation == (if s.omni.dirty then s.omni.generation + 1 else s.omni.generation)
      && t.omni.searching == (s.omni.searching || (s.omni.dirty && |p.trim(s.omni.input)| >= 2))
      && (s.focus == OmniBox ==> t.omni.previewKey == KeyOfSelection(s.omni))
      && (s.focus == OmniBox && t.omni.previewKey != s.omni.previewKey ==>
            t.omni.preview == if t.omni.previewKey.Some? && t.omni.previewKey.value in s.cache
                              then Some(s.cache[t.omni.previewKey.value]) else None)
      && (s.focus != OmniBox || t.omni.previewKey == s.omni.previewKey ==> t.omni.preview == s.omni.preview)
  {
    hide KeyOfSelection;
    var u := if s.omni.dirty then Dispatched(p, s.(omni := s.omni.(dirty := false))) else s;
    DispatchedIs(p, s);
    SameKey(u.omni, s.omni);
    hide Dispatched, Query;
  }

  lemma SameKey(a: Omni, b: Omni)
    ensures a.chatResults == b.chatResults && a.msgResults == b.msgResults && a.selected == b.selected ==>
      KeyOfSelection(a) == KeyOfSelection(b)
  {
  }

  /** The client starts on an empty search screen, with nothing open and nothing asked, and
      does nothing about its search until something is typed. */
  lemma StartsEmpty(p: Platform)
    requires p.trim("") == ""
    ensures var s := Launch().app;
      && s.focus == OmniBox && OpenOverlays(s) == 0 && Screen(s) && !s.quit && s.currentChat == None
      && s.calls == [] && s.chats == [] && s.messages == [] && s.approvals == []
      && s.omni.input == "" && s.omni.chatResults == [] && s.omni.msgResults == [] && s.omni.selected == 0
      && Handled(p, s, Tick) == s
  {
  }
}
