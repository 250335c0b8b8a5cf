/** What every run of the terminal client keeps, whatever keys are pressed and in
    whatever order the daemon's replies and events arrive. */
module TuiRuns {
  import opened Common
  import opened Tui

  // ---- lists ----

  ghost predicate Ordered<T(!new)>(xs: seq<T>, before: (T, T) -> bool) {
    forall i, j :: 0 <= i < j < |xs| ==> before(xs[i], xs[j])
  }

  ghost predicate Preorder<T(!new)>(before: (T, T) -> bool) {
    && (forall a, b :: before(a, b) || before(b, a))
    && (forall a, b, c :: before(a, b) && before(b, c) ==> before(a, c))
  }

  lemma {:induction false} InsertedIs<T(!new)>(xs: seq<T>, x: T, before: (T, T) -> bool)
    requires Preorder(before) && Ordered(xs, before)
    ensures Ordered(Inserted(xs, x, before), before) && multiset(Inserted(xs, x, before)) == multiset(xs) + multiset{x}
  {
    if xs != [] {
      var init, last := xs[..|xs| - 1], xs[|xs| - 1];
      assert xs == init + [last];
      if !before(last, x) {
        InsertedIs(init, x, before);
        var r := Inserted(init, x, before);
        forall i | 0 <= i < |r| ensures before(r[i], last) {
          assert r[i] in multiset(r);
        }
      }
    }
  }

  lemma {:induction false} SortedIs<T(!new)>(xs: seq<T>, before: (T, T) -> bool)
    requires Preorder(before)
    ensures Ordered(Sorted(xs, before), before) && multiset(Sorted(xs, before)) == multiset(xs)
  {
    if xs != [] {
      assert xs == xs[..|xs| - 1] + [xs[|xs| - 1]];
      SortedIs(xs[..|xs| - 1], before);
      InsertedIs(Sorted(xs[..|xs| - 1], before), xs[|xs| - 1], before);
    }
  }

  /** The list is put in order, pinned chats first and then the most recent, nothing
      is lost, and the selection stays on a chat of the same id. */
  lemma SortingChats(s: State)
    ensures var t := ChatsSorted(s);
      && Ordered(t.chats, ChatBefore) && multiset(t.chats) == multiset(s.chats)
      && (Selected(s.chats, s.chatSel).Some? ==>
            Selected(t.chats, t.chatSel).Some? && Selected(t.chats, t.chatSel).value.id == Selected(s.chats, s.chatSel).value.id)
      && (Selected(s.chats, s.chatSel).None? ==> t.chatSel == s.chatSel)
  {
    hide Sorted;
    SortedIs(s.chats, ChatBefore);
    if Selected(s.chats, s.chatSel).Some? {
      var c, chats := s.chats[s.chatSel.value], Sorted(s.chats, ChatBefore);
      assert c in multiset(chats);
    }
  }

  // ---- worlds ----

  /** The client, the chat that was current when compose was last entered, and the
      hits that came back for each search. */
  datatype World = World(app: State, composedFor: Option<string>, hits: map<nat, seq<Hit>>)

  ghost predicate Unique(approvals: seq<Approval>) {
    forall i, j :: 0 <= i < j < |approvals| ==> approvals[i].id != approvals[j].id
  }

  /** Each search is answered at most once, and one of two characters without hits,
      as the daemon is not asked for them. */
  ghost predicate Answerable(w: World, generation: nat, msgs: seq<Hit>) {
    generation !in w.hits && exists q :: Search(generation, q) in w.app.calls && (|q| < 3 ==> msgs == [])
  }

  /** What can happen: any key, any event, any answer to a search that was made. */
  ghost predicate Possible(w: World, e: Event) {
    && (e.Results? ==> Answerable(w, e.generation, e.msgs))
    && (e.Approvals? ==> Unique(e.approvals))
  }

  ghost function Step(p: Platform, w: World, e: Event): World {
    if !Possible(w, e) then w
    else
      var app := Handled(p, w.app, e);
      World(
        app,
        if app.focus == Compose && w.app.focus != Compose then app.currentChat else w.composedFor,
        if e.Results? then w.hits[e.generation := e.msgs] else w.hits)
  }

  ghost function Run(p: Platform, w: World, es: seq<Event>): World
    decreases |es|
  {
    if es == [] then w else Run(p, Step(p, w, es[0]), es[1..])
  }

  function Launch(): World {
    World(Start(), None, map[])
  }

  // ---- overlays and focus ----

  function One(b: bool): nat {
    if b then 1 else 0
  }

  function OpenOverlays(s: State): nat {
    One(s.pairing.Some?) + One(s.prompt.Some?) + One(s.showDoctor) + One(s.showApprovals)
  }

  predicate Screen(s: State) {
    && OpenOverlays(s) <= 1
    && (OpenOverlays(s) == 1 ==> s.focus == ChatList || s.focus == MessageList)
    && (s.focus == Compose ==> s.currentChat.Some? && (s.composeReturn == ChatList || s.composeReturn == MessageList))
    && (s.messagesBack == OmniBox || s.messagesBack == ChatList)
  }

  /** Only calls that neither send nor search are added. */
  ghost predicate Plain(was: seq<Call>, calls: seq<Call>) {
    && |was| <= |calls| && calls[..|was|] == was
    && forall i :: |was| <= i < |calls| ==> !calls[i].Search? && !calls[i].SendText?
  }

  lemma PlainMore(was: seq<Call>, more: seq<Call>)
    requires forall i :: 0 <= i < |more| ==> !more[i].Search? && !more[i].SendText?
    ensures Plain(was, was + more) && Plain(was, was)
  {
  }

  // ---- which parts of the state an event touches ----

  lemma RefreshFrame(p: Platform, s: State)
    ensures var t := RefreshedLocal(p, s);
      && t == s.(omni := t.omni) && t.omni.dirty
      && t.omni.input == s.omni.input && t.omni.generation == s.omni.generation
      && t.omni.previewKey == s.omni.previewKey && t.omni.preview == s.omni.preview
      && (|Query(p, s)| < 2 ==> t.omni.msgResults == [])
  {
    hide LocalMatches;
  }

  lemma SortedFrame(s: State)
    ensures var t := ChatsSorted(s); t == s.(chats := t.chats, chatSel := t.chatSel)
  {
    hide Sorted;
  }

  lemma RecentsFrame(p: Platform, s: State)
    ensures var t := RecentsRefreshed(p, s); t == s.(omni := s.omni.(chatResults := t.omni.chatResults))
  {
    hide LocalMatches, Query;
  }

  ghost predicate OnlyChats(s: State, t: State) {
    t == s.(chats := t.chats, chatSel := t.chatSel, omni := s.omni.(chatResults := t.omni.chatResults))
  }

  lemma ChatsFrame(p: Platform, s: State, chats: seq<Conversation>, conv: Conversation)
    ensures OnlyChats(s, ChatsCame(p, s, chats)) && OnlyChats(s, ConversationUpdated(p, s, conv))
  {
    hide ChatsSorted, RecentsRefreshed;
    var at := Find(s.chats, (c: Conversation) => c.id == conv.id);
    var updated := if at < |s.chats| then s.chats[at := conv] else s.chats + [conv];
    SortedFrame(s.(chats := chats));
    SortedFrame(s.(chats := updated));
    RecentsFrame(p, ChatsSorted(s.(chats := updated)));
    var t := ChatsSorted(s.(chats := chats));
    RecentsFrame(p, if t.chatSel.None? && t.chats != [] then t.(chatSel := Some(0)) else t);
  }

  lemma TouchFrame(p: Platform, s: State, m: Message, isOld: bool)
    ensures var t := ChatTouched(p, s, m, isOld); OnlyChats(s, t.(calls := s.calls)) && Plain(s.calls, t.calls)
  {
    hide ChatsSorted, RecentsRefreshed;
    var at := Find(s.chats, (c: Conversation) => c.id == m.conversationId);
    if at < |s.chats| {
      var c := s.chats[at];
      var u := s.(chats := s.chats[at := if m.timestampMs > c.lastMs then c.(lastMs := m.timestampMs) else c]);
      SortedFrame(u);
      RecentsFrame(p, ChatsSorted(u));
    }
  }

  lemma MessageFrame(p: Platform, s: State, m: Message, isOld: bool)
    ensures var t := MessageCame(p, s, m, isOld);
      OnlyChats(s, t.(calls := s.calls, messages := s.messages, msgSel := s.msgSel)) && Plain(s.calls, t.calls)
  {
    hide ChatTouched, Sorted, PlaceOf;
    TouchFrame(p, s, m, isOld);
  }

  lemma AnchorFrame(s: State)
    ensures var t := AnchorSelected(s); t == s.(msgSel := t.msgSel)
  {
    hide PlaceOf;
  }

  lemma ShownFrame(s: State, id: string, messages: seq<Message>)
    ensures var t := MessagesCame(s, id, messages); t == s.(messages := t.messages, msgSel := t.msgSel)
  {
    hide AnchorSelected;
    AnchorFrame(s.(messages := messages));
  }

  lemma PreviewFrame(s: State)
    ensures var t := PreviewSynced(s);
      t == s.(calls := t.calls, omni := s.omni.(previewKey := t.omni.previewKey, preview := t.omni.preview))
      && Plain(s.calls, t.calls)
  {
    hide KeyOfSelection, Plain;
    var key := KeyOfSelection(s.omni);
    if key.Some? {
      PlainMore(s.calls, [FetchPreview(key.value)]);
    } else {
      PlainMore(s.calls, []);
    }
  }

  lemma ApprovalsFrame(s: State, k: Key)
    ensures var t := ApprovalsKey(s, k);
      t == s.(calls := t.calls, approvalSel := t.approvalSel, showApprovals := t.showApprovals) && Plain(s.calls, t.calls)
      && (t.showApprovals ==> s.showApprovals)
  {
    hide Next, Prev, Plain, ResolveSelected;
    PlainMore(s.calls, [FetchApprovals]);
    ResolveFrame(s, true);
    ResolveFrame(s, false);
  }

  lemma ResolveFrame(s: State, approve: bool)
    ensures var t := ResolveSelected(s, approve); t == s.(calls := t.calls) && Plain(s.calls, t.calls)
  {
  }

  /** A key among the chats or messages moves a selection, quits or makes a call. */
  ghost predicate Minor(s: State, t: State) {
    t == s.(chatSel := t.chatSel, msgSel := t.msgSel, quit := t.quit, calls := t.calls) && Plain(s.calls, t.calls)
  }

  /** Or it opens an overlay that was closed. */
  ghost predicate Overlaid(s: State, t: State) {
    || t == ApprovalsOpened(s) || t == PairingStarted(s) || t == s.(showDoctor := true)
    || (t == s.(prompt := t.prompt) && t.prompt.Some?)
  }

  lemma OverlayForms(s: State, c: char)
    ensures Overlaid(s, OverlayOpened(s, c))
  {
    hide ApprovalsOpened, PairingStarted;
  }

  lemma PlainCalls(was: seq<Call>)
    ensures Plain(was, was) && Plain(was, was + [FetchChats, FetchStatus, Refresh])
    ensures forall m :: Plain(was, was + [Download(m)])
    ensures forall c :: Plain(was, was + [Backfill(c)])
  {
  }

  lemma MinorForms(s: State, sel: Option<nat>)
    ensures Minor(s, s) && Minor(s, s.(quit := true)) && Minor(s, s.(chatSel := sel)) && Minor(s, s.(msgSel := sel))
    ensures Minor(s, s.(calls := s.calls + [FetchChats, FetchStatus, Refresh]))
    ensures Minor(s, Downloading(s)) && Minor(s, Backfilling(s))
  {
    hide Plain;
    PlainCalls(s.calls);
  }

  lemma PromptForms(s: State)
    ensures Overlaid(s, Renaming(s)) || Minor(s, Renaming(s))
    ensures Overlaid(s, Reacting(s)) || Minor(s, Reacting(s))
  {
    hide Plain;
    PlainCalls(s.calls);
  }

  lemma ChatsCharForms(p: Platform, s: State, c: char)
    ensures var t := ChatsChar(p, s, c);
      || Minor(s, t) || Overlaid(s, t) || t == EnteredOmni(p, s) || t == ChatOpened(s) || t == ChatComposed(s)
  {
    hide EnteredOmni, ChatOpened, ChatComposed, OverlayOpened, Jumped, Jumps, Overlays, Minor, Overlaid, Renaming;
    MinorForms(s, Jumped(s.chatSel, |s.chats|, c));
    PromptForms(s);
    OverlayForms(s, c);
  }

  lemma ChatsKeyForms(p: Platform, s: State, k: Key)
    ensures var t := ChatsKey(p, s, k);
      || Minor(s, t) || Overlaid(s, t) || t == s.(focus := MessageList) || t == EnteredOmni(p, s)
      || t == ChatOpened(s) || t == ChatComposed(s)
  {
    hide EnteredOmni, ChatOpened, ChatComposed, ChatsChar, Next, Prev, Overlaid, Plain;
    PlainCalls(s.calls);
    if k.Char? {
      ChatsCharForms(p, s, k.c);
    }
  }

  lemma MessagesCharForms(p: Platform, s: State, c: char)
    ensures var t := MessagesChar(p, s, c);
      || Minor(s, t) || Overlaid(s, t) || t == EnteredOmni(p, s) || t == WentBack(p, s) || t == Reopened(s)
      || (s.currentChat.Some? && t == EnteredCompose(s, MessageList))
  {
    hide EnteredOmni, WentBack, OverlayOpened, Reopened, Jumped, Jumps, Overlays, EnteredCompose, Minor, Overlaid, Reacting,
      Downloading, Backfilling;
    MinorForms(s, Jumped(s.msgSel, |s.messages|, c));
    PromptForms(s);
    OverlayForms(s, c);
  }

  lemma MessagesKeyForms(p: Platform, s: State, k: Key)
    ensures var t := MessagesKey(p, s, k);
      || Minor(s, t) || Overlaid(s, t) || t == s.(focus := ChatList) || t == EnteredOmni(p, s) || t == WentBack(p, s)
      || t == Reopened(s) || (s.currentChat.Some? && t == EnteredCompose(s, MessageList))
  {
    hide EnteredOmni, WentBack, MessagesChar, Reopened, Next, Prev, Overlaid, Plain, EnteredCompose;
    PlainCalls(s.calls);
    if k.Char? {
      MessagesCharForms(p, s, k.c);
    }
  }

  // ---- frames of whole events ----

  /** What the search depends on is as it was, or waits for the next tick. */
  ghost predicate SameSearch(s: State, t: State) {
    && t.omni.generation == s.omni.generation
    && (t.omni.dirty ||
        (!s.omni.dirty && t.omni.input == s.omni.input && t.omni.searching == s.omni.searching
          && t.omni.msgResults == s.omni.msgResults))
  }

  predicate SamePreview(s: State, t: State) {
    t.omni.previewKey == s.omni.previewKey && t.omni.preview == s.omni.preview && (t.cache == s.cache || t.cache == map[])
  }

  predicate SameApprovals(s: State, t: State) {
    t.approvals == s.approvals && t.approvalSel == s.approvalSel
  }

  /** Composing keeps its chat, and is only ever taken up for a chat. */
  predicate SameCompose(s: State, t: State) {
    t.focus == Compose ==> t.currentChat.Some? && (s.focus == Compose ==> t.currentChat == s.currentChat)
  }

  /** An event that leaves the parts of the state to themselves. */
  ghost predicate Plainly(s: State, t: State) {
    && SameSearch(s, t) && SamePreview(s, t) && SameCompose(s, t) && Screen(t) && Plain(s.calls, t.calls)
  }

  // ---- keys ----

  predicate Clear(s: State) {
    Screen(s) && OpenOverlays(s) == 0 && (s.focus == ChatList || s.focus == MessageList)
  }

  lemma MinorIsPlain(s: State, t: State)
    requires Clear(s) && (Minor(s, t) || t == s.(focus := ChatList) || t == s.(focus := MessageList))
    ensures Plainly(s, t) && SameApprovals(s, t)
  {
    hide Plain;
    PlainCalls(s.calls);
  }

  lemma OverlaidIsPlain(s: State, t: State)
    requires Clear(s) && Overlaid(s, t)
    ensures Plainly(s, t) && SameApprovals(s, t)
  {
    hide Plain;
    PlainMore(s.calls, [FetchApprovals]);
  }

  lemma OmniIsPlain(p: Platform, s: State)
    requires Clear(s)
    ensures Plainly(s, EnteredOmni(p, s)) && SameApprovals(s, EnteredOmni(p, s))
  {
    hide Plain, RefreshedLocal;
    PlainCalls(s.calls);
    RefreshFrame(p, s.(focus := OmniBox));
  }

  lemma OpeningIsPlain(s: State)
    requires Clear(s)
    ensures Plainly(s, ChatOpened(s)) && SameApprovals(s, ChatOpened(s))
    ensures Plainly(s, Reopened(s)) && SameApprovals(s, Reopened(s))
  {
    hide Plain;
    PlainShow(s.calls);
  }

  lemma ComposingIsPlain(s: State)
    requires Clear(s)
    ensures Plainly(s, ChatComposed(s)) && SameApprovals(s, ChatComposed(s))
    ensures s.currentChat.Some? ==> Plainly(s, EnteredCompose(s, MessageList)) && SameApprovals(s, EnteredCompose(s, MessageList))
  {
    hide Plain;
    PlainShow(s.calls);
  }

  lemma PlainShow(was: seq<Call>)
    ensures Plain(was, was) && forall id :: Plain(was, was + [Show(id)])
  {
  }

  lemma ChatsKeyIsPlain(p: Platform, s: State, k: Key)
    requires Clear(s)
    ensures Plainly(s, ChatsKey(p, s, k)) && SameApprovals(s, ChatsKey(p, s, k))
  {
    hide Plainly, SameApprovals, ChatsKey, Clear, EnteredOmni, ChatOpened, ChatComposed, Minor, Overlaid;
    var t := ChatsKey(p, s, k);
    ChatsKeyForms(p, s, k);
    if Minor(s, t) || t == s.(focus := MessageList) {
      MinorIsPlain(s, t);
    } else if Overlaid(s, t) {
      OverlaidIsPlain(s, t);
    } else {
      OmniIsPlain(p, s);
      OpeningIsPlain(s);
      ComposingIsPlain(s);
    }
  }

  lemma MessagesKeyIsPlain(p: Platform, s: State, k: Key)
    requires Clear(s)
    ensures Plainly(s, MessagesKey(p, s, k)) && SameApprovals(s, MessagesKey(p, s, k))
  {
    hide Plainly, SameApprovals, MessagesKey, EnteredOmni, Reopened, EnteredCompose, Minor, Overlaid, OpenOverlays;
    var t := MessagesKey(p, s, k);
    MessagesKeyForms(p, s, k);
    if Minor(s, t) || t == s.(focus := ChatList) {
      MinorIsPlain(s, t);
    } else if Overlaid(s, t) {
      OverlaidIsPlain(s, t);
    } else {
      OmniIsPlain(p, s);
      OpeningIsPlain(s);
      ComposingIsPlain(s);
      if t == WentBack(p, s) && s.messagesBack == ChatList {
        MinorIsPlain(s, t);
      }
    }
  }

  lemma OmniKeyIsPlain(p: Platform, s: State, k: Key, edited: string)
    requires Screen(s) && s.focus == OmniBox
    ensures Plainly(s, OmniKey(p, s, k, edited)) && SameApprovals(s, OmniKey(p, s, k, edited))
  {
    hide Plainly, SameApprovals, Activated, Moved, Edited, Screen;
    EditedIsPlain(p, s, edited);
    ActivatedIsPlain(s);
    forall d {
      MovedIsPlain(s, d);
    }
  }

  lemma EditedIsPlain(p: Platform, s: State, edited: string)
    requires Screen(s) && s.focus == OmniBox
    ensures Plainly(s, Edited(p, s, edited)) && SameApprovals(s, Edited(p, s, edited))
  {
    hide Plain, RefreshedLocal;
    PlainCalls(s.calls);
    RefreshFrame(p, s.(omni := s.omni.(input := edited)));
  }

  lemma ActivatedIsPlain(s: State)
    requires Screen(s) && s.focus == OmniBox
    ensures Plainly(s, Activated(s)) && SameApprovals(s, Activated(s))
    ensures Plainly(s, s.(focus := ChatList)) && SameApprovals(s, s.(focus := ChatList))
  {
    hide Plain, Activated;
    PlainCalls(s.calls);
    ActivatedFrame(s);
  }

  lemma MovedIsPlain(s: State, delta: int)
    requires Screen(s) && s.focus == OmniBox
    ensures Plainly(s, Moved(s, delta)) && SameApprovals(s, Moved(s, delta))
  {
    hide Plain, Moved;
    PlainCalls(s.calls);
    MovedFrame(s, delta);
  }

  lemma MovedFrame(s: State, delta: int)
    ensures Moved(s, delta) == s.(omni := s.omni.(selected := Moved(s, delta).omni.selected))
  {
  }

  lemma ActivatedFrame(s: State)
    ensures var t := Activated(s);
      && Plain(s.calls, t.calls)
      && (t == s || t == s.(calls := t.calls, currentChat := t.currentChat, anchor := t.anchor, messagesBack := OmniBox, focus := MessageList))
  {
  }

  lemma PairingFrame(p: Platform, s: State, k: Key, edited: string)
    requires s.pairing.Some?
    ensures var t := PairingKey(p, s, k, edited); t == s.(pairing := t.pairing, calls := t.calls) && Plain(s.calls, t.calls)
  {
    hide Plain, CookiesSubmitted, Staged;
    PlainCalls(s.calls);
    PlainMore(s.calls, [PairQr]);
    StagedFrame(s);
    CookiesFrame(p, s);
  }

  lemma StagedFrame(s: State)
    ensures Staged(s, Waiting) == s.(pairing := Staged(s, Waiting).pairing)
  {
  }

  lemma CookiesFrame(p: Platform, s: State)
    requires s.pairing.Some?
    ensures var t := CookiesSubmitted(p, s); t == s.(pairing := t.pairing, calls := t.calls) && Plain(s.calls, t.calls)
  {
    hide Plain;
    PlainCalls(s.calls);
    PlainMore(s.calls, [PairGoogle(p.trim(s.pairing.value.input))]);
  }

  lemma PairingKeyIsPlain(p: Platform, s: State, k: Key, edited: string)
    requires Screen(s) && s.pairing.Some?
    ensures Plainly(s, PairingKey(p, s, k, edited)) && SameApprovals(s, PairingKey(p, s, k, edited))
  {
    hide Plain, PairingKey;
    PairingFrame(p, s, k, edited);
  }

  lemma PromptKeyIsPlain(p: Platform, s: State, k: Key, edited: string)
    requires Screen(s) && s.prompt.Some?
    ensures Plainly(s, PromptKey(p, s, k, edited)) && SameApprovals(s, PromptKey(p, s, k, edited))
  {
    hide Plain;
    PlainCalls(s.calls);
    var kind, value := s.prompt.value.kind, p.trim(s.prompt.value.input);
    match kind
    case Alias(id) => PlainMore(s.calls, [SetAlias(id, value), FetchChats]);
    case React(id) => PlainMore(s.calls, [SendReaction(id, value)]);
  }

  lemma ApprovalsKeyIsPlain(s: State, k: Key)
    requires Screen(s) && s.showApprovals
    ensures Plainly(s, ApprovalsKey(s, k))
  {
    hide Plain, ApprovalsKey;
    ApprovalsFrame(s, k);
  }

  /** Every key but those of the compose line. */
  lemma {:induction false} KeyIsPlain(p: Platform, s: State, k: Key, edited: string)
    requires Screen(s) && (s.focus != Compose || k == Char('c', true))
    ensures Plainly(s, KeyPressed(p, s, k, edited))
  {
    hide PairingKey, PromptKey, ApprovalsKey, OmniKey, ComposeKey, ChatsKey, MessagesKey, Plain;
    PlainCalls(s.calls);
    if k == Char('c', true) {
    } else if s.pairing.Some? {
      PairingKeyIsPlain(p, s, k, edited);
    } else if s.prompt.Some? {
      PromptKeyIsPlain(p, s, k, edited);
    } else if s.showDoctor {
    } else if s.showApprovals {
      ApprovalsKeyIsPlain(s, k);
    } else if s.focus == OmniBox {
      OmniKeyIsPlain(p, s, k, edited);
    } else if s.focus == ChatList {
      ChatsKeyIsPlain(p, s, k);
    } else {
      MessagesKeyIsPlain(p, s, k);
    }
  }

  // ---- events ----

  predicate Plainlike(e: Event) {
    !e.Press? && !e.Tick? && !e.Results? && !e.PreviewReady?
  }

  predicate ApprovalEvent(e: Event) {
    e.Approvals? || e.Requested? || e.Resolved?
  }

  lemma PasteIsPlain(p: Platform, s: State, edited: string)
    requires Screen(s)
    ensures Plainly(s, Pasted(p, s, edited)) && SameApprovals(s, Pasted(p, s, edited))
  {
    hide Plain, RefreshedLocal;
    PlainCalls(s.calls);
    RefreshFrame(p, s.(omni := s.omni.(input := edited)));
  }

  lemma ListEventIsPlain(p: Platform, s: State, e: Event)
    requires Screen(s) && (e.Chats? || e.NewConversation? || e.NewMessage? || e.Messages?)
    ensures Plainly(s, Handled(p, s, e)) && SameApprovals(s, Handled(p, s, e))
  {
    hide Plain, ChatsCame, ConversationUpdated, MessageCame, MessagesCame;
    PlainCalls(s.calls);
    match e
    case Chats(chats) => ChatsFrame(p, s, chats, Conversation("", "", false, 0));
    case NewConversation(conv) => ChatsFrame(p, s, [], conv);
    case NewMessage(m, isOld) => MessageFrame(p, s, m, isOld);
    case Messages(id, messages) => ShownFrame(s, id, messages);
  }

  lemma ContextIsPlain(s: State, anchor: string, id: string, messages: seq<Message>)
    requires Screen(s)
    ensures Plainly(s, ContextCame(s, anchor, id, messages)) && SameApprovals(s, ContextCame(s, anchor, id, messages))
  {
    hide Plain, AnchorSelected;
    PlainCalls(s.calls);
    AnchorFrame(s.(currentChat := Some(id), messages := messages, anchor := Some(anchor), focus := MessageList));
  }

  lemma RefreshedFrame(s: State)
    ensures var t := Refreshed(s);
      && t == s.(calls := t.calls, anchor := t.anchor, cache := map[], pairing := t.pairing)
      && Plain(s.calls, t.calls) && (t.pairing == s.pairing || t.pairing.None?)
  {
    hide Plain;
    PlainMore(s.calls, [FetchChats, FetchStatus]);
    if s.currentChat.Some? {
      PlainMore(s.calls, [FetchChats, FetchStatus, Show(s.currentChat.value)]);
      assert s.calls + [FetchChats, FetchStatus] + [Show(s.currentChat.value)]
          == s.calls + [FetchChats, FetchStatus, Show(s.currentChat.value)];
    }
  }

  lemma RefreshedIsPlain(s: State)
    requires Screen(s)
    ensures Plainly(s, Refreshed(s)) && SameApprovals(s, Refreshed(s))
  {
    hide Plain, Refreshed;
    RefreshedFrame(s);
  }

  lemma AdoptedIsPlain(s: State)
    requires Screen(s)
    ensures Plainly(s, Adopted(s)) && SameApprovals(s, Adopted(s))
  {
    hide Plain;
    PlainMore(s.calls, [FetchChats, FetchStatus, FetchApprovals, Refresh]);
  }

  lemma ApprovalEventIsPlain(p: Platform, s: State, e: Event)
    requires Screen(s) && (ApprovalEvent(e) || e.PairStage?)
    ensures Plainly(s, Handled(p, s, e)) && (e.PairStage? ==> SameApprovals(s, Handled(p, s, e)))
  {
    hide Plain, Tui.Without;
    PlainCalls(s.calls);
  }

  lemma EventIsPlain(p: Platform, s: State, e: Event)
    requires Screen(s) && Plainlike(e)
    ensures Plainly(s, Handled(p, s, e)) && (!ApprovalEvent(e) ==> SameApprovals(s, Handled(p, s, e)))
  {
    hide Plainly, SameApprovals, Screen, Pasted, ContextCame, Refreshed, Adopted;
    match e
    case Paste(edited) => PasteIsPlain(p, s, edited);
    case ContextReady(anchor, id, messages) => ContextIsPlain(s, anchor, id, messages);
    case DataRefreshed => RefreshedIsPlain(s);
    case Reconnected => AdoptedIsPlain(s);
    case Chats(_) => ListEventIsPlain(p, s, e);
    case NewConversation(_) => ListEventIsPlain(p, s, e);
    case NewMessage(_, _) => ListEventIsPlain(p, s, e);
    case Messages(_, _) => ListEventIsPlain(p, s, e);
    case _ => ApprovalEventIsPlain(p, s, e);
  }

  // ---- what is sent ----

  lemma ComposeKeyIs(p: Platform, s: State, k: Key, edited: string)
    requires Screen(s) && s.focus == Compose && k != Char('c', true)
    ensures var t, body := KeyPressed(p, s, k, edited), p.trim(s.composeInput);
      && t == s.(composeInput := t.composeInput, focus := t.focus, calls := t.calls)
      && t.calls == s.calls + (if k == Enter && body != "" then [SendText(s.currentChat.value, body)] else [])
      && t.focus == (if k == Esc || k == Enter then s.composeReturn else Compose)
  {
  }

  function Asked(p: Platform, s: State): seq<Call> {
    if s.omni.dirty && |Query(p, s)| >= 2 then [Search(s.omni.generation + 1, Query(p, s))] else []
  }

  /** The state before the preview is seen to. */
  function Searched(p: Platform, s: State): State {
    s.(calls := s.calls + Asked(p, s), omni := s.omni.(
      dirty := false, generation := if s.omni.dirty then s.omni.generation + 1 else s.omni.generation,
      searching := s.omni.searching || Asked(p, s) != []))
  }

  lemma TickIs(p: Platform, s: State)
    ensures Ticked(p, s) == if s.focus == OmniBox then PreviewSynced(Searched(p, s)) else Searched(p, s)
  {
    hide PreviewSynced;
    assert s.calls + [] == s.calls;
  }

  lemma TickFrame(p: Platform, s: State)
    ensures var t, u := Ticked(p, s), Searched(p, s);
      && t == u.(calls := t.calls, omni := u.omni.(previewKey := t.omni.previewKey, preview := t.omni.preview))
      && Plain(u.calls, t.calls)
  {
    hide PreviewSynced, Ticked, Searched, Plain;
    TickIs(p, s);
    PreviewFrame(Searched(p, s));
    PlainCalls(Searched(p, s).calls);
  }

  // ---- composing ----

  ghost predicate ComposeInv(w: World) {
    w.app.focus == Compose ==> w.app.currentChat.Some? && w.app.currentChat == w.composedFor
  }

  lemma KeepsCompose(p: Platform, w: World, e: Event)
    requires Screen(w.app) && ComposeInv(w)
    ensures ComposeInv(Step(p, w, e))
  {
    hide Plain, SameSearch, Possible, KeyPressed, Ticked, ResultsCame, PreviewCame, Query;
    var s := w.app;
    match e
    case Press(k, edited) =>
      if s.focus == Compose && k != Char('c', true) {
        ComposeKeyIs(p, s, k, edited);
      } else {
        KeyIsPlain(p, s, k, edited);
      }
    case Tick => TickFrame(p, s);
    case Results(g, chats, msgs) => ResultsFrame(s, g, chats, msgs);
    case PreviewReady(preview) => PreviewCameFrame(s, preview);
    case _ =>
      hide Handled;
      EventIsPlain(p, s, e);
  }

  lemma ResultsFrame(s: State, g: nat, chats: seq<Conversation>, msgs: seq<Hit>)
    ensures var t := ResultsCame(s, g, chats, msgs);
      && t == s.(omni := t.omni)
      && if g != s.omni.generation then t == s
         else t.omni == s.omni.(
           searching := false, msgResults := msgs, chatResults := t.omni.chatResults, selected := t.omni.selected)
  {
    hide Merged;
  }

  lemma PreviewCameFrame(s: State, preview: Preview)
    ensures var t := PreviewCame(s, preview); t == s.(cache := t.cache, omni := s.omni.(preview := t.omni.preview))
  {
  }

  // ---- searching ----

  ghost predicate SearchInv(p: Platform, s: State, hits: map<nat, seq<Hit>>) {
    var g, q := s.omni.generation, Query(p, s);
    && (forall i :: 0 <= i < |s.calls| && s.calls[i].Search? ==> s.calls[i].generation <= g)
    && (forall i, j :: 0 <= i < j < |s.calls| && s.calls[i].Search? && s.calls[j].Search? ==>
          s.calls[i].generation != s.calls[j].generation)
    && (forall k :: k in hits ==> k <= g)
    && (!s.omni.dirty && |q| >= 2 ==>
          && Search(g, q) in s.calls
          && (s.omni.searching <==> g !in hits)
          && (g in hits ==> s.omni.msgResults == hits[g]))
  }

  lemma SearchKept(p: Platform, s: State, t: State, hits: map<nat, seq<Hit>>)
    requires SearchInv(p, s, hits) && SameSearch(s, t) && Plain(s.calls, t.calls)
    ensures SearchInv(p, t, hits)
  {
    forall i | 0 <= i < |t.calls| && t.calls[i].Search? ensures i < |s.calls| && t.calls[i] == s.calls[i] {
      if i < |s.calls| {
        assert t.calls[..|s.calls|][i] == s.calls[i];
      }
    }
    if Search(s.omni.generation, Query(p, s)) in s.calls {
      var i :| 0 <= i < |s.calls| && s.calls[i] == Search(s.omni.generation, Query(p, s));
      assert t.calls[..|s.calls|][i] == s.calls[i];
    }
  }

  lemma SearchedKeeps(p: Platform, s: State, hits: map<nat, seq<Hit>>)
    requires SearchInv(p, s, hits)
    ensures SearchInv(p, Searched(p, s), hits)
  {
    var t := Searched(p, s);
    assert t.calls[..|s.calls|] == s.calls;
    if Asked(p, s) != [] {
      assert t.calls[|s.calls|] == Asked(p, s)[0];
    }
    assert Query(p, t) == Query(p, s);
  }

  lemma TickKeepsSearch(p: Platform, s: State, hits: map<nat, seq<Hit>>)
    requires SearchInv(p, s, hits)
    ensures SearchInv(p, Ticked(p, s), hits)
  {
    hide Ticked, Plain, SearchInv;
    SearchedKeeps(p, s, hits);
    TickFrame(p, s);
    SearchKept(p, Searched(p, s), Ticked(p, s), hits);
  }

  lemma ComposeKeepsSearch(p: Platform, s: State, k: Key, edited: string, hits: map<nat, seq<Hit>>)
    requires SearchInv(p, s, hits) && Screen(s) && s.focus == Compose && k != Char('c', true)
    ensures SearchInv(p, KeyPressed(p, s, k, edited), hits)
  {
    hide KeyPressed;
    var t := KeyPressed(p, s, k, edited);
    ComposeKeyIs(p, s, k, edited);
    assert Query(p, t) == Query(p, s);
  }

  lemma KeepsSearch(p: Platform, w: World, e: Event)
    requires Screen(w.app) && SearchInv(p, w.app, w.hits)
    ensures SearchInv(p, Step(p, w, e).app, Step(p, w, e).hits)
  {
    hide Plain, KeyPressed, Ticked, ResultsCame, PreviewCame, SearchInv, Screen;
    var s := w.app;
    match e
    case Press(k, edited) =>
      if s.focus == Compose && k != Char('c', true) {
        ComposeKeepsSearch(p, s, k, edited, w.hits);
      } else {
        KeyIsPlain(p, s, k, edited);
        SearchKept(p, s, KeyPressed(p, s, k, edited), w.hits);
      }
    case Tick => TickKeepsSearch(p, s, w.hits);
    case Results(g, chats, msgs) =>
      if Possible(w, e) {
        ResultsKeepSearch(p, w, g, chats, msgs);
      }
    case PreviewReady(preview) =>
      PreviewCameFrame(s, preview);
      PlainCalls(s.calls);
      SearchKept(p, s, PreviewCame(s, preview), w.hits);
    case _ =>
      hide Handled;
      EventIsPlain(p, s, e);
      SearchKept(p, s, Handled(p, s, e), w.hits);
  }

  lemma ResultsKeepSearch(p: Platform, w: World, g: nat, chats: seq<Conversation>, msgs: seq<Hit>)
    requires SearchInv(p, w.app, w.hits) && Answerable(w, g, msgs)
    ensures SearchInv(p, ResultsCame(w.app, g, chats, msgs), w.hits[g := msgs])
  {
    hide ResultsCame;
    ResultsFrame(w.app, g, chats, msgs);
    var q :| Search(g, q) in w.app.calls;
    assert Query(p, ResultsCame(w.app, g, chats, msgs)) == Query(p, w.app);
  }

  // ---- preview ----

  ghost predicate PreviewInv(s: State) {
    && (s.omni.preview.Some? ==> s.omni.previewKey == Some(s.omni.preview.value.key))
    && (forall k :: k in s.cache ==> s.cache[k].key == k)
  }

  lemma SyncKeepsPreview(s: State)
    requires PreviewInv(s)
    ensures PreviewInv(PreviewSynced(s))
  {
    hide KeyOfSelection, Plain;
    PreviewFrame(s);
  }

  lemma KeepsPreview(p: Platform, s: State, e: Event)
    requires Screen(s) && PreviewInv(s)
    ensures PreviewInv(Handled(p, s, e))
  {
    hide Plain, KeyPressed, Ticked, ResultsCame, PreviewSynced, SameSearch, SameCompose, Screen;
    match e
    case Press(k, edited) =>
      if s.focus == Compose && k != Char('c', true) {
        ComposeKeyIs(p, s, k, edited);
      } else {
        KeyIsPlain(p, s, k, edited);
      }
    case Tick =>
      TickIs(p, s);
      SyncKeepsPreview(Searched(p, s));
    case Results(g, chats, msgs) => ResultsFrame(s, g, chats, msgs);
    case PreviewReady(preview) =>
    case _ =>
      hide Handled;
      EventIsPlain(p, s, e);
  }

  // ---- approvals ----

  ghost predicate ApprovalInv(s: State) {
    && Unique(s.approvals)
    && (s.approvalSel.None? <==> s.approvals == [])
    && (s.approvalSel.Some? ==> s.approvalSel.value < |s.approvals|)
  }

  lemma {:induction false} WithoutIs(xs: seq<Approval>, id: string)
    requires Unique(xs)
    ensures var r := Tui.Without(xs, id);
      && Unique(r) && (forall a :: a in r <==> a in xs && a.id != id)
      && |xs| - 1 <= |r| <= |xs|
      && (|r| < |xs| <==> exists a :: a in xs && a.id == id)
    decreases |xs|
  {
    if xs != [] {
      WithoutIs(xs[1..], id);
      assert xs == [xs[0]] + xs[1..];
      if xs[0].id == id {
        NoOther(xs[1..], id);
      }
    }
  }

  lemma {:induction false} NoOther(xs: seq<Approval>, id: string)
    requires forall i :: 0 <= i < |xs| ==> xs[i].id != id
    ensures Tui.Without(xs, id) == xs
    decreases |xs|
  {
    if xs != [] {
      NoOther(xs[1..], id);
      assert xs == [xs[0]] + xs[1..];
    }
  }

  lemma ApprovalEventsKeep(s: State, a: Approval, id: string)
    requires ApprovalInv(s)
    ensures ApprovalInv(ApprovalRequested(s, a)) && ApprovalInv(ApprovalResolved(s, id))
  {
    hide Tui.Without;
    WithoutIs(s.approvals, a.id);
    WithoutIs(s.approvals, id);
  }

  lemma ApprovalKeysKeep(p: Platform, s: State, k: Key, edited: string)
    requires Screen(s) && ApprovalInv(s)
    ensures ApprovalInv(KeyPressed(p, s, k, edited))
  {
    hide PairingKey, PromptKey, OmniKey, ComposeKey, ChatsKey, MessagesKey, ApprovalsKey, Plainly;
    if k == Char('c', true) {
    } else if s.pairing.Some? {
      PairingKeyIsPlain(p, s, k, edited);
    } else if s.prompt.Some? {
      PromptKeyIsPlain(p, s, k, edited);
    } else if s.showDoctor {
    } else if s.showApprovals {
      SelectionKeys(s, k);
    } else if s.focus == OmniBox {
      OmniKeyIsPlain(p, s, k, edited);
    } else if s.focus == ChatList {
      ChatsKeyIsPlain(p, s, k);
    } else if s.focus == MessageList {
      MessagesKeyIsPlain(p, s, k);
    } else {
      ComposeKeyIs(p, s, k, edited);
    }
  }

  lemma SelectionKeys(s: State, k: Key)
    requires ApprovalInv(s)
    ensures ApprovalInv(ApprovalsKey(s, k))
  {
    hide ResolveSelected;
    ResolveFrame(s, true);
    ResolveFrame(s, false);
  }

  lemma KeepsApprovals(p: Platform, w: World, e: Event)
    requires Screen(w.app) && ApprovalInv(w.app) && Possible(w, e)
    ensures ApprovalInv(Handled(p, w.app, e))
  {
    hide Plain, KeyPressed, Ticked, ResultsCame, PreviewCame, ApprovalRequested, ApprovalResolved, SameSearch, SameCompose,
      Screen, Plainly;
    var s := w.app;
    match e
    case Press(k, edited) => ApprovalKeysKeep(p, s, k, edited);
    case Tick => TickFrame(p, s);
    case Results(g, chats, msgs) => ResultsFrame(s, g, chats, msgs);
    case PreviewReady(preview) => PreviewCameFrame(s, preview);
    case Approvals(approvals) =>
    case Requested(a) => ApprovalEventsKeep(s, a, "");
    case Resolved(id) => ApprovalEventsKeep(s, Approval("", ""), id);
    case _ =>
      hide Handled;
      EventIsPlain(p, s, e);
  }

  // ---- every run ----

  ghost predicate Inv(p: Platform, w: World) {
    Screen(w.app) && ComposeInv(w) && SearchInv(p, w.app, w.hits) && PreviewInv(w.app) && ApprovalInv(w.app)
  }

  lemma KeepsInv(p: Platform, w: World, e: Event)
    requires Inv(p, w)
    ensures Inv(p, Step(p, w, e))
  {
    hide Screen, ComposeInv, SearchInv, PreviewInv, ApprovalInv, Handled, Possible;
    KeepsCompose(p, w, e);
    KeepsSearch(p, w, e);
    if Possible(w, e) {
      KeepsScreen(p, w.app, e);
      KeepsPreview(p, w.app, e);
      KeepsApprovals(p, w, e);
    }
  }

  lemma KeepsScreen(p: Platform, s: State, e: Event)
    requires Screen(s)
    ensures Screen(Handled(p, s, e))
  {
    hide Plain, KeyPressed, Ticked, ResultsCame, PreviewCame, SameSearch;
    match e
    case Press(k, edited) =>
      if s.focus == Compose && k != Char('c', true) {
        ComposeKeyIs(p, s, k, edited);
      } else {
        KeyIsPlain(p, s, k, edited);
      }
    case Tick => TickFrame(p, s);
    case Results(g, chats, msgs) => ResultsFrame(s, g, chats, msgs);
    case PreviewReady(preview) => PreviewCameFrame(s, preview);
    case _ =>
      hide Handled;
      EventIsPlain(p, s, e);
  }

  lemma {:induction false} RunKeepsInv(p: Platform, w: World, es: seq<Event>)
    requires Inv(p, w)
    ensures Inv(p, Run(p, w, es))
    decreases |es|
  {
    hide Inv, Step;
    if es != [] {
      KeepsInv(p, w, es[0]);
      RunKeepsInv(p, Step(p, w, es[0]), es[1..]);
    }
  }

  lemma {:induction false} Reachable(p: Platform, es: seq<Event>)
    requires p.trim("") == ""
    ensures Inv(p, Run(p, Launch(), es))
  {
    hide Run;
    assert Inv(p, Launch());
    RunKeepsInv(p, Launch(), es);
  }

  /** At most one overlay is ever open, and one that is open covers the chats or the
      messages; composing always has a chat to send to. */
  lemma {:induction false} OverlaysExclude(p: Platform, es: seq<Event>)
    requires p.trim("") == ""
    ensures var s := Run(p, Launch(), es).app;
      && OpenOverlays(s) <= 1
      && (OpenOverlays(s) == 1 ==> s.focus == ChatList || s.focus == MessageList)
      && (s.focus == Compose ==> s.currentChat.Some?)
  {
    hide Run, ComposeInv, SearchInv, PreviewInv, ApprovalInv;
    Reachable(p, es);
  }

  /** A text goes out only when Enter is pressed in the compose line, with the trimmed
      text of that line, and to the chat that was current when composing began, which
      is still the current one, whatever has come in since. */
  lemma {:induction false} MessageGoesWhereComposed(p: Platform, es: seq<Event>, e: Event, i: nat)
    requires p.trim("") == ""
    ensures var w, v := Run(p, Launch(), es), Step(p, Run(p, Launch(), es), e);
      && |w.app.calls| <= |v.app.calls|
      && (|w.app.calls| <= i < |v.app.calls| && v.app.calls[i].SendText? ==>
            && e.Press? && e.k == Enter && w.app.focus == Compose
            && w.composedFor == w.app.currentChat == Some(v.app.calls[i].conversationId)
            && v.app.calls[i].body == p.trim(w.app.composeInput) != "")
  {
    hide Run, SearchInv, PreviewInv, ApprovalInv;
    Reachable(p, es);
    SendsOnlyFromCompose(p, Run(p, Launch(), es), e, i);
  }

  lemma {:induction false} SendsOnlyFromCompose(p: Platform, w: World, e: Event, i: nat)
    requires Screen(w.app) && ComposeInv(w)
    ensures var v := Step(p, w, e);
      && |w.app.calls| <= |v.app.calls|
      && (|w.app.calls| <= i < |v.app.calls| && v.app.calls[i].SendText? ==>
            && e.Press? && e.k == Enter && w.app.focus == Compose
            && w.composedFor == w.app.currentChat == Some(v.app.calls[i].conversationId)
            && v.app.calls[i].body == p.trim(w.app.composeInput) != "")
  {
    hide Possible, KeyPressed, Ticked, ResultsCame, PreviewCame, SameSearch, Query;
    var s := w.app;
    match e
    case Press(k, edited) =>
      if s.focus == Compose && k != Char('c', true) {
        ComposeKeyIs(p, s, k, edited);
      } else {
        KeyIsPlain(p, s, k, edited);
      }
    case Tick => TickFrame(p, s);
    case Results(g, chats, msgs) => ResultsFrame(s, g, chats, msgs);
    case PreviewReady(preview) => PreviewCameFrame(s, preview);
    case _ =>
      hide Handled;
      EventIsPlain(p, s, e);
  }

  /** For a query of two characters or more that has been dispatched, the client says
      it is searching exactly while the answer to that query is out, and afterwards
      shows that answer, however the answers to earlier queries were ordered. */
  lemma {:induction false} HitsAnswerTheQuery(p: Platform, es: seq<Event>)
    requires p.trim("") == ""
    ensures var w := Run(p, Launch(), es);
      var o, q := w.app.omni, Query(p, w.app);
      !o.dirty && |q| >= 2 ==>
        && Search(o.generation, q) in w.app.calls
        && (o.searching <==> o.generation !in w.hits)
        && (o.generation in w.hits ==> o.msgResults == w.hits[o.generation])
  {
    hide Run, Screen, ComposeInv, PreviewInv, ApprovalInv;
    Reachable(p, es);
  }

  /** A generation is never used for two searches, so an answer says which query it
      is for. */
  lemma {:induction false} GenerationsAreDistinct(p: Platform, es: seq<Event>, g: nat, q: string, r: string)
    requires p.trim("") == ""
    ensures var calls := Run(p, Launch(), es).app.calls;
      Search(g, q) in calls && Search(g, r) in calls ==> q == r
  {
    hide Run, Screen, ComposeInv, PreviewInv, ApprovalInv;
    Reachable(p, es);
    var calls := Run(p, Launch(), es).app.calls;
    if Search(g, q) in calls && Search(g, r) in calls {
      var i :| 0 <= i < |calls| && calls[i] == Search(g, q);
      var j :| 0 <= j < |calls| && calls[j] == Search(g, r);
    }
  }

  /** The preview pane never shows another result's thread. */
  lemma {:induction false} PreviewIsCurrent(p: Platform, es: seq<Event>)
    requires p.trim("") == ""
    ensures var o := Run(p, Launch(), es).app.omni; o.preview.Some? ==> o.previewKey == Some(o.preview.value.key)
  {
    hide Run, Screen, ComposeInv, SearchInv, ApprovalInv;
    Reachable(p, es);
  }

  /** While there are approvals one of them is selected, and otherwise none. */
  lemma {:induction false} ApprovalSelectionInRange(p: Platform, es: seq<Event>)
    requires p.trim("") == ""
    ensures var s := Run(p, Launch(), es).app;
      && (s.approvalSel.None? <==> s.approvals == [])
      && (s.approvalSel.Some? ==> s.approvalSel.value < |s.approvals|)
      && Unique(s.approvals)
  {
    hide Run, Screen, ComposeInv, SearchInv, PreviewInv;
    Reachable(p, es);
  }

  // ---- short queries ----

  /** The daemon's side of things: no keys, and no tick. */
  predicate FromDaemon(es: seq<Event>) {
    forall i :: 0 <= i < |es| ==> !es[i].Press? && !es[i].Paste? && !es[i].Tick?
  }

  ghost predicate Shrunk(p: Platform, s: State) {
    s.omni.dirty && |Query(p, s)| < 2
  }

  /** The hits on screen are those of the last search, if its answer came late. */
  ghost predicate Late(w: World, v: World) {
    var g := w.app.omni.generation;
    && v.app.omni.generation == g && v.app.omni.input == w.app.omni.input
    && (forall k :: k in w.hits ==> k in v.hits)
    && v.app.omni.msgResults == (if g in v.hits && g !in w.hits then v.hits[g] else w.app.omni.msgResults)
  }

  lemma LateStep(p: Platform, w: World, v: World, e: Event)
    requires Late(w, v) && Screen(v.app) && !e.Press? && !e.Paste? && !e.Tick? && v.app.omni.dirty
    ensures Late(w, Step(p, v, e)) && Step(p, v, e).app.omni.dirty
  {
    hide Plain, KeyPressed, Ticked, ResultsCame, PreviewCame, Screen, SameCompose, SamePreview;
    var s := v.app;
    match e
    case Results(g, chats, msgs) => ResultsFrame(s, g, chats, msgs);
    case PreviewReady(preview) => PreviewCameFrame(s, preview);
    case _ =>
      hide Handled;
      EventIsPlain(p, s, e);
      DaemonLeavesHits(p, s, e);
  }

  /** What a search is made of and shows. */
  predicate SameHits(s: State, t: State) {
    t.omni.input == s.omni.input && t.omni.msgResults == s.omni.msgResults && t.omni.dirty == s.omni.dirty
  }

  lemma ListEventLeavesHits(p: Platform, s: State, e: Event)
    requires e.Chats? || e.NewConversation? || e.NewMessage? || e.Messages?
    ensures SameHits(s, Handled(p, s, e))
  {
    hide ChatsCame, ConversationUpdated, MessageCame, MessagesCame, Plain;
    match e
    case Chats(chats) => ChatsFrame(p, s, chats, Conversation("", "", false, 0));
    case NewConversation(conv) => ChatsFrame(p, s, [], conv);
    case NewMessage(m, isOld) => MessageFrame(p, s, m, isOld);
    case Messages(id, messages) => ShownFrame(s, id, messages);
  }

  lemma RefreshLeavesHits(s: State)
    ensures SameHits(s, Refreshed(s)) && SameHits(s, Adopted(s))
  {
  }

  lemma ContextLeavesHits(s: State, anchor: string, id: string, messages: seq<Message>)
    ensures SameHits(s, ContextCame(s, anchor, id, messages))
  {
    hide AnchorSelected;
    AnchorFrame(s.(currentChat := Some(id), messages := messages, anchor := Some(anchor), focus := MessageList));
  }

  lemma ApprovalsLeaveHits(p: Platform, s: State, e: Event)
    requires ApprovalEvent(e) || e.PairStage?
    ensures SameHits(s, Handled(p, s, e))
  {
    hide Tui.Without;
  }

  /** Events of the daemon leave the search as it was. */
  lemma DaemonLeavesHits(p: Platform, s: State, e: Event)
    requires Plainlike(e) && !e.Paste?
    ensures SameHits(s, Handled(p, s, e))
  {
    hide SameHits, ContextCame, Refreshed, Adopted;
    match e
    case DataRefreshed => RefreshLeavesHits(s);
    case Reconnected => RefreshLeavesHits(s);
    case ContextReady(anchor, id, messages) => ContextLeavesHits(s, anchor, id, messages);
    case Approvals(_) => ApprovalsLeaveHits(p, s, e);
    case Requested(_) => ApprovalsLeaveHits(p, s, e);
    case Resolved(_) => ApprovalsLeaveHits(p, s, e);
    case PairStage(_) => ApprovalsLeaveHits(p, s, e);
    case _ => ListEventLeavesHits(p, s, e);
  }

  lemma {:induction false} LateRun(p: Platform, w: World, v: World, es: seq<Event>)
    requires Late(w, v) && Inv(p, v) && FromDaemon(es) && v.app.omni.dirty
    ensures Late(w, Run(p, v, es)) && Run(p, v, es).app.omni.dirty
    decreases |es|
  {
    hide Late, Step, ComposeInv, SearchInv, PreviewInv, ApprovalInv, Screen;
    if es != [] {
      LateStep(p, w, v, es[0]);
      KeepsInv(p, v, es[0]);
      LateRun(p, w, Step(p, v, es[0]), es[1..]);
    }
  }

  /** When a query has just been cut below two characters, the next tick leaves hits
      on screen if and only if the answer to the search before it brings some between
      the keystroke and the tick; nothing then clears them, as no search is made. */
  lemma {:induction false} StaleHitsIff(p: Platform, es: seq<Event>, more: seq<Event>)
    requires p.trim("") == "" && FromDaemon(more)
    ensures var w := Run(p, Launch(), es);
      var v := Run(p, w, more);
      var t := Step(p, v, Tick);
      var g := w.app.omni.generation;
      Shrunk(p, w.app) && w.app.omni.msgResults == [] ==>
        && !t.app.omni.dirty && Query(p, t.app) == Query(p, w.app)
        && (t.app.omni.msgResults != [] <==> g !in w.hits && g in v.hits && v.hits[g] != [])
  {
    hide Step, ComposeInv, SearchInv, PreviewInv, ApprovalInv, Screen, Ticked;
    Reachable(p, es);
    var w := Run(p, Launch(), es);
    var v := Run(p, w, more);
    if Shrunk(p, w.app) {
      LateRun(p, w, w, more);
      TickFrame(p, v.app);
      StepTick(p, v);
    }
  }

  lemma StepTick(p: Platform, w: World)
    ensures Step(p, w, Tick).app == Ticked(p, w.app)
  {
  }

  /** It does happen: "abc" is searched, cut to "a", and only then answered. */
  lemma {:induction false} StaleHitsHappen(p: Platform, hit: Hit)
    requires forall s :: p.trim(s) == s
    ensures var t := Run(p, Launch(), [Paste("abc"), Tick, Paste("a"), Results(1, [], [hit]), Tick]);
      Query(p, t.app) == "a" && !t.app.omni.dirty && !t.app.omni.searching && t.app.omni.msgResults == [hit]
  {
    hide LocalMatches, Merged, KeyOfSelection;
    hide Step;
    var es := [Paste("abc"), Tick, Paste("a"), Results(1, [], [hit]), Tick];
    var w1 := Step(p, Launch(), es[0]);
    var w2 := Step(p, w1, es[1]);
    TypedFirst(p);
    SearchedFirst(p, w1);
    StaleTail(p, w2, hit);
    assert es[1..][1..] == es[2..];
    assert Run(p, Launch(), es) == Run(p, w1, es[1..]);
    assert Run(p, w1, es[1..]) == Run(p, w2, es[2..]);
  }

  lemma TypedFirst(p: Platform)
    ensures var w := Step(p, Launch(), Paste("abc"));
      && w.app.omni.input == "abc" && w.app.omni.dirty && w.app.focus == OmniBox && w.app.omni.generation == 0
      && w.app.pairing.None? && w.app.prompt.None? && w.hits == map[]
  {
    hide LocalMatches;
  }

  lemma SearchedFirst(p: Platform, w: World)
    requires forall s :: p.trim(s) == s
    requires w.app.omni.input == "abc" && w.app.omni.dirty && w.app.focus == OmniBox && w.app.omni.generation == 0
    requires w.app.pairing.None? && w.app.prompt.None? && w.hits == map[]
    ensures var v := Step(p, w, Tick);
      && v.app.omni.generation == 1 && Search(1, "abc") in v.app.calls && v.hits == map[]
      && v.app.focus == OmniBox && v.app.pairing.None? && v.app.prompt.None?
  {
    hide Ticked;
    TickFrame(p, w.app);
    assert Asked(p, w.app) == [Search(1, "abc")];
    var calls := Searched(p, w.app).calls;
    assert calls[|calls| - 1] == Search(1, "abc");
    assert Step(p, w, Tick).app.calls[..|calls|][|calls| - 1] == Search(1, "abc");
  }

  lemma StaleTail(p: Platform, w: World, hit: Hit)
    requires forall s :: p.trim(s) == s
    requires w.app.omni.generation == 1 && Search(1, "abc") in w.app.calls && w.hits == map[]
    requires w.app.focus == OmniBox && w.app.pairing.None? && w.app.prompt.None?
    ensures var t := Run(p, w, [Paste("a"), Results(1, [], [hit]), Tick]);
      Query(p, t.app) == "a" && !t.app.omni.dirty && !t.app.omni.searching && t.app.omni.msgResults == [hit]
  {
    hide LocalMatches, Merged, KeyOfSelection, Ticked;
    var es := [Paste("a"), Results(1, [], [hit]), Tick];
    var w1 := Step(p, w, es[0]);
    assert w1.app.omni.input == "a" && w1.app.omni.dirty && w1.app.omni.generation == 1;
    assert Search(1, "abc") in w1.app.calls;
    var w2 := Step(p, w1, es[1]);
    ResultsFrame(w1.app, 1, [], [hit]);
    assert Possible(w1, es[1]);
    assert w2.app.omni.msgResults == [hit] && w2.app.omni.input == "a" && !w2.app.omni.searching;
    var w3 := Step(p, w2, es[2]);
    TickFrame(p, w2.app);
    assert es[1..][1..] == es[2..] && es[2..][1..] == [];
    assert Run(p, w, es) == Run(p, w1, es[1..]);
    assert Run(p, w1, es[1..]) == Run(p, w2, es[2..]);
    assert Run(p, w2, es[2..]) == Run(p, w3, []);
  }

  // ---- the chat results ----

  ghost predicate DistinctChats(chats: seq<Conversation>) {
    forall i, j :: 0 <= i < j < |chats| ==> chats[i].id != chats[j].id
  }

  predicate Has(chats: seq<Conversation>, id: string) {
    exists i :: 0 <= i < |chats| && chats[i].id == id
  }

  function Grown(have: seq<Conversation>, c: Conversation): (r: seq<Conversation>) {
    if Has(have, c.id) then have else have + [c]
  }

  lemma MergedFirst(have: seq<Conversation>, more: seq<Conversation>)
    requires more != [] && |have| < OMNI_CHAT_LIMIT
    ensures Merged(have, more) == Merged(Grown(have, more[0]), more[1..])
  {
  }

  lemma GrownIs(have: seq<Conversation>, c: Conversation)
    ensures var r := Grown(have, c);
      && |have| <= |r| <= |have| + 1 && r[..|have|] == have && Has(r, c.id)
      && (DistinctChats(have) ==> DistinctChats(r)) && (|r| > |have| ==> r[|have|] == c)
  {
    if !Has(have, c.id) {
      assert (have + [c])[|have|].id == c.id;
    }
  }

  lemma {:induction false} MergedGrows(have: seq<Conversation>, more: seq<Conversation>)
    requires |have| <= OMNI_CHAT_LIMIT
    ensures var r := Merged(have, more);
      && |have| <= |r| <= OMNI_CHAT_LIMIT && r[..|have|] == have && (DistinctChats(have) ==> DistinctChats(r))
    decreases |more|
  {
    hide DistinctChats, Has, Grown;
    if more != [] && |have| < OMNI_CHAT_LIMIT {
      var next := Grown(have, more[0]);
      GrownIs(have, more[0]);
      MergedFirst(have, more);
      MergedGrows(next, more[1..]);
      var r := Merged(have, more);
      assert r[..|next|][..|have|] == r[..|have|];
    }
  }

  lemma {:induction false} MergedCovers(have: seq<Conversation>, more: seq<Conversation>, k: nat)
    requires |have| <= OMNI_CHAT_LIMIT && k < |more|
    ensures |Merged(have, more)| == OMNI_CHAT_LIMIT || Has(Merged(have, more), more[k].id)
    decreases |more|
  {
    hide Has, Grown, Merged;
    MergedGrows(have, more);
    if |have| < OMNI_CHAT_LIMIT {
      var next := Grown(have, more[0]);
      GrownIs(have, more[0]);
      MergedFirst(have, more);
      MergedGrows(next, more[1..]);
      if k == 0 {
        HasMore(next, Merged(have, more), more[0].id);
      } else {
        MergedCovers(next, more[1..], k - 1);
      }
    }
  }

  lemma HasMore(a: seq<Conversation>, b: seq<Conversation>, id: string)
    requires |a| <= |b| && b[..|a|] == a && Has(a, id)
    ensures Has(b, id)
  {
    var i :| 0 <= i < |a| && a[i].id == id;
    assert b[..|a|][i] == b[i];
  }

  /** The daemon's chats go after the local ones: none is shown twice, the list stays
      within its limit, and one is left out only for being there or for want of room. */
  lemma MergedIs(have: seq<Conversation>, more: seq<Conversation>)
    requires DistinctChats(have) && |have| <= OMNI_CHAT_LIMIT
    ensures var r := Merged(have, more);
      && DistinctChats(r) && |have| <= |r| <= OMNI_CHAT_LIMIT && r[..|have|] == have
      && forall k :: 0 <= k < |more| ==> |r| == OMNI_CHAT_LIMIT || Has(r, more[k].id)
  {
    hide DistinctChats, Has, Merged;
    MergedGrows(have, more);
    forall k | 0 <= k < |more| ensures |Merged(have, more)| == OMNI_CHAT_LIMIT || Has(Merged(have, more), more[k].id) {
      MergedCovers(have, more, k);
    }
  }
}
