/** What the terminal client's keys and events mean to its user: what they leave
    alone, what undoes them, and whom a message reaches. */
module TuiEffects {
  import opened Common
  import opened Tui
  import opened TuiRuns

  // ---- overlays ----

  /** An open overlay takes every key but the one that quits: what it covers stays as
      it is, and no message is sent nor search made. */
  lemma {:induction false} OverlayShields(p: Platform, s: State, k: Key, edited: string)
    requires Screen(s) && OpenOverlays(s) == 1 && k != Char('c', true)
    ensures var t := KeyPressed(p, s, k, edited);
      && t == s.(pairing := t.pairing, prompt := t.prompt, showDoctor := t.showDoctor,
                 showApprovals := t.showApprovals, approvalSel := t.approvalSel, calls := t.calls)
      && Plain(s.calls, t.calls)
  {
    hide Plain, PairingKey, PromptKey, ApprovalsKey;
    PlainCalls(s.calls);
    if s.pairing.Some? {
      PairingFrame(p, s, k, edited);
    } else if s.prompt.Some? {
      PromptFrame(p, s, k, edited);
    } else if !s.showDoctor {
      ApprovalsFrame(s, k);
    }
  }

  lemma PromptFrame(p: Platform, s: State, k: Key, edited: string)
    requires s.prompt.Some?
    ensures var t := PromptKey(p, s, k, edited); t == s.(prompt := t.prompt, calls := t.calls) && Plain(s.calls, t.calls)
  {
    hide Plain;
    PlainCalls(s.calls);
    var kind, value := s.prompt.value.kind, p.trim(s.prompt.value.input);
    match kind
    case Alias(id) => PlainMore(s.calls, [SetAlias(id, value), FetchChats]);
    case React(id) => PlainMore(s.calls, [SendReaction(id, value)]);
  }

  lemma EscCloses(p: Platform, s: State, t: State)
    requires Clear(s) && Overlaid(s, t)
    ensures OpenOverlays(t) == 1 && KeyPressed(p, t, Esc, "") == s.(calls := t.calls)
  {
  }

  predicate SameOverlays(s: State, t: State) {
    t.pairing == s.pairing && t.prompt == s.prompt && t.showDoctor == s.showDoctor && t.showApprovals == s.showApprovals
  }

  lemma ChatsOpenNothing(s: State)
    ensures SameOverlays(s, ChatOpened(s)) && SameOverlays(s, ChatComposed(s)) && SameOverlays(s, Reopened(s))
    ensures SameOverlays(s, EnteredCompose(s, MessageList))
  {
  }

  lemma OmniOpensNothing(p: Platform, s: State)
    ensures SameOverlays(s, EnteredOmni(p, s)) && SameOverlays(s, WentBack(p, s))
  {
    hide RefreshedLocal;
    RefreshFrame(p, s.(focus := OmniBox));
  }

  /** The other things that a key of the lists may do open nothing. */
  lemma NothingOpened(p: Platform, s: State, t: State)
    requires Clear(s)
    requires || Minor(s, t) || t == s.(focus := ChatList) || t == s.(focus := MessageList) || t == EnteredOmni(p, s)
      || t == ChatOpened(s) || t == ChatComposed(s) || t == WentBack(p, s) || t == Reopened(s)
      || t == EnteredCompose(s, MessageList)
    ensures OpenOverlays(t) == 0
  {
    hide ChatOpened, ChatComposed, Reopened, EnteredCompose, EnteredOmni, WentBack, Plain;
    ChatsOpenNothing(s);
    OmniOpensNothing(p, s);
    assert SameOverlays(s, t);
  }

  /** Esc takes back whatever overlay a key of the lists has opened. */
  lemma {:induction false} EscTakesOverlaysBack(p: Platform, s: State, k: Key)
    requires Clear(s) && k != Char('c', true)
    ensures var t := KeyPressed(p, s, k, "");
      OpenOverlays(t) > 0 ==> KeyPressed(p, t, Esc, "") == s.(calls := t.calls)
  {
    hide ChatsKey, MessagesKey, Minor, Overlaid, EnteredOmni, ChatOpened, ChatComposed, WentBack, Reopened, EnteredCompose,
      OmniKey, ComposeKey, PairingKey, PromptKey, ApprovalsKey;
    var t := KeyPressed(p, s, k, "");
    if s.focus == ChatList {
      ChatsKeyForms(p, s, k);
    } else {
      MessagesKeyForms(p, s, k);
    }
    if Overlaid(s, t) {
      EscCloses(p, s, t);
    } else {
      NothingOpened(p, s, t);
    }
  }

  /** Tab goes between the two lists and back. */
  lemma TabTwice(p: Platform, s: State)
    requires Clear(s)
    ensures KeyPressed(p, KeyPressed(p, s, Tab, ""), Tab, "") == s
  {
    hide ChatsChar, MessagesChar;
  }

  /** Cookies are submitted once: until the flow has failed or been left, Enter does
      nothing more. */
  lemma CookiesGoOnce(p: Platform, s: State, edited: string)
    requires s.pairing.Some?
    ensures var t := PairingKey(p, s, Enter, edited);
      && (t.calls == s.calls ||
           (s.pairing.value.stage == EnterCookies && t.calls == s.calls + [PairGoogle(p.trim(s.pairing.value.input))]))
      && (t.calls != s.calls ==> PairingKey(p, t, Enter, edited) == t)
  {
  }

  predicate InRange(s: State) {
    s.approvalSel.Some? ==> s.approvalSel.value < |s.approvals|
  }

  lemma StepsInRange(sel: Option<nat>, len: nat)
    ensures (sel.Some? && sel.value >= len) || (Next(sel, len).Some? ==> Next(sel, len).value < len)
    ensures (sel.Some? && sel.value >= len) || (Prev(sel, len).Some? ==> Prev(sel, len).value < len)
  {
  }

  /** The keys of the approvals overlay keep the selection within the list. */
  lemma ApprovalsKeyInRange(s: State, k: Key)
    ensures InRange(s) ==> InRange(ApprovalsKey(s, k))
  {
    hide Next, Prev;
    StepsInRange(s.approvalSel, |s.approvals|);
  }

  // ---- pasting ----

  /** Pasting is typing: it does what a key that leaves the same text would do; only
      the diagnostics, which any key closes, and unchanged text in the search box are
      told apart. */
  lemma {:induction false} PasteIsTyping(p: Platform, s: State, edited: string)
    requires Screen(s) && !s.showDoctor && (s.focus == OmniBox ==> edited != s.omni.input)
    ensures Pasted(p, s, edited) == KeyPressed(p, s, OtherKey, edited)
  {
    hide RefreshedLocal;
  }

  // ---- searching ----

  lemma {:induction false} FilteredIs<T(!new)>(xs: seq<T>, keep: T -> bool)
    ensures |Filtered(xs, keep)| <= |xs| && forall x :: x in Filtered(xs, keep) <==> x in xs && keep(x)
  {
    if xs != [] {
      FilteredIs(xs[1..], keep);
      assert xs == [xs[0]] + xs[1..];
    }
  }

  predicate Found(p: Platform, c: Conversation, query: string) {
    query == "" || p.finds(c, query)
  }

  /** After a keystroke the chats shown are found by the query as it now is, and all
      that are, up to the limit; hits stay only for three characters or more; and the
      query waits for the next tick. */
  lemma RefreshShowsTheQuery(p: Platform, s: State)
    ensures var t, q := RefreshedLocal(p, s), Query(p, s);
      && t.omni.dirty && |t.omni.chatResults| <= OMNI_CHAT_LIMIT
      && (forall c :: c in t.omni.chatResults ==> c in s.chats && Found(p, c, q))
      && (forall c :: c in s.chats && Found(p, c, q) ==>
            c in t.omni.chatResults || |t.omni.chatResults| == OMNI_CHAT_LIMIT)
      && t.omni.msgResults == (if |q| < 3 then [] else s.omni.msgResults)
      && (|q| < 3 ==> !t.omni.searching)
  {
    var q := Query(p, s);
    var all := if q == "" then s.chats else Filtered(s.chats, Finder(p, q));
    FilteredIs(s.chats, Finder(p, q));
    assert forall c :: Finder(p, q)(c) == p.finds(c, q);
    assert forall c :: c in all <==> c in s.chats && Found(p, c, q);
    assert LocalMatches(p, s.chats, q) == Taken(all, OMNI_CHAT_LIMIT);
  }

  /** Nothing more comes of a second tick: the search is sent and the preview asked for
      once. */
  lemma {:induction false} TickTwice(p: Platform, s: State)
    ensures Ticked(p, Ticked(p, s)) == Ticked(p, s)
  {
    hide KeyOfSelection, PreviewSynced, Searched, Ticked;
    TickIs(p, s);
    TickIs(p, Ticked(p, s));
    TickFrame(p, s);
    SearchedTwice(p, s, Ticked(p, s));
    SyncTwice(Searched(p, s));
  }

  lemma SearchedTwice(p: Platform, s: State, t: State)
    requires var u := Searched(p, s);
      t == u.(calls := t.calls, omni := u.omni.(previewKey := t.omni.previewKey, preview := t.omni.preview))
    ensures Searched(p, t) == t && t.focus == s.focus
  {
    assert t.calls + [] == t.calls;
  }

  lemma SyncTwice(s: State)
    ensures PreviewSynced(PreviewSynced(s)) == PreviewSynced(s)
  {
    hide KeyOfSelection;
    SelectionKept(s);
  }

  lemma SelectionKept(s: State)
    ensures KeyOfSelection(PreviewSynced(s).omni) == KeyOfSelection(s.omni)
  {
    hide PreviewSynced, Plain;
    PreviewFrame(s);
  }

  /** Enter opens what the selection, and so the preview, shows: the chat itself, or
      the surroundings of the message; no other key of the search screen calls the
      daemon. */
  lemma {:induction false} EnterOpensTheSelection(p: Platform, s: State, k: Key, edited: string)
    requires Screen(s) && s.focus == OmniBox && k != Char('c', true)
    ensures var t, key := KeyPressed(p, s, k, edited), KeyOfSelection(s.omni);
      if k != Enter || key.None? then t.calls == s.calls
      else
        && t.focus == MessageList && |t.calls| == |s.calls| + 1 && t.calls[..|s.calls|] == s.calls
        && match key.value
           case ChatKey(id) => t.calls[|s.calls|] == Show(id) && t.currentChat == Some(id)
           case MsgKey(id) =>
             t.calls[|s.calls|].Context? && t.calls[|s.calls|].hit.messageId == id && t.currentChat == s.currentChat
  {
    hide RefreshedLocal;
    RefreshFrame(p, s.(omni := s.omni.(input := edited)));
  }

  // ---- the preview ----

  /** A preview that is still missing has been asked for. */
  ghost predicate PreviewAsked(s: State) {
    s.omni.previewKey.Some? && s.omni.preview.None? ==> FetchPreview(s.omni.previewKey.value) in s.calls
  }

  lemma AskedKept(s: State, t: State)
    requires PreviewAsked(s) && SamePreview(s, t) && Plain(s.calls, t.calls)
    ensures PreviewAsked(t)
  {
    assert forall c :: c in t.calls[..|s.calls|] ==> c in t.calls;
  }

  lemma TickKeepsAsked(p: Platform, s: State)
    requires PreviewAsked(s)
    ensures PreviewAsked(Ticked(p, s))
  {
    hide Ticked, KeyOfSelection;
    TickIs(p, s);
  }

  lemma KeepsAsked(p: Platform, s: State, e: Event)
    requires Screen(s) && PreviewAsked(s)
    ensures PreviewAsked(Handled(p, s, e))
  {
    hide Plain, KeyPressed, Ticked, ResultsCame, SameSearch, SameCompose, Screen, PreviewAsked;
    match e
    case Press(k, edited) =>
      if s.focus == Compose && k != Char('c', true) {
        ComposeKeyIs(p, s, k, edited);
        ComposeKeepsAsked(s, KeyPressed(p, s, k, edited));
      } else {
        KeyIsPlain(p, s, k, edited);
        AskedKept(s, KeyPressed(p, s, k, edited));
      }
    case Tick => TickKeepsAsked(p, s);
    case Results(g, chats, msgs) =>
      ResultsFrame(s, g, chats, msgs);
      PlainCalls(s.calls);
      AskedKept(s, ResultsCame(s, g, chats, msgs));
    case PreviewReady(preview) => ReadyKeepsAsked(s, preview);
    case _ =>
      hide Handled;
      EventIsPlain(p, s, e);
      AskedKept(s, Handled(p, s, e));
  }

  lemma ComposeKeepsAsked(s: State, t: State)
    requires PreviewAsked(s) && t.omni == s.omni && |s.calls| <= |t.calls| && t.calls[..|s.calls|] == s.calls
    ensures PreviewAsked(t)
  {
    assert forall c :: c in t.calls[..|s.calls|] ==> c in t.calls;
  }

  lemma ReadyKeepsAsked(s: State, preview: Preview)
    requires PreviewAsked(s)
    ensures PreviewAsked(PreviewCame(s, preview))
  {
  }

  lemma {:induction false} RunKeepsAsked(p: Platform, w: World, es: seq<Event>)
    requires Screen(w.app) && PreviewAsked(w.app)
    ensures PreviewAsked(Run(p, w, es).app)
    decreases |es|
  {
    hide Screen, PreviewAsked, Handled;
    if es != [] {
      if Possible(w, es[0]) {
        KeepsAsked(p, w.app, es[0]);
        KeepsScreen(p, w.app, es[0]);
      }
      RunKeepsAsked(p, Step(p, w, es[0]), es[1..]);
    }
  }

  /** In every run a preview that is not shown yet has been asked of the daemon. */
  lemma {:induction false} MissingPreviewIsAskedFor(p: Platform, es: seq<Event>)
    ensures var s := Run(p, Launch(), es).app;
      s.omni.previewKey.Some? && s.omni.preview.None? ==> FetchPreview(s.omni.previewKey.value) in s.calls
  {
    hide Run;
    RunKeepsAsked(p, Launch(), es);
  }

  // ---- incoming messages ----

  ghost predicate UniqueMessages(ms: seq<Message>) {
    forall i, j :: 0 <= i < j < |ms| ==> ms[i].id != ms[j].id
  }

  /** The list of the open chat after a message of it: the message is there once,
      replacing the one of its id if there was one, nothing else is lost or gained, and
      a new message goes to its place in time. */
  lemma IncomingMessageIsShown(s: State, m: Message)
    requires UniqueMessages(s.messages)
    ensures var t := MessageShown(s, m);
      && UniqueMessages(t.messages) && m in t.messages
      && (forall x :: x in t.messages <==> x == m || (x in s.messages && x.id != m.id))
      && ((forall x :: x in s.messages ==> x.id != m.id) ==> Ordered(t.messages, MessageBefore))
  {
    hide Sorted;
    var at := PlaceOf(s.messages, m.id);
    if at < |s.messages| {
      ReplacedOne(s.messages, at, m);
    } else {
      SortedIs(s.messages + [m], MessageBefore);
      var sorted := Sorted(s.messages + [m], MessageBefore);
      SameMembers(s.messages + [m], sorted);
      SameUnique(s.messages + [m], sorted);
    }
  }

  lemma ReplacedOne(ms: seq<Message>, at: nat, m: Message)
    requires UniqueMessages(ms) && at < |ms| && ms[at].id == m.id
    ensures var r := ms[at := m];
      UniqueMessages(r) && m in r && forall x :: x in r <==> x == m || (x in ms && x.id != m.id)
  {
    var r := ms[at := m];
    assert r[at] == m;
    forall x | x in ms && x.id != m.id ensures x in r {
      var i :| 0 <= i < |ms| && ms[i] == x;
      assert r[i] == x;
    }
  }

  lemma SameMembers(xs: seq<Message>, ys: seq<Message>)
    requires multiset(xs) == multiset(ys)
    ensures forall x :: x in xs <==> x in ys
  {
    forall x ensures x in xs <==> x in ys {
      assert x in multiset(xs) <==> x in multiset(ys);
    }
  }

  lemma {:induction false} SameUnique(xs: seq<Message>, ys: seq<Message>)
    requires UniqueMessages(xs) && multiset(xs) == multiset(ys)
    ensures UniqueMessages(ys)
  {
    forall i, j | 0 <= i < j < |ys| ensures ys[i].id != ys[j].id {
      if ys[i].id == ys[j].id {
        SameMembers(xs, ys);
        assert ys[i] in xs && ys[j] in xs;
        assert ys[i] == ys[j];
        OnceEach(xs, ys[i]);
        TwiceThere(ys, i, j);
      }
    }
  }

  /** In a list of different ids each message occurs once. */
  lemma {:induction false} OnceEach(xs: seq<Message>, m: Message)
    requires UniqueMessages(xs) && m in xs
    ensures multiset(xs)[m] == 1
  {
    var last := xs[|xs| - 1];
    assert xs == xs[..|xs| - 1] + [last];
    if m in xs[..|xs| - 1] {
      OnceEach(xs[..|xs| - 1], m);
    }
  }

  lemma TwiceThere(ys: seq<Message>, i: nat, j: nat)
    requires i < j < |ys| && ys[i] == ys[j]
    ensures multiset(ys)[ys[i]] >= 2
  {
    assert ys == ys[..j] + ys[j..];
    assert ys[i] in ys[..j] && ys[j..][0] == ys[j];
  }

  // ---- whom a message reaches after a hit was opened ----

  /** In the message pane, with nothing over it. */
  predicate InMessages(s: State) {
    s.focus == MessageList && OpenOverlays(s) == 0
  }

  predicate SamePane(s: State, t: State) {
    t.focus == s.focus && t.currentChat == s.currentChat && (OpenOverlays(s) == 0 ==> OpenOverlays(t) == 0)
  }

  lemma ListEventLeavesPane(p: Platform, s: State, e: Event)
    requires e.Chats? || e.NewConversation? || e.NewMessage? || e.Messages?
    ensures SamePane(s, Handled(p, s, e))
  {
    hide ChatsCame, ConversationUpdated, MessageCame, MessagesCame, Plain;
    match e
    case Chats(chats) => ChatsFrame(p, s, chats, Conversation("", "", false, 0));
    case NewConversation(conv) => ChatsFrame(p, s, [], conv);
    case NewMessage(m, isOld) => MessageFrame(p, s, m, isOld);
    case Messages(id, messages) => ShownFrame(s, id, messages);
  }

  lemma OtherEventLeavesPane(p: Platform, s: State, e: Event)
    requires ApprovalEvent(e) || e.PairStage? || e.Results? || e.PreviewReady?
    ensures SamePane(s, Handled(p, s, e))
  {
    hide Tui.Without, Merged;
  }

  lemma RefreshLeavesPane(s: State)
    ensures SamePane(s, Refreshed(s)) && SamePane(s, Adopted(s))
  {
  }

  lemma ContextMovesPane(s: State, anchor: string, id: string, messages: seq<Message>)
    ensures var t := ContextCame(s, anchor, id, messages);
      t.focus == MessageList && t.currentChat == Some(id) && (OpenOverlays(s) == 0 ==> OpenOverlays(t) == 0)
  {
    hide AnchorSelected;
    AnchorFrame(s.(currentChat := Some(id), messages := messages, anchor := Some(anchor), focus := MessageList));
  }

  /** Of the daemon's events only the surroundings of a message change the chat. */
  function ChatAfter(chat: Option<string>, es: seq<Event>): Option<string>
    decreases |es|
  {
    if es == [] then chat
    else ChatAfter(if es[0].ContextReady? then Some(es[0].conversationId) else chat, es[1..])
  }

  lemma DaemonMovesChat(p: Platform, s: State, e: Event)
    requires InMessages(s) && !e.Press? && !e.Paste? && !e.Tick?
    ensures InMessages(Handled(p, s, e))
    ensures Handled(p, s, e).currentChat == ChatAfter(s.currentChat, [e])
  {
    hide SamePane, ContextCame, Refreshed, Adopted, OpenOverlays;
    assert [e][1..] == [];
    assert ChatAfter(if e.ContextReady? then Some(e.conversationId) else s.currentChat, [])
        == if e.ContextReady? then Some(e.conversationId) else s.currentChat;
    match e
    case ContextReady(anchor, id, messages) => ContextMovesPane(s, anchor, id, messages);
    case DataRefreshed =>
      RefreshLeavesPane(s);
      PaneKept(s, Refreshed(s));
    case Reconnected =>
      RefreshLeavesPane(s);
      PaneKept(s, Adopted(s));
    case Chats(_) =>
      ListEventLeavesPane(p, s, e);
      PaneKept(s, Handled(p, s, e));
    case NewConversation(_) =>
      ListEventLeavesPane(p, s, e);
      PaneKept(s, Handled(p, s, e));
    case NewMessage(_, _) =>
      ListEventLeavesPane(p, s, e);
      PaneKept(s, Handled(p, s, e));
    case Messages(_, _) =>
      ListEventLeavesPane(p, s, e);
      PaneKept(s, Handled(p, s, e));
    case _ =>
      OtherEventLeavesPane(p, s, e);
      PaneKept(s, Handled(p, s, e));
  }

  lemma PaneKept(s: State, t: State)
    requires InMessages(s) && SamePane(s, t)
    ensures InMessages(t) && t.currentChat == s.currentChat
  {
  }

  lemma {:induction false} DaemonRunMovesChat(p: Platform, w: World, es: seq<Event>)
    requires InMessages(w.app) && FromDaemon(es)
    ensures var v := Run(p, w, es); InMessages(v.app) && v.app.currentChat == ChatAfter(w.app.currentChat, es)
    decreases |es|
  {
    hide InMessages, Handled;
    if es != [] {
      DaemonMovesChat(p, w.app, es[0]);
      assert [es[0]][1..] == [];
      assert ChatAfter(w.app.currentChat, [es[0]])
          == if es[0].ContextReady? then Some(es[0].conversationId) else w.app.currentChat;
      assert es[0].ContextReady? ==> Possible(w, es[0]);
      DaemonRunMovesChat(p, Step(p, w, es[0]), es[1..]);
    }
  }

  /** The hit that is selected on the search screen. */
  predicate OnHit(s: State, hit: Hit) {
    var n := |s.omni.chatResults|;
    s.focus == OmniBox && n <= s.omni.selected < n + |s.omni.msgResults| && s.omni.msgResults[s.omni.selected - n] == hit
  }

  /** Writing to whoever is on screen: i, the text, and Enter. */
  function Written(p: Platform, s: State, text: string): State {
    KeyPressed(p, KeyPressed(p, KeyPressed(p, s, Char('i', false), ""), OtherKey, text), Enter, "")
  }

  lemma WrittenTo(p: Platform, s: State, text: string)
    requires InMessages(s) && p.trim(text) != ""
    ensures Written(p, s, text).calls ==
      s.calls + (if s.currentChat.Some? then [SendText(s.currentChat.value, p.trim(text))] else [])
  {
    var t := KeyPressed(p, s, Char('i', false), "");
    assert t == if s.currentChat.Some? then EnteredCompose(s, MessageList) else s;
    var u := KeyPressed(p, t, OtherKey, text);
    assert u == if s.currentChat.Some? then t.(composeInput := text) else s;
    assert s.calls + [] == s.calls;
  }

  /** A hit of another chat does not open that chat at once: what is written next goes
      to the hit's chat if and only if its surroundings have come in by then, last of
      any, or that chat was the current one already. */
  lemma {:induction false} HitRecipientIff(p: Platform, w: World, hit: Hit, es: seq<Event>, text: string)
    requires Screen(w.app) && OnHit(w.app, hit) && FromDaemon(es) && p.trim(text) != ""
    ensures var v := Run(p, Step(p, w, Press(Enter, "")), es);
      var chat := ChatAfter(w.app.currentChat, es);
      && Written(p, v.app, text).calls == v.app.calls + (if chat.Some? then [SendText(chat.value, p.trim(text))] else [])
      && (Written(p, v.app, text).calls == v.app.calls + [SendText(hit.conversationId, p.trim(text))] <==>
            chat == Some(hit.conversationId))
  {
    hide Run, Written, Handled, FromDaemon;
    var w1 := Step(p, w, Press(Enter, ""));
    HitOpens(p, w, hit);
    DaemonRunMovesChat(p, w1, es);
    var v := Run(p, w1, es);
    WrittenTo(p, v.app, text);
    var chat := ChatAfter(w.app.currentChat, es);
    if chat.Some? && v.app.calls + [SendText(chat.value, p.trim(text))] == v.app.calls + [SendText(hit.conversationId, p.trim(text))] {
      assert (v.app.calls + [SendText(chat.value, p.trim(text))])[|v.app.calls|] == SendText(chat.value, p.trim(text));
    }
  }

  lemma HitOpens(p: Platform, w: World, hit: Hit)
    requires Screen(w.app) && OnHit(w.app, hit)
    ensures var t := Step(p, w, Press(Enter, "")).app; InMessages(t) && t.currentChat == w.app.currentChat
  {
    assert KeyPressed(p, w.app, Enter, "") == Activated(w.app);
  }

  // ---- a run in which it reaches the wrong chat ----

  lemma RunMore(p: Platform, w: World, a: seq<Event>, b: seq<Event>)
    ensures Run(p, w, a + b) == Run(p, Run(p, w, a), b)
    decreases |a|
  {
    hide Step;
    if a == [] {
      assert a + b == b;
    } else {
      assert (a + b)[1..] == a[1..] + b;
      RunMore(p, Step(p, w, a[0]), a[1..], b);
    }
  }

  lemma OneMore(p: Platform, w0: World, es: seq<Event>, w: World, e: Event) returns (es': seq<Event>, w': World)
    requires Run(p, w0, es) == w
    ensures es' == es + [e] && w' == Step(p, w, e) && Run(p, w0, es') == w'
  {
    hide Step;
    es', w' := es + [e], Step(p, w, e);
    RunMore(p, w0, es, [e]);
    assert [e][1..] == [] && Run(p, w, [e]) == Run(p, w', []);
  }

  /** The keys that write to whoever is on screen. */
  function Writing(text: string): seq<Event> {
    [Press(Char('i', false), ""), Press(OtherKey, text), Press(Enter, "")]
  }

  lemma WritingIsWritten(p: Platform, w: World, text: string)
    ensures Run(p, w, Writing(text)).app == Written(p, w.app, text)
  {
    hide KeyPressed;
    var es := Writing(text);
    var w1 := Step(p, w, es[0]);
    var w2 := Step(p, w1, es[1]);
    assert es[1..][1..] == [es[2]] && [es[2]][1..] == [];
    assert Run(p, w, es) == Run(p, w1, es[1..]);
    assert Run(p, w1, es[1..]) == Run(p, w2, [es[2]]);
    assert Run(p, w2, [es[2]]) == Run(p, Step(p, w2, es[2]), []);
  }

  function Typed(): State {
    Start().(omni := Omni("abc", true, 0, false, [], [], 0, None, None))
  }

  function Searching(): State {
    Start().(omni := Omni("abc", false, 1, true, [], [], 0, None, None), calls := [Search(1, "abc")])
  }

  function WithHits(hits: seq<Hit>): State {
    Start().(omni := Omni("abc", false, 1, false, [], hits, 0, None, None), calls := [Search(1, "abc")])
  }

  /** Two hits are searched for. */
  lemma HitsFound(p: Platform, hits: seq<Hit>) returns (es: seq<Event>, w: World)
    requires (forall s :: p.trim(s) == s) && |hits| == 2
    ensures Run(p, Launch(), es) == w && w.app == WithHits(hits)
  {
    es, w := [], Launch();
    NothingCame(p, w);
    hide Run;
    NoChats(p);
    hide LocalMatches;
    var w1, w2;
    es, w1 := OneMore(p, Launch(), es, w, Paste("abc"));
    assert w1 == World(Typed(), None, map[]);
    es, w2 := OneMore(p, Launch(), es, w1, Tick);
    assert w2 == World(Searching(), None, map[]);
    assert Search(1, "abc") in w2.app.calls;
    es, w := OneMore(p, Launch(), es, w2, Results(1, [], hits));
  }

  lemma NoChats(p: Platform)
    ensures forall q :: LocalMatches(p, [], q) == []
  {
  }

  /** Back on the search screen, with the chat of the first hit open and the second hit
      selected. */
  function OnTheSecond(here: Hit, there: Hit): State {
    WithHits([here, there]).(
      omni := Omni("abc", true, 1, false, [], [here, there], 1, None, None),
      calls := [Search(1, "abc"), Context(here)], currentChat := Some(here.conversationId),
      anchor := Some(here.messageId))
  }

  lemma SecondSelected(p: Platform, here: Hit, there: Hit) returns (es: seq<Event>, w: World)
    requires forall s :: p.trim(s) == s
    ensures Run(p, Launch(), es) == w && w.app == OnTheSecond(here, there)
  {
    hide Run;
    es, w := HitsFound(p, [here, there]);
    NoChats(p);
    hide LocalMatches;
    es, w := OneMore(p, Launch(), es, w, Press(Enter, ""));
    assert w.app == WithHits([here, there]).(calls := [Search(1, "abc"), Context(here)], focus := MessageList);
    es, w := OneMore(p, Launch(), es, w, ContextReady(here.messageId, here.conversationId, []));
    es, w := OneMore(p, Launch(), es, w, Press(Esc, ""));
    es, w := OneMore(p, Launch(), es, w, Press(PageDown, ""));
  }

  /** It does happen: the chat of one hit is open, Enter is pressed on another, and what
      is written at once goes to the first. */
  lemma WrongRecipientHappens(p: Platform, here: Hit, there: Hit, text: string)
    requires (forall s :: p.trim(s) == s) && text != ""
    ensures exists es ::
      && OnHit(Run(p, Launch(), es).app, there)
      && var calls := Run(p, Launch(), es + [Press(Enter, "")] + Writing(text)).app.calls;
         calls != [] && calls[|calls| - 1] == SendText(here.conversationId, text)
  {
    hide Run, Written, OnHit;
    var es, w := SecondSelected(p, here, there);
    var es', w' := OneMore(p, Launch(), es, w, Press(Enter, ""));
    SecondIsAHit(here, there);
    NothingCame(p, w');
    HitRecipientIff(p, w, there, [], text);
    WritingIsWritten(p, w', text);
    RunMore(p, Launch(), es', Writing(text));
  }

  lemma SecondIsAHit(here: Hit, there: Hit)
    ensures var s := OnTheSecond(here, there); Screen(s) && OnHit(s, there)
  {
  }

  lemma NothingCame(p: Platform, w: World)
    ensures Run(p, w, []) == w && FromDaemon([]) && ChatAfter(w.app.currentChat, []) == w.app.currentChat
  {
  }
}
