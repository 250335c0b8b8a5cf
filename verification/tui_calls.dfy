/** What the terminal client asks of the daemon, call by call: which key or event, in which
    state, each kind of request is made for. */
module TuiCalls {
  import opened Common
  import opened Tui
  import opened TuiRuns

  /** What a key reaches: the topmost overlay, or else what has the focus. */
  datatype Layer = InPairing | InPrompt | InDoctor | InApprovals | InFocus(f: Focus)

  function LayerOf(s: State): Layer {
    if s.pairing.Some? then InPairing
    else if s.prompt.Some? then InPrompt
    else if s.showDoctor then InDoctor
    else if s.showApprovals then InApprovals
    else InFocus(s.focus)
  }

  predicate Is(k: Key, c: char) {
    k.Char? && k.c == c
  }

  predicate Chosen<T(==)>(xs: seq<T>, sel: Option<nat>, x: T) {
    sel.Some? && sel.value < |xs| && xs[sel.value] == x
  }

  /** On the search screen the chats come first and the hits after them. */
  predicate OnChat(o: Omni, id: string) {
    o.selected < |o.chatResults| && o.chatResults[o.selected].id == id
  }

  predicate OnMessage(o: Omni, hit: Hit) {
    |o.chatResults| <= o.selected < |o.chatResults| + |o.msgResults| && o.msgResults[o.selected - |o.chatResults|] == hit
  }

  ghost predicate ChosenChat(s: State, id: string) {
    exists c :: Chosen(s.chats, s.chatSel, c) && c.id == id
  }

  /** A chat is shown when it is opened, by Enter on the search screen, Enter or l in the
      list, i if it is not the current one; and again by r in its messages. */
  ghost predicate ShowsFor(s: State, k: Key, id: string) {
    match LayerOf(s)
    case InFocus(OmniBox) => k == Enter && OnChat(s.omni, id)
    case InFocus(ChatList) => ChosenChat(s, id) && (k == Enter || Is(k, 'l') || (Is(k, 'i') && s.currentChat != Some(id)))
    case InFocus(MessageList) => Is(k, 'r') && s.currentChat == Some(id)
    case _ => false
  }

  /** The selected approval is approved, or denied. */
  ghost predicate Decided(s: State, k: Key, id: string, approve: bool) {
    && LayerOf(s) == InApprovals && (exists a :: Chosen(s.approvals, s.approvalSel, a) && a.id == id)
    && (if approve then k == Enter || Is(k, 'y') else Is(k, 'n') || Is(k, 'd'))
  }

  /** The key asks for this call. */
  ghost predicate KeyMeans(p: Platform, s: State, k: Key, c: Call) {
    k != Char('c', true) &&
    match c
    case Search(_, _) => false
    case FetchPreview(_) => false
    case SendText(id, body) =>
      LayerOf(s) == InFocus(Compose) && k == Enter && s.currentChat == Some(id) && body == p.trim(s.composeInput) && body != ""
    case Resolve(id, approve) => Decided(s, k, id, approve)
    case Show(id) => ShowsFor(s, k, id)
    case Context(hit) => LayerOf(s) == InFocus(OmniBox) && k == Enter && OnMessage(s.omni, hit)
    case SetAlias(id, alias) =>
      LayerOf(s) == InPrompt && s.prompt.value.kind == Alias(id) && k == Enter && alias == p.trim(s.prompt.value.input)
    case SendReaction(id, emoji) =>
      && LayerOf(s) == InPrompt && s.prompt.value.kind == React(id) && k == Enter
      && emoji == p.trim(s.prompt.value.input) && emoji != ""
    case PairGoogle(cookies) =>
      && LayerOf(s) == InPairing && s.pairing.value.stage == EnterCookies && k == Enter
      && cookies == p.trim(s.pairing.value.input) && cookies != ""
    case PairQr => LayerOf(s) == InPairing && s.pairing.value.stage == EnterCookies && k == Char('r', true)
    case Backfill(id) => LayerOf(s) == InFocus(MessageList) && Is(k, 'b') && s.currentChat == Some(id)
    case Download(id) =>
      LayerOf(s) == InFocus(MessageList) && Is(k, 'o') && exists m :: Chosen(s.messages, s.msgSel, m) && m.id == id && m.hasMedia
    case FetchApprovals =>
      || (LayerOf(s) == InApprovals && Is(k, 'r'))
      || ((LayerOf(s) == InFocus(ChatList) || LayerOf(s) == InFocus(MessageList)) && Is(k, 'a'))
    case FetchChats =>
      || (LayerOf(s) == InPrompt && s.prompt.value.kind.Alias? && k == Enter)
      || (LayerOf(s) == InFocus(ChatList) && Is(k, 'r'))
    case FetchStatus => LayerOf(s) == InFocus(ChatList) && Is(k, 'r')
    case Refresh => LayerOf(s) == InFocus(ChatList) && Is(k, 'r')
  }

  /** The selection of the search screen has a preview of this key. */
  ghost predicate PreviewOf(o: Omni, key: PreviewKey) {
    match key
    case ChatKey(id) => OnChat(o, id)
    case MsgKey(id) => exists hit :: OnMessage(o, hit) && hit.messageId == id
  }

  /** The event asks for this call. */
  ghost predicate Means(p: Platform, s: State, e: Event, c: Call) {
    match e
    case Press(k, _) => KeyMeans(p, s, k, c)
    case Tick =>
      (match c
       case Search(g, q) => s.omni.dirty && g == s.omni.generation + 1 && q == p.trim(s.omni.input) && |q| >= 2
       case FetchPreview(key) =>
         s.focus == OmniBox && PreviewOf(s.omni, key) && s.omni.previewKey != Some(key) && key !in s.cache
       case _ => false)
    case NewMessage(m, isOld) => c == FetchChats && !isOld && forall i :: 0 <= i < |s.chats| ==> s.chats[i].id != m.conversationId
    case DataRefreshed => c == FetchChats || c == FetchStatus || (c.Show? && s.currentChat == Some(c.conversationId))
    case Reconnected => c == FetchChats || c == FetchStatus || c == FetchApprovals || c == Refresh
    case _ => false
  }

  /** t has the calls of s, then those the event asks for and no others. */
  ghost predicate AsksExactly(p: Platform, s: State, e: Event, t: State) {
    && |s.calls| <= |t.calls| <= |s.calls| + 4 && t.calls[..|s.calls|] == s.calls
    && forall c :: c in t.calls[|s.calls|..] <==> Means(p, s, e, c)
  }

  // ---- key by key ----

  function PairingMore(p: Platform, s: State, k: Key): seq<Call>
    requires s.pairing.Some?
  {
    var stage, cookies := s.pairing.value.stage, p.trim(s.pairing.value.input);
    if stage != EnterCookies then []
    else if k == Enter && cookies != "" then [PairGoogle(cookies)]
    else if k == Char('r', true) then [PairQr]
    else []
  }

  function PromptMore(p: Platform, s: State, k: Key): seq<Call>
    requires s.prompt.Some?
  {
    var value := p.trim(s.prompt.value.input);
    if k != Enter then []
    else
      match s.prompt.value.kind
      case Alias(id) => [SetAlias(id, value), FetchChats]
      case React(id) => if value == "" then [] else [SendReaction(id, value)]
  }

  function ApprovalsMore(s: State, k: Key): seq<Call> {
    var a := Selected(s.approvals, s.approvalSel);
    if Is(k, 'r') then [FetchApprovals]
    else if a.None? then []
    else if k == Enter || Is(k, 'y') then [Resolve(a.value.id, true)]
    else if Is(k, 'n') || Is(k, 'd') then [Resolve(a.value.id, false)]
    else []
  }

  function OmniMore(s: State, k: Key): seq<Call> {
    var n := |s.omni.chatResults|;
    if k != Enter then []
    else if s.omni.selected < n then [Show(s.omni.chatResults[s.omni.selected].id)]
    else if s.omni.selected < n + |s.omni.msgResults| then [Context(s.omni.msgResults[s.omni.selected - n])]
    else []
  }

  function ComposeMore(p: Platform, s: State, k: Key): seq<Call> {
    var body := p.trim(s.composeInput);
    if k == Enter && body != "" && s.currentChat.Some? then [SendText(s.currentChat.value, body)] else []
  }

  function ChatsMore(s: State, k: Key): seq<Call> {
    var c := Selected(s.chats, s.chatSel);
    if Is(k, 'a') then [FetchApprovals]
    else if Is(k, 'r') then [FetchChats, FetchStatus, Refresh]
    else if c.None? then []
    else if k == Enter || Is(k, 'l') || (Is(k, 'i') && s.currentChat != Some(c.value.id)) then [Show(c.value.id)]
    else []
  }

  function MessagesMore(s: State, k: Key): seq<Call> {
    var m := Selected(s.messages, s.msgSel);
    if Is(k, 'a') then [FetchApprovals]
    else if Is(k, 'o') then (if m.Some? && m.value.hasMedia then [Download(m.value.id)] else [])
    else if s.currentChat.None? then []
    else if Is(k, 'r') then [Show(s.currentChat.value)]
    else if Is(k, 'b') then [Backfill(s.currentChat.value)]
    else []
  }

  function More(p: Platform, s: State, k: Key): seq<Call> {
    if k == Char('c', true) then []
    else
      match LayerOf(s)
      case InPairing => PairingMore(p, s, k)
      case InPrompt => PromptMore(p, s, k)
      case InDoctor => []
      case InApprovals => ApprovalsMore(s, k)
      case InFocus(f) =>
        match f
        case OmniBox => OmniMore(s, k)
        case Compose => ComposeMore(p, s, k)
        case ChatList => ChatsMore(s, k)
        case MessageList => MessagesMore(s, k)
  }

  lemma KeyCalls(p: Platform, s: State, k: Key, edited: string)
    ensures KeyPressed(p, s, k, edited).calls == s.calls + More(p, s, k)
  {
    hide RefreshedLocal, PairingKey, PromptKey, ApprovalsKey, OmniKey, ComposeKey, ChatsKey, MessagesKey;
    hide PairingMore, PromptMore, ApprovalsMore, OmniMore, ComposeMore, ChatsMore, MessagesMore;
    if s.pairing.Some? {
      PairingCalls(p, s, k, edited);
    } else if s.prompt.Some? {
      PromptCalls(p, s, k, edited);
    } else {
      ApprovalsCalls(s, k);
      OmniCalls(p, s, k, edited);
      ComposeCalls(p, s, k, edited);
      ChatsCalls(p, s, k);
      MessagesCalls(p, s, k);
    }
    assert s.calls + [] == s.calls;
  }

  lemma PairingCalls(p: Platform, s: State, k: Key, edited: string)
    requires s.pairing.Some?
    ensures PairingKey(p, s, k, edited).calls == s.calls + PairingMore(p, s, k)
  {
    assert s.calls + [] == s.calls;
  }

  lemma PromptCalls(p: Platform, s: State, k: Key, edited: string)
    requires s.prompt.Some?
    ensures PromptKey(p, s, k, edited).calls == s.calls + PromptMore(p, s, k)
  {
    assert s.calls + [] == s.calls;
  }

  lemma ApprovalsCalls(s: State, k: Key)
    ensures ApprovalsKey(s, k).calls == s.calls + ApprovalsMore(s, k)
  {
    assert s.calls + [] == s.calls;
  }

  lemma OmniCalls(p: Platform, s: State, k: Key, edited: string)
    ensures OmniKey(p, s, k, edited).calls == s.calls + OmniMore(s, k)
  {
    hide LocalMatches;
    assert s.calls + [] == s.calls;
  }

  lemma ComposeCalls(p: Platform, s: State, k: Key, edited: string)
    ensures ComposeKey(p, s, k, edited).calls == s.calls + ComposeMore(p, s, k)
  {
    assert s.calls + [] == s.calls;
  }

  lemma RefreshAsksNothing(p: Platform, s: State)
    ensures RefreshedLocal(p, s).calls == s.calls
  {
  }

  lemma ChatsCalls(p: Platform, s: State, k: Key)
    ensures ChatsKey(p, s, k).calls == s.calls + ChatsMore(s, k)
  {
    hide RefreshedLocal;
    RefreshAsksNothing(p, s.(focus := OmniBox));
    assert s.calls + [] == s.calls;
  }

  lemma MessagesCalls(p: Platform, s: State, k: Key)
    ensures MessagesKey(p, s, k).calls == s.calls + MessagesMore(s, k)
  {
    hide RefreshedLocal;
    RefreshAsksNothing(p, s.(focus := OmniBox));
    assert s.calls + [] == s.calls;
  }

  /** The calls more are those asked for. */
  ghost predicate Asked(p: Platform, s: State, e: Event, more: seq<Call>) {
    |more| <= 4 && forall c :: c in more <==> Means(p, s, e, c)
  }

  lemma AskedExactly(p: Platform, s: State, e: Event, t: State, more: seq<Call>)
    requires t.calls == s.calls + more && Asked(p, s, e, more)
    ensures AsksExactly(p, s, e, t)
  {
    hide Means;
    assert t.calls[|s.calls|..] == more;
  }

  lemma OverlayAsks(p: Platform, s: State, k: Key, edited: string)
    requires !LayerOf(s).InFocus? && k != Char('c', true)
    ensures Asked(p, s, Press(k, edited), More(p, s, k))
  {
    if LayerOf(s) == InApprovals {
      var a := Selected(s.approvals, s.approvalSel);
      assert a.Some? ==> Chosen(s.approvals, s.approvalSel, a.value);
    }
  }

  lemma SearchAsks(p: Platform, s: State, k: Key, edited: string)
    requires (LayerOf(s) == InFocus(OmniBox) || LayerOf(s) == InFocus(Compose)) && k != Char('c', true)
    ensures Asked(p, s, Press(k, edited), More(p, s, k))
  {
  }

  lemma ListAsks(p: Platform, s: State, k: Key, edited: string)
    requires (LayerOf(s) == InFocus(ChatList) || LayerOf(s) == InFocus(MessageList)) && k != Char('c', true)
    ensures Asked(p, s, Press(k, edited), More(p, s, k))
  {
    var c, m := Selected(s.chats, s.chatSel), Selected(s.messages, s.msgSel);
    assert c.Some? ==> Chosen(s.chats, s.chatSel, c.value);
    assert m.Some? ==> Chosen(s.messages, s.msgSel, m.value);
  }

  lemma KeyAsks(p: Platform, s: State, k: Key, edited: string)
    ensures AsksExactly(p, s, Press(k, edited), KeyPressed(p, s, k, edited))
  {
    hide KeyPressed, AsksExactly, Asked;
    KeyCalls(p, s, k, edited);
    if k == Char('c', true) {
      QuitAsksNothing(p, s, k, edited);
    } else {
      hide More;
      if !LayerOf(s).InFocus? {
        OverlayAsks(p, s, k, edited);
      } else if s.focus == OmniBox || s.focus == Compose {
        SearchAsks(p, s, k, edited);
      } else {
        ListAsks(p, s, k, edited);
      }
    }
    AskedExactly(p, s, Press(k, edited), KeyPressed(p, s, k, edited), More(p, s, k));
  }

  lemma QuitAsksNothing(p: Platform, s: State, k: Key, edited: string)
    requires k == Char('c', true)
    ensures Asked(p, s, Press(k, edited), [])
  {
  }

  // ---- events ----

  lemma TickAsks(p: Platform, s: State)
    ensures AsksExactly(p, s, Tick, Handled(p, s, Tick))
  {
    var q, g := p.trim(s.omni.input), s.omni.generation + 1;
    var search := if s.omni.dirty && |q| >= 2 then [Search(g, q)] else [];
    var key := KeyOfSelection(s.omni);
    var fetch := if s.focus == OmniBox && key.Some? && s.omni.previewKey != key && key.value !in s.cache
                 then [FetchPreview(key.value)] else [];
    TickCalls(p, s, search, fetch);
    KeyIsPreview(s.omni);
    hide KeyOfSelection, PreviewOf, Handled;
    assert Asked(p, s, Tick, search + fetch);
    AskedExactly(p, s, Tick, Handled(p, s, Tick), search + fetch);
  }

  lemma KeyIsPreview(o: Omni)
    ensures forall key :: PreviewOf(o, key) <==> KeyOfSelection(o) == Some(key)
  {
    if |o.chatResults| <= o.selected < |o.chatResults| + |o.msgResults| {
      assert OnMessage(o, o.msgResults[o.selected - |o.chatResults|]);
    }
  }

  lemma TickCalls(p: Platform, s: State, search: seq<Call>, fetch: seq<Call>)
    requires search == if s.omni.dirty && |p.trim(s.omni.input)| >= 2
                       then [Search(s.omni.generation + 1, p.trim(s.omni.input))] else []
    requires var key := KeyOfSelection(s.omni);
      fetch == if s.focus == OmniBox && key.Some? && s.omni.previewKey != key && key.value !in s.cache
               then [FetchPreview(key.value)] else []
    ensures Handled(p, s, Tick).calls == s.calls + (search + fetch)
  {
    hide KeyOfSelection;
    var t := if s.omni.dirty then Dispatched(p, s.(omni := s.omni.(dirty := false))) else s;
    DispatchCalls(p, s, search);
    hide Dispatched, Query;
    SameSelection(t.omni, s.omni);
    assert s.calls + search + fetch == s.calls + (search + fetch);
  }

  lemma DispatchCalls(p: Platform, s: State, search: seq<Call>)
    requires search == if s.omni.dirty && |p.trim(s.omni.input)| >= 2
                       then [Search(s.omni.generation + 1, p.trim(s.omni.input))] else []
    ensures var t := if s.omni.dirty then Dispatched(p, s.(omni := s.omni.(dirty := false))) else s;
      && t.calls == s.calls + search && t.focus == s.focus && t.cache == s.cache && t.omni.previewKey == s.omni.previewKey
      && t.omni.chatResults == s.omni.chatResults && t.omni.msgResults == s.omni.msgResults
      && t.omni.selected == s.omni.selected
  {
    assert s.calls + [] == s.calls;
  }

  lemma SameSelection(a: Omni, b: Omni)
    requires a.chatResults == b.chatResults && a.msgResults == b.msgResults && a.selected == b.selected
    ensures KeyOfSelection(a) == KeyOfSelection(b)
  {
  }

  lemma ChatTouchedCalls(p: Platform, s: State, m: Message, isOld: bool)
    ensures MessageCame(p, s, m, isOld).calls ==
      s.calls + if !isOld && (forall i :: 0 <= i < |s.chats| ==> s.chats[i].id != m.conversationId) then [FetchChats] else []
  {
    hide Sorted, LocalMatches, PlaceOf;
    assert s.calls + [] == s.calls;
  }

  lemma EventAsks(p: Platform, s: State, e: Event)
    requires !e.Press? && !e.Tick?
    ensures AsksExactly(p, s, e, Handled(p, s, e))
  {
    hide AsksExactly, Refreshed, Adopted, MessageCame, RefreshedLocal;
    match e
    case NewMessage(m, isOld) =>
      ChatTouchedCalls(p, s, m, isOld);
      var more := if !isOld && (forall i :: 0 <= i < |s.chats| ==> s.chats[i].id != m.conversationId) then [FetchChats] else [];
      AskedExactly(p, s, e, Handled(p, s, e), more);
    case DataRefreshed =>
      RefreshedCalls(s);
      AskedExactly(p, s, e, Handled(p, s, e), [FetchChats, FetchStatus] + if s.currentChat.Some? then [Show(s.currentChat.value)] else []);
    case Reconnected =>
      AdoptedCalls(s);
      AskedExactly(p, s, e, Handled(p, s, e), [FetchChats, FetchStatus, FetchApprovals, Refresh]);
    case _ =>
      QuietEvent(p, s, e);
      AskedExactly(p, s, e, Handled(p, s, e), []);
  }

  lemma RefreshedCalls(s: State)
    ensures Refreshed(s).calls == s.calls + ([FetchChats, FetchStatus] + if s.currentChat.Some? then [Show(s.currentChat.value)] else [])
  {
  }

  lemma AdoptedCalls(s: State)
    ensures Adopted(s).calls == s.calls + [FetchChats, FetchStatus, FetchApprovals, Refresh]
  {
  }

  lemma QuietEvent(p: Platform, s: State, e: Event)
    requires !e.Press? && !e.Tick? && !e.NewMessage? && !e.DataRefreshed? && !e.Reconnected?
    ensures Handled(p, s, e).calls == s.calls + []
  {
    if e.Chats? || e.NewConversation? {
      ListAsksNothing(p, s, e);
    } else if e.Paste? {
      PasteAsksNothing(p, s, e);
    } else {
      OtherAsksNothing(p, s, e);
    }
  }

  lemma ListAsksNothing(p: Platform, s: State, e: Event)
    requires e.Chats? || e.NewConversation?
    ensures Handled(p, s, e).calls == s.calls + []
  {
    hide Sorted, LocalMatches, PlaceOf;
  }

  lemma PasteAsksNothing(p: Platform, s: State, e: Event)
    requires e.Paste?
    ensures Handled(p, s, e).calls == s.calls + []
  {
    hide ChatsCame, ConversationUpdated, MessageCame, KeyPressed, Ticked, LocalMatches;
  }

  lemma OtherAsksNothing(p: Platform, s: State, e: Event)
    requires !e.Press? && !e.Tick? && !e.NewMessage? && !e.DataRefreshed? && !e.Reconnected? && !e.Chats? && !e.NewConversation?
    requires !e.Paste?
    ensures Handled(p, s, e).calls == s.calls + []
  {
    hide ChatsCame, ConversationUpdated, MessageCame, KeyPressed, Ticked, Refreshed, Adopted, Pasted;
    hide LocalMatches, PlaceOf, Merged, Tui.Without;
  }

  /** Every key and every event asks the daemon for exactly what it means, after whatever was
      asked before. */
  lemma {:induction false} EventsAskWhatTheyMean(p: Platform, s: State, e: Event)
    ensures AsksExactly(p, s, e, Handled(p, s, e))
  {
    hide AsksExactly, Handled;
    if e.Press? {
      PressIsKey(p, s, e);
      KeyAsks(p, s, e.k, e.edited);
    } else if e.Tick? {
      TickAsks(p, s);
    } else {
      EventAsks(p, s, e);
    }
  }

  lemma PressIsKey(p: Platform, s: State, e: Event)
    requires e.Press?
    ensures Handled(p, s, e) == KeyPressed(p, s, e.k, e.edited)
  {
  }

  // ---- whole runs ----

  /** Somewhere in the run an event asked for the call. */
  ghost predicate AskedFor(p: Platform, w: World, es: seq<Event>, c: Call) {
    exists n :: 0 <= n < |es| && Means(p, Run(p, w, es[..n]).app, es[n], c)
  }

  lemma {:induction false} CallsFrom(p: Platform, w: World, es: seq<Event>, c: Call)
    requires c in Run(p, w, es).app.calls
    ensures c in w.app.calls || AskedFor(p, w, es, c)
    decreases |es|
  {
    hide Means, Handled;
    if es != [] {
      var v := Step(p, w, es[0]);
      CallsFrom(p, v, es[1..], c);
      if AskedFor(p, v, es[1..], c) {
        var n :| 0 <= n < |es[1..]| && Means(p, Run(p, v, es[1..][..n]).app, es[1..][n], c);
        assert es[..n + 1][1..] == es[1..][..n];
        assert Run(p, w, es[..n + 1]) == Run(p, v, es[1..][..n]);
        assert Means(p, Run(p, w, es[..n + 1]).app, es[n + 1], c);
      } else if c !in w.app.calls {
        EventsAskWhatTheyMean(p, w.app, es[0]);
        FromTheEvent(p, w.app, es[0], v.app, c);
        assert es[..0] == [] && Run(p, w, es[..0]) == w;
      }
    }
  }

  lemma FromTheEvent(p: Platform, s: State, e: Event, t: State, c: Call)
    requires AsksExactly(p, s, e, t) && c in t.calls && c !in s.calls
    ensures Means(p, s, e, c)
  {
    hide Means;
    assert t.calls == t.calls[..|s.calls|] + t.calls[|s.calls|..];
  }

  /** In every run, whatever the daemon was asked was asked for by a key or an event that
      means it, in the state of that moment. */
  lemma {:induction false} EveryCallIsMeant(p: Platform, es: seq<Event>, c: Call)
    requires c in Run(p, Launch(), es).app.calls
    ensures AskedFor(p, Launch(), es, c)
  {
    hide AskedFor;
    CallsFrom(p, Launch(), es, c);
  }

  /** So an approval is approved only by Enter or y, and denied only by n or d, in the open
      list of approvals, while it is the selected one. */
  lemma {:induction false} ApprovalsAreDecidedByTheirKeys(p: Platform, es: seq<Event>, id: string, approve: bool)
    requires Resolve(id, approve) in Run(p, Launch(), es).app.calls
    ensures exists n :: 0 <= n < |es| && es[n].Press? && Decided(Run(p, Launch(), es[..n]).app, es[n].k, id, approve)
  {
    hide Run;
    var c := Resolve(id, approve);
    EveryCallIsMeant(p, es, c);
    var n :| 0 <= n < |es| && Means(p, Run(p, Launch(), es[..n]).app, es[n], c);
    assert es[n].Press?;
  }
}
