/** What the keys of the terminal client do to the screen, part by part: where each part
    comes from, whatever else the key does. */
module TuiKeys {
  import opened Common
  import opened Tui
  import opened TuiRuns
  import opened TuiCalls

  const QUIT := Char('c', true)

  /** In one of the two lists, with nothing over it. */
  predicate InLists(s: State) {
    LayerOf(s) == InFocus(ChatList) || LayerOf(s) == InFocus(MessageList)
  }

  ghost predicate AnyChat(s: State) {
    exists c :: Chosen(s.chats, s.chatSel, c)
  }

  predicate AnyResult(o: Omni) {
    o.selected < |o.chatResults| + |o.msgResults|
  }

  // ---- the focus ----

  /** The key takes the focus to f. */
  ghost predicate Leads(s: State, k: Key, f: Focus) {
    match f
    case OmniBox =>
      || (InLists(s) && (Is(k, '/') || Is(k, 's')))
      || (LayerOf(s) == InFocus(MessageList) && s.messagesBack == OmniBox && (k == Esc || Is(k, 'h')))
    case ChatList =>
      || (LayerOf(s) == InFocus(OmniBox) && (k == Esc || k == Tab))
      || (LayerOf(s) == InFocus(MessageList) && (k == Tab || (s.messagesBack == ChatList && (k == Esc || Is(k, 'h')))))
      || (LayerOf(s) == InFocus(Compose) && s.composeReturn == ChatList && (k == Esc || k == Enter))
    case MessageList =>
      || (LayerOf(s) == InFocus(OmniBox) && k == Enter && AnyResult(s.omni))
      || (LayerOf(s) == InFocus(ChatList) && (k == Tab || ((k == Enter || Is(k, 'l')) && AnyChat(s))))
      || (LayerOf(s) == InFocus(Compose) && s.composeReturn == MessageList && (k == Esc || k == Enter))
    case Compose =>
      || (LayerOf(s) == InFocus(ChatList) && Is(k, 'i') && AnyChat(s))
      || (LayerOf(s) == InFocus(MessageList) && Is(k, 'i') && s.currentChat.Some?)
  }

  lemma ChatIsThere(s: State)
    ensures AnyChat(s) <==> Selected(s.chats, s.chatSel).Some?
  {
    var c := Selected(s.chats, s.chatSel);
    assert c.Some? ==> Chosen(s.chats, s.chatSel, c.value);
  }

  lemma RefreshKeepsTheRest(p: Platform, s: State)
    ensures RefreshedLocal(p, s) == s.(omni := RefreshedLocal(p, s).omni)
  {
  }

  lemma OverlayKeepsFocus(p: Platform, s: State, k: Key, edited: string)
    requires k == QUIT || !LayerOf(s).InFocus?
    ensures KeyPressed(p, s, k, edited).focus == s.focus
  {
    hide PairingKey, ApprovalsKey, OmniKey, ComposeKey, ChatsKey, MessagesKey;
    ApprovalsKeepFocus(s, k);
    if s.pairing.Some? {
      PairingKeepsFocus(p, s, k, edited);
    }
  }

  lemma ApprovalsKeepFocus(s: State, k: Key)
    ensures ApprovalsKey(s, k).focus == s.focus
  {
    hide Next, Prev;
  }

  lemma PairingKeepsFocus(p: Platform, s: State, k: Key, edited: string)
    requires s.pairing.Some?
    ensures PairingKey(p, s, k, edited).focus == s.focus
  {
  }

  lemma SearchMovesFocus(p: Platform, s: State, k: Key, edited: string, f: Focus)
    requires LayerOf(s) == InFocus(OmniBox) && f != s.focus
    ensures OmniKey(p, s, k, edited).focus == f <==> Leads(s, k, f)
  {
    hide RefreshedLocal;
    RefreshKeepsTheRest(p, s.(omni := s.omni.(input := edited)));
  }

  lemma ComposeMovesFocus(p: Platform, s: State, k: Key, edited: string, f: Focus)
    requires LayerOf(s) == InFocus(Compose) && Screen(s) && f != s.focus
    ensures ComposeKey(p, s, k, edited).focus == f <==> Leads(s, k, f)
  {
  }

  lemma ChatsMoveFocus(p: Platform, s: State, k: Key, f: Focus)
    requires LayerOf(s) == InFocus(ChatList) && f != s.focus
    ensures ChatsKey(p, s, k).focus == f <==> Leads(s, k, f)
  {
    hide RefreshedLocal, AnyChat;
    ChatIsThere(s);
    RefreshKeepsTheRest(p, s.(focus := OmniBox));
  }

  lemma MessagesMoveFocus(p: Platform, s: State, k: Key, f: Focus)
    requires LayerOf(s) == InFocus(MessageList) && Screen(s) && f != s.focus
    ensures MessagesKey(p, s, k).focus == f <==> Leads(s, k, f)
  {
    hide RefreshedLocal;
    RefreshKeepsTheRest(p, s.(focus := OmniBox));
  }

  /** The focus moves where the key leads, and nowhere else. */
  lemma {:induction false} FocusMovesIff(p: Platform, s: State, k: Key, edited: string, f: Focus)
    requires Screen(s) && f != s.focus
    ensures KeyPressed(p, s, k, edited).focus == f <==> k != QUIT && Leads(s, k, f)
  {
    if k == QUIT || !LayerOf(s).InFocus? {
      OverlayKeepsFocus(p, s, k, edited);
    } else {
      hide OmniKey, ComposeKey, ChatsKey, MessagesKey, Leads, Screen;
      match s.focus
      case OmniBox => SearchMovesFocus(p, s, k, edited, f);
      case Compose => ComposeMovesFocus(p, s, k, edited, f);
      case ChatList => ChatsMoveFocus(p, s, k, f);
      case MessageList => MessagesMoveFocus(p, s, k, f);
    }
  }

  // ---- there and back ----

  /** What a list opens, Esc leaves again for that list, or for the search screen if it was
      opened there; composing begins with an empty line and returns to its list. */
  lemma {:induction false} ThereAndBack(p: Platform, s: State, k: Key)
    requires Screen(s) && LayerOf(s).InFocus?
    ensures var t := KeyPressed(p, s, k, "");
      && (t.focus == MessageList && (s.focus == OmniBox || s.focus == ChatList) && k != Tab ==>
            KeyPressed(p, t, Esc, "").focus == s.focus && KeyPressed(p, t, Char('h', false), "").focus == s.focus)
      && (t.focus == Compose && s.focus != Compose ==>
            t.composeInput == "" && KeyPressed(p, t, Esc, "").focus == s.focus && KeyPressed(p, t, Enter, "").focus == s.focus)
  {
    hide RefreshedLocal, OmniKey, ComposeKey, ChatsKey, MessagesKey;
    WhereFrom(p, s, k);
    var t := KeyPressed(p, s, k, "");
    RefreshKeepsTheRest(p, t.(focus := OmniBox));
    BackFromMessages(p, t);
    BackFromCompose(p, t);
  }

  /** From s the key leads to t, which remembers where it came from. */
  predicate Remembers(s: State, k: Key, t: State) {
    && (t.focus == MessageList && (s.focus == OmniBox || s.focus == ChatList) && k != Tab ==>
          t.messagesBack == s.focus && LayerOf(t) == InFocus(MessageList))
    && (t.focus == Compose && s.focus != Compose ==>
          t.composeReturn == s.focus && t.composeInput == "" && LayerOf(t) == InFocus(Compose))
  }

  lemma OmniRemembers(p: Platform, s: State, k: Key)
    requires LayerOf(s) == InFocus(OmniBox)
    ensures Remembers(s, k, OmniKey(p, s, k, ""))
  {
    hide RefreshedLocal;
    RefreshKeepsTheRest(p, s.(omni := s.omni.(input := "")));
  }

  lemma ListsRemember(p: Platform, s: State, k: Key)
    requires InLists(s) && Screen(s)
    ensures s.focus == ChatList ==> Remembers(s, k, ChatsKey(p, s, k))
    ensures s.focus == MessageList ==> Remembers(s, k, MessagesKey(p, s, k))
  {
    hide RefreshedLocal;
    RefreshKeepsTheRest(p, s.(focus := OmniBox));
  }

  lemma WhereFrom(p: Platform, s: State, k: Key)
    requires LayerOf(s).InFocus? && Screen(s)
    ensures Remembers(s, k, KeyPressed(p, s, k, ""))
  {
    hide OmniKey, ChatsKey, MessagesKey;
    if s.focus == OmniBox {
      OmniRemembers(p, s, k);
    } else if s.focus != Compose {
      ListsRemember(p, s, k);
    }
  }

  lemma BackFromMessages(p: Platform, t: State)
    ensures MessagesKey(p, t, Esc).focus == t.messagesBack && MessagesKey(p, t, Char('h', false)).focus == t.messagesBack
  {
    hide RefreshedLocal;
    RefreshKeepsTheRest(p, t.(focus := OmniBox));
  }

  lemma BackFromCompose(p: Platform, t: State)
    ensures ComposeKey(p, t, Esc, "").focus == t.composeReturn && ComposeKey(p, t, Enter, "").focus == t.composeReturn
    ensures ComposeKey(p, t, Esc, "").composeInput == "" == ComposeKey(p, t, Enter, "").composeInput
  {
  }

  // ---- overlays ----

  predicate OverlaysBecome(s: State, k: Key, t: State) {
    && (t.quit <==> s.quit || k == QUIT || (InLists(s) && Is(k, 'q')))
    && (t.showApprovals <==>
          if k != QUIT && LayerOf(s) == InApprovals then k != Esc && !Is(k, 'a') && !Is(k, 'q')
          else s.showApprovals || (k != QUIT && InLists(s) && Is(k, 'a')))
    && (t.showDoctor <==>
          if k != QUIT && LayerOf(s) == InDoctor then false else s.showDoctor || (k != QUIT && InLists(s) && Is(k, 'd')))
  }

  lemma TopOverlayBecomes(p: Platform, s: State, k: Key, edited: string)
    requires !LayerOf(s).InFocus? && k != QUIT
    ensures s.pairing.Some? ==> OverlaysBecome(s, k, PairingKey(p, s, k, edited))
    ensures LayerOf(s) == InPrompt ==> OverlaysBecome(s, k, PromptKey(p, s, k, edited))
    ensures LayerOf(s) == InDoctor ==> OverlaysBecome(s, k, s.(showDoctor := false))
    ensures LayerOf(s) == InApprovals ==> OverlaysBecome(s, k, ApprovalsKey(s, k))
  {
  }

  lemma ListOverlaysBecome(p: Platform, s: State, k: Key, edited: string)
    requires LayerOf(s).InFocus? && k != QUIT
    ensures s.focus == OmniBox ==> OverlaysBecome(s, k, OmniKey(p, s, k, edited))
    ensures s.focus == Compose ==> OverlaysBecome(s, k, ComposeKey(p, s, k, edited))
    ensures s.focus == ChatList ==> OverlaysBecome(s, k, ChatsKey(p, s, k))
    ensures s.focus == MessageList ==> OverlaysBecome(s, k, MessagesKey(p, s, k))
  {
    hide RefreshedLocal;
    RefreshKeepsTheRest(p, s.(focus := OmniBox));
    RefreshKeepsTheRest(p, s.(omni := s.omni.(input := edited)));
  }

  /** Over the lists a opens the approvals and d the status page, which any key closes;
      q quits from the lists, and Ctrl-C from anywhere. */
  lemma {:induction false} OverlaysAfter(p: Platform, s: State, k: Key, edited: string)
    ensures OverlaysBecome(s, k, KeyPressed(p, s, k, edited))
  {
    hide PairingKey, PromptKey, ApprovalsKey, OmniKey, ComposeKey, ChatsKey, MessagesKey;
    if k != QUIT {
      if LayerOf(s).InFocus? {
        ListOverlaysBecome(p, s, k, edited);
      } else {
        TopOverlayBecomes(p, s, k, edited);
      }
    }
  }

  /** The line that is asked for: n in the chats asks for the selected chat's name, e in the
      messages for a reaction to the selected message; then keys edit the line, and Enter
      and Esc close it. */
  ghost predicate PromptBecomes(s: State, k: Key, edited: string, prompt: Option<Prompt>) {
    if k == QUIT then prompt == s.prompt
    else
      match LayerOf(s)
      case InPrompt => if k == Esc || k == Enter then prompt == None else prompt == Some(Prompt(s.prompt.value.kind, edited))
      case InFocus(ChatList) =>
        if Is(k, 'n') && AnyChat(s) then exists c :: Chosen(s.chats, s.chatSel, c) && prompt == Some(Prompt(Alias(c.id), ""))
        else prompt == s.prompt
      case InFocus(MessageList) =>
        if Is(k, 'e') && exists m :: Chosen(s.messages, s.msgSel, m) then
          exists m :: Chosen(s.messages, s.msgSel, m) && prompt == Some(Prompt(React(m.id), ""))
        else prompt == s.prompt
      case _ => prompt == s.prompt
  }

  /** Pairing: p opens it over the lists, and again after a failure; cookies are typed, and
      submitted by Enter if there are any, or a QR code asked for by Ctrl-R; Esc closes it,
      and so does q once nothing is typed any more. */
  predicate PairingBecomes(p: Platform, s: State, k: Key, edited: string, pairing: Option<Pairing>) {
    var blank := Some(Pairing(EnterCookies, ""));
    if k == QUIT then pairing == s.pairing
    else if InLists(s) then pairing == if Is(k, 'p') then blank else s.pairing
    else if s.pairing.None? then pairing == None
    else
      var stage, input := s.pairing.value.stage, s.pairing.value.input;
      if k == Esc then pairing == None
      else if stage == EnterCookies then
        pairing == Some(
          if k == Enter then Pairing(if p.trim(input) == "" then EnterCookies else Waiting, input)
          else if k == Char('r', true) then Pairing(Waiting, input)
          else Pairing(EnterCookies, edited))
      else if Is(k, 'q') then pairing == None
      else if Is(k, 'p') && stage == Failed then pairing == blank
      else pairing == s.pairing
  }

  lemma {:induction false} PromptAndPairingAfter(p: Platform, s: State, k: Key, edited: string)
    ensures var t := KeyPressed(p, s, k, edited);
      PromptBecomes(s, k, edited, t.prompt) && PairingBecomes(p, s, k, edited, t.pairing)
  {
    if !LayerOf(s).InFocus? || k == QUIT {
      InOverlayAfter(p, s, k, edited);
    } else if s.focus == OmniBox || s.focus == Compose {
      InSearchAfter(p, s, k, edited);
    } else if s.focus == ChatList {
      InChatsAfter(p, s, k, edited);
    } else {
      InMessagesAfter(p, s, k, edited);
    }
  }

  lemma PairingKeyAfter(p: Platform, s: State, k: Key, edited: string)
    requires s.pairing.Some? && k != QUIT
    ensures PairingBecomes(p, s, k, edited, PairingKey(p, s, k, edited).pairing)
    ensures PairingKey(p, s, k, edited).prompt == s.prompt
  {
  }

  lemma InOverlayAfter(p: Platform, s: State, k: Key, edited: string)
    requires !LayerOf(s).InFocus? || k == QUIT
    ensures var t := KeyPressed(p, s, k, edited);
      PromptBecomes(s, k, edited, t.prompt) && PairingBecomes(p, s, k, edited, t.pairing)
  {
    hide PairingKey, OmniKey, ComposeKey, ChatsKey, MessagesKey;
    if k != QUIT && s.pairing.Some? {
      PairingKeyAfter(p, s, k, edited);
    }
  }

  lemma InSearchAfter(p: Platform, s: State, k: Key, edited: string)
    requires (LayerOf(s) == InFocus(OmniBox) || LayerOf(s) == InFocus(Compose)) && k != QUIT
    ensures var t := KeyPressed(p, s, k, edited);
      PromptBecomes(s, k, edited, t.prompt) && PairingBecomes(p, s, k, edited, t.pairing)
  {
    hide RefreshedLocal, ChatsKey, MessagesKey;
    RefreshKeepsTheRest(p, s.(omni := s.omni.(input := edited)));
  }

  lemma InChatsAfter(p: Platform, s: State, k: Key, edited: string)
    requires LayerOf(s) == InFocus(ChatList) && k != QUIT
    ensures var t := KeyPressed(p, s, k, edited);
      PromptBecomes(s, k, edited, t.prompt) && PairingBecomes(p, s, k, edited, t.pairing)
  {
    hide RefreshedLocal, AnyChat, OmniKey, MessagesKey;
    RefreshKeepsTheRest(p, s.(focus := OmniBox));
    ChatIsThere(s);
    var c := Selected(s.chats, s.chatSel);
    assert c.Some? ==> Chosen(s.chats, s.chatSel, c.value);
  }

  lemma InMessagesAfter(p: Platform, s: State, k: Key, edited: string)
    requires LayerOf(s) == InFocus(MessageList) && k != QUIT
    ensures var t := KeyPressed(p, s, k, edited);
      PromptBecomes(s, k, edited, t.prompt) && PairingBecomes(p, s, k, edited, t.pairing)
  {
    hide RefreshedLocal, OmniKey, ChatsKey;
    RefreshKeepsTheRest(p, s.(focus := OmniBox));
    var m := Selected(s.messages, s.msgSel);
    assert m.Some? ==> Chosen(s.messages, s.msgSel, m.value);
  }

  // ---- selections ----

  /** One further down, or up, if there is one. */
  function Below(sel: Option<nat>, n: nat): Option<nat> {
    if n == 0 then None else if sel.None? then Some(0) else if sel.value + 1 < n then Some(sel.value + 1) else sel
  }

  function Above(sel: Option<nat>, n: nat): Option<nat> {
    if n == 0 then None else if sel.None? || sel.value == 0 then Some(0) else Some(sel.value - 1)
  }

  /** Down and j go down a list of n, Up and k go up; where there are ends to go to, g goes to
      the first and G to the last. */
  function Goes(sel: Option<nat>, n: nat, k: Key, ends: bool): Option<nat> {
    if k == Down || Is(k, 'j') then Below(sel, n)
    else if k == Up || Is(k, 'k') then Above(sel, n)
    else if ends && Is(k, 'g') then (if n == 0 then None else Some(0))
    else if ends && Is(k, 'G') then (if n == 0 then None else Some(n - 1))
    else sel
  }

  /** Each list's selection goes with the keys while the list is on top, and else stays. */
  lemma {:induction false} SelectionsAfter(p: Platform, s: State, k: Key, edited: string)
    ensures var t := KeyPressed(p, s, k, edited);
      && t.approvalSel ==
           (if k != QUIT && LayerOf(s) == InApprovals then Goes(s.approvalSel, |s.approvals|, k, false) else s.approvalSel)
      && t.chatSel == (if k != QUIT && LayerOf(s) == InFocus(ChatList) then Goes(s.chatSel, |s.chats|, k, true) else s.chatSel)
      && t.msgSel == (if k != QUIT && LayerOf(s) == InFocus(MessageList) then Goes(s.msgSel, |s.messages|, k, true) else s.msgSel)
  {
    hide PairingKey, PromptKey, ApprovalsKey, OmniKey, ComposeKey, ChatsKey, MessagesKey, Goes;
    if k != QUIT {
      if LayerOf(s).InFocus? {
        ListSelections(p, s, k, edited);
      } else {
        OverlaySelections(p, s, k, edited);
      }
    }
  }

  predicate SelectionsStay(s: State, t: State) {
    t.approvalSel == s.approvalSel && t.chatSel == s.chatSel && t.msgSel == s.msgSel
  }

  lemma OverlaySelections(p: Platform, s: State, k: Key, edited: string)
    ensures s.pairing.Some? ==> SelectionsStay(s, PairingKey(p, s, k, edited))
    ensures s.prompt.Some? ==> SelectionsStay(s, PromptKey(p, s, k, edited))
    ensures var t := ApprovalsKey(s, k);
      t.approvalSel == Goes(s.approvalSel, |s.approvals|, k, false) && t.chatSel == s.chatSel && t.msgSel == s.msgSel
  {
    hide Goes, ApprovalsKey, PairingKey, PromptKey;
    ApprovalSelection(s, k);
    if s.pairing.Some? {
      PairingKeepsSelections(p, s, k, edited);
    }
    if s.prompt.Some? {
      PromptKeepsSelections(p, s, k, edited);
    }
  }

  lemma PromptKeepsSelections(p: Platform, s: State, k: Key, edited: string)
    requires s.prompt.Some?
    ensures SelectionsStay(s, PromptKey(p, s, k, edited))
  {
  }

  predicate Travels(k: Key) {
    k == Down || k == Up || (k.Char? && Jumps(k.c))
  }

  lemma ApprovalSelection(s: State, k: Key)
    ensures var t := ApprovalsKey(s, k);
      t.approvalSel == Goes(s.approvalSel, |s.approvals|, k, false) && t.chatSel == s.chatSel && t.msgSel == s.msgSel
  {
    if Travels(k) {
      hide ResolveSelected;
    } else {
      ApprovalSelectionStays(s, k);
    }
  }

  lemma ApprovalSelectionStays(s: State, k: Key)
    requires !Travels(k)
    ensures SelectionsStay(s, ApprovalsKey(s, k)) && Goes(s.approvalSel, |s.approvals|, k, false) == s.approvalSel
  {
    hide Next, Prev;
  }

  lemma PairingKeepsSelections(p: Platform, s: State, k: Key, edited: string)
    requires s.pairing.Some?
    ensures SelectionsStay(s, PairingKey(p, s, k, edited))
  {
  }

  lemma ChatSelection(p: Platform, s: State, k: Key)
    ensures var t := ChatsKey(p, s, k);
      t.chatSel == Goes(s.chatSel, |s.chats|, k, true) && t.approvalSel == s.approvalSel && t.msgSel == s.msgSel
  {
    if Travels(k) {
      hide ChatOpened, ChatComposed, EnteredOmni, OverlayOpened, Renaming;
    } else {
      ChatSelectionStays(p, s, k);
    }
  }

  lemma ChatSelectionStays(p: Platform, s: State, k: Key)
    requires !Travels(k)
    ensures SelectionsStay(s, ChatsKey(p, s, k)) && Goes(s.chatSel, |s.chats|, k, true) == s.chatSel
  {
    hide Next, Prev, ChatsChar, ChatOpened;
    OpeningStays(p, s);
    if k.Char? {
      ChatsCharStays(p, s, k.c);
    }
  }

  lemma OpeningStays(p: Platform, s: State)
    ensures SelectionsStay(s, ChatOpened(s)) && SelectionsStay(s, ChatComposed(s)) && SelectionsStay(s, Renaming(s))
    ensures SelectionsStay(s, EnteredOmni(p, s)) && SelectionsStay(s, WentBack(p, s)) && SelectionsStay(s, Reopened(s))
    ensures forall back :: SelectionsStay(s, EnteredCompose(s, back))
    ensures forall c :: SelectionsStay(s, OverlayOpened(s, c))
  {
    hide RefreshedLocal;
    RefreshKeepsTheRest(p, s.(focus := OmniBox));
  }

  lemma ChatsCharStays(p: Platform, s: State, c: char)
    requires !Jumps(c)
    ensures SelectionsStay(s, ChatsChar(p, s, c))
  {
    hide ChatOpened, ChatComposed, Renaming, EnteredOmni, OverlayOpened;
    OpeningStays(p, s);
  }

  lemma MessageSelection(p: Platform, s: State, k: Key)
    ensures var t := MessagesKey(p, s, k);
      t.msgSel == Goes(s.msgSel, |s.messages|, k, true) && t.approvalSel == s.approvalSel && t.chatSel == s.chatSel
  {
    if Travels(k) {
      hide WentBack, EnteredCompose, EnteredOmni, OverlayOpened, Backfilling, Downloading, Reacting, Reopened;
    } else {
      MessageSelectionStays(p, s, k);
    }
  }

  lemma MessageSelectionStays(p: Platform, s: State, k: Key)
    requires !Travels(k)
    ensures SelectionsStay(s, MessagesKey(p, s, k)) && Goes(s.msgSel, |s.messages|, k, true) == s.msgSel
  {
    hide Next, Prev, MessagesChar, WentBack;
    OpeningStays(p, s);
    if k.Char? {
      MessagesCharStays(p, s, k.c);
    }
  }

  lemma MessagesCharStays(p: Platform, s: State, c: char)
    requires !Jumps(c)
    ensures SelectionsStay(s, MessagesChar(p, s, c))
  {
    hide EnteredCompose, WentBack, Reopened, EnteredOmni, OverlayOpened, Backfilling, Downloading, Reacting;
    OpeningStays(p, s);
    AskingStays(s);
  }

  lemma AskingStays(s: State)
    ensures SelectionsStay(s, Backfilling(s)) && SelectionsStay(s, Downloading(s)) && SelectionsStay(s, Reacting(s))
  {
  }

  lemma SearchKeepsSelections(p: Platform, s: State, k: Key, edited: string)
    ensures SelectionsStay(s, OmniKey(p, s, k, edited)) && SelectionsStay(s, ComposeKey(p, s, k, edited))
  {
    hide RefreshedLocal;
    RefreshKeepsTheRest(p, s.(omni := s.omni.(input := edited)));
  }

  lemma ListSelections(p: Platform, s: State, k: Key, edited: string)
    ensures SelectionsStay(s, OmniKey(p, s, k, edited)) && SelectionsStay(s, ComposeKey(p, s, k, edited))
    ensures var t := ChatsKey(p, s, k);
      t.chatSel == Goes(s.chatSel, |s.chats|, k, true) && t.approvalSel == s.approvalSel && t.msgSel == s.msgSel
    ensures var t := MessagesKey(p, s, k);
      t.msgSel == Goes(s.msgSel, |s.messages|, k, true) && t.approvalSel == s.approvalSel && t.chatSel == s.chatSel
  {
    hide OmniKey, ComposeKey, ChatsKey, MessagesKey, Goes;
    SearchKeepsSelections(p, s, k, edited);
    ChatSelection(p, s, k);
    MessageSelection(p, s, k);
  }

  /** How far a key moves along the results of the search screen. */
  function Steps(k: Key): int {
    if k == Down || k == Char('n', true) || k == Char('j', true) then 1
    else if k == Up || k == Char('p', true) || k == Char('k', true) then -1
    else if k == PageDown then 10
    else if k == PageUp then -10
    else 0
  }

  predicate Types(k: Key) {
    k == OtherKey || (k.Char? && Steps(k) == 0)
  }

  /** On the search screen: the selection moves by as many places as there are, up to the
      ends; a key that types puts the text in, and if that changes it the selection goes to
      the top and the search is due. */
  predicate SearchBecomes(o: Omni, k: Key, edited: string, t: Omni) {
    var n := |o.chatResults| + |o.msgResults|;
    && (Steps(k) != 0 && o.selected < n ==>
          var to := o.selected + Steps(k);
          && (0 <= to < n ==> t.selected == to) && (to < 0 ==> t.selected == 0) && (to >= n ==> t.selected == n - 1))
    && (Types(k) ==> t.input == edited && (edited != o.input ==> t.dirty && t.selected == 0))
    && (!Types(k) ==> t.input == o.input && t.dirty == o.dirty && t.chatResults == o.chatResults && t.msgResults == o.msgResults)
  }

  lemma {:induction false} SearchAfter(p: Platform, s: State, k: Key, edited: string)
    requires LayerOf(s) == InFocus(OmniBox) && k != QUIT
    ensures SearchBecomes(s.omni, k, edited, KeyPressed(p, s, k, edited).omni)
  {
    hide LocalMatches, OmniKey, SearchBecomes;
    if Types(k) {
      TypingSearches(p, s, k, edited);
    } else if Steps(k) != 0 {
      SteppingMoves(p, s, k, edited);
    } else {
      OthersKeepTheSearch(p, s, k, edited);
    }
  }

  lemma TypingSearches(p: Platform, s: State, k: Key, edited: string)
    requires Types(k)
    ensures SearchBecomes(s.omni, k, edited, OmniKey(p, s, k, edited).omni)
  {
    hide LocalMatches;
  }

  lemma SteppingMoves(p: Platform, s: State, k: Key, edited: string)
    requires Steps(k) != 0
    ensures SearchBecomes(s.omni, k, edited, OmniKey(p, s, k, edited).omni)
  {
    hide RefreshedLocal;
  }

  lemma OthersKeepTheSearch(p: Platform, s: State, k: Key, edited: string)
    requires Steps(k) == 0 && !Types(k)
    ensures SearchBecomes(s.omni, k, edited, OmniKey(p, s, k, edited).omni)
  {
    hide RefreshedLocal;
  }

  /** The compose line holds what is typed until it is left. */
  lemma {:induction false} ComposeAfter(p: Platform, s: State, k: Key, edited: string)
    requires LayerOf(s) == InFocus(Compose) && k != QUIT
    ensures var t := KeyPressed(p, s, k, edited);
      t.composeInput == (if k == Esc || k == Enter then "" else edited) && t.composeReturn == s.composeReturn
  {
  }

  // ---- the current chat ----

  /** A key makes a chat current exactly if it asks for it to be shown; then no message in it
      is singled out. The lists, the cache and what came in are not a key's to change. */
  lemma {:induction false} CurrentChatAfter(p: Platform, s: State, k: Key, edited: string)
    ensures var t := KeyPressed(p, s, k, edited);
      && (forall id :: k != QUIT && ShowsFor(s, k, id) ==> t.currentChat == Some(id) && t.anchor == None)
      && ((forall id :: k == QUIT || !ShowsFor(s, k, id)) ==> t.currentChat == s.currentChat && t.anchor == s.anchor)
      && t.chats == s.chats && t.messages == s.messages && t.approvals == s.approvals && t.cache == s.cache
  {
    hide PairingKey, PromptKey, ApprovalsKey, OmniKey, ComposeKey, ChatsKey, MessagesKey;
    if k != QUIT {
      if LayerOf(s).InFocus? {
        hide ShowsFor;
        ListShows(p, s, k, edited);
      } else {
        OverlayShows(p, s, k, edited);
      }
    }
  }

  ghost predicate ShowsOnly(s: State, k: Key, t: State) {
    && (forall id :: ShowsFor(s, k, id) ==> t.currentChat == Some(id) && t.anchor == None)
    && ((forall id :: !ShowsFor(s, k, id)) ==> t.currentChat == s.currentChat && t.anchor == s.anchor)
    && t.chats == s.chats && t.messages == s.messages && t.approvals == s.approvals && t.cache == s.cache
  }

  predicate SameChat(s: State, t: State) {
    && t.currentChat == s.currentChat && t.anchor == s.anchor
    && t.chats == s.chats && t.messages == s.messages && t.approvals == s.approvals && t.cache == s.cache
  }

  lemma OverlayShows(p: Platform, s: State, k: Key, edited: string)
    ensures s.pairing.Some? ==> SameChat(s, PairingKey(p, s, k, edited))
    ensures s.prompt.Some? ==> SameChat(s, PromptKey(p, s, k, edited))
    ensures SameChat(s, ApprovalsKey(s, k)) && SameChat(s, s.(showDoctor := false))
  {
    hide ApprovalsKey, PairingKey, PromptKey;
    ApprovalsShowNothing(s, k);
    if s.pairing.Some? {
      PairingShowsNothing(p, s, k, edited);
    }
    if s.prompt.Some? {
      PromptShowsNothing(p, s, k, edited);
    }
  }

  lemma PromptShowsNothing(p: Platform, s: State, k: Key, edited: string)
    requires s.prompt.Some?
    ensures SameChat(s, PromptKey(p, s, k, edited))
  {
  }

  lemma ApprovalsShowNothing(s: State, k: Key)
    ensures SameChat(s, ApprovalsKey(s, k))
  {
    hide Next, Prev, ResolveSelected;
    ResolvingShowsNothing(s);
  }

  lemma ResolvingShowsNothing(s: State)
    ensures forall approve :: SameChat(s, ResolveSelected(s, approve)) && ResolveSelected(s, approve).focus == s.focus
  {
  }

  lemma PairingShowsNothing(p: Platform, s: State, k: Key, edited: string)
    requires s.pairing.Some?
    ensures SameChat(s, PairingKey(p, s, k, edited))
  {
  }

  lemma OmniShows(p: Platform, s: State, k: Key, edited: string)
    requires LayerOf(s) == InFocus(OmniBox)
    ensures ShowsOnly(s, k, OmniKey(p, s, k, edited))
  {
    hide RefreshedLocal;
    RefreshKeepsTheRest(p, s.(omni := s.omni.(input := edited)));
    var n := |s.omni.chatResults|;
    if k == Enter && s.omni.selected < n {
      assert ShowsFor(s, k, s.omni.chatResults[s.omni.selected].id);
    }
  }

  lemma ChatsShow(p: Platform, s: State, k: Key)
    requires LayerOf(s) == InFocus(ChatList)
    ensures ShowsOnly(s, k, ChatsKey(p, s, k))
  {
    var c := Selected(s.chats, s.chatSel);
    if c.Some? && (k == Enter || Is(k, 'l') || (Is(k, 'i') && s.currentChat != Some(c.value.id))) {
      assert Chosen(s.chats, s.chatSel, c.value) && ChosenChat(s, c.value.id);
      assert ShowsFor(s, k, c.value.id);
    } else {
      ChatsShowNothing(p, s, k);
    }
  }

  lemma ChatsShowNothing(p: Platform, s: State, k: Key)
    requires LayerOf(s) == InFocus(ChatList)
    requires var c := Selected(s.chats, s.chatSel);
      !(c.Some? && (k == Enter || Is(k, 'l') || (Is(k, 'i') && s.currentChat != Some(c.value.id))))
    ensures SameChat(s, ChatsKey(p, s, k)) && forall id :: !ShowsFor(s, k, id)
  {
    hide RefreshedLocal;
    RefreshKeepsTheRest(p, s.(focus := OmniBox));
  }

  lemma MessagesShow(p: Platform, s: State, k: Key)
    requires LayerOf(s) == InFocus(MessageList)
    ensures ShowsOnly(s, k, MessagesKey(p, s, k))
  {
    hide RefreshedLocal;
    RefreshKeepsTheRest(p, s.(focus := OmniBox));
    if Is(k, 'r') && s.currentChat.Some? {
      assert ShowsFor(s, k, s.currentChat.value);
    }
  }

  lemma ListShows(p: Platform, s: State, k: Key, edited: string)
    requires LayerOf(s).InFocus?
    ensures s.focus == OmniBox ==> ShowsOnly(s, k, OmniKey(p, s, k, edited))
    ensures s.focus == Compose ==> ShowsOnly(s, k, ComposeKey(p, s, k, edited))
    ensures s.focus == ChatList ==> ShowsOnly(s, k, ChatsKey(p, s, k))
    ensures s.focus == MessageList ==> ShowsOnly(s, k, MessagesKey(p, s, k))
  {
    if s.focus == OmniBox {
      OmniShows(p, s, k, edited);
    } else if s.focus == ChatList {
      ChatsShow(p, s, k);
    } else if s.focus == MessageList {
      MessagesShow(p, s, k);
    }
  }
}
