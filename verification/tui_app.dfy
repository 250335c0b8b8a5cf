/** The App of gmtui/src/app.rs as an object whose methods update its fields; each
    method does to the whole state what its function in Tui says. */
module TuiApp {
  import opened Common
  import opened Tui
  import TuiCalls
  import TuiEffects
  import TuiRuns

  class App {
    const platform: Platform
    var focus: Focus
    var omni: Omni
    var previewCache: map<PreviewKey, Preview>
    var composeInput: string
    var composeReturn: Focus
    var messagesBack: Focus
    var chats: seq<Conversation>
    var chatSel: Option<nat>
    var currentChat: Option<string>
    var messages: seq<Message>
    var msgSel: Option<nat>
    var anchor: Option<string>
    var showApprovals: bool
    var approvals: seq<Approval>
    var approvalSel: Option<nat>
    var pairing: Option<Pairing>
    var prompt: Option<Prompt>
    var showDoctor: bool
    var shouldQuit: bool
    var calls: seq<Call>

    function Now(): State
      reads this
    {
      State(focus, omni, previewCache, composeInput, composeReturn, messagesBack, chats, chatSel, currentChat, messages,
        msgSel, anchor, showApprovals, approvals, approvalSel, pairing, prompt, showDoctor, shouldQuit, calls)
    }

    constructor (platform: Platform)
      ensures this.platform == platform && Now() == Start()
    {
      this.platform := platform;
      focus, composeReturn, messagesBack := OmniBox, OmniBox, OmniBox;
      omni := Omni("", false, 0, false, [], [], 0, None, None);
      previewCache, composeInput, chats, messages, approvals, calls := map[], "", [], [], [], [];
      chatSel, msgSel, approvalSel, currentChat, anchor, pairing, prompt := None, None, None, None, None, None, None;
      showApprovals, showDoctor, shouldQuit := false, false, false;
    }

    method Spawn(c: Call)
      modifies this`calls
      ensures calls == old(calls) + [c]
    {
      calls := calls + [c];
    }

    // ---- omni search ----

    method RefreshOmniLocal()
      modifies this`omni
      ensures Now() == RefreshedLocal(platform, old(Now()))
    {
      var query := platform.trim(omni.input);
      omni := omni.(chatResults := LocalMatches(platform, chats, query));
      if |query| < 3 {
        omni := omni.(msgResults := [], searching := false);
      }
      omni := omni.(selected := 0, dirty := true);
    }

    method DispatchOmniSearch()
      modifies this`omni, this`calls
      ensures Now() == Dispatched(platform, old(Now()))
    {
      var query := platform.trim(omni.input);
      omni := omni.(generation := omni.generation + 1);
      if |query| < 2 {
        return;
      }
      omni := omni.(searching := true);
      Spawn(Search(omni.generation, query));
    }

    method OnOmniResults(generation: nat, found: seq<Conversation>, msgs: seq<Hit>)
      modifies this`omni
      ensures Now() == ResultsCame(old(Now()), generation, found, msgs)
    {
      if generation != omni.generation {
        return;
      }
      omni := omni.(searching := false);
      for i := 0 to |found|
        invariant Merged(omni.chatResults, found[i..]) == Merged(old(omni.chatResults), found)
        invariant omni == old(omni).(searching := false, chatResults := omni.chatResults)
      {
        if |omni.chatResults| >= OMNI_CHAT_LIMIT {
          break;
        }
        var conv := found[i];
        assert found[i..][0] == conv && found[i..][1..] == found[i + 1..];
        if Find(omni.chatResults, (c: Conversation) => c.id == conv.id) == |omni.chatResults| {
          omni := omni.(chatResults := omni.chatResults + [conv]);
        }
      }
      omni := omni.(msgResults := msgs);
      var total := |omni.chatResults| + |omni.msgResults|;
      if total == 0 {
        omni := omni.(selected := 0);
      } else if omni.selected >= total {
        omni := omni.(selected := total - 1);
      }
    }

    method OpenChat(id: string)
      modifies this`currentChat, this`anchor, this`calls
      ensures Now() == Opened(old(Now()), id)
    {
      currentChat, anchor := Some(id), None;
      Spawn(Show(id));
    }

    method OmniActivate()
      modifies this`currentChat, this`anchor, this`calls, this`messagesBack, this`focus
      ensures Now() == Activated(old(Now()))
    {
      var n := |omni.chatResults|;
      if omni.selected < n {
        OpenChat(omni.chatResults[omni.selected].id);
        messagesBack, focus := OmniBox, MessageList;
      } else if omni.selected - n < |omni.msgResults| {
        Spawn(Context(omni.msgResults[omni.selected - n]));
        messagesBack, focus := OmniBox, MessageList;
      }
    }

    method OmniMove(delta: int)
      modifies this`omni
      ensures Now() == Moved(old(Now()), delta)
    {
      var total := |omni.chatResults| + |omni.msgResults|;
      if total == 0 {
        omni := omni.(selected := 0);
        return;
      }
      var to := omni.selected + delta;
      omni := omni.(selected := if to < 0 then 0 else if to > total - 1 then total - 1 else to);
    }

    method SyncPreview()
      modifies this`omni, this`calls
      ensures Now() == PreviewSynced(old(Now()))
    {
      var key := KeyOfSelection(omni);
      if key == omni.previewKey {
        return;
      }
      omni := omni.(previewKey := key, preview := None);
      if key.None? {
        return;
      }
      if key.value in previewCache {
        omni := omni.(preview := Some(previewCache[key.value]));
        return;
      }
      Spawn(FetchPreview(key.value));
    }

    method OnPreview(preview: Preview)
      modifies this`omni, this`previewCache
      ensures Now() == PreviewCame(old(Now()), preview)
    {
      if |previewCache| > 200 {
        previewCache := map[];
      }
      previewCache := previewCache[preview.key := preview];
      if omni.previewKey == Some(preview.key) {
        omni := omni.(preview := Some(preview));
      }
    }

    method OnTick()
      modifies this`omni, this`calls
      ensures Now() == Ticked(platform, old(Now()))
    {
      hide Dispatched, PreviewSynced;
      if omni.dirty {
        omni := omni.(dirty := false);
        DispatchOmniSearch();
      }
      DispatchKeepsFocus(platform, old(Now()).(omni := old(omni).(dirty := false)));
      if focus == OmniBox {
        SyncPreview();
      }
    }

    // ---- events of the daemon ----

    /** The chats are put in order, none is lost, and the selection stays on its chat. */
    method SortChats()
      modifies this`chats, this`chatSel
      ensures Now() == ChatsSorted(old(Now()))
      ensures TuiRuns.Ordered(chats, ChatBefore) && multiset(chats) == multiset(old(chats))
      ensures old(Selected(chats, chatSel)).Some? ==>
        Selected(chats, chatSel).Some? && Selected(chats, chatSel).value.id == old(Selected(chats, chatSel)).value.id
    {
      hide Sorted;
      TuiRuns.SortingChats(Now());
      var was := Selected(chats, chatSel);
      chats := Sorted(chats, ChatBefore);
      if was.Some? {
        var at := Find(chats, (c: Conversation) => c.id == was.value.id);
        if at < |chats| {
          chatSel := Some(at);
        }
      }
    }

    method RefreshOmniRecents()
      modifies this`omni
      ensures Now() == RecentsRefreshed(platform, old(Now()))
    {
      if focus == OmniBox && platform.trim(omni.input) == "" {
        omni := omni.(chatResults := LocalMatches(platform, chats, ""));
      }
    }

    method OnChats(found: seq<Conversation>)
      modifies this`chats, this`chatSel, this`omni
      ensures Now() == ChatsCame(platform, old(Now()), found)
    {
      hide ChatsSorted, RecentsRefreshed;
      chats := found;
      SortChats();
      if chatSel.None? && chats != [] {
        chatSel := Some(0);
      }
      RefreshOmniRecents();
    }

    method OnConversation(conv: Conversation)
      modifies this`chats, this`chatSel, this`omni
      ensures Now() == ConversationUpdated(platform, old(Now()), conv)
    {
      hide ChatsSorted, RecentsRefreshed;
      var at := Find(chats, (c: Conversation) => c.id == conv.id);
      if at < |chats| {
        chats := chats[at := conv];
      } else {
        chats := chats + [conv];
      }
      SortChats();
      RefreshOmniRecents();
    }

    method SelectMessageAnchor()
      modifies this`msgSel
      ensures Now() == AnchorSelected(old(Now()))
    {
      if messages == [] {
        msgSel := None;
        return;
      }
      var at := |messages| - 1;
      if anchor.Some? {
        var found := PlaceOf(messages, anchor.value);
        if found < |messages| {
          at := found;
        }
      }
      msgSel := Some(at);
    }

    method OnMessages(id: string, found: seq<Message>)
      modifies this`messages, this`msgSel
      ensures Now() == MessagesCame(old(Now()), id, found)
    {
      hide AnchorSelected;
      if currentChat == Some(id) {
        messages := found;
        SelectMessageAnchor();
      }
    }

    method OnContext(at: string, id: string, found: seq<Message>)
      modifies this`currentChat, this`messages, this`anchor, this`focus, this`msgSel
      ensures Now() == ContextCame(old(Now()), at, id, found)
    {
      hide AnchorSelected;
      currentChat, messages, anchor, focus := Some(id), found, Some(at), MessageList;
      assert Now() == old(Now()).(currentChat := Some(id), messages := found, anchor := Some(at), focus := MessageList);
      SelectMessageAnchor();
    }

    method TouchChat(m: Message, isOld: bool)
      modifies this`chats, this`chatSel, this`omni, this`calls
      ensures Now() == ChatTouched(platform, old(Now()), m, isOld)
    {
      hide ChatsSorted, RecentsRefreshed;
      var at := Find(chats, (c: Conversation) => c.id == m.conversationId);
      if at < |chats| {
        if m.timestampMs > chats[at].lastMs {
          chats := chats[at := chats[at].(lastMs := m.timestampMs)];
        } else {
          assert chats[at := chats[at]] == chats;
        }
        SortChats();
        RefreshOmniRecents();
      } else if !isOld {
        Spawn(FetchChats);
      }
    }

    method ApplyIncomingMessage(m: Message, isOld: bool)
      modifies this`chats, this`chatSel, this`omni, this`calls, this`messages, this`msgSel
      ensures Now() == MessageCame(platform, old(Now()), m, isOld)
    {
      hide ChatTouched, Sorted;
      TouchChat(m, isOld);
      if currentChat != Some(m.conversationId) {
        return;
      }
      var bottom := if messages == [] then 0 else |messages| - 1;
      var atBottom := msgSel.None? || msgSel.value == bottom;
      var at := PlaceOf(messages, m.id);
      if at < |messages| {
        messages := messages[at := m];
      } else {
        messages := messages + [m];
        messages := Sorted(messages, MessageBefore);
      }
      if atBottom && messages != [] {
        msgSel := Some(|messages| - 1);
      }
    }

    method OnApprovals(found: seq<Approval>)
      modifies this`approvals, this`approvalSel
      ensures Now() == ApprovalsCame(old(Now()), found)
    {
      approvals := found;
      if |approvals| == 0 {
        approvalSel := None;
      } else if approvalSel.None? {
        approvalSel := Some(0);
      } else if approvalSel.value >= |approvals| {
        approvalSel := Some(|approvals| - 1);
      }
    }

    method OnApprovalRequested(a: Approval)
      modifies this`approvals, this`approvalSel
      ensures Now() == ApprovalRequested(old(Now()), a)
    {
      approvals := Tui.Without(approvals, a.id);
      approvals := [a] + approvals;
      if approvalSel.None? {
        approvalSel := Some(0);
      }
    }

    method OnApprovalResolved(id: string)
      modifies this`approvals, this`approvalSel
      ensures Now() == ApprovalResolved(old(Now()), id)
    {
      approvals := Tui.Without(approvals, id);
      if approvals == [] {
        approvalSel := None;
      } else if approvalSel.Some? && approvalSel.value >= |approvals| {
        approvalSel := Some(|approvals| - 1);
      }
    }

    method SetStage(stage: Stage)
      modifies this`pairing
      ensures Now() == Staged(old(Now()), stage)
    {
      if pairing.Some? {
        pairing := Some(pairing.value.(stage := stage));
      }
    }

    method OnDataRefreshed()
      modifies this`calls, this`currentChat, this`anchor, this`previewCache, this`pairing
      ensures Now() == Refreshed(old(Now()))
    {
      calls := calls + [FetchChats, FetchStatus];
      if currentChat.Some? {
        OpenChat(currentChat.value);
      }
      previewCache := map[];
      if pairing.Some? && pairing.value.stage == Succeeded {
        pairing := None;
      }
    }

    method AdoptRpc()
      modifies this`calls, this`previewCache
      ensures Now() == Adopted(old(Now()))
    {
      previewCache := map[];
      calls := calls + [FetchChats, FetchStatus, FetchApprovals, Refresh];
    }

    // ---- keys ----

    method HandleOmniKey(k: Key, edited: string)
      modifies this
      ensures Now() == OmniKey(platform, old(Now()), k, edited)
    {
      hide RefreshedLocal, Activated, Moved;
      match k
      case Esc => focus := ChatList;
      case Tab => focus := ChatList;
      case Enter => OmniActivate();
      case Down => OmniMove(1);
      case Up => OmniMove(-1);
      case PageDown => OmniMove(10);
      case PageUp => OmniMove(-10);
      case Char(c, ctrl) =>
        if ctrl && (c == 'n' || c == 'j') {
          OmniMove(1);
        } else if ctrl && (c == 'p' || c == 'k') {
          OmniMove(-1);
        } else {
          EditOmni(edited);
        }
      case OtherKey => EditOmni(edited);
    }

    method EditOmni(edited: string)
      modifies this`omni
      ensures Now() == Edited(platform, old(Now()), edited)
    {
      hide RefreshedLocal;
      var before := omni.input;
      omni := omni.(input := edited);
      if omni.input != before {
        RefreshOmniLocal();
      }
    }

    /** At most one message goes out, on Enter, to the current chat, which stays. */
    method HandleComposeKey(k: Key, edited: string)
      modifies this`composeInput, this`focus, this`calls
      ensures Now() == ComposeKey(platform, old(Now()), k, edited)
      ensures calls == old(calls) ||
        (k == Enter && currentChat.Some?
          && calls == old(calls) + [SendText(currentChat.value, platform.trim(old(composeInput)))])
    {
      match k
      case Esc =>
        composeInput := "";
        focus := composeReturn;
      case Enter =>
        var value := platform.trim(composeInput);
        composeInput := "";
        focus := composeReturn;
        if value == "" {
          return;
        }
        if currentChat.Some? {
          Spawn(SendText(currentChat.value, value));
        }
      case _ => composeInput := edited;
    }

    method HandlePairingKey(k: Key, edited: string)
      requires pairing.Some?
      modifies this`pairing, this`calls
      ensures Now() == PairingKey(platform, old(Now()), k, edited)
    {
      var entering, failed := pairing.value.stage == EnterCookies, pairing.value.stage == Failed;
      match k {
        case Esc => pairing := None;
        case Enter =>
          if entering {
            var cookies := platform.trim(pairing.value.input);
            if cookies != "" {
              SetStage(Waiting);
              Spawn(PairGoogle(cookies));
            }
          }
        case Char(c, ctrl) =>
          if c == 'r' && ctrl && entering {
            SetStage(Waiting);
            Spawn(PairQr);
          } else if c == 'p' && failed {
            pairing := Some(Pairing(EnterCookies, ""));
          } else if c == 'q' && !entering {
            pairing := None;
          } else if entering {
            pairing := Some(pairing.value.(input := edited));
          }
        case _ =>
          if entering {
            pairing := Some(pairing.value.(input := edited));
          }
      }
    }

    method HandlePromptKey(k: Key, edited: string)
      requires prompt.Some?
      modifies this`prompt, this`calls
      ensures Now() == PromptKey(platform, old(Now()), k, edited)
    {
      match k
      case Esc => prompt := None;
      case Enter => SubmitPrompt();
      case _ => prompt := Some(prompt.value.(input := edited));
    }

    method SubmitPrompt()
      requires prompt.Some?
      modifies this`prompt, this`calls
      ensures Now() == PromptSubmitted(platform, old(Now()))
    {
      var open := prompt.value;
      prompt := None;
      var value := platform.trim(open.input);
      match open.kind
      case Alias(id) =>
        calls := calls + [SetAlias(id, value), FetchChats];
      case React(id) =>
        if value != "" {
          Spawn(SendReaction(id, value));
        }
    }

    method ResolveAtSelection(approve: bool)
      modifies this`calls
      ensures Now() == ResolveSelected(old(Now()), approve)
    {
      var a := Selected(approvals, approvalSel);
      if a.Some? {
        Spawn(Resolve(a.value.id, approve));
      }
    }

    /** The selection stays within the list; Enter and y approve the selected approval, n and
        d deny it, r fetches the list, and no other key calls the daemon. */
    method HandleApprovalsKey(k: Key)
      modifies this`showApprovals, this`approvalSel, this`calls
      ensures Now() == ApprovalsKey(old(Now()), k)
      ensures TuiEffects.InRange(old(Now())) ==> TuiEffects.InRange(Now())
      ensures calls == old(calls) + TuiCalls.ApprovalsMore(old(Now()), k)
    {
      hide ResolveSelected, TuiEffects.InRange, TuiCalls.ApprovalsMore;
      TuiEffects.ApprovalsKeyInRange(Now(), k);
      TuiCalls.ApprovalsCalls(Now(), k);
      match k {
        case Esc => showApprovals := false;
        case Down => approvalSel := Next(approvalSel, |approvals|);
        case Up => approvalSel := Prev(approvalSel, |approvals|);
        case Enter => ResolveAtSelection(true);
        case Char(c, _) =>
          if c == 'a' || c == 'q' {
            showApprovals := false;
          } else if c == 'j' {
            approvalSel := Next(approvalSel, |approvals|);
          } else if c == 'k' {
            approvalSel := Prev(approvalSel, |approvals|);
          } else if c == 'r' {
            Spawn(FetchApprovals);
          } else if c == 'y' {
            ResolveAtSelection(true);
          } else if c == 'n' || c == 'd' {
            ResolveAtSelection(false);
          }
        case _ =>
      }
    }

    method EnterCompose(back: Focus)
      modifies this`composeReturn, this`composeInput, this`focus
      ensures Now() == EnteredCompose(old(Now()), back)
    {
      composeReturn, composeInput, focus := back, "", Compose;
    }

    method EnterOmni()
      modifies this`focus, this`omni
      ensures Now() == EnteredOmni(platform, old(Now()))
    {
      hide RefreshedLocal;
      focus := OmniBox;
      RefreshOmniLocal();
    }

    method OpenApprovals()
      modifies this`showApprovals, this`calls
      ensures Now() == ApprovalsOpened(old(Now()))
    {
      showApprovals := true;
      Spawn(FetchApprovals);
    }

    method OpenSelectedChat()
      modifies this`currentChat, this`anchor, this`calls, this`messagesBack, this`focus
      ensures Now() == ChatOpened(old(Now()))
    {
      var c := Selected(chats, chatSel);
      if c.Some? {
        OpenChat(c.value.id);
        messagesBack, focus := ChatList, MessageList;
      }
    }

    method ComposeToSelectedChat()
      modifies this`currentChat, this`anchor, this`calls, this`composeReturn, this`composeInput, this`focus
      ensures Now() == ChatComposed(old(Now()))
    {
      var c := Selected(chats, chatSel);
      if c.Some? {
        if currentChat != Some(c.value.id) {
          OpenChat(c.value.id);
        }
        EnterCompose(ChatList);
      }
    }

    method OpenOverlay(c: char)
      requires Overlays(c)
      modifies this`showApprovals, this`calls, this`pairing, this`showDoctor
      ensures Now() == OverlayOpened(old(Now()), c)
    {
      hide ApprovalsOpened;
      if c == 'a' {
        OpenApprovals();
      } else if c == 'p' {
        pairing := Some(Pairing(EnterCookies, ""));
      } else {
        showDoctor := true;
      }
    }

    method HandleChatsKey(k: Key)
      modifies this
      ensures Now() == ChatsKey(platform, old(Now()), k)
    {
      hide ChatOpened, ChatsChar;
      match k {
        case Down => chatSel := Next(chatSel, |chats|);
        case Up => chatSel := Prev(chatSel, |chats|);
        case Enter => OpenSelectedChat();
        case Tab => focus := MessageList;
        case Char(c, _) => HandleChatsChar(c);
        case _ =>
      }
    }

    method HandleChatsChar(c: char)
      modifies this
      ensures Now() == ChatsChar(platform, old(Now()), c)
    {
      hide EnteredOmni, ChatOpened, ChatComposed, OverlayOpened, Jumped;
      if c == 'q' {
        shouldQuit := true;
      } else if Jumps(c) {
        chatSel := Jumped(chatSel, |chats|, c);
      } else if c == 'l' {
        OpenSelectedChat();
      } else if c == '/' || c == 's' {
        EnterOmni();
      } else if c == 'i' {
        ComposeToSelectedChat();
      } else if Overlays(c) {
        OpenOverlay(c);
      } else if c == 'n' {
        var chat := Selected(chats, chatSel);
        if chat.Some? {
          prompt := Some(Prompt(Alias(chat.value.id), ""));
        }
      } else if c == 'r' {
        calls := calls + [FetchChats, FetchStatus, Refresh];
      }
    }

    method GoBack()
      modifies this`focus, this`omni
      ensures Now() == WentBack(platform, old(Now()))
    {
      hide EnteredOmni;
      if messagesBack == OmniBox {
        EnterOmni();
      } else {
        focus := messagesBack;
      }
    }

    method HandleMessagesKey(k: Key)
      modifies this
      ensures Now() == MessagesKey(platform, old(Now()), k)
    {
      hide WentBack, MessagesChar;
      match k {
        case Esc => GoBack();
        case Tab => focus := ChatList;
        case Down => msgSel := Next(msgSel, |messages|);
        case Up => msgSel := Prev(msgSel, |messages|);
        case Char(c, _) => HandleMessagesChar(c);
        case _ =>
      }
    }

    method HandleMessagesChar(c: char)
      modifies this
      ensures Now() == MessagesChar(platform, old(Now()), c)
    {
      hide EnteredOmni, WentBack, OverlayOpened, Opened, EnteredCompose, Jumped;
      if c == 'q' {
        shouldQuit := true;
      } else if c == 'h' {
        GoBack();
      } else if Jumps(c) {
        msgSel := Jumped(msgSel, |messages|, c);
      } else if c == 'i' {
        if currentChat.Some? {
          EnterCompose(MessageList);
        }
      } else if c == '/' || c == 's' {
        EnterOmni();
      } else if Overlays(c) {
        OpenOverlay(c);
      } else if c == 'b' {
        if currentChat.Some? {
          Spawn(Backfill(currentChat.value));
        }
      } else if c == 'o' {
        DownloadSelected();
      } else if c == 'e' {
        ReactToSelected();
      } else if c == 'r' {
        if currentChat.Some? {
          OpenChat(currentChat.value);
        }
      }
    }

    method DownloadSelected()
      modifies this`calls
      ensures Now() == Downloading(old(Now()))
    {
      var m := Selected(messages, msgSel);
      if m.Some? && m.value.hasMedia {
        Spawn(Download(m.value.id));
      }
    }

    method ReactToSelected()
      modifies this`prompt
      ensures Now() == Reacting(old(Now()))
    {
      var m := Selected(messages, msgSel);
      if m.Some? {
        prompt := Some(Prompt(React(m.value.id), ""));
      }
    }

    method HandleKey(k: Key, edited: string)
      modifies this
      ensures Now() == KeyPressed(platform, old(Now()), k, edited)
    {
      hide PairingKey, PromptKey, ApprovalsKey, OmniKey, ComposeKey, ChatsKey, MessagesKey;
      if k == Char('c', true) {
        shouldQuit := true;
        return;
      }
      if pairing.Some? {
        HandlePairingKey(k, edited);
        return;
      }
      if prompt.Some? {
        HandlePromptKey(k, edited);
        return;
      }
      if showDoctor {
        showDoctor := false;
        return;
      }
      if showApprovals {
        HandleApprovalsKey(k);
        return;
      }
      match focus
      case OmniBox => HandleOmniKey(k, edited);
      case Compose => HandleComposeKey(k, edited);
      case ChatList => HandleChatsKey(k);
      case MessageList => HandleMessagesKey(k);
    }

    method HandlePaste(edited: string)
      modifies this`pairing, this`prompt, this`composeInput, this`omni
      ensures Now() == Pasted(platform, old(Now()), edited)
    {
      hide RefreshedLocal;
      if pairing.Some? && pairing.value.stage == EnterCookies {
        pairing := Some(pairing.value.(input := edited));
      } else if prompt.Some? {
        prompt := Some(prompt.value.(input := edited));
      } else if focus == Compose {
        composeInput := edited;
      } else if focus == OmniBox {
        omni := omni.(input := edited);
      } else {
        return;
      }
      if focus == OmniBox && pairing.None? && prompt.None? {
        RefreshOmniLocal();
      }
    }

    method HandleAppEvent(e: Event)
      requires !e.Tick? && !e.Press? && !e.Paste?
      modifies this
      ensures Now() == Handled(platform, old(Now()), e)
    {
      hide ChatsCame, MessagesCame, ResultsCame, PreviewCame, ContextCame, ApprovalsCame,
        MessageCame, ConversationUpdated, ApprovalRequested, ApprovalResolved, Staged, Refreshed, Adopted;
      match e
      case Chats(found) => OnChats(found);
      case Messages(id, found) => OnMessages(id, found);
      case Results(g, found, msgs) => OnOmniResults(g, found, msgs);
      case PreviewReady(preview) => OnPreview(preview);
      case ContextReady(at, id, found) => OnContext(at, id, found);
      case Approvals(found) => OnApprovals(found);
      case NewMessage(m, isOld) => ApplyIncomingMessage(m, isOld);
      case NewConversation(conv) => OnConversation(conv);
      case Requested(a) => OnApprovalRequested(a);
      case Resolved(id) => OnApprovalResolved(id);
      case PairStage(stage) => SetStage(stage);
      case DataRefreshed => OnDataRefreshed();
      case Reconnected => AdoptRpc();
    }

    method Handle(e: Event)
      modifies this
      ensures Now() == Handled(platform, old(Now()), e)
    {
      hide Ticked, KeyPressed, Pasted;
      match e
      case Tick => OnTick();
      case Press(k, edited) => HandleKey(k, edited);
      case Paste(edited) => HandlePaste(edited);
      case _ =>
        hide Handled;
        HandleAppEvent(e);
    }
  }

  lemma DispatchKeepsFocus(p: Platform, s: State)
    ensures Dispatched(p, s).focus == s.focus
  {
  }
}
