/** The update logic of the terminal client, gmtui/src/app.rs: what each key and each
    event does to the state, and which calls it makes to the daemon. */
module Tui {
  import opened Common

  datatype Focus = OmniBox | ChatList | MessageList | Compose

  datatype Stage = EnterCookies | Waiting | ShowQr | Emoji | Failed | Succeeded

  datatype Pairing = Pairing(stage: Stage, input: string)

  datatype PromptKind = Alias(conversationId: string) | React(messageId: string)

  datatype Prompt = Prompt(kind: PromptKind, input: string)

  datatype Conversation = Conversation(id: string, name: string, pinned: bool, lastMs: int)

  datatype Message = Message(id: string, conversationId: string, timestampMs: int, hasMedia: bool)

  datatype Hit = Hit(messageId: string, conversationId: string)

  datatype Approval = Approval(id: string, body: string)

  datatype PreviewKey = MsgKey(messageId: string) | ChatKey(conversationId: string)

  datatype Preview = Preview(key: PreviewKey, messages: seq<Message>)

  datatype Omni = Omni(
    input: string, dirty: bool, generation: nat, searching: bool, chatResults: seq<Conversation>,
    msgResults: seq<Hit>, selected: nat, previewKey: Option<PreviewKey>, preview: Option<Preview>)

  /** The requests that the client hands to background tasks. */
  datatype Call =
    | Search(generation: nat, query: string)
    | SendText(conversationId: string, body: string)
    | Resolve(approvalId: string, approve: bool)
    | Show(conversationId: string)
    | Context(hit: Hit)
    | FetchPreview(key: PreviewKey)
    | SetAlias(conversationId: string, alias: string)
    | SendReaction(messageId: string, emoji: string)
    | PairGoogle(cookies: string)
    | PairQr
    | Backfill(conversationId: string)
    | Download(messageId: string)
    | FetchChats
    | FetchStatus
    | FetchApprovals
    | Refresh

  datatype State = State(
    focus: Focus, omni: Omni, cache: map<PreviewKey, Preview>, composeInput: string, composeReturn: Focus,
    messagesBack: Focus, chats: seq<Conversation>, chatSel: Option<nat>, currentChat: Option<string>,
    messages: seq<Message>, msgSel: Option<nat>, anchor: Option<string>, showApprovals: bool,
    approvals: seq<Approval>, approvalSel: Option<nat>, pairing: Option<Pairing>, prompt: Option<Prompt>,
    showDoctor: bool, quit: bool, calls: seq<Call>)

  datatype Key =
    | Esc | Tab | Enter | Up | Down | PageUp | PageDown
    | Char(c: char, ctrl: bool)
    | OtherKey

  /** What the platform decides: how text is trimmed, and which chats a query finds. */
  datatype Platform = Platform(trim: string -> string, finds: (Conversation, string) -> bool)

  const OMNI_CHAT_LIMIT := 50

  // ---- lists ----

  function Taken<T>(xs: seq<T>, n: nat): seq<T> {
    if |xs| <= n then xs else xs[..n]
  }

  function Filtered<T>(xs: seq<T>, keep: T -> bool): seq<T> {
    if xs == [] then [] else (if keep(xs[0]) then [xs[0]] else []) + Filtered(xs[1..], keep)
  }

  /** The place of the first element that has the property, or the length. */
  function Find<T>(xs: seq<T>, has: T -> bool): (i: nat)
    ensures i <= |xs| && (i < |xs| ==> has(xs[i])) && forall j :: 0 <= j < i ==> !has(xs[j])
  {
    if xs == [] || has(xs[0]) then 0 else 1 + Find(xs[1..], has)
  }

  /** A stable sort: x goes in after everything that may stand before it. */
  function Inserted<T>(xs: seq<T>, x: T, before: (T, T) -> bool): seq<T> {
    if xs == [] then [x]
    else if before(xs[|xs| - 1], x) then xs + [x]
    else Inserted(xs[..|xs| - 1], x, before) + [xs[|xs| - 1]]
  }

  function Sorted<T>(xs: seq<T>, before: (T, T) -> bool): seq<T> {
    if xs == [] then [] else Inserted(Sorted(xs[..|xs| - 1], before), xs[|xs| - 1], before)
  }

  predicate ChatBefore(a: Conversation, b: Conversation) {
    if a.pinned != b.pinned then a.pinned else a.lastMs >= b.lastMs
  }

  predicate MessageBefore(a: Message, b: Message) {
    a.timestampMs <= b.timestampMs
  }

  function Next(sel: Option<nat>, len: nat): Option<nat> {
    if len == 0 then None
    else if sel.Some? then Some(if sel.value + 1 < len then sel.value + 1 else sel.value)
    else Some(0)
  }

  function Prev(sel: Option<nat>, len: nat): Option<nat> {
    if len == 0 then None else if sel.Some? && sel.value > 0 then Some(sel.value - 1) else Some(0)
  }

  function First(len: nat): Option<nat> {
    if len == 0 then None else Some(0)
  }

  function Last(len: nat): Option<nat> {
    if len == 0 then None else Some(len - 1)
  }

  /** The keys that move a selection: j and k by one, g and G to an end. */
  predicate Jumps(c: char) {
    c == 'j' || c == 'k' || c == 'g' || c == 'G'
  }

  function Jumped(sel: Option<nat>, len: nat, c: char): Option<nat> {
    if c == 'j' then Next(sel, len) else if c == 'k' then Prev(sel, len) else if c == 'g' then First(len) else Last(len)
  }

  /** The selected element, if the selection is within the list. */
  function Selected<T>(xs: seq<T>, sel: Option<nat>): Option<T> {
    if sel.Some? && sel.value < |xs| then Some(xs[sel.value]) else None
  }

  // ---- omni search ----

  function Finder(p: Platform, query: string): Conversation -> bool {
    c => p.finds(c, query)
  }

  function LocalMatches(p: Platform, chats: seq<Conversation>, query: string): seq<Conversation> {
    if query == "" then Taken(chats, OMNI_CHAT_LIMIT)
    else Taken(Filtered(chats, Finder(p, query)), OMNI_CHAT_LIMIT)
  }

  function Query(p: Platform, s: State): string {
    p.trim(s.omni.input)
  }

  function RefreshedLocal(p: Platform, s: State): State {
    var short := |Query(p, s)| < 3;
    s.(omni := s.omni.(
      chatResults := LocalMatches(p, s.chats, Query(p, s)),
      msgResults := if short then [] else s.omni.msgResults,
      searching := if short then false else s.omni.searching,
      selected := 0, dirty := true))
  }

  function Dispatched(p: Platform, s: State): State {
    var g, q := s.omni.generation + 1, Query(p, s);
    if |q| < 2 then s.(omni := s.omni.(generation := g))
    else s.(omni := s.omni.(generation := g, searching := true), calls := s.calls + [Search(g, q)])
  }

  /** The daemon's chats go after the local ones, without repetition, up to the limit. */
  function Merged(have: seq<Conversation>, more: seq<Conversation>): seq<Conversation>
    decreases |more|
  {
    if more == [] || |have| >= OMNI_CHAT_LIMIT then have
    else if Find(have, (c: Conversation) => c.id == more[0].id) < |have| then Merged(have, more[1..])
    else Merged(have + [more[0]], more[1..])
  }

  function ClampedSelection(selected: nat, total: nat): nat {
    if total == 0 then 0 else if selected >= total then total - 1 else selected
  }

  /** Only a reply to the latest search is taken. */
  function ResultsCame(s: State, generation: nat, chats: seq<Conversation>, msgs: seq<Hit>): State {
    if generation != s.omni.generation then s
    else
      var merged := Merged(s.omni.chatResults, chats);
      s.(omni := s.omni.(
        searching := false, chatResults := merged, msgResults := msgs,
        selected := ClampedSelection(s.omni.selected, |merged| + |msgs|)))
  }

  function Moved(s: State, delta: int): State {
    var total, to := |s.omni.chatResults| + |s.omni.msgResults|, s.omni.selected + delta;
    s.(omni := s.omni.(selected := if total == 0 || to < 0 then 0 else if to >= total then total - 1 else to))
  }

  function EnteredOmni(p: Platform, s: State): State {
    RefreshedLocal(p, s.(focus := OmniBox))
  }

  function Opened(s: State, conversationId: string): State {
    s.(currentChat := Some(conversationId), anchor := None, calls := s.calls + [Show(conversationId)])
  }

  function Activated(s: State): State {
    var n := |s.omni.chatResults|;
    if s.omni.selected < n then
      Opened(s, s.omni.chatResults[s.omni.selected].id).(messagesBack := OmniBox, focus := MessageList)
    else if s.omni.selected - n < |s.omni.msgResults| then
      s.(calls := s.calls + [Context(s.omni.msgResults[s.omni.selected - n])], messagesBack := OmniBox, focus := MessageList)
    else s
  }

  // ---- preview ----

  function KeyOfSelection(o: Omni): Option<PreviewKey> {
    var n := |o.chatResults|;
    if o.selected < n then Some(ChatKey(o.chatResults[o.selected].id))
    else if o.selected - n < |o.msgResults| then Some(MsgKey(o.msgResults[o.selected - n].messageId))
    else None
  }

  function PreviewSynced(s: State): State {
    var key := KeyOfSelection(s.omni);
    if key == s.omni.previewKey then s
    else
      var t := s.(omni := s.omni.(previewKey := key, preview := None));
      if key.None? then t
      else if key.value in s.cache then t.(omni := t.omni.(preview := Some(s.cache[key.value])))
      else t.(calls := s.calls + [FetchPreview(key.value)])
  }

  function PreviewCame(s: State, preview: Preview): State {
    var kept := if |s.cache| > 200 then map[] else s.cache;
    s.(cache := kept[preview.key := preview],
       omni := if s.omni.previewKey == Some(preview.key) then s.omni.(preview := Some(preview)) else s.omni)
  }

  function Ticked(p: Platform, s: State): State {
    var t := if s.omni.dirty then Dispatched(p, s.(omni := s.omni.(dirty := false))) else s;
    if t.focus == OmniBox then PreviewSynced(t) else t
  }

  // ---- chats and messages ----

  /** The selection follows the conversation that it was on. */
  function ChatsSorted(s: State): State {
    var was, chats := Selected(s.chats, s.chatSel), Sorted(s.chats, ChatBefore);
    var at := if was.Some? then Find(chats, (c: Conversation) => c.id == was.value.id) else |chats|;
    s.(chats := chats, chatSel := if at < |chats| then Some(at) else s.chatSel)
  }

  function RecentsRefreshed(p: Platform, s: State): State {
    if s.focus == OmniBox && Query(p, s) == "" then s.(omni := s.omni.(chatResults := LocalMatches(p, s.chats, ""))) else s
  }

  function ChatsCame(p: Platform, s: State, chats: seq<Conversation>): State {
    var t := ChatsSorted(s.(chats := chats));
    RecentsRefreshed(p, if t.chatSel.None? && t.chats != [] then t.(chatSel := Some(0)) else t)
  }

  function ConversationUpdated(p: Platform, s: State, conv: Conversation): State {
    var at := Find(s.chats, (c: Conversation) => c.id == conv.id);
    var chats := if at < |s.chats| then s.chats[at := conv] else s.chats + [conv];
    RecentsRefreshed(p, ChatsSorted(s.(chats := chats)))
  }

  function PlaceOf(messages: seq<Message>, id: string): nat {
    Find(messages, (m: Message) => m.id == id)
  }

  function AnchorSelected(s: State): State {
    var at := if s.anchor.Some? then PlaceOf(s.messages, s.anchor.value) else |s.messages|;
    s.(msgSel := if s.messages == [] then None else if at < |s.messages| then Some(at) else Some(|s.messages| - 1))
  }

  function MessagesCame(s: State, conversationId: string, messages: seq<Message>): State {
    if s.currentChat == Some(conversationId) then AnchorSelected(s.(messages := messages)) else s
  }

  function ContextCame(s: State, anchor: string, conversationId: string, messages: seq<Message>): State {
    AnchorSelected(
      s.(currentChat := Some(conversationId), messages := messages, anchor := Some(anchor), focus := MessageList))
  }

  /** The chat of a new message moves up the list. */
  function ChatTouched(p: Platform, s: State, m: Message, isOld: bool): State {
    var at := Find(s.chats, (c: Conversation) => c.id == m.conversationId);
    if at < |s.chats| then
      var c := s.chats[at];
      var newer := if m.timestampMs > c.lastMs then c.(lastMs := m.timestampMs) else c;
      RecentsRefreshed(p, ChatsSorted(s.(chats := s.chats[at := newer])))
    else if !isOld then s.(calls := s.calls + [FetchChats])
    else s
  }

  /** A message of the chat on screen is put in its place. */
  function MessageShown(s: State, m: Message): State {
    var at := PlaceOf(s.messages, m.id);
    var atBottom := s.msgSel.None? || s.msgSel.value == (if s.messages == [] then 0 else |s.messages| - 1);
    var messages := if at < |s.messages| then s.messages[at := m] else Sorted(s.messages + [m], MessageBefore);
    s.(messages := messages, msgSel := if atBottom && messages != [] then Some(|messages| - 1) else s.msgSel)
  }

  function MessageCame(p: Platform, s: State, m: Message, isOld: bool): State {
    var t := ChatTouched(p, s, m, isOld);
    if t.currentChat == Some(m.conversationId) then MessageShown(t, m) else t
  }

  // ---- approvals ----

  function Without(approvals: seq<Approval>, id: string): seq<Approval> {
    Filtered(approvals, (a: Approval) => a.id != id)
  }

  function ApprovalsCame(s: State, approvals: seq<Approval>): State {
    var n := |approvals|;
    s.(approvals := approvals, approvalSel :=
      if n == 0 then None
      else if s.approvalSel.None? then Some(0)
      else if s.approvalSel.value >= n then Some(n - 1)
      else s.approvalSel)
  }

  function ApprovalRequested(s: State, a: Approval): State {
    s.(approvals := [a] + Without(s.approvals, a.id),
       approvalSel := if s.approvalSel.None? then Some(0) else s.approvalSel)
  }

  function ApprovalResolved(s: State, id: string): State {
    var left := Without(s.approvals, id);
    s.(approvals := left, approvalSel :=
      if left == [] then None
      else if s.approvalSel.Some? && s.approvalSel.value >= |left| then Some(|left| - 1)
      else s.approvalSel)
  }

  function ResolveSelected(s: State, approve: bool): State {
    var a := Selected(s.approvals, s.approvalSel);
    if a.Some? then s.(calls := s.calls + [Resolve(a.value.id, approve)]) else s
  }

  function ApprovalsKey(s: State, k: Key): State {
    match k
    case Esc => s.(showApprovals := false)
    case Down => s.(approvalSel := Next(s.approvalSel, |s.approvals|))
    case Up => s.(approvalSel := Prev(s.approvalSel, |s.approvals|))
    case Enter => ResolveSelected(s, true)
    case Char(c, _) =>
      if c == 'a' || c == 'q' then s.(showApprovals := false)
      else if c == 'j' then s.(approvalSel := Next(s.approvalSel, |s.approvals|))
      else if c == 'k' then s.(approvalSel := Prev(s.approvalSel, |s.approvals|))
      else if c == 'r' then s.(calls := s.calls + [FetchApprovals])
      else if c == 'y' then ResolveSelected(s, true)
      else if c == 'n' || c == 'd' then ResolveSelected(s, false)
      else s
    case _ => s
  }

  // ---- pairing and prompts ----

  function Staged(s: State, stage: Stage): State {
    if s.pairing.Some? then s.(pairing := Some(s.pairing.value.(stage := stage))) else s
  }

  function PairingStarted(s: State): State {
    s.(pairing := Some(Pairing(EnterCookies, "")))
  }

  function CookiesSubmitted(p: Platform, s: State): State
    requires s.pairing.Some?
  {
    var cookies := p.trim(s.pairing.value.input);
    if cookies == "" then s else Staged(s, Waiting).(calls := s.calls + [PairGoogle(cookies)])
  }

  /** edited is the text that the input field holds after the key. */
  function PairingKey(p: Platform, s: State, k: Key, edited: string): State
    requires s.pairing.Some?
  {
    var stage := s.pairing.value.stage;
    if k == Esc then s.(pairing := None)
    else if k == Enter && stage == EnterCookies then CookiesSubmitted(p, s)
    else if k == Char('r', true) && stage == EnterCookies then Staged(s, Waiting).(calls := s.calls + [PairQr])
    else if k.Char? && k.c == 'p' && stage == Failed then PairingStarted(s)
    else if k.Char? && k.c == 'q' && stage != EnterCookies then s.(pairing := None)
    else if stage == EnterCookies then s.(pairing := Some(s.pairing.value.(input := edited)))
    else s
  }

  function PromptSubmitted(p: Platform, s: State): State
    requires s.prompt.Some?
  {
    var value, t := p.trim(s.prompt.value.input), s.(prompt := None);
    match s.prompt.value.kind
    case Alias(id) => t.(calls := s.calls + [SetAlias(id, value), FetchChats])
    case React(id) => if value == "" then t else t.(calls := s.calls + [SendReaction(id, value)])
  }

  function PromptKey(p: Platform, s: State, k: Key, edited: string): State
    requires s.prompt.Some?
  {
    if k == Esc then s.(prompt := None)
    else if k == Enter then PromptSubmitted(p, s)
    else s.(prompt := Some(s.prompt.value.(input := edited)))
  }

  // ---- keys ----

  function Edited(p: Platform, s: State, edited: string): State {
    if edited == s.omni.input then s else RefreshedLocal(p, s.(omni := s.omni.(input := edited)))
  }

  function OmniKey(p: Platform, s: State, k: Key, edited: string): State {
    match k
    case Esc => s.(focus := ChatList)
    case Tab => s.(focus := ChatList)
    case Enter => Activated(s)
    case Down => Moved(s, 1)
    case Up => Moved(s, -1)
    case PageDown => Moved(s, 10)
    case PageUp => Moved(s, -10)
    case Char(c, ctrl) =>
      if ctrl && (c == 'n' || c == 'j') then Moved(s, 1)
      else if ctrl && (c == 'p' || c == 'k') then Moved(s, -1)
      else Edited(p, s, edited)
    case OtherKey => Edited(p, s, edited)
  }

  function EnteredCompose(s: State, back: Focus): State {
    s.(composeReturn := back, composeInput := "", focus := Compose)
  }

  function ComposeKey(p: Platform, s: State, k: Key, edited: string): State {
    var left := s.(composeInput := "", focus := s.composeReturn);
    if k == Esc then left
    else if k == Enter then
      var body := p.trim(s.composeInput);
      if body == "" || s.currentChat.None? then left
      else left.(calls := s.calls + [SendText(s.currentChat.value, body)])
    else s.(composeInput := edited)
  }

  function ApprovalsOpened(s: State): State {
    s.(showApprovals := true, calls := s.calls + [FetchApprovals])
  }

  function ChatOpened(s: State): State {
    var c := Selected(s.chats, s.chatSel);
    if c.Some? then Opened(s, c.value.id).(messagesBack := ChatList, focus := MessageList) else s
  }

  function ChatComposed(s: State): State {
    var c := Selected(s.chats, s.chatSel);
    if c.None? then s
    else EnteredCompose(if s.currentChat == Some(c.value.id) then s else Opened(s, c.value.id), ChatList)
  }

  /** The keys that open an overlay over the chats or the messages. */
  predicate Overlays(c: char) {
    c == 'a' || c == 'p' || c == 'd'
  }

  function OverlayOpened(s: State, c: char): State {
    if c == 'a' then ApprovalsOpened(s) else if c == 'p' then PairingStarted(s) else s.(showDoctor := true)
  }

  function Renaming(s: State): State {
    var chat := Selected(s.chats, s.chatSel);
    if chat.Some? then s.(prompt := Some(Prompt(Alias(chat.value.id), ""))) else s
  }

  function ChatsChar(p: Platform, s: State, c: char): State {
    if c == 'q' then s.(quit := true)
    else if Jumps(c) then s.(chatSel := Jumped(s.chatSel, |s.chats|, c))
    else if c == 'l' then ChatOpened(s)
    else if c == '/' || c == 's' then EnteredOmni(p, s)
    else if c == 'i' then ChatComposed(s)
    else if Overlays(c) then OverlayOpened(s, c)
    else if c == 'n' then Renaming(s)
    else if c == 'r' then s.(calls := s.calls + [FetchChats, FetchStatus, Refresh])
    else s
  }

  function ChatsKey(p: Platform, s: State, k: Key): State {
    match k
    case Down => s.(chatSel := Next(s.chatSel, |s.chats|))
    case Up => s.(chatSel := Prev(s.chatSel, |s.chats|))
    case Enter => ChatOpened(s)
    case Tab => s.(focus := MessageList)
    case Char(c, _) => ChatsChar(p, s, c)
    case _ => s
  }

  function WentBack(p: Platform, s: State): State {
    if s.messagesBack == OmniBox then EnteredOmni(p, s) else s.(focus := s.messagesBack)
  }

  function Downloading(s: State): State {
    var m := Selected(s.messages, s.msgSel);
    if m.Some? && m.value.hasMedia then s.(calls := s.calls + [Download(m.value.id)]) else s
  }

  function Reacting(s: State): State {
    var m := Selected(s.messages, s.msgSel);
    if m.Some? then s.(prompt := Some(Prompt(React(m.value.id), ""))) else s
  }

  function Backfilling(s: State): State {
    if s.currentChat.Some? then s.(calls := s.calls + [Backfill(s.currentChat.value)]) else s
  }

  function Reopened(s: State): State {
    if s.currentChat.Some? then Opened(s, s.currentChat.value) else s
  }

  function MessagesChar(p: Platform, s: State, c: char): State {
    if c == 'q' then s.(quit := true)
    else if c == 'h' then WentBack(p, s)
    else if Jumps(c) then s.(msgSel := Jumped(s.msgSel, |s.messages|, c))
    else if c == 'i' then (if s.currentChat.Some? then EnteredCompose(s, MessageList) else s)
    else if c == '/' || c == 's' then EnteredOmni(p, s)
    else if Overlays(c) then OverlayOpened(s, c)
    else if c == 'b' then Backfilling(s)
    else if c == 'o' then Downloading(s)
    else if c == 'e' then Reacting(s)
    else if c == 'r' then Reopened(s)
    else s
  }

  function MessagesKey(p: Platform, s: State, k: Key): State {
    match k
    case Esc => WentBack(p, s)
    case Tab => s.(focus := ChatList)
    case Down => s.(msgSel := Next(s.msgSel, |s.messages|))
    case Up => s.(msgSel := Prev(s.msgSel, |s.messages|))
    case Char(c, _) => MessagesChar(p, s, c)
    case _ => s
  }

  function KeyPressed(p: Platform, s: State, k: Key, edited: string): State {
    if k == Char('c', true) then s.(quit := true)
    else if s.pairing.Some? then PairingKey(p, s, k, edited)
    else if s.prompt.Some? then PromptKey(p, s, k, edited)
    else if s.showDoctor then s.(showDoctor := false)
    else if s.showApprovals then ApprovalsKey(s, k)
    else
      match s.focus
      case OmniBox => OmniKey(p, s, k, edited)
      case Compose => ComposeKey(p, s, k, edited)
      case ChatList => ChatsKey(p, s, k)
      case MessageList => MessagesKey(p, s, k)
  }

  function Pasted(p: Platform, s: State, edited: string): State {
    var t :=
      if s.pairing.Some? && s.pairing.value.stage == EnterCookies then s.(pairing := Some(s.pairing.value.(input := edited)))
      else if s.prompt.Some? then s.(prompt := Some(s.prompt.value.(input := edited)))
      else if s.focus == Compose then s.(composeInput := edited)
      else if s.focus == OmniBox then s.(omni := s.omni.(input := edited))
      else s;
    if s.focus == OmniBox && s.pairing.None? && s.prompt.None? then RefreshedLocal(p, t) else t
  }

  /** The daemon has imported data: what is on screen is fetched again. */
  function Refreshed(s: State): State {
    var t := s.(calls := s.calls + [FetchChats, FetchStatus]);
    var u := Reopened(t);
    u.(cache := map[], pairing := if u.pairing.Some? && u.pairing.value.stage == Succeeded then None else u.pairing)
  }

  function Adopted(s: State): State {
    s.(cache := map[], calls := s.calls + [FetchChats, FetchStatus, FetchApprovals, Refresh])
  }

  function Start(): State {
    State(OmniBox, Omni("", false, 0, false, [], [], 0, None, None), map[], "", OmniBox, OmniBox, [], None, None, [], None, None,
      false, [], None, None, None, false, false, [])
  }

  datatype Event =
    | Tick
    | Press(k: Key, edited: string)
    | Paste(edited: string)
    | Chats(chats: seq<Conversation>)
    | Messages(conversationId: string, messages: seq<Message>)
    | Results(generation: nat, chats: seq<Conversation>, msgs: seq<Hit>)
    | PreviewReady(preview: Preview)
    | ContextReady(anchor: string, conversationId: string, messages: seq<Message>)
    | Approvals(approvals: seq<Approval>)
    | NewMessage(m: Message, isOld: bool)
    | NewConversation(conv: Conversation)
    | Requested(a: Approval)
    | Resolved(approvalId: string)
    | PairStage(stage: Stage)
    | DataRefreshed
    | Reconnected

  /** The loop of the program: one event, one new state. */
  function Handled(p: Platform, s: State, e: Event): State {
    match e
    case Tick => Ticked(p, s)
    case Press(k, edited) => KeyPressed(p, s, k, edited)
    case Paste(edited) => Pasted(p, s, edited)
    case Chats(chats) => ChatsCame(p, s, chats)
    case Messages(id, messages) => MessagesCame(s, id, messages)
    case Results(g, chats, msgs) => ResultsCame(s, g, chats, msgs)
    case PreviewReady(preview) => PreviewCame(s, preview)
    case ContextReady(anchor, id, messages) => ContextCame(s, anchor, id, messages)
    case Approvals(approvals) => ApprovalsCame(s, approvals)
    case NewMessage(m, isOld) => MessageCame(p, s, m, isOld)
    case NewConversation(conv) => ConversationUpdated(p, s, conv)
    case Requested(a) => ApprovalRequested(s, a)
    case Resolved(id) => ApprovalResolved(s, id)
    case PairStage(stage) => Staged(s, stage)
    case DataRefreshed => Refreshed(s)
    case Reconnected => Adopted(s)
  }
}
