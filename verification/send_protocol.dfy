/** The concurrent send protocol of internal/rpc/handlers.go: any number of
    handlers of send.text, approvals.approve and approvals.deny, and of other
    operations that hold liveMu, run at once over one approvals table. One action
    is one store call, one lock operation, one end of a phone call, or one
    broadcast; a run is any sequence of actions. */
module SendProtocol {
  import opened Common
  import opened Approvals

  datatype Mode = Off | Approve | Direct

  /** online: the daemon was started with a phone connection. */
  datatype Config = Config(mode: Mode, online: bool)

  datatype Request =
    | SendText(conversationId: string, body: string, replyToId: string, requestedBy: string)
    | ApproveReq(id: string)
    | DenyReq(id: string, reason: string)
    | LiveOp

  /** How the phone answers a SendText. */
  datatype Answer = Delivered(messageId: string) | Refused(error: string)

  datatype Code = InvalidParams | SendsDisabled | NoSuchApproval | AlreadyDone | Unavailable | Internal
  datatype Reply = Row(row: Approval) | Fail(code: Code) | Nothing

  datatype Pc =
    | Entry
    | Inserted(id: string)
    | Asking(row: Approval)
    | WantLock(a: Approval)
    | Locked(a: Approval)
    | Rechecked(a: Approval)
    | Sending(a: Approval)
    | Answered(a: Approval, answer: Answer)
    | Recorded(a: Approval, answer: Answer)
    | DenyRecorded(id: string)
    | Announcing(row: Approval, reply: Reply, locked: bool)
    | LiveWant
    | LiveHeld
    | Unlocking(reply: Reply)
    | Done(reply: Reply)

  datatype Handler = Handler(req: Request, pc: Pc)

  /** What a run leaves behind; h is the handler, id the approval. */
  datatype Event =
    | CheckedPending(h: nat, id: string)
    | Started(h: nat, id: string, conversationId: string, body: string, replyTo: string)
    | Ended(h: nat, id: string, answer: Answer)
    | Won(h: nat, id: string, status: Status, messageId: Option<string>)
    | Lost(h: nat, id: string)
    | WriteFailed(h: nat, id: string)
    | Announced(h: nat, id: string, status: Status)
    | Requested(h: nat, id: string)

  datatype State = State(rows: Rows, lock: Option<nat>, handlers: seq<Handler>, log: seq<Event>)

  /** The environment's choices: a store failure, the next uuid, the phone's answer, the clock. */
  datatype Env = Env(fault: bool, uuid: string, answer: Answer, now: int)

  datatype Action = Spawn(req: Request) | Go(h: nat, e: Env)

  // ---- one step of one handler ----

  /** One atomic step of a handler: the shared state after it, where the
      handler goes next, and what is recorded. */
  datatype Effect = Effect(rows: Rows, lock: Option<nat>, pc: Pc, event: Option<Event>)

  function Goto(s: State, pc: Pc): Effect {
    Effect(s.rows, s.lock, pc, None)
  }

  function Emit(s: State, pc: Pc, e: Event): Effect {
    Effect(s.rows, s.lock, pc, Some(e))
  }

  function Perform(s: State, h: nat, x: Effect): State
    requires h < |s.handlers|
  {
    State(x.rows, x.lock, s.handlers[h := s.handlers[h].(pc := x.pc)],
          if x.event.Some? then s.log + [x.event.value] else s.log)
  }

  function OrNone(t: string): Option<string> {
    if t == "" then None else Some(t)
  }

  function Enter(c: Config, s: State, h: nat, req: Request, e: Env): Effect {
    match req
    case SendText(conv, body, replyTo, asker) =>
      if conv == "" || body == "" then Goto(s, Done(Fail(InvalidParams)))
      else if c.mode == Off then Goto(s, Done(Fail(SendsDisabled)))
      else if e.fault then Goto(s, Done(Fail(Internal)))
      else
        var who := if asker == "" then "rpc" else asker;
        var a := Approval(e.uuid, conv, body, OrNone(replyTo), who, Pending, None, None, 0, 0);
        var (rows, r) := Created(s.rows, a, e.now);
        Effect(rows, s.lock, if r == Ok then Inserted(e.uuid) else Done(Fail(Internal)), None)
    case ApproveReq(id) =>
      if id == "" then Goto(s, Done(Fail(InvalidParams)))
      else if c.mode == Off then Goto(s, Done(Fail(SendsDisabled)))
      else if e.fault then Goto(s, Done(Fail(Internal)))
      else if id !in s.rows then Goto(s, Done(Fail(NoSuchApproval)))
      else if s.rows[id].status != Pending then Goto(s, Done(Fail(AlreadyDone)))
      else Goto(s, WantLock(s.rows[id]))
    case DenyReq(id, reason) =>
      if id == "" then Goto(s, Done(Fail(InvalidParams)))
      else if e.fault then Goto(s, Done(Fail(Internal)))
      else
        var (rows, r) := Resolved(s.rows, id, Denied, OrNone(reason), None, e.now);
        if r == Ok then Effect(rows, s.lock, DenyRecorded(id), Some(Won(h, id, Denied, None)))
        else Goto(s, Done(Fail(if r == NotFound then NoSuchApproval else AlreadyDone)))
    case LiveOp => Goto(s, LiveWant)
  }

  /** The recheck under the lock. */
  function Recheck(c: Config, s: State, h: nat, a: Approval, e: Env): Effect {
    if e.fault || a.id !in s.rows then Goto(s, Unlocking(Fail(Internal)))
    else if s.rows[a.id].status != Pending then Goto(s, Unlocking(Fail(AlreadyDone)))
    else if !c.online then Goto(s, Unlocking(Fail(Unavailable)))
    else Emit(s, Rechecked(a), CheckedPending(h, a.id))
  }

  function FinalStatus(w: Answer): Status {
    if w.Delivered? then Sent else Failed
  }

  function FinalMessage(w: Answer): Option<string> {
    if w.Delivered? then Some(w.messageId) else None
  }

  /** The phone's answer is written to the row by compare-and-set. */
  function Record(s: State, h: nat, a: Approval, w: Answer, e: Env): Effect {
    if e.fault then Emit(s, Unlocking(Fail(Internal)), WriteFailed(h, a.id))
    else
      var error := if w.Refused? then Some(w.error) else None;
      var (rows, r) := Resolved(s.rows, a.id, FinalStatus(w), error, FinalMessage(w), e.now);
      if r == Ok then Effect(rows, s.lock, Recorded(a, w), Some(Won(h, a.id, FinalStatus(w), FinalMessage(w))))
      else Emit(s, Unlocking(Fail(Internal)), Lost(h, a.id))
  }

  /** The call Client.SendText makes for an approval. */
  function StartOf(h: nat, a: Approval): Event {
    Started(h, a.id, a.conversationId, a.body, if a.replyToId.Some? then a.replyToId.value else "")
  }

  function Act(c: Config, s: State, h: nat, x: Handler, e: Env): Effect {
    match x.pc
    case Entry => Enter(c, s, h, x.req, e)
    case Inserted(id) =>
      if e.fault || id !in s.rows then Goto(s, Done(Fail(Internal)))
      else if c.mode == Approve then Goto(s, Asking(s.rows[id]))
      else Goto(s, WantLock(s.rows[id]))
    case Asking(row) => Emit(s, Done(Row(row)), Requested(h, row.id))
    case WantLock(a) => if s.lock.Some? then Goto(s, x.pc) else Effect(s.rows, Some(h), Locked(a), None)
    case Locked(a) => Recheck(c, s, h, a, e)
    case Rechecked(a) => Emit(s, Sending(a), StartOf(h, a))
    case Sending(a) => Emit(s, Answered(a, e.answer), Ended(h, a.id, e.answer))
    case Answered(a, w) => Record(s, h, a, w, e)
    case Recorded(a, w) =>
      if e.fault || a.id !in s.rows then Goto(s, Unlocking(Fail(Internal)))
      else
        var row := s.rows[a.id];
        Goto(s, Announcing(row, if w.Refused? then Fail(Unavailable) else Row(row), true))
    case DenyRecorded(id) =>
      if e.fault || id !in s.rows then Goto(s, Done(Fail(Internal)))
      else Goto(s, Announcing(s.rows[id], Row(s.rows[id]), false))
    case Announcing(row, reply, locked) =>
      Emit(s, if locked then Unlocking(reply) else Done(reply), Announced(h, row.id, row.status))
    case LiveWant => if s.lock.Some? then Goto(s, x.pc) else Effect(s.rows, Some(h), LiveHeld, None)
    case LiveHeld => Goto(s, Unlocking(Nothing))
    case Unlocking(reply) => Effect(s.rows, None, Done(reply), None)
    case Done(_) => Goto(s, x.pc)
  }

  function Step(c: Config, s: State, act: Action): State {
    match act
    case Spawn(req) => s.(handlers := s.handlers + [Handler(req, Entry)])
    case Go(h, e) => if h < |s.handlers| then Perform(s, h, Act(c, s, h, s.handlers[h], e)) else s
  }

  function Start(init: Rows): State {
    State(init, None, [], [])
  }

  function Run(c: Config, s: State, acts: seq<Action>): State
    decreases |acts|
  {
    if acts == [] then s else Run(c, Step(c, s, acts[0]), acts[1..])
  }

  lemma {:induction false} RunCat(c: Config, s: State, a: seq<Action>, b: seq<Action>)
    ensures Run(c, s, a + b) == Run(c, Run(c, s, a), b)
    decreases |a|
  {
    if a == [] {
      assert a + b == b;
    } else {
      assert (a + b)[1..] == a[1..] + b;
      RunCat(c, Step(c, s, a[0]), a[1..], b);
    }
  }

  // ---- reading the log ----

  datatype Kind = Starts | Ends | Deliveries | Failures | Losses | Records | Announcements | Requests

  predicate Counts(k: Kind, e: Event) {
    match k
    case Starts => e.Started?
    case Ends => e.Ended?
    case Deliveries => e.Ended? && e.answer.Delivered?
    case Failures => e.WriteFailed?
    case Losses => e.Lost?
    case Records => e.Won? && e.status != Denied
    case Announcements => e.Announced?
    case Requests => e.Requested?
  }

  /** How many events of one kind concern the approval. */
  function Count(k: Kind, log: seq<Event>, id: string): nat {
    if log == [] then 0
    else
      var e := log[|log| - 1];
      Count(k, log[..|log| - 1], id) + (if e.id == id && Counts(k, e) then 1 else 0)
  }

  /** The last compare-and-set that changed the row, if any did. */
  function Winner(log: seq<Event>, id: string): (w: Option<Event>)
    ensures w.Some? ==> w.value.Won? && w.value.id == id && w.value in log
  {
    if log == [] then None
    else
      var e := log[|log| - 1];
      if e.id == id && e.Won? then Some(e) else Winner(log[..|log| - 1], id)
  }

  predicate Has(log: seq<Event>, e: Event) {
    e in log
  }

  lemma Snoc(log: seq<Event>, e: Event)
    ensures forall k, id {:trigger Count(k, log + [e], id)} ::
              Count(k, log + [e], id) == Count(k, log, id) + (if e.id == id && Counts(k, e) then 1 else 0)
    ensures forall id {:trigger Winner(log + [e], id)} ::
              Winner(log + [e], id) == if e.id == id && e.Won? then Some(e) else Winner(log, id)
    ensures forall f {:trigger Has(log + [e], f)} :: Has(log + [e], f) <==> f == e || Has(log, f)
  {
    assert (log + [e])[..|log|] == log;
  }

  // ---- the invariant ----

  predicate Holds(pc: Pc) {
    || pc.Locked? || pc.Rechecked? || pc.Sending? || pc.Answered? || pc.Recorded?
    || (pc.Announcing? && pc.locked) || pc.LiveHeld? || pc.Unlocking?
  }

  /** Mutual exclusion: exactly the lock owner is between Lock and Unlock. */
  ghost predicate LockInv(s: State) {
    && (s.lock.Some? ==> s.lock.value < |s.handlers|)
    && forall h :: 0 <= h < |s.handlers| ==> (Holds(s.handlers[h].pc) <==> s.lock == Some(h))
  }

  predicate Carries(pc: Pc) {
    pc.WantLock? || pc.Locked? || pc.Rechecked? || pc.Sending? || pc.Answered? || pc.Recorded?
  }

  /** In approve mode only a handler of approvals.approve may send. */
  predicate MaySend(c: Config, req: Request, id: string) {
    c.mode != Off && (req == ApproveReq(id) || (req.SendText? && c.mode == Direct))
  }

  /** What a handler knows at each point. */
  ghost predicate HandlerInv(c: Config, init: Rows, s: State, h: nat)
    requires h < |s.handlers|
  {
    var req, pc := s.handlers[h].req, s.handlers[h].pc;
    && (Carries(pc) ==>
          && pc.a.id in s.rows && SameRequest(s.rows[pc.a.id], pc.a) && Open(init, pc.a.id)
          && MaySend(c, req, pc.a.id))
    && (pc.Inserted? ==> req.SendText? && c.mode != Off && pc.id in s.rows && Open(init, pc.id))
    && (pc.Asking? ==> req.SendText? && c.mode == Approve && pc.row.id in s.rows && SameRequest(s.rows[pc.row.id], pc.row))
    && (pc.Rechecked? ==>
          && Has(s.log, CheckedPending(h, pc.a.id))
          && Count(Starts, s.log, pc.a.id) == Count(Failures, s.log, pc.a.id))
    && (pc.Sending? || pc.Answered? ==> Has(s.log, StartOf(h, pc.a)))
    && (pc.Answered? ==> Has(s.log, Ended(h, pc.a.id, pc.answer)))
    && (pc.Recorded? ==>
          && Winner(s.log, pc.a.id) == Some(Won(h, pc.a.id, FinalStatus(pc.answer), FinalMessage(pc.answer)))
          && Count(Announcements, s.log, pc.a.id) == 0)
    && (pc.DenyRecorded? ==>
          && Winner(s.log, pc.id) == Some(Won(h, pc.id, Denied, None))
          && Count(Announcements, s.log, pc.id) == 0)
    && (pc.Announcing? ==>
          && pc.row.id in s.rows && s.rows[pc.row.id] == pc.row
          && Winner(s.log, pc.row.id) == Some(Won(h, pc.row.id, pc.row.status, pc.row.messageId))
          && Count(Announcements, s.log, pc.row.id) == 0)
  }

  /** A phone call for the row is under way or not yet recorded. */
  predicate Active(s: State, id: string) {
    && s.lock.Some? && s.lock.value < |s.handlers|
    && var pc := s.handlers[s.lock.value].pc; (pc.Sending? || pc.Answered?) && pc.a.id == id
  }

  ghost predicate RowInv(init: Rows, s: State, id: string) {
    && (id in init ==> id in s.rows && SameRequest(init[id], s.rows[id]))
    && (!Open(init, id) ==> s.rows[id] == init[id])
    && (id in s.rows ==> s.rows[id].id == id)
    && Count(Starts, s.log, id) <= Count(Failures, s.log, id) + 1
    && (Active(s, id) ==> Count(Starts, s.log, id) == Count(Failures, s.log, id) + 1)
    && (Open(s.rows, id) && !Active(s, id) ==> Count(Starts, s.log, id) == Count(Failures, s.log, id))
    && Count(Deliveries, s.log, id) <= Count(Ends, s.log, id) <= Count(Starts, s.log, id)
    && (Active(s, id) && s.handlers[s.lock.value].pc.Sending? ==> Count(Ends, s.log, id) < Count(Starts, s.log, id))
    && Count(Announcements, s.log, id) <= 1
    && (Winner(s.log, id).None? ==> Count(Announcements, s.log, id) == 0)
    && (Winner(s.log, id).Some? <==> Open(init, id) && !Open(s.rows, id))
    && (Winner(s.log, id).Some? ==>
          var e := Winner(s.log, id).value;
          && e.Won? && e.id == id && e.status == s.rows[id].status && e.messageId == s.rows[id].messageId
          && (e.status == Sent ==>
                && Has(s.log, StartOf(e.h, s.rows[id]))
                && e.messageId.Some? && Has(s.log, Ended(e.h, id, Delivered(e.messageId.value)))))
  }

  /** Every phone call sends what its row asks for, on behalf of a request that allows it. */
  ghost predicate StartInv(c: Config, init: Rows, s: State, e: Event) {
    e.Started? ==>
      && e.id in s.rows && e.h < |s.handlers| && Open(init, e.id)
      && e == StartOf(e.h, s.rows[e.id]) && MaySend(c, s.handlers[e.h].req, e.id)
  }

  /** The conditions under which one more event keeps the order of the log. */
  predicate Fits(log: seq<Event>, e: Event) {
    && (e.Started? ==> Has(log, CheckedPending(e.h, e.id)))
    && (e.CheckedPending? || e.Won? ==> Winner(log, e.id).None?)
    && (e.Lost? || e.Announced? ==> Winner(log, e.id).Some?)
    && (e.Announced? ==> Winner(log, e.id).value.h == e.h && Winner(log, e.id).value.status == e.status)
  }

  ghost predicate OrderInv(log: seq<Event>) {
    forall j :: 0 <= j < |log| ==> Fits(log[..j], log[j])
  }

  lemma OrderSnoc(log: seq<Event>, e: Event)
    requires OrderInv(log) && Fits(log, e)
    ensures OrderInv(log + [e])
  {
    hide Fits;
    var l := log + [e];
    forall j | 0 <= j < |l| ensures Fits(l[..j], l[j]) {
      if j < |log| {
        assert l[..j] == log[..j];
      } else {
        assert l[..j] == log;
      }
    }
  }

  ghost predicate Inv(c: Config, init: Rows, s: State) {
    && LockInv(s)
    && (forall h :: 0 <= h < |s.handlers| ==> HandlerInv(c, init, s, h))
    && (forall id :: RowInv(init, s, id))
    && (forall e :: Has(s.log, e) ==> StartInv(c, init, s, e))
    && OrderInv(s.log)
  }

  // ---- one step keeps the invariant ----

  /** The approval a handler is about to touch. */
  function Subject(x: Handler): string {
    if Carries(x.pc) then x.pc.a.id
    else if x.pc.Inserted? || x.pc.DenyRecorded? then x.pc.id
    else if x.pc.Announcing? || x.pc.Asking? then x.pc.row.id
    else if x.req.ApproveReq? || x.req.DenyReq? then x.req.id
    else ""
  }

  /** The part of the invariant that one handler's step rests on. */
  ghost predicate Local(c: Config, init: Rows, s: State, h: nat)
    requires h < |s.handlers|
  {
    && HandlerInv(c, init, s, h) && RowInv(init, s, Subject(s.handlers[h]))
    && (Holds(s.handlers[h].pc) <==> s.lock == Some(h))
    && (s.lock.Some? ==> s.lock.value < |s.handlers|)
    && (forall id :: id in init ==> id in s.rows)
  }

  /** Rows are added pending; only row id0 may change, only while pending, and never in what it asks for. */
  ghost predicate Stable(rows: Rows, rows': Rows, id0: string) {
    && (forall id :: id in rows ==>
          && id in rows' && SameRequest(rows[id], rows'[id])
          && (rows[id].status != Pending || id != id0 ==> rows'[id] == rows[id]))
    && (forall id :: id in rows' && id !in rows ==> rows'[id].id == id && rows'[id].status == Pending)
  }

  lemma RowsStable(c: Config, s: State, h: nat, e: Env)
    requires h < |s.handlers|
    ensures Stable(s.rows, Act(c, s, h, s.handlers[h], e).rows, Subject(s.handlers[h]))
  {
    hide Stable, Created, Resolved;
    WritesStable(s.rows);
  }

  lemma WritesStable(rows: Rows)
    ensures forall id :: Stable(rows, rows, id)
    ensures forall a, now, id :: Stable(rows, Created(rows, a, now).0, id)
    ensures forall id, st, error, m, now :: Stable(rows, Resolved(rows, id, st, error, m, now).0, id)
  {
  }

  /** The lock is taken only when free and released only by its owner. */
  ghost predicate LockSound(s: State, h: nat, x: Effect) {
    && (Holds(x.pc) <==> x.lock == Some(h))
    && (s.lock == x.lock || (s.lock == Some(h) && x.lock == None) || (s.lock == None && x.lock == Some(h)))
  }

  /** What one step does to the shared state. */
  ghost predicate Sound(s: State, h: nat, x: Effect)
    requires h < |s.handlers|
  {
    var id0 := Subject(s.handlers[h]);
    && Stable(s.rows, x.rows, id0)
    && LockSound(s, h, x)
    && (x.event.Some? ==>
          var e := x.event.value;
          && e.h == h && e.id == id0 && e.id in s.rows
          && (e.Started? || e.Ended? || e.WriteFailed? ==> s.lock == Some(h)))
    && (x.pc.Sending? || x.pc.Answered? ==> x.pc.a.id == id0)
  }

  lemma StepLock(c: Config, s: State, h: nat, e: Env)
    requires h < |s.handlers| && (Holds(s.handlers[h].pc) <==> s.lock == Some(h))
    ensures LockSound(s, h, Act(c, s, h, s.handlers[h], e))
  {
    hide Created, Resolved;
  }

  lemma StepSound(c: Config, init: Rows, s: State, h: nat, e: Env)
    requires h < |s.handlers| && Local(c, init, s, h)
    ensures Sound(s, h, Act(c, s, h, s.handlers[h], e))
  {
    hide Count, Winner, Has, Stable, LockSound, RowInv;
    RowsStable(c, s, h, e);
    StepLock(c, s, h, e);
  }

  lemma StepFits(c: Config, init: Rows, s: State, h: nat, e: Env)
    requires h < |s.handlers| && Local(c, init, s, h)
    ensures var x := Act(c, s, h, s.handlers[h], e); x.event.Some? ==> Fits(s.log, x.event.value)
  {
    hide Count, Winner, Has;
  }

  lemma MoverKeepsCreating(c: Config, init: Rows, s: State, h: nat, e: Env)
    requires h < |s.handlers| && Local(c, init, s, h) && s.handlers[h].pc.Entry? && s.handlers[h].req.SendText?
    ensures HandlerInv(c, init, Perform(s, h, Act(c, s, h, s.handlers[h], e)), h)
  {
    hide Count, Winner, Has, Recheck, Record, StartOf, Active, Resolved, RowInv;
  }

  lemma MoverKeepsEntering(c: Config, init: Rows, s: State, h: nat, e: Env)
    requires h < |s.handlers| && Local(c, init, s, h) && s.handlers[h].pc.Entry?
    requires !s.handlers[h].req.DenyReq? && !s.handlers[h].req.SendText?
    ensures HandlerInv(c, init, Perform(s, h, Act(c, s, h, s.handlers[h], e)), h)
  {
    hide Count, Winner, Has, Recheck, Record, StartOf, Active, Resolved, Created;
  }

  lemma MoverKeepsDenying(c: Config, init: Rows, s: State, h: nat, e: Env)
    requires h < |s.handlers| && Local(c, init, s, h) && s.handlers[h].pc.Entry? && s.handlers[h].req.DenyReq?
    ensures HandlerInv(c, init, Perform(s, h, Act(c, s, h, s.handlers[h], e)), h)
  {
    hide Count, Winner, Has, Recheck, Record, StartOf, Active, Created;
    var x := Act(c, s, h, s.handlers[h], e);
    if x.event.Some? {
      Snoc(s.log, x.event.value);
    }
  }

  lemma MoverKeepsSending(c: Config, init: Rows, s: State, h: nat, e: Env)
    requires h < |s.handlers| && Local(c, init, s, h) && (s.handlers[h].pc.Rechecked? || s.handlers[h].pc.Sending? || s.handlers[h].pc.Answered?)
    ensures HandlerInv(c, init, Perform(s, h, Act(c, s, h, s.handlers[h], e)), h)
  {
    hide Count, Winner, Has, Enter, Recheck, Created;
    var x := Act(c, s, h, s.handlers[h], e);
    if x.event.Some? {
      Snoc(s.log, x.event.value);
    }
  }

  lemma MoverKeepsWaiting(c: Config, init: Rows, s: State, h: nat, e: Env)
    requires h < |s.handlers| && Local(c, init, s, h) && !s.handlers[h].pc.Entry? && !s.handlers[h].pc.Rechecked? && !s.handlers[h].pc.Sending? && !s.handlers[h].pc.Answered?
    ensures HandlerInv(c, init, Perform(s, h, Act(c, s, h, s.handlers[h], e)), h)
  {
    hide Count, Winner, Has, Enter, Record, Created, Resolved, StartOf;
    var x := Act(c, s, h, s.handlers[h], e);
    if x.event.Some? {
      Snoc(s.log, x.event.value);
    }
  }

  lemma MoverKeeps(c: Config, init: Rows, s: State, h: nat, e: Env)
    requires h < |s.handlers| && Local(c, init, s, h)
    ensures HandlerInv(c, init, Perform(s, h, Act(c, s, h, s.handlers[h], e)), h)
  {
    hide Act, Local, HandlerInv;
    if s.handlers[h].pc.Entry? && s.handlers[h].req.DenyReq? {
      MoverKeepsDenying(c, init, s, h, e);
    } else if s.handlers[h].pc.Entry? && s.handlers[h].req.SendText? {
      MoverKeepsCreating(c, init, s, h, e);
    } else if s.handlers[h].pc.Entry? {
      MoverKeepsEntering(c, init, s, h, e);
    } else if s.handlers[h].pc.Rechecked? || s.handlers[h].pc.Sending? || s.handlers[h].pc.Answered? {
      MoverKeepsSending(c, init, s, h, e);
    } else {
      MoverKeepsWaiting(c, init, s, h, e);
    }
  }

  lemma OtherKeeps(c: Config, init: Rows, s: State, h: nat, x: Effect, g: nat)
    requires h < |s.handlers| && g < |s.handlers| && g != h
    requires Sound(s, h, x) && Local(c, init, s, g)
    requires x.event.Some? ==> Fits(s.log, x.event.value)
    ensures HandlerInv(c, init, Perform(s, h, x), g)
  {
    hide Local, Sound, HandlerInv, Fits;
    if Carries(s.handlers[g].pc) {
      OtherSenderKeeps(c, init, s, h, x, g);
    } else {
      OtherWaiterKeeps(c, init, s, h, x, g);
    }
  }

  lemma OtherSenderKeeps(c: Config, init: Rows, s: State, h: nat, x: Effect, g: nat)
    requires h < |s.handlers| && g < |s.handlers| && g != h && Carries(s.handlers[g].pc)
    requires Sound(s, h, x) && Local(c, init, s, g)
    requires x.event.Some? ==> Fits(s.log, x.event.value)
    ensures HandlerInv(c, init, Perform(s, h, x), g)
  {
    hide Count, Winner, Has;
    if x.event.Some? {
      Snoc(s.log, x.event.value);
    }
  }

  lemma OtherWaiterKeeps(c: Config, init: Rows, s: State, h: nat, x: Effect, g: nat)
    requires h < |s.handlers| && g < |s.handlers| && g != h && !Carries(s.handlers[g].pc)
    requires Sound(s, h, x) && Local(c, init, s, g)
    requires x.event.Some? ==> Fits(s.log, x.event.value)
    ensures HandlerInv(c, init, Perform(s, h, x), g)
  {
    hide Count, Winner, Has;
    if x.event.Some? {
      Snoc(s.log, x.event.value);
    }
  }

  lemma OtherRowKeeps(c: Config, init: Rows, s: State, h: nat, x: Effect, id: string)
    requires h < |s.handlers| && Sound(s, h, x) && id != Subject(s.handlers[h])
    requires LockInv(s) && RowInv(init, s, id)
    ensures RowInv(init, Perform(s, h, x), id)
  {
    hide Count, Winner, Has;
    if x.event.Some? {
      Snoc(s.log, x.event.value);
    }
  }

  lemma RowKeepsEntering(c: Config, init: Rows, s: State, h: nat, e: Env)
    requires h < |s.handlers| && Local(c, init, s, h) && s.handlers[h].pc.Entry? && !s.handlers[h].req.DenyReq?
    ensures RowInv(init, Perform(s, h, Act(c, s, h, s.handlers[h], e)), Subject(s.handlers[h]))
  {
    hide Count, Winner, Has, Recheck, Record, StartOf, Resolved;
  }

  lemma RowKeepsDenying(c: Config, init: Rows, s: State, h: nat, e: Env)
    requires h < |s.handlers| && Local(c, init, s, h) && s.handlers[h].pc.Entry? && s.handlers[h].req.DenyReq?
    ensures RowInv(init, Perform(s, h, Act(c, s, h, s.handlers[h], e)), Subject(s.handlers[h]))
  {
    hide Count, Winner, Has, Recheck, Record, StartOf, Created;
    var x := Act(c, s, h, s.handlers[h], e);
    if x.event.Some? {
      Snoc(s.log, x.event.value);
    }
  }

  lemma RowKeepsSending(c: Config, init: Rows, s: State, h: nat, e: Env)
    requires h < |s.handlers| && Local(c, init, s, h) && (s.handlers[h].pc.Rechecked? || s.handlers[h].pc.Sending? || s.handlers[h].pc.Answered?)
    ensures RowInv(init, Perform(s, h, Act(c, s, h, s.handlers[h], e)), Subject(s.handlers[h]))
  {
    hide Count, Winner, Has, Enter, Recheck, Created;
    var x := Act(c, s, h, s.handlers[h], e);
    if x.event.Some? {
      Snoc(s.log, x.event.value);
    }
  }

  predicate Waits(pc: Pc) {
    !pc.Entry? && !pc.Rechecked? && !pc.Sending? && !pc.Answered? && !pc.Announcing? && !pc.Asking?
  }

  lemma RowKeepsWaiting(c: Config, init: Rows, s: State, h: nat, e: Env)
    requires h < |s.handlers| && Local(c, init, s, h) && Waits(s.handlers[h].pc) && !s.handlers[h].pc.Locked?
    ensures RowInv(init, Perform(s, h, Act(c, s, h, s.handlers[h], e)), Subject(s.handlers[h]))
  {
    hide Count, Winner, Has, Enter, Recheck, Record, Created, Resolved, StartOf, HandlerInv;
  }

  lemma RowKeepsRechecking(c: Config, init: Rows, s: State, h: nat, e: Env)
    requires h < |s.handlers| && Local(c, init, s, h) && s.handlers[h].pc.Locked?
    ensures RowInv(init, Perform(s, h, Act(c, s, h, s.handlers[h], e)), Subject(s.handlers[h]))
  {
    hide Count, Winner, Has, Enter, Record, Created, Resolved, StartOf, HandlerInv;
    var x := Act(c, s, h, s.handlers[h], e);
    if x.event.Some? {
      Snoc(s.log, x.event.value);
    }
  }

  lemma RowKeepsAnnouncing(c: Config, init: Rows, s: State, h: nat, e: Env)
    requires h < |s.handlers| && Local(c, init, s, h) && (s.handlers[h].pc.Announcing? || s.handlers[h].pc.Asking?)
    ensures RowInv(init, Perform(s, h, Act(c, s, h, s.handlers[h], e)), Subject(s.handlers[h]))
  {
    hide Count, Winner, Has, Enter, Recheck, Record, Created, Resolved, StartOf;
    Snoc(s.log, Act(c, s, h, s.handlers[h], e).event.value);
  }

  lemma SubjectRowKeeps(c: Config, init: Rows, s: State, h: nat, e: Env)
    requires h < |s.handlers| && Local(c, init, s, h)
    ensures RowInv(init, Perform(s, h, Act(c, s, h, s.handlers[h], e)), Subject(s.handlers[h]))
  {
    hide Act, Local, RowInv;
    if s.handlers[h].pc.Entry? && s.handlers[h].req.DenyReq? {
      RowKeepsDenying(c, init, s, h, e);
    } else if s.handlers[h].pc.Entry? {
      RowKeepsEntering(c, init, s, h, e);
    } else if s.handlers[h].pc.Rechecked? || s.handlers[h].pc.Sending? || s.handlers[h].pc.Answered? {
      RowKeepsSending(c, init, s, h, e);
    } else if s.handlers[h].pc.Announcing? || s.handlers[h].pc.Asking? {
      RowKeepsAnnouncing(c, init, s, h, e);
    } else if s.handlers[h].pc.Locked? {
      RowKeepsRechecking(c, init, s, h, e);
    } else {
      RowKeepsWaiting(c, init, s, h, e);
    }
  }

  lemma StartsKeep(c: Config, init: Rows, s: State, h: nat, e: Env, y: Event)
    requires h < |s.handlers| && Local(c, init, s, h)
    requires Has(s.log, y) ==> StartInv(c, init, s, y)
    requires Has(Perform(s, h, Act(c, s, h, s.handlers[h], e)).log, y)
    ensures StartInv(c, init, Perform(s, h, Act(c, s, h, s.handlers[h], e)), y)
  {
    hide Count, Winner, Has, Act, HandlerInv, RowInv, MaySend;
    var x := Act(c, s, h, s.handlers[h], e);
    StepSound(c, init, s, h, e);
    if x.event.Some? {
      Snoc(s.log, x.event.value);
      NewStart(c, init, s, h, e);
    }
  }

  lemma NewStart(c: Config, init: Rows, s: State, h: nat, e: Env)
    requires h < |s.handlers| && Local(c, init, s, h)
    ensures var x := Act(c, s, h, s.handlers[h], e); x.event.Some? ==> StartInv(c, init, Perform(s, h, x), x.event.value)
  {
    hide Count, Winner, Has, RowInv, Created, Resolved;
  }

  lemma StepKeepsInv(c: Config, init: Rows, s: State, act: Action)
    requires Inv(c, init, s)
    ensures Inv(c, init, Step(c, s, act))
  {
    if act.Go? && act.h < |s.handlers| {
      GoKeepsInv(c, init, s, act.h, act.e);
    } else {
      hide Count, Winner, Has, OrderInv, Created, Resolved, Act;
      var t := Step(c, s, act);
      forall h | 0 <= h < |t.handlers| ensures HandlerInv(c, init, t, h) {
        assert h < |s.handlers| ==> HandlerInv(c, init, s, h);
      }
      forall id ensures RowInv(init, t, id) {
        assert RowInv(init, s, id);
      }
    }
  }

  lemma InvLocal(c: Config, init: Rows, s: State)
    requires Inv(c, init, s)
    ensures forall h :: 0 <= h < |s.handlers| ==> Local(c, init, s, h)
  {
    hide HandlerInv, OrderInv, StartInv;
    forall id | id in init ensures id in s.rows {
      assert RowInv(init, s, id);
    }
    forall h | 0 <= h < |s.handlers| ensures Local(c, init, s, h) {
      assert RowInv(init, s, Subject(s.handlers[h]));
    }
  }

  lemma GoKeepsInv(c: Config, init: Rows, s: State, h: nat, e: Env)
    requires Inv(c, init, s) && h < |s.handlers|
    ensures Inv(c, init, Perform(s, h, Act(c, s, h, s.handlers[h], e)))
  {
    hide Act, HandlerInv, RowInv, OrderInv, StartInv, Local, Has, Fits;
    InvLocal(c, init, s);
    var x := Act(c, s, h, s.handlers[h], e);
    var t := Perform(s, h, x);
    StepSound(c, init, s, h, e);
    StepFits(c, init, s, h, e);
    forall g | 0 <= g < |t.handlers| ensures HandlerInv(c, init, t, g) {
      if g == h {
        MoverKeeps(c, init, s, h, e);
      } else {
        OtherKeeps(c, init, s, h, x, g);
      }
    }
    forall id ensures RowInv(init, t, id) {
      if id == Subject(s.handlers[h]) {
        SubjectRowKeeps(c, init, s, h, e);
      } else {
        OtherRowKeeps(c, init, s, h, x, id);
      }
    }
    forall y | Has(t.log, y) ensures StartInv(c, init, t, y) {
      StartsKeep(c, init, s, h, e, y);
    }
    if x.event.Some? {
      OrderSnoc(s.log, x.event.value);
    }
  }

  /** The primary key of the table is the approval id. */
  predicate Keyed(rows: Rows) {
    forall id :: id in rows ==> rows[id].id == id
  }

  lemma StartInvariant(c: Config, init: Rows)
    requires Keyed(init)
    ensures Inv(c, init, Start(init))
  {
  }

  lemma {:induction false} RunKeepsInv(c: Config, init: Rows, s: State, acts: seq<Action>)
    requires Inv(c, init, s)
    ensures Inv(c, init, Run(c, s, acts))
    decreases |acts|
  {
    if acts != [] {
      hide Inv;
      StepKeepsInv(c, init, s, acts[0]);
      RunKeepsInv(c, init, Step(c, s, acts[0]), acts[1..]);
    }
  }

  lemma {:induction false} Reachable(c: Config, init: Rows, acts: seq<Action>)
    requires Keyed(init)
    ensures Inv(c, init, Run(c, Start(init), acts))
  {
    StartInvariant(c, init);
    RunKeepsInv(c, init, Start(init), acts);
  }

  // ---- what every run keeps ----

  lemma {:induction false} WinnerIndex(log: seq<Event>, id: string)
    ensures Winner(log, id).Some? ==>
              exists k :: 0 <= k < |log| && log[k] == Winner(log, id).value && log[k].Won? && log[k].id == id
    ensures Winner(log, id).None? ==> forall k :: 0 <= k < |log| && log[k].Won? ==> log[k].id != id
  {
    if log != [] {
      WinnerIndex(log[..|log| - 1], id);
    }
  }

  lemma {:induction false} CountedIsThere(k: Kind, log: seq<Event>, id: string)
    ensures Count(k, log, id) > 0 <==> exists j :: 0 <= j < |log| && log[j].id == id && Counts(k, log[j])
  {
    if log != [] {
      CountedIsThere(k, log[..|log| - 1], id);
    }
  }

  /** SendText is started at most once per approval, plus once more for each
      time the outcome of a send could not be written to the row. */
  lemma {:induction false} StartsAreBounded(c: Config, init: Rows, acts: seq<Action>, id: string)
    requires Keyed(init)
    ensures var log := Run(c, Start(init), acts).log;
            Count(Starts, log, id) <= 1 + Count(Failures, log, id)
  {
    hide Count, Winner, Has, Act;
    Reachable(c, init, acts);
    assert RowInv(init, Run(c, Start(init), acts), id);
  }

  /** Along the run no write of a phone call's outcome fails; other store calls may. */
  predicate OutcomesAreWritten(c: Config, s: State, acts: seq<Action>)
    decreases |acts|
  {
    acts == [] ||
    (!(acts[0].Go? && acts[0].h < |s.handlers| && s.handlers[acts[0].h].pc.Answered? && acts[0].e.fault)
      && OutcomesAreWritten(c, Step(c, s, acts[0]), acts[1..]))
  }

  lemma FailsIff(c: Config, s: State, h: nat, x: Handler, e: Env)
    ensures var w := Act(c, s, h, x, e).event; w.Some? && w.value.WriteFailed? <==> x.pc.Answered? && e.fault
  {
    hide Created, Resolved;
  }

  lemma {:induction false} NoFaultNoFailure(c: Config, s: State, acts: seq<Action>, id: string)
    requires OutcomesAreWritten(c, s, acts)
    ensures Count(Failures, Run(c, s, acts).log, id) == Count(Failures, s.log, id)
    decreases |acts|
  {
    if acts != [] {
      hide Winner, Has, Act;
      var a := acts[0];
      NoFaultNoFailure(c, Step(c, s, a), acts[1..], id);
      if a.Go? && a.h < |s.handlers| {
        var x := Act(c, s, a.h, s.handlers[a.h], a.e);
        FailsIff(c, s, a.h, s.handlers[a.h], a.e);
        if x.event.Some? {
          Snoc(s.log, x.event.value);
        }
      }
    }
  }

  /** While the outcomes of phone calls get written, no interleaving sends an approval
      twice, whatever else of the store fails. */
  lemma {:induction false} NeverSentTwice(c: Config, init: Rows, acts: seq<Action>, id: string)
    requires Keyed(init) && OutcomesAreWritten(c, Start(init), acts)
    ensures Count(Starts, Run(c, Start(init), acts).log, id) <= 1
  {
    StartsAreBounded(c, init, acts, id);
    NoFaultNoFailure(c, Start(init), acts, id);
  }

  lemma Extend(c: Config, s0: State, acts: seq<Action>, s: State, a: Action) returns (acts': seq<Action>, s': State)
    requires Run(c, s0, acts) == s
    ensures acts' == acts + [a] && s' == Step(c, s, a) && Run(c, s0, acts') == s'
    ensures forall id :: Count(Starts, s'.log, id) == Count(Starts, s.log, id) +
                           if |s'.log| > |s.log| && s'.log[|s.log|].Started? && s'.log[|s.log|].id == id then 1 else 0
  {
    hide Count, Winner, Has;
    acts', s' := acts + [a], Step(c, s, a);
    if s'.log != s.log {
      Snoc(s.log, s'.log[|s.log|]);
    }
    RunCat(c, s0, acts, [a]);
    assert [a][1..] == [];
    assert Run(c, s, [a]) == Run(c, s', []);
  }

  /** An approve request for the pending row "1" gets as far as the phone. */
  lemma ApproveStarts(c: Config, a: Approval, s0: State, acts: seq<Action>, s: State)
    returns (acts': seq<Action>, s': State)
    requires c == Config(Approve, true) && a.id == "1" && a.status == Pending
    requires Run(c, s0, acts) == s && s.rows == map["1" := a] && s.lock == None
    ensures Run(c, s0, acts') == s' && s'.rows == s.rows && s'.lock == Some(|s.handlers|)
    ensures s'.handlers == s.handlers + [Handler(ApproveReq("1"), Sending(a))]
    ensures Count(Starts, s'.log, "1") == Count(Starts, s.log, "1") + 1
  {
    hide Winner, Has, Run, Count;
    var n := |s.handlers|;
    var ok := Env(false, "", Refused(""), 0);
    acts', s' := Extend(c, s0, acts, s, Spawn(ApproveReq("1")));
    acts', s' := Extend(c, s0, acts', s', Go(n, ok));
    acts', s' := Extend(c, s0, acts', s', Go(n, ok));
    assert s'.handlers[n] == Handler(ApproveReq("1"), Locked(a));
    acts', s' := Extend(c, s0, acts', s', Go(n, ok));
    acts', s' := Extend(c, s0, acts', s', Go(n, ok));
  }

  /** The phone delivers the message, but the outcome does not reach the row. */
  lemma OutcomeIsLost(c: Config, a: Approval, s0: State, acts: seq<Action>, s: State)
    returns (acts': seq<Action>, s': State)
    requires Run(c, s0, acts) == s && s.lock == Some(0) && |s.handlers| == 1 && s.handlers[0].pc == Sending(a)
    ensures Run(c, s0, acts') == s' && s'.rows == s.rows && s'.lock == None && |s'.handlers| == 1
    ensures Count(Starts, s'.log, "1") == Count(Starts, s.log, "1")
  {
    hide Winner, Has, Run, Count;
    var ok := Env(false, "", Delivered("m"), 0);
    acts', s' := Extend(c, s0, acts, s, Go(0, ok));
    acts', s' := Extend(c, s0, acts', s', Go(0, ok.(fault := true)));
    acts', s' := Extend(c, s0, acts', s', Go(0, ok));
  }

  /** A failed write really does allow a second send: the row is still pending,
      and approving it again sends it again. */
  lemma {:induction false} FailedWriteSendsTwice()
    ensures exists c, init, acts :: Keyed(init) && Count(Starts, Run(c, Start(init), acts).log, "1") == 2
  {
    var c := Config(Approve, true);
    var a := Approval("1", "chat", "hi", None, "rpc", Pending, None, None, 0, 0);
    var init: Rows := map["1" := a];
    var s0 := Start(init);
    assert Run(c, s0, []) == s0 && Count(Starts, s0.log, "1") == 0;
    hide Run, Count, Winner, Has, Act;
    var acts, s := ApproveStarts(c, a, s0, [], s0);
    acts, s := OutcomeIsLost(c, a, s0, acts, s);
    acts, s := ApproveStarts(c, a, s0, acts, s);
  }

  /** The index at which a row was resolved is unique, and every recheck that
      passed comes before it. */
  lemma ResolvedOnce(log: seq<Event>, k: nat)
    requires OrderInv(log) && k < |log| && log[k].Won?
    ensures forall i :: 0 <= i < |log| && log[i].id == log[k].id && log[i].Won? ==> i == k
    ensures forall i :: 0 <= i < |log| && log[i].id == log[k].id && log[i].CheckedPending? ==> i < k
    ensures forall i :: 0 <= i < |log| && log[i].id == log[k].id && log[i].Lost? ==> k < i
    ensures Winner(log, log[k].id) == Some(log[k])
  {
    forall i | 0 <= i < |log| && log[i].id == log[k].id
      ensures log[i].Won? ==> i == k
      ensures log[i].CheckedPending? ==> i < k
      ensures log[i].Lost? ==> k < i
    {
      assert Fits(log[..i], log[i]) && Fits(log[..k], log[k]);
      WinnerIndex(log[..i], log[k].id);
      WinnerIndex(log[..k], log[k].id);
      if k < i {
        assert log[..i][k] == log[k];
      } else if i < k {
        assert log[..k][i] == log[i];
      }
      if log[i].Lost? {
        var j :| 0 <= j < i && log[..i][j] == Winner(log[..i], log[k].id).value && log[j].Won? && log[j].id == log[k].id;
        assert j == k by {
          OnlyOne(log, j, k);
        }
      }
    }
    WinnerIndex(log, log[k].id);
  }

  lemma OnlyOne(log: seq<Event>, i: nat, k: nat)
    requires OrderInv(log) && i < |log| && k < |log|
    requires log[i].Won? && log[k].Won? && log[i].id == log[k].id
    ensures i == k
  {
    var a, b := if i < k then i else k, if i < k then k else i;
    if a < b {
      assert Fits(log[..b], log[b]);
      assert log[..b][a] == log[a];
      WinnerIndex(log[..b], log[b].id);
    }
  }

  /** A denied row was sent only if the deny landed after the sending handler's
      recheck, and before any outcome of a call for the row got through or lost; so,
      if no outcome failed to be written, before that handler tried to record. */
  lemma {:induction false} DeniedOnlyInsideTheWindow(c: Config, init: Rows, acts: seq<Action>, j: nat)
    requires Keyed(init)
    requires var t := Run(c, Start(init), acts);
             j < |t.log| && t.log[j].Started? && t.log[j].id in t.rows && t.rows[t.log[j].id].status == Denied
    ensures var log := Run(c, Start(init), acts).log;
            exists i, k :: 0 <= i < j && i < k < |log|
              && log[i] == CheckedPending(log[j].h, log[j].id)
              && log[k].Won? && log[k].id == log[j].id && log[k].status == Denied
              && forall r :: 0 <= r < k && log[r].id == log[j].id ==>
                   && !log[r].Won? && !log[r].Lost?
                   && (Count(Failures, log, log[j].id) == 0 ==> !log[r].WriteFailed?)
  {
    hide Count, Winner, Run, Act, HandlerInv;
    Reachable(c, init, acts);
    var t := Run(c, Start(init), acts);
    var log := t.log;
    var id := log[j].id;
    assert RowInv(init, t, id);
    WinnerIndex(log, id);
    assert Has(log, log[j]);
    assert StartInv(c, init, t, log[j]);
    assert Fits(log[..j], log[j]);
    var i :| 0 <= i < j && log[..j][i] == CheckedPending(log[j].h, id);
    var k :| 0 <= k < |log| && log[k] == Winner(log, id).value && log[k].Won? && log[k].id == id;
    ResolvedOnce(log, k);
    CountedIsThere(Failures, log, id);
    assert forall r :: 0 <= r < |log| && log[r].id == id && log[r].WriteFailed? ==> Counts(Failures, log[r]);
  }

  /** A row resolved before any recheck of it passed is never sent at all. */
  lemma {:induction false} ResolvedFirstMeansNeverSent(c: Config, init: Rows, acts: seq<Action>, k: nat)
    requires Keyed(init)
    requires var log := Run(c, Start(init), acts).log;
             && k < |log| && log[k].Won?
             && forall i :: 0 <= i < k && log[i].CheckedPending? ==> log[i].id != log[k].id
    ensures var log := Run(c, Start(init), acts).log;
            forall j :: 0 <= j < |log| && log[j].Started? ==> log[j].id != log[k].id
  {
    hide Count, Winner, Run, Act, HandlerInv, RowInv;
    Reachable(c, init, acts);
    var log := Run(c, Start(init), acts).log;
    ResolvedOnce(log, k);
    forall j | 0 <= j < |log| && log[j].Started? ensures log[j].id != log[k].id {
      assert Fits(log[..j], log[j]);
    }
  }

  /** A delivered row: the phone call its final status rests on was made with
      the row's own conversation, body and reply, and answered with the message
      id the row holds; deliveries beyond the first need failed writes. */
  lemma {:induction false} SentMeansDelivered(c: Config, init: Rows, acts: seq<Action>, id: string)
    requires Keyed(init) && Open(init, id)
    requires var t := Run(c, Start(init), acts); id in t.rows && t.rows[id].status == Sent
    ensures var t := Run(c, Start(init), acts);
            && t.rows[id].messageId.Some?
            && (exists h :: StartOf(h, t.rows[id]) in t.log && Ended(h, id, Delivered(t.rows[id].messageId.value)) in t.log)
            && 1 <= Count(Deliveries, t.log, id) <= 1 + Count(Failures, t.log, id)
  {
    hide Count, Winner, Run, Act, HandlerInv;
    Reachable(c, init, acts);
    var t := Run(c, Start(init), acts);
    assert RowInv(init, t, id);
    var w := Winner(t.log, id).value;
    assert StartOf(w.h, t.rows[id]) in t.log;
    CountedIsThere(Deliveries, t.log, id);
  }

  /** At most one approval.resolved goes out per approval, and it carries the
      status the row keeps from then on. */
  lemma {:induction false} AnnouncedOnceAndTruly(c: Config, init: Rows, acts: seq<Action>, id: string)
    requires Keyed(init)
    ensures var t := Run(c, Start(init), acts);
            && Count(Announcements, t.log, id) <= 1
            && forall j :: 0 <= j < |t.log| && t.log[j].Announced? && t.log[j].id == id ==>
                 id in t.rows && t.rows[id].status == t.log[j].status && t.rows[id].status != Pending
  {
    hide Count, Winner, Run, Act, HandlerInv;
    Reachable(c, init, acts);
    var t := Run(c, Start(init), acts);
    var log := t.log;
    assert RowInv(init, t, id);
    forall j | 0 <= j < |log| && log[j].Announced? && log[j].id == id
      ensures id in t.rows && t.rows[id].status == log[j].status && t.rows[id].status != Pending
    {
      assert Fits(log[..j], log[j]);
      WinnerIndex(log[..j], id);
      var k :| 0 <= k < j && log[..j][k] == Winner(log[..j], id).value && log[k].Won? && log[k].id == id;
      ResolvedOnce(log, k);
    }
  }

  /** In mode off no phone call is made; in mode approve every call is made by a
      handler of approvals.approve for that very id; and every call sends what
      its row asks for. */
  lemma {:induction false} SendsAreAuthorised(c: Config, init: Rows, acts: seq<Action>, e: Event)
    requires Keyed(init) && e in Run(c, Start(init), acts).log && e.Started?
    ensures var t := Run(c, Start(init), acts);
            && c.mode != Off
            && e.id in t.rows && e == StartOf(e.h, t.rows[e.id])
            && e.h < |t.handlers|
            && (c.mode == Approve ==> t.handlers[e.h].req == ApproveReq(e.id))
  {
    hide Count, Winner, Run, Act, HandlerInv, RowInv;
    Reachable(c, init, acts);
    assert Has(Run(c, Start(init), acts).log, e);
  }

  /** At most one handler is between Lock and Unlock, so phone calls never overlap. */
  lemma {:induction false} PhoneCallsNeverOverlap(c: Config, init: Rows, acts: seq<Action>, g: nat, h: nat)
    requires Keyed(init)
    requires var t := Run(c, Start(init), acts);
             g < |t.handlers| && h < |t.handlers| && Holds(t.handlers[g].pc) && Holds(t.handlers[h].pc)
    ensures g == h
  {
    hide Count, Winner, Run, Act, HandlerInv, RowInv;
    Reachable(c, init, acts);
  }

  /** From any point of a run on: a terminal row never changes again, and no row
      ever changes what it asks for. */
  lemma {:induction false} TerminalRowsNeverChange(c: Config, init: Rows, s: State, acts: seq<Action>, id: string)
    requires Inv(c, init, s) && id in s.rows
    ensures var t := Run(c, s, acts);
            && id in t.rows && SameRequest(s.rows[id], t.rows[id])
            && (s.rows[id].status != Pending ==> t.rows[id] == s.rows[id])
    decreases |acts|
  {
    if acts != [] {
      hide Act, Inv;
      var t := Step(c, s, acts[0]);
      StepKeepsInv(c, init, s, acts[0]);
      if acts[0].Go? && acts[0].h < |s.handlers| {
        RowsStable(c, s, acts[0].h, acts[0].e);
      }
      TerminalRowsNeverChange(c, init, t, acts[1..], id);
    }
  }
}