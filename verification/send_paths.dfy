/** Requests of the send protocol that are left alone, from any point of any run: what
    they do from coming in to their reply. */
module SendPaths {
  import opened Common
  import Approvals
  import opened SendProtocol
  import opened SendAccount
  import opened SendContent

  /** The next n steps of handler h, with the same choices. */
  function Turns(h: nat, e: Env, n: nat): seq<Action> {
    if n == 0 then [] else [Go(h, e)] + Turns(h, e, n - 1)
  }

  ghost predicate Stands(s: State, h: nat, req: Request, pc: Pc, rows: Approvals.Rows, lock: Option<nat>, log: seq<Event>) {
    h + 1 == |s.handlers| && s.handlers[h] == Handler(req, pc) && s.rows == rows && s.lock == lock && s.log == log
  }

  /** After k more of its turns the handler stands there. */
  ghost predicate Comes(
    c: Config, s: State, h: nat, e: Env, n: nat, req: Request, pc: Pc, rows: Approvals.Rows, lock: Option<nat>,
    log: seq<Event>)
  {
    Stands(SendProtocol.Run(c, s, Turns(h, e, n)), h, req, pc, rows, lock, log)
  }

  /** One turn, whose effect is known. */
  lemma Turn(c: Config, s: State, h: nat, e: Env, n: nat, x: Effect) returns (t: State)
    requires h + 1 == |s.handlers| && n > 0 && Act(c, s, h, s.handlers[h], e) == x
    ensures SendProtocol.Run(c, s, Turns(h, e, n)) == SendProtocol.Run(c, t, Turns(h, e, n - 1))
    ensures Stands(t, h, s.handlers[h].req, x.pc, x.rows, x.lock, if x.event.Some? then s.log + [x.event.value] else s.log)
  {
    hide Act;
    t := Perform(s, h, x);
    assert Turns(h, e, n)[1..] == Turns(h, e, n - 1);
  }

  lemma NoTurn(c: Config, s: State, h: nat, e: Env)
    ensures SendProtocol.Run(c, s, Turns(h, e, 0)) == s
  {
  }

  /** The row after the phone's answer. */
  function Settled(r: Approvals.Approval, w: Answer, now: int): Approvals.Approval {
    if w.Delivered? then
      r.(status := Approvals.Sent, error := None, messageId := Some(w.messageId), updatedAt := now)
    else
      r.(status := Approvals.Failed, error := Some(w.error), messageId := None, updatedAt := now)
  }

  /** What the section under the lock does with a pending row, in this order. */
  function Sending(h: nat, r: Approvals.Approval, w: Answer): seq<Event> {
    var status := if w.Delivered? then Approvals.Sent else Approvals.Failed;
    [CheckedPending(h, r.id),
     Started(h, r.id, r.conversationId, r.body, if r.replyToId == None then "" else r.replyToId.value),
     Ended(h, r.id, w),
     Won(h, r.id, status, if w.Delivered? then Some(w.messageId) else None),
     Announced(h, r.id, status)]
  }

  function SentReply(r: Approvals.Approval, w: Answer, now: int): Reply {
    if w.Delivered? then Row(Settled(r, w, now)) else Fail(Unavailable)
  }

  lemma LockIsTaken(c: Config, s: State, h: nat, e: Env, req: Request, r: Approvals.Approval)
    requires Stands(s, h, req, WantLock(r), s.rows, None, s.log)
    ensures Act(c, s, h, s.handlers[h], e) == Effect(s.rows, Some(h), Locked(r), None)
  {
  }

  lemma RecheckPasses(c: Config, s: State, h: nat, e: Env, req: Request, r: Approvals.Approval)
    requires Stands(s, h, req, Locked(r), s.rows, Some(h), s.log) && c.online && !e.fault
    requires r.id in s.rows && s.rows[r.id] == r && r.status == Approvals.Pending
    ensures Act(c, s, h, s.handlers[h], e) == Effect(s.rows, Some(h), Rechecked(r), Some(CheckedPending(h, r.id)))
  {
  }

  lemma PhoneIsCalled(c: Config, s: State, h: nat, e: Env, req: Request, r: Approvals.Approval)
    requires Stands(s, h, req, Rechecked(r), s.rows, Some(h), s.log)
    ensures Act(c, s, h, s.handlers[h], e) ==
      Effect(s.rows, Some(h), SendProtocol.Sending(r), Some(Sending(h, r, e.answer)[1]))
  {
  }

  lemma PhoneAnswers(c: Config, s: State, h: nat, e: Env, req: Request, r: Approvals.Approval)
    requires Stands(s, h, req, SendProtocol.Sending(r), s.rows, Some(h), s.log)
    ensures Act(c, s, h, s.handlers[h], e) == Effect(s.rows, Some(h), Answered(r, e.answer), Some(Ended(h, r.id, e.answer)))
  {
  }

  /** Up to the phone's answer. */
  lemma ToTheAnswer(c: Config, s: State, h: nat, e: Env, req: Request, r: Approvals.Approval) returns (t: State)
    requires Stands(s, h, req, WantLock(r), s.rows, None, s.log) && c.online && !e.fault
    requires r.id in s.rows && s.rows[r.id] == r && r.status == Approvals.Pending
    ensures SendProtocol.Run(c, s, Turns(h, e, 8)) == SendProtocol.Run(c, t, Turns(h, e, 4))
    ensures Stands(t, h, req, Answered(r, e.answer), s.rows, Some(h), s.log + Sending(h, r, e.answer)[..3])
  {
    hide SendProtocol.Run, Turns, Act;
    var told := Sending(h, r, e.answer);
    LockIsTaken(c, s, h, e, req, r);
    t := Turn(c, s, h, e, 8, Effect(s.rows, Some(h), Locked(r), None));
    RecheckPasses(c, t, h, e, req, r);
    t := Turn(c, t, h, e, 7, Effect(s.rows, Some(h), Rechecked(r), Some(told[0])));
    PhoneIsCalled(c, t, h, e, req, r);
    t := Turn(c, t, h, e, 6, Effect(s.rows, Some(h), SendProtocol.Sending(r), Some(told[1])));
    PhoneAnswers(c, t, h, e, req, r);
    t := Turn(c, t, h, e, 5, Effect(s.rows, Some(h), Answered(r, e.answer), Some(told[2])));
    assert s.log + [told[0]] + [told[1]] + [told[2]] == s.log + told[..3];
  }

  lemma AnswerIsRecorded(c: Config, s: State, h: nat, e: Env, req: Request, r: Approvals.Approval)
    requires Stands(s, h, req, Answered(r, e.answer), s.rows, Some(h), s.log) && !e.fault
    requires r.id in s.rows && s.rows[r.id] == r && r.status == Approvals.Pending
    ensures Act(c, s, h, s.handlers[h], e) ==
      Effect(s.rows[r.id := Settled(r, e.answer, e.now)], Some(h), Recorded(r, e.answer), Some(Sending(h, r, e.answer)[3]))
  {
  }

  lemma RecordIsRead(c: Config, s: State, h: nat, e: Env, req: Request, r: Approvals.Approval)
    requires Stands(s, h, req, Recorded(r, e.answer), s.rows, Some(h), s.log) && !e.fault
    requires r.id in s.rows && s.rows[r.id] == Settled(r, e.answer, e.now)
    ensures Act(c, s, h, s.handlers[h], e) ==
      Effect(s.rows, Some(h), Announcing(s.rows[r.id], SentReply(r, e.answer, e.now), true), None)
  {
  }

  lemma RecordIsAnnounced(c: Config, s: State, h: nat, e: Env, req: Request, row: Approvals.Approval, reply: Reply)
    requires Stands(s, h, req, Announcing(row, reply, true), s.rows, s.lock, s.log)
    ensures Act(c, s, h, s.handlers[h], e) == Effect(s.rows, s.lock, Unlocking(reply), Some(Announced(h, row.id, row.status)))
  {
  }

  lemma LockIsFreed(c: Config, s: State, h: nat, e: Env, req: Request, reply: Reply)
    requires Stands(s, h, req, Unlocking(reply), s.rows, s.lock, s.log)
    ensures Act(c, s, h, s.handlers[h], e) == Effect(s.rows, None, Done(reply), None)
  {
  }

  lemma AnnouncesAndUnlocks(c: Config, s: State, h: nat, e: Env, req: Request, row: Approvals.Approval, reply: Reply)
    requires Stands(s, h, req, Announcing(row, reply, true), s.rows, s.lock, s.log)
    ensures Comes(c, s, h, e, 2, req, Done(reply), s.rows, None, s.log + [Announced(h, row.id, row.status)])
  {
    hide SendProtocol.Run, Turns, Act;
    RecordIsAnnounced(c, s, h, e, req, row, reply);
    var t := Turn(c, s, h, e, 2, Effect(s.rows, s.lock, Unlocking(reply), Some(Announced(h, row.id, row.status))));
    LockIsFreed(c, t, h, e, req, reply);
    t := Turn(c, t, h, e, 1, Effect(s.rows, None, Done(reply), None));
    NoTurn(c, t, h, e);
  }

  lemma ToldAtLast(h: nat, r: Approvals.Approval, w: Answer, now: int)
    ensures var told, row := Sending(h, r, w), Settled(r, w, now);
      |told| == 5 && told[3..] == [told[3]] + [told[4]] && row.id == r.id && told[4] == Announced(h, row.id, row.status)
  {
  }

  /** And from there. */
  lemma FromTheAnswer(c: Config, s: State, h: nat, e: Env, req: Request, r: Approvals.Approval)
    requires Stands(s, h, req, Answered(r, e.answer), s.rows, Some(h), s.log) && !e.fault
    requires r.id in s.rows && s.rows[r.id] == r && r.status == Approvals.Pending
    ensures Comes(c, s, h, e, 4, req, Done(SentReply(r, e.answer, e.now)), s.rows[r.id := Settled(r, e.answer, e.now)], None,
      s.log + Sending(h, r, e.answer)[3..])
  {
    hide SendProtocol.Run, Turns, Act, SentReply, Settled, Sending;
    ToldAtLast(h, r, e.answer, e.now);
    AnswerIsRecorded(c, s, h, e, req, r);
    var row, told, reply := Settled(r, e.answer, e.now), Sending(h, r, e.answer), SentReply(r, e.answer, e.now);
    var rows := s.rows[r.id := row];
    var t := Turn(c, s, h, e, 4, Effect(rows, Some(h), Recorded(r, e.answer), Some(told[3])));
    RecordIsRead(c, t, h, e, req, r);
    t := Turn(c, t, h, e, 3, Effect(rows, Some(h), Announcing(row, reply, true), None));
    AnnouncesAndUnlocks(c, t, h, e, req, row, reply);
    assert s.log + ([told[3]] + [told[4]]) == s.log + [told[3]] + [told[4]];
  }

  /** The section under the lock, alone and without failures of the store. */
  lemma LockedSection(c: Config, s: State, h: nat, e: Env, req: Request, r: Approvals.Approval)
    requires Stands(s, h, req, WantLock(r), s.rows, None, s.log) && c.online && !e.fault
    requires r.id in s.rows && s.rows[r.id] == r && r.status == Approvals.Pending
    ensures Comes(c, s, h, e, 8, req, Done(SentReply(r, e.answer, e.now)), s.rows[r.id := Settled(r, e.answer, e.now)], None,
      s.log + Sending(h, r, e.answer))
  {
    hide SendProtocol.Run, Turns, SentReply, Settled;
    var t := ToTheAnswer(c, s, h, e, req, r);
    FromTheAnswer(c, t, h, e, req, r);
    var told := Sending(h, r, e.answer);
    assert s.log + told[..3] + told[3..] == s.log + told;
  }

  // ---- from the request to the reply ----

  lemma Spawned(c: Config, s: State, req: Request, more: seq<Action>)
    ensures SendProtocol.Run(c, s, [Spawn(req)] + more) == SendProtocol.Run(c, Step(c, s, Spawn(req)), more)
    ensures Stands(Step(c, s, Spawn(req)), |s.handlers|, req, Entry, s.rows, s.lock, s.log)
  {
    hide Act;
    assert ([Spawn(req)] + more)[1..] == more;
  }

  /** The request comes in, its handler has n turns with the choices e, and nobody else
      moves; then it has this reply, and the rows, the lock and the log are so. */
  ghost predicate EndsIn(
    c: Config, init: Approvals.Rows, acts: seq<Action>, req: Request, e: Env, n: nat, reply: Reply, rows: Approvals.Rows,
    lock: Option<nat>, log: seq<Event>)
  {
    var s := SendProtocol.Run(c, SendProtocol.Start(init), acts);
    var h := |s.handlers|;
    Stands(SendProtocol.Run(c, SendProtocol.Start(init), acts + ([Spawn(req)] + Turns(h, e, n))), h, req, Done(reply), rows, lock, log)
  }

  /** From any point of any run at which the lock is free: an approve request for a pending
      row, left alone, sends the message and records and announces the phone's answer. */
  lemma {:induction false} ApproveSends(c: Config, init: Approvals.Rows, acts: seq<Action>, id: string, e: Env)
    requires Keyed(init) && c.mode != Off && c.online && !e.fault && id != ""
    requires var s := SendProtocol.Run(c, SendProtocol.Start(init), acts);
      s.lock == None && id in s.rows && s.rows[id].status == Approvals.Pending
    ensures var s := SendProtocol.Run(c, SendProtocol.Start(init), acts);
      var r := s.rows[id];
      EndsIn(c, init, acts, ApproveReq(id), e, 9, SentReply(r, e.answer, e.now), s.rows[id := Settled(r, e.answer, e.now)],
        None, s.log + Sending(|s.handlers|, r, e.answer))
  {
    hide SendProtocol.Run, Turns, SentReply, Settled, Sending, Inv, Act;
    var s := SendProtocol.Run(c, SendProtocol.Start(init), acts);
    var h, req := |s.handlers|, ApproveReq(id);
    RowIsKeyed(c, init, acts, id);
    RunCat(c, SendProtocol.Start(init), acts, [Spawn(req)] + Turns(h, e, 9));
    Spawned(c, s, req, Turns(h, e, 9));
    var t := Step(c, s, Spawn(req));
    ApproveEnters(c, t, h, e, id);
    t := Turn(c, t, h, e, 9, Effect(s.rows, None, WantLock(s.rows[id]), None));
    LockedSection(c, t, h, e, req, s.rows[id]);
  }

  lemma RowIsKeyed(c: Config, init: Approvals.Rows, acts: seq<Action>, id: string)
    requires Keyed(init)
    ensures var s := SendProtocol.Run(c, SendProtocol.Start(init), acts); id in s.rows ==> s.rows[id].id == id
  {
    hide SendProtocol.Run, Count, Winner, Has;
    Reachable(c, init, acts);
    assert RowInv(init, SendProtocol.Run(c, SendProtocol.Start(init), acts), id);
  }

  lemma ApproveEnters(c: Config, t: State, h: nat, e: Env, id: string)
    requires Stands(t, h, ApproveReq(id), Entry, t.rows, None, t.log) && c.mode != Off && !e.fault && id != ""
    requires id in t.rows && t.rows[id].status == Approvals.Pending
    ensures Act(c, t, h, t.handlers[h], e) == Effect(t.rows, None, WantLock(t.rows[id]), None)
  {
  }

  /** A deny request for a pending row, left alone at any time, denies it for its reason and
      says so. */
  lemma {:induction false} DenyDenies(c: Config, init: Approvals.Rows, acts: seq<Action>, id: string, reason: string, e: Env)
    requires Keyed(init) && !e.fault && id != ""
    requires var s := SendProtocol.Run(c, SendProtocol.Start(init), acts); id in s.rows && s.rows[id].status == Approvals.Pending
    ensures var s := SendProtocol.Run(c, SendProtocol.Start(init), acts);
      var h := |s.handlers|;
      var r := s.rows[id].(
        status := Approvals.Denied, error := if reason == "" then None else Some(reason), messageId := None, updatedAt := e.now);
      EndsIn(c, init, acts, DenyReq(id, reason), e, 3, Row(r), s.rows[id := r], s.lock,
        s.log + [Won(h, id, Approvals.Denied, None), Announced(h, id, Approvals.Denied)])
  {
    hide SendProtocol.Run, Turns, Inv;
    var s := SendProtocol.Run(c, SendProtocol.Start(init), acts);
    var h, req := |s.handlers|, DenyReq(id, reason);
    RowIsKeyed(c, init, acts, id);
    RunCat(c, SendProtocol.Start(init), acts, [Spawn(req)] + Turns(h, e, 3));
    Spawned(c, s, req, Turns(h, e, 3));
    var t := Step(c, s, Spawn(req));
    var r := s.rows[id].(
      status := Approvals.Denied, error := if reason == "" then None else Some(reason), messageId := None, updatedAt := e.now);
    var rows := s.rows[id := r];
    t := Turn(c, t, h, e, 3, Effect(rows, s.lock, DenyRecorded(id), Some(Won(h, id, Approvals.Denied, None))));
    t := Turn(c, t, h, e, 2, Effect(rows, s.lock, Announcing(r, Row(r), false), None));
    t := Turn(c, t, h, e, 1, Effect(rows, s.lock, Done(Row(r)), Some(Announced(h, id, Approvals.Denied))));
    NoTurn(c, t, h, e);
  }

  /** The row that a send.text request asks for, as it is inserted. */
  function NewRow(req: Request, id: string, now: int): Approvals.Approval
    requires req.SendText?
  {
    Approvals.Approval(
      id := id, conversationId := req.conversationId, body := req.body,
      replyToId := if req.replyToId == "" then None else Some(req.replyToId),
      requestedBy := if req.requestedBy == "" then "rpc" else req.requestedBy,
      status := Approvals.Pending, error := None, messageId := None, createdAt := now, updatedAt := now)
  }

  lemma TextEnters(c: Config, t: State, h: nat, e: Env, req: Request)
    requires Stands(t, h, req, Entry, t.rows, t.lock, t.log) && c.mode != Off && !e.fault
    requires req.SendText? && req.conversationId != "" && req.body != "" && e.uuid != "" && e.uuid !in t.rows
    ensures Act(c, t, h, t.handlers[h], e) == Effect(t.rows[e.uuid := NewRow(req, e.uuid, e.now)], t.lock, Inserted(e.uuid), None)
  {
  }

  lemma TextGoesOn(c: Config, t: State, h: nat, e: Env, req: Request)
    requires Stands(t, h, req, Inserted(e.uuid), t.rows, t.lock, t.log) && !e.fault && e.uuid in t.rows
    ensures Act(c, t, h, t.handlers[h], e) ==
      Effect(t.rows, t.lock, if c.mode == Approve then Asking(t.rows[e.uuid]) else WantLock(t.rows[e.uuid]), None)
  {
  }

  lemma TextAsks(c: Config, t: State, h: nat, e: Env, req: Request, r: Approvals.Approval)
    requires Stands(t, h, req, Asking(r), t.rows, t.lock, t.log)
    ensures Act(c, t, h, t.handlers[h], e) == Effect(t.rows, t.lock, Done(Row(r)), Some(Requested(h, r.id)))
  {
  }

  /** A send.text request, left alone at any time in approve mode, leaves a pending row with
      what it asks for, asks for approval, and answers with the row. */
  lemma {:induction false} TextIsQueued(c: Config, init: Approvals.Rows, acts: seq<Action>, req: Request, e: Env)
    requires Keyed(init) && c.mode == Approve && !e.fault && e.uuid != ""
    requires req.SendText? && req.conversationId != "" && req.body != ""
    requires e.uuid !in SendProtocol.Run(c, SendProtocol.Start(init), acts).rows
    ensures var s := SendProtocol.Run(c, SendProtocol.Start(init), acts);
      var r := NewRow(req, e.uuid, e.now);
      EndsIn(c, init, acts, req, e, 3, Row(r), s.rows[e.uuid := r], s.lock, s.log + [Requested(|s.handlers|, e.uuid)])
  {
    hide SendProtocol.Run, Turns, Act;
    var s := SendProtocol.Run(c, SendProtocol.Start(init), acts);
    var h := |s.handlers|;
    RunCat(c, SendProtocol.Start(init), acts, [Spawn(req)] + Turns(h, e, 3));
    Spawned(c, s, req, Turns(h, e, 3));
    var t := Step(c, s, Spawn(req));
    var r := NewRow(req, e.uuid, e.now);
    var rows := s.rows[e.uuid := r];
    TextEnters(c, t, h, e, req);
    t := Turn(c, t, h, e, 3, Effect(rows, s.lock, Inserted(e.uuid), None));
    TextGoesOn(c, t, h, e, req);
    t := Turn(c, t, h, e, 2, Effect(rows, s.lock, Asking(r), None));
    TextAsks(c, t, h, e, req, r);
    t := Turn(c, t, h, e, 1, Effect(rows, s.lock, Done(Row(r)), Some(Requested(h, r.id))));
    NoTurn(c, t, h, e);
  }

  /** In direct mode, with the lock free, it sends the message at once and answers with the
      outcome. */
  lemma {:induction false} TextIsSent(c: Config, init: Approvals.Rows, acts: seq<Action>, req: Request, e: Env)
    requires Keyed(init) && c.mode == Direct && c.online && !e.fault && e.uuid != ""
    requires req.SendText? && req.conversationId != "" && req.body != ""
    requires var s := SendProtocol.Run(c, SendProtocol.Start(init), acts); e.uuid !in s.rows && s.lock == None
    ensures var s := SendProtocol.Run(c, SendProtocol.Start(init), acts);
      var r := NewRow(req, e.uuid, e.now);
      EndsIn(c, init, acts, req, e, 10, SentReply(r, e.answer, e.now), s.rows[e.uuid := Settled(r, e.answer, e.now)], None,
        s.log + Sending(|s.handlers|, r, e.answer))
  {
    hide SendProtocol.Run, Turns, Act, SentReply, Settled, Sending;
    var s := SendProtocol.Run(c, SendProtocol.Start(init), acts);
    var h := |s.handlers|;
    RunCat(c, SendProtocol.Start(init), acts, [Spawn(req)] + Turns(h, e, 10));
    Spawned(c, s, req, Turns(h, e, 10));
    var t := Step(c, s, Spawn(req));
    var r := NewRow(req, e.uuid, e.now);
    TextEnters(c, t, h, e, req);
    t := Turn(c, t, h, e, 10, Effect(s.rows[e.uuid := r], None, Inserted(e.uuid), None));
    TextGoesOn(c, t, h, e, req);
    t := Turn(c, t, h, e, 9, Effect(s.rows[e.uuid := r], None, WantLock(r), None));
    LockedSection(c, t, h, e, req, r);
    assert t.rows[e.uuid := Settled(r, e.answer, e.now)] == s.rows[e.uuid := Settled(r, e.answer, e.now)];
  }

  // ---- refusals ----

  predicate Lacking(req: Request) {
    match req
    case SendText(conv, body, _, _) => conv == "" || body == ""
    case ApproveReq(id) => id == ""
    case DenyReq(id, _) => id == ""
    case LiveOp => false
  }

  /** The request is answered with this error in one turn, and nothing else changes. */
  ghost predicate TurnedAway(c: Config, init: Approvals.Rows, acts: seq<Action>, req: Request, e: Env, code: Code) {
    var s := SendProtocol.Run(c, SendProtocol.Start(init), acts);
    EndsIn(c, init, acts, req, e, 1, Fail(code), s.rows, s.lock, s.log)
  }

  lemma Refuses(c: Config, init: Approvals.Rows, acts: seq<Action>, req: Request, e: Env, code: Code)
    requires var t := Step(c, SendProtocol.Run(c, SendProtocol.Start(init), acts), Spawn(req));
      var h := |t.handlers| - 1;
      Act(c, t, h, t.handlers[h], e) == Effect(t.rows, t.lock, Done(Fail(code)), None)
    ensures TurnedAway(c, init, acts, req, e, code)
  {
    hide SendProtocol.Run, Turns, Act;
    var s := SendProtocol.Run(c, SendProtocol.Start(init), acts);
    var h := |s.handlers|;
    RunCat(c, SendProtocol.Start(init), acts, [Spawn(req)] + Turns(h, e, 1));
    Spawned(c, s, req, Turns(h, e, 1));
    var t := Step(c, s, Spawn(req));
    t := Turn(c, t, h, e, 1, Effect(s.rows, s.lock, Done(Fail(code)), None));
    NoTurn(c, t, h, e);
  }

  /** From any point of any run, a request that lacks what it needs is told so; then one that
      would send in mode off; then one for a row that is not there, or is resolved already. */
  lemma {:induction false} RefusalsAreImmediate(c: Config, init: Approvals.Rows, acts: seq<Action>, req: Request, e: Env)
    ensures Lacking(req) ==> TurnedAway(c, init, acts, req, e, InvalidParams)
    ensures !Lacking(req) && c.mode == Off && (req.SendText? || req.ApproveReq?) ==> TurnedAway(c, init, acts, req, e, SendsDisabled)
    ensures var s := SendProtocol.Run(c, SendProtocol.Start(init), acts);
      !Lacking(req) && !e.fault && ((req.ApproveReq? && c.mode != Off) || req.DenyReq?) ==>
        && (req.id !in s.rows ==> TurnedAway(c, init, acts, req, e, NoSuchApproval))
        && (req.id in s.rows && s.rows[req.id].status != Approvals.Pending ==> TurnedAway(c, init, acts, req, e, AlreadyDone))
  {
    hide SendProtocol.Run, TurnedAway;
    var s := SendProtocol.Run(c, SendProtocol.Start(init), acts);
    if Lacking(req) {
      Refuses(c, init, acts, req, e, InvalidParams);
    } else if c.mode == Off && (req.SendText? || req.ApproveReq?) {
      Refuses(c, init, acts, req, e, SendsDisabled);
    } else if !e.fault && (req.ApproveReq? || req.DenyReq?) {
      if req.id !in s.rows {
        Refuses(c, init, acts, req, e, NoSuchApproval);
      } else if s.rows[req.id].status != Approvals.Pending {
        Refuses(c, init, acts, req, e, AlreadyDone);
      }
    }
  }
}
