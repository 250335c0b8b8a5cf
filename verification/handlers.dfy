/** The request handlers of internal/rpc/handlers.go as they are written, one call
    from top to bottom, tied to the steps that SendProtocol interleaves. */
module Handlers {
  import opened Common
  import opened Approvals
  import opened SendProtocol
  import SendContent

  /** The handler h takes the steps that the choices es allow, and no one else moves. */
  function Alone(c: Config, s: State, h: nat, es: seq<Env>): State
    decreases |es|
  {
    if es == [] then s else Alone(c, Step(c, s, Go(h, es[0])), h, es[1..])
  }

  function Steps(h: nat, es: seq<Env>): seq<Action> {
    if es == [] then [] else [Go(h, es[0])] + Steps(h, es[1..])
  }

  /** Such a stretch is a run of the protocol like any other. */
  lemma {:induction false} AloneIsARun(c: Config, s: State, h: nat, es: seq<Env>)
    ensures Alone(c, s, h, es) == SendProtocol.Run(c, s, Steps(h, es))
    decreases |es|
  {
    hide Step;
    if es != [] {
      AloneIsARun(c, Step(c, s, Go(h, es[0])), h, es[1..]);
    }
  }

  lemma {:induction false} DoneStays(c: Config, s: State, h: nat, es: seq<Env>)
    requires h < |s.handlers| && s.handlers[h].pc.Done?
    ensures Alone(c, s, h, es) == s
    decreases |es|
  {
    if es != [] {
      assert s.handlers[h := s.handlers[h]] == s.handlers;
      assert Step(c, s, Go(h, es[0])) == s;
      DoneStays(c, s, h, es[1..]);
    }
  }

  /** One step: where the handler is then, and what it has done. */
  function After(c: Config, s: State, h: nat, e: Env): State
    requires h < |s.handlers|
  {
    Perform(s, h, Act(c, s, h, s.handlers[h], e))
  }

  /** The handler is at pc, and the shared state is as given. */
  ghost predicate At(s: State, h: nat, pc: Pc, rows: Rows, lock: Option<nat>, log: seq<Event>) {
    h < |s.handlers| && s.handlers[h].pc == pc && s.rows == rows && s.lock == lock && s.log == log
  }

  /** From s the rest of the steps es ends in u. */
  ghost predicate Left(c: Config, s: State, h: nat, es: seq<Env>, u: State) {
    u == Alone(c, s, h, es)
  }

  /** The next step, whatever it is. */
  lemma Advance(c: Config, s: State, h: nat, es: seq<Env>, u: State) returns (t: State)
    requires h < |s.handlers| && es != [] && Left(c, s, h, es, u)
    ensures Left(c, t, h, es[1..], u) && t == After(c, s, h, es[0])
    ensures var x := Act(c, s, h, s.handlers[h], es[0]);
      At(t, h, x.pc, x.rows, x.lock, if x.event.Some? then s.log + [x.event.value] else s.log)
      && t.handlers[h].req == s.handlers[h].req && |t.handlers| == |s.handlers|
  {
    hide Act;
    t := After(c, s, h, es[0]);
  }

  lemma Finish(c: Config, s: State, h: nat, es: seq<Env>, u: State)
    requires h < |s.handlers| && s.handlers[h].pc.Done? && Left(c, s, h, es, u)
    ensures u == s
  {
    DoneStays(c, s, h, es);
  }

  // ---- a send.text alone ----

  /** What the handler carries is what its request asks for. */
  predicate CarriesItsOwn(s: State, h: nat)
    requires h < |s.handlers|
  {
    var req, pc := s.handlers[h].req, s.handlers[h].pc;
    && req.SendText? && !pc.DenyRecorded?
    && (pc.Inserted? ==> pc.id in s.rows && s.rows[pc.id].id == pc.id && SendContent.Asks(req, s.rows[pc.id]))
    && (pc.Asking? ==> SendContent.Asks(req, pc.row))
    && (Carries(pc) ==> SendContent.Asks(req, pc.a) && (pc.a.id in s.rows ==> SendContent.Asks(req, s.rows[pc.a.id])))
    && ((pc.Announcing? || pc.Unlocking? || pc.Done?) && pc.reply.Row? ==> SendContent.Asks(req, pc.reply.row))
  }

  /** The new rows, and the new calls to the phone, are what the request of handler h asks
      for. */
  ghost predicate AddsItsOwn(req: Request, h: nat, before: Rows, said: seq<Event>, after: Rows, log: seq<Event>) {
    && (forall id :: id in after && id !in before ==> SendContent.Asks(req, after[id]))
    && (forall e :: e in log && e.Started? ==> e in said || (e.h == h && SendContent.Conveys(req, e)))
  }

  lemma EntersItsOwn(c: Config, s: State, h: nat, e: Env)
    requires h < |s.handlers| && s.handlers[h].pc.Entry? && s.handlers[h].req.SendText?
    ensures var t := After(c, s, h, e);
      CarriesItsOwn(t, h) && AddsItsOwn(s.handlers[h].req, h, s.rows, s.log, t.rows, t.log) && !t.handlers[h].pc.Entry?
  {
  }

  lemma AskedIsConveyed(req: Request, h: nat, a: Approval)
    requires SendContent.Asks(req, a)
    ensures SendContent.Conveys(req, StartOf(h, a)) && StartOf(h, a).h == h
  {
  }

  lemma RecordKeepsItsOwn(c: Config, s: State, h: nat, a: Approval, w: Answer, e: Env)
    requires h < |s.handlers| && s.handlers[h].pc == Answered(a, w) && CarriesItsOwn(s, h)
    ensures var x := Record(s, h, a, w, e);
      && (x.pc == Recorded(a, w) || x.pc == Unlocking(Fail(Internal)))
      && (forall id :: id in x.rows ==>
            id in s.rows && (SendContent.Asks(s.handlers[h].req, s.rows[id]) ==> SendContent.Asks(s.handlers[h].req, x.rows[id])))
      && (x.event.Some? ==> !x.event.value.Started?)
  {
  }

  lemma KeepsItsOwn(c: Config, before: Rows, said: seq<Event>, s: State, h: nat, e: Env)
    requires h < |s.handlers| && !s.handlers[h].pc.Entry? && CarriesItsOwn(s, h)
    requires AddsItsOwn(s.handlers[h].req, h, before, said, s.rows, s.log)
    ensures var t := After(c, s, h, e);
      CarriesItsOwn(t, h) && AddsItsOwn(s.handlers[h].req, h, before, said, t.rows, t.log) && !t.handlers[h].pc.Entry?
  {
    hide Enter, StartOf, Record, Created, Resolved, SendContent.Asks, SendContent.Conveys;
    var req, pc := s.handlers[h].req, s.handlers[h].pc;
    if pc.Rechecked? {
      AskedIsConveyed(req, h, pc.a);
    } else if pc.Answered? {
      RecordKeepsItsOwn(c, s, h, pc.a, pc.answer, e);
    }
  }

  lemma {:induction false} SendsItsOwn(c: Config, before: Rows, said: seq<Event>, s: State, h: nat, es: seq<Env>, u: State)
    requires h < |s.handlers| && s.handlers[h].req.SendText? && Left(c, s, h, es, u) && CarriesItsOwn(s, h)
    requires if s.handlers[h].pc.Entry? then before == s.rows && said == s.log
             else AddsItsOwn(s.handlers[h].req, h, before, said, s.rows, s.log)
    ensures h < |u.handlers| && AddsItsOwn(s.handlers[h].req, h, before, said, u.rows, u.log)
    ensures u.handlers[h].pc.Done? && u.handlers[h].pc.reply.Row? ==> SendContent.Asks(s.handlers[h].req, u.handlers[h].pc.reply.row)
    decreases |es|
  {
    hide Act;
    if es != [] {
      hide CarriesItsOwn, AddsItsOwn;
      if s.handlers[h].pc.Entry? {
        EntersItsOwn(c, s, h, es[0]);
      } else {
        KeepsItsOwn(c, before, said, s, h, es[0]);
      }
      SendsItsOwn(c, before, said, After(c, s, h, es[0]), h, es[1..], u);
    }
  }

  lemma TextSendsItsOwn(c: Config, s: State, h: nat, es: seq<Env>, u: State)
    requires h < |s.handlers| && s.handlers[h].req.SendText? && s.handlers[h].pc.Entry? && Left(c, s, h, es, u)
    ensures h < |u.handlers| && AddsItsOwn(s.handlers[h].req, h, s.rows, s.log, u.rows, u.log)
    ensures u.handlers[h].pc.Done? && u.handlers[h].pc.reply.Row? ==> SendContent.Asks(s.handlers[h].req, u.handlers[h].pc.reply.row)
  {
    SendsItsOwn(c, s.rows, s.log, s, h, es, u);
  }

  class Server {
    const config: Config
    const store: Store
    var liveMu: Option<nat>
    var log: seq<Event>

    constructor (config: Config, store: Store)
      ensures this.config == config && this.store == store && liveMu == None && log == []
    {
      this.config, this.store, liveMu, log := config, store, None, [];
    }

    /** The shared state is that of s, where handler h is at pc. */
    ghost predicate Shows(s: State, h: nat, pc: Pc)
      reads this, store
    {
      At(s, h, pc, store.rows, liveMu, log)
    }

    method Emit(e: Event)
      modifies this`log
      ensures log == old(log) + [e]
    {
      log := log + [e];
    }

    method Unlock(h: nat, reply: Reply, ghost es: seq<Env>, ghost s: State, ghost u: State)
      requires es != [] && Shows(s, h, Unlocking(reply)) && Left(config, s, h, es, u)
      modifies this`liveMu
      ensures Shows(u, h, Done(reply))
    {
      ghost var t := Advance(config, s, h, es, u);
      Finish(config, t, h, es[1..], u);
      liveMu := None;
    }

    /** With the lock free and nobody else moving, the method ends where the protocol's
        steps of this handler end, with the same rows, calls and broadcasts and the
        same reply. */
    method PerformApprovedSend(h: nat, a: Approval, es: seq<Env>, ghost s: State, ghost u: State) returns (reply: Reply)
      requires |es| == 8 && liveMu.None? && Shows(s, h, WantLock(a)) && Left(config, s, h, es, u)
      modifies this, store
      ensures Shows(u, h, Done(reply))
    {
      hide Left, Created, Resolved;
      ghost var t := Advance(config, s, h, es, u);
      liveMu := Some(h);
      var current := store.GetApproval(a.id);
      t := Advance(config, t, h, es[1..], u);
      if es[1].fault || current.None? {
        Unlock(h, Fail(Internal), es[2..], t, u);
        return Fail(Internal);
      }
      if current.value.status != Pending {
        Unlock(h, Fail(AlreadyDone), es[2..], t, u);
        return Fail(AlreadyDone);
      }
      if !config.online {
        Unlock(h, Fail(Unavailable), es[2..], t, u);
        return Fail(Unavailable);
      }
      Emit(CheckedPending(h, a.id));
      t := Advance(config, t, h, es[2..], u);
      Emit(StartOf(h, a));
      t := Advance(config, t, h, es[3..], u);
      Emit(Ended(h, a.id, es[3].answer));
      reply := RecordOutcome(h, a, es[3].answer, es[4..], t, u);
    }

    method RecordOutcome(h: nat, a: Approval, answer: Answer, es: seq<Env>, ghost s: State, ghost u: State)
      returns (reply: Reply)
      requires |es| == 4 && Shows(s, h, Answered(a, answer)) && Left(config, s, h, es, u)
      modifies this, store
      ensures Shows(u, h, Done(reply))
    {
      hide Left, Created, Resolved;
      ghost var t := Advance(config, s, h, es, u);
      var status, error, messageId := Sent, None, None;
      if answer.Refused? {
        status, error := Failed, Some(answer.error);
      } else {
        messageId := Some(answer.messageId);
      }
      if es[0].fault {
        Emit(WriteFailed(h, a.id));
        Unlock(h, Fail(Internal), es[1..], t, u);
        return Fail(Internal);
      }
      var r := store.ResolveApproval(a.id, status, error, messageId, es[0].now);
      if r != Ok {
        ResolvedKeeps(old(store.rows), a.id, status, error, messageId, es[0].now);
        Emit(Lost(h, a.id));
        Unlock(h, Fail(Internal), es[1..], t, u);
        return Fail(Internal);
      }
      Emit(Won(h, a.id, status, messageId));
      reply := AnnounceOutcome(h, a, answer, es[1..], t, u);
    }

    method AnnounceOutcome(h: nat, a: Approval, answer: Answer, es: seq<Env>, ghost s: State, ghost u: State)
      returns (reply: Reply)
      requires |es| == 3 && Shows(s, h, Recorded(a, answer)) && Left(config, s, h, es, u)
      modifies this
      ensures Shows(u, h, Done(reply))
    {
      hide Left;
      ghost var t := Advance(config, s, h, es, u);
      var resolved := store.GetApproval(a.id);
      if es[0].fault || resolved.None? {
        Unlock(h, Fail(Internal), es[1..], t, u);
        return Fail(Internal);
      }
      Emit(Announced(h, resolved.value.id, resolved.value.status));
      reply := if answer.Refused? then Fail(Unavailable) else Row(resolved.value);
      t := Advance(config, t, h, es[1..], u);
      Unlock(h, reply, es[2..], t, u);
    }

    method HandleSendText(
      h: nat, conversationId: string, body: string, replyToId: string, requestedBy: string, es: seq<Env>,
      ghost s: State, ghost u: State) returns (reply: Reply)
      requires |es| == 10 && liveMu.None? && Shows(s, h, Entry) && Left(config, s, h, es, u)
      requires s.handlers[h].req == SendText(conversationId, body, replyToId, requestedBy)
      modifies this, store
      ensures Shows(u, h, Done(reply))
      ensures AddsItsOwn(s.handlers[h].req, h, old(store.rows), old(log), store.rows, log)
      ensures reply.Row? ==> SendContent.Asks(s.handlers[h].req, reply.row)
    {
      hide Left, Created, Resolved, Recheck, Record, StartOf, AddsItsOwn, SendContent.Asks;
      TextSendsItsOwn(config, s, h, es, u);
      ghost var t := Advance(config, s, h, es, u);
      if conversationId == "" || body == "" {
        Finish(config, t, h, es[1..], u);
        return Fail(InvalidParams);
      }
      if config.mode == Off {
        Finish(config, t, h, es[1..], u);
        return Fail(SendsDisabled);
      }
      var asker := if requestedBy == "" then "rpc" else requestedBy;
      var a := Approval(es[0].uuid, conversationId, body, OrNone(replyToId), asker, Pending, None, None, 0, 0);
      if es[0].fault {
        Finish(config, t, h, es[1..], u);
        return Fail(Internal);
      }
      var r := store.CreateApproval(a, es[0].now);
      if r != Ok {
        Finish(config, t, h, es[1..], u);
        return Fail(Internal);
      }
      t := Advance(config, t, h, es[1..], u);
      var created := store.GetApproval(a.id);
      if es[1].fault || created.None? {
        Finish(config, t, h, es[2..], u);
        return Fail(Internal);
      }
      reply := QueueOrSend(h, created.value, es[2..], t, u);
    }

    /** What happens to the row that was made: it is announced, or sent at once. */
    method QueueOrSend(h: nat, a: Approval, es: seq<Env>, ghost s: State, ghost u: State) returns (reply: Reply)
      requires |es| == 8 && liveMu.None? && Left(config, s, h, es, u)
      requires Shows(s, h, if config.mode == Approve then Asking(a) else WantLock(a))
      modifies this, store
      ensures Shows(u, h, Done(reply))
    {
      hide Left, Created, Resolved;
      if config.mode == Approve {
        ghost var t := Advance(config, s, h, es, u);
        Emit(Requested(h, a.id));
        Finish(config, t, h, es[1..], u);
        return Row(a);
      }
      reply := PerformApprovedSend(h, a, es, s, u);
    }

    method HandleApprovalsApprove(h: nat, id: string, es: seq<Env>, ghost s: State, ghost u: State) returns (reply: Reply)
      requires |es| == 9 && liveMu.None? && Shows(s, h, Entry) && Left(config, s, h, es, u)
      requires s.handlers[h].req == ApproveReq(id)
      modifies this, store
      ensures Shows(u, h, Done(reply))
    {
      hide Left, Created, Resolved;
      ghost var t := Advance(config, s, h, es, u);
      if id == "" {
        Finish(config, t, h, es[1..], u);
        return Fail(InvalidParams);
      }
      if config.mode == Off {
        Finish(config, t, h, es[1..], u);
        return Fail(SendsDisabled);
      }
      var approval := store.GetApproval(id);
      if es[0].fault {
        Finish(config, t, h, es[1..], u);
        return Fail(Internal);
      }
      if approval.None? {
        Finish(config, t, h, es[1..], u);
        return Fail(NoSuchApproval);
      }
      if approval.value.status != Pending {
        Finish(config, t, h, es[1..], u);
        return Fail(AlreadyDone);
      }
      reply := PerformApprovedSend(h, approval.value, es[1..], t, u);
    }

    /** Takes no lock. */
    method HandleApprovalsDeny(h: nat, id: string, reason: string, es: seq<Env>, ghost s: State, ghost u: State)
      returns (reply: Reply)
      requires |es| == 3 && Shows(s, h, Entry) && Left(config, s, h, es, u)
      requires s.handlers[h].req == DenyReq(id, reason)
      modifies this, store
      ensures liveMu == old(liveMu) && Shows(u, h, Done(reply))
    {
      hide Left, Created, Resolved;
      ghost var t := Advance(config, s, h, es, u);
      if id == "" {
        Finish(config, t, h, es[1..], u);
        return Fail(InvalidParams);
      }
      if es[0].fault {
        Finish(config, t, h, es[1..], u);
        return Fail(Internal);
      }
      var r := store.ResolveApproval(id, Denied, OrNone(reason), None, es[0].now);
      if r != Ok {
        ResolvedKeeps(old(store.rows), id, Denied, OrNone(reason), None, es[0].now);
        Finish(config, t, h, es[1..], u);
        return Fail(if r == NotFound then NoSuchApproval else AlreadyDone);
      }
      Emit(Won(h, id, Denied, None));
      t := Advance(config, t, h, es[1..], u);
      var resolved := store.GetApproval(id);
      if es[1].fault || resolved.None? {
        Finish(config, t, h, es[2..], u);
        return Fail(Internal);
      }
      t := Advance(config, t, h, es[2..], u);
      Emit(Announced(h, resolved.value.id, resolved.value.status));
      Finish(config, t, h, es[3..], u);
      reply := Row(resolved.value);
    }
  }

  lemma ResolvedKeeps(rows: Rows, id: string, status: Status, error: Option<string>, messageId: Option<string>, now: int)
    ensures Resolved(rows, id, status, error, messageId, now).1 != Ok ==>
      Resolved(rows, id, status, error, messageId, now).0 == rows
  {
  }
}
