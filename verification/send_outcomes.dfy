/** How requests of the send protocol end: the errors and message ids that rows keep, the
    replies that requests get, and that requests left alone do what they ask for. */
module SendOutcomes {
  import opened Common
  import Approvals
  import opened SendProtocol
  import opened SendAccount
  import opened SendContent

  // ---- what resolved rows keep ----

  /** The phone refused the call of handler h with this text. */
  predicate RefusedWith(log: seq<Event>, h: nat, id: string, error: Option<string>) {
    error.Some? && Has(log, Ended(h, id, Refused(error.value)))
  }

  /** Handler h was asked to deny the row for this reason, an empty one being none. */
  predicate DeniedFor(s: State, h: nat, id: string, error: Option<string>) {
    && h < |s.handlers| && s.handlers[h].req.DenyReq? && s.handlers[h].req.id == id
    && (if s.handlers[h].req.reason == "" then error == None else error == Some(s.handlers[h].req.reason))
  }

  ghost predicate Kept(init: Approvals.Rows, s: State, id: string) {
    && (Winner(s.log, id).Some? && id in s.rows ==>
          var w, r := Winner(s.log, id).value, s.rows[id];
          match w.status
          case Sent => r.error == None && r.messageId.Some?
          case Failed => r.messageId == None && RefusedWith(s.log, w.h, id, r.error)
          case Denied => r.messageId == None && DeniedFor(s, w.h, id, r.error)
          case Pending => false
          case Canceled => false)
    && (id in s.rows && id !in init && Winner(s.log, id).None? ==>
          s.rows[id].status == Approvals.Pending && s.rows[id].error == None && s.rows[id].messageId == None)
  }

  /** What a step that resolves a row writes to it. */
  predicate Writes(s: State, h: nat, x: Effect, w: Event)
    requires h < |s.handlers| && w.Won?
  {
    && w.id in x.rows && w.h == h
    && var r := x.rows[w.id];
       match w.status
       case Sent => r.error == None && r.messageId.Some?
       case Failed =>
         && r.messageId == None && r.error.Some?
         && s.handlers[h].pc.Answered? && s.handlers[h].pc.answer == Refused(r.error.value) && s.handlers[h].pc.a.id == w.id
       case Denied => r.messageId == None && DeniedFor(s, h, w.id, r.error)
       case Pending => false
       case Canceled => false
  }

  lemma ResolvingWrites(c: Config, s: State, h: nat, e: Env)
    requires h < |s.handlers|
    ensures var x := Act(c, s, h, s.handlers[h], e);
      x.event.Some? && x.event.value.Won? ==> Writes(s, h, x, x.event.value)
  {
    hide Approvals.Created;
  }

  /** Every other step leaves the rows that are there as they are. */
  lemma OthersLeaveRows(c: Config, s: State, h: nat, e: Env)
    requires h < |s.handlers|
    ensures var x := Act(c, s, h, s.handlers[h], e);
      && (x.event.None? || !x.event.value.Won? ==> forall id :: id in s.rows ==> id in x.rows && x.rows[id] == s.rows[id])
      && (forall id :: id in x.rows && id !in s.rows ==>
            x.rows[id].status == Approvals.Pending && x.rows[id].error == None && x.rows[id].messageId == None)
  {
  }

  lemma KeptStep(c: Config, init: Approvals.Rows, s: State, h: nat, e: Env, id: string)
    requires h < |s.handlers| && Local(c, init, s, h) && Kept(init, s, id)
    requires id !in s.rows ==> Winner(s.log, id).None?
    ensures Kept(init, Perform(s, h, Act(c, s, h, s.handlers[h], e)), id)
  {
    hide Count, Winner, Has, Act, RowInv, LockSound, Stable;
    var x := Act(c, s, h, s.handlers[h], e);
    StepSound(c, init, s, h, e);
    ResolvingWrites(c, s, h, e);
    OthersLeaveRows(c, s, h, e);
    if x.event.Some? {
      Snoc(s.log, x.event.value);
    }
    OtherRowsStay(s.rows, x.rows, Subject(s.handlers[h]));
  }

  lemma OtherRowsStay(rows: Approvals.Rows, rows': Approvals.Rows, id0: string)
    requires Stable(rows, rows', id0)
    ensures forall id :: id in rows && id != id0 ==> id in rows' && rows'[id] == rows[id]
  {
  }

  lemma SpawnKeeps(c: Config, init: Approvals.Rows, s: State, act: Action, id: string)
    requires Kept(init, s, id) && (act.Go? ==> act.h >= |s.handlers|)
    ensures Kept(init, Step(c, s, act), id)
  {
    hide Act, Winner, Has;
  }

  lemma {:induction false} RunKeepsKept(c: Config, init: Approvals.Rows, s: State, acts: seq<Action>, id: string)
    requires Inv(c, init, s) && Kept(init, s, id)
    ensures Kept(init, SendProtocol.Run(c, s, acts), id)
    decreases |acts|
  {
    hide Act, Kept, HandlerInv, OrderInv, StartInv, LockInv;
    if acts != [] {
      var a := acts[0];
      StepKeepsInv(c, init, s, a);
      if a.Go? && a.h < |s.handlers| {
        InvLocal(c, init, s);
        assert RowInv(init, s, id);
        NoWinnerWithoutRow(init, s, id);
        KeptStep(c, init, s, a.h, a.e, id);
      } else {
        SpawnKeeps(c, init, s, a, id);
      }
      RunKeepsKept(c, init, Step(c, s, a), acts[1..], id);
    }
  }

  lemma NoWinnerWithoutRow(init: Approvals.Rows, s: State, id: string)
    requires RowInv(init, s, id)
    ensures id !in s.rows ==> Winner(s.log, id).None?
  {
    hide Count, Has;
  }

  /** In every run, a row that got resolved keeps why: a sent one has a message id and no
      error, a failed one the phone's own words, a denied one the reason given; and a new
      row that is not resolved has neither. */
  lemma {:induction false} RowsKeepTheirOutcome(c: Config, init: Approvals.Rows, acts: seq<Action>, id: string)
    requires Keyed(init)
    ensures Kept(init, SendProtocol.Run(c, SendProtocol.Start(init), acts), id)
  {
    hide Inv, SendProtocol.Run;
    StartInvariant(c, init);
    RunKeepsKept(c, init, SendProtocol.Start(init), acts, id);
  }

  // ---- what replies say ----

  /** The row is there as told, with that status. */
  predicate Stands(s: State, row: Approvals.Approval, status: Approvals.Status) {
    row.id in s.rows && s.rows[row.id] == row && row.status == status
  }

  predicate RowReplyIsTrue(c: Config, s: State, req: Request, row: Approvals.Approval) {
    match req
    case SendText(_, _, _, _) => c.mode != Off && (c.mode == Direct ==> Stands(s, row, Approvals.Sent))
    case ApproveReq(id) => row.id == id && Stands(s, row, Approvals.Sent)
    case DenyReq(id, _) => row.id == id && Stands(s, row, Approvals.Denied)
    case LiveOp => false
  }

  /** The row with this id is there and resolved. */
  predicate IsResolved(s: State, id: string) {
    id in s.rows && s.rows[id].status != Approvals.Pending
  }

  predicate FailureIsTrue(c: Config, s: State, req: Request, code: Code) {
    match code
    case InvalidParams =>
      if req.SendText? then req.conversationId == "" || req.body == "" else !req.LiveOp? && req.id == ""
    case SendsDisabled => c.mode == Off && (req.SendText? || req.ApproveReq?)
    case NoSuchApproval => (req.ApproveReq? || req.DenyReq?) && req.id != ""
    case AlreadyDone => if req.SendText? then c.mode == Direct else !req.LiveOp? && IsResolved(s, req.id)
    case Unavailable =>
      if req.SendText? then c.mode == Direct
      else req.ApproveReq? && (!c.online || (req.id in s.rows && s.rows[req.id].status == Approvals.Failed))
    case Internal => !req.LiveOp?
  }

  predicate ReplyIsTrue(c: Config, s: State, req: Request, reply: Reply) {
    match reply
    case Row(row) => RowReplyIsTrue(c, s, req, row)
    case Fail(code) => FailureIsTrue(c, s, req, code)
    case Nothing => req.LiveOp?
  }

  predicate Truthful(c: Config, s: State, h: nat)
    requires h < |s.handlers|
  {
    var req, pc := s.handlers[h].req, s.handlers[h].pc;
    && (pc.DenyRecorded? ==> req.DenyReq? && req.id == pc.id)
    && (pc.LiveWant? || pc.LiveHeld? ==> req.LiveOp?)
    && (pc.Done? || pc.Unlocking? || pc.Announcing? ==> ReplyIsTrue(c, s, req, pc.reply))
  }

  ghost predicate AllTruthful(c: Config, s: State) {
    forall h :: 0 <= h < |s.handlers| ==> Truthful(c, s, h)
  }

  lemma MoverIsTruthful(c: Config, init: Approvals.Rows, s: State, h: nat, e: Env)
    requires h < |s.handlers| && Local(c, init, s, h) && Truthful(c, s, h)
    ensures Truthful(c, Perform(s, h, Act(c, s, h, s.handlers[h], e)), h)
  {
    hide Act, Local, Truthful;
    var pc := s.handlers[h].pc;
    if pc.Entry? {
      EntererIsTruthful(c, s, h, e);
    } else if pc.Answered? || pc.Recorded? || pc.DenyRecorded? {
      RecorderIsTruthful(c, init, s, h, e);
    } else {
      OtherPcIsTruthful(c, init, s, h, e);
    }
  }

  lemma EntererIsTruthful(c: Config, s: State, h: nat, e: Env)
    requires h < |s.handlers| && s.handlers[h].pc.Entry?
    ensures Truthful(c, Perform(s, h, Act(c, s, h, s.handlers[h], e)), h)
  {
  }

  lemma RecorderIsTruthful(c: Config, init: Approvals.Rows, s: State, h: nat, e: Env)
    requires h < |s.handlers| && Local(c, init, s, h) && Truthful(c, s, h)
    requires var pc := s.handlers[h].pc; pc.Answered? || pc.Recorded? || pc.DenyRecorded?
    ensures Truthful(c, Perform(s, h, Act(c, s, h, s.handlers[h], e)), h)
  {
    hide Count, Winner, Has, Approvals.Resolved;
  }

  lemma OtherPcIsTruthful(c: Config, init: Approvals.Rows, s: State, h: nat, e: Env)
    requires h < |s.handlers| && Local(c, init, s, h) && Truthful(c, s, h)
    requires var pc := s.handlers[h].pc; !(pc.Entry? || pc.Answered? || pc.Recorded? || pc.DenyRecorded?)
    ensures Truthful(c, Perform(s, h, Act(c, s, h, s.handlers[h], e)), h)
  {
    hide Count, Winner, Has, RowInv, Enter, Record;
  }

  lemma TruthStands(c: Config, s: State, t: State, g: nat, id0: string)
    requires g < |s.handlers| && Truthful(c, s, g) && g < |t.handlers| && t.handlers[g] == s.handlers[g]
    requires Stable(s.rows, t.rows, id0)
    ensures Truthful(c, t, g)
  {
    hide Approvals.SameRequest;
  }

  lemma {:induction false} RunIsTruthful(c: Config, init: Approvals.Rows, s: State, acts: seq<Action>)
    requires Inv(c, init, s) && AllTruthful(c, s)
    ensures AllTruthful(c, SendProtocol.Run(c, s, acts))
    decreases |acts|
  {
    hide Inv, Act, Truthful, Local, Stable, LockSound;
    if acts != [] {
      var a := acts[0];
      var t := Step(c, s, a);
      StepKeepsInv(c, init, s, a);
      forall g | 0 <= g < |t.handlers| ensures Truthful(c, t, g) {
        if a.Go? && a.h < |s.handlers| {
          InvLocal(c, init, s);
          StepSound(c, init, s, a.h, a.e);
          if g == a.h {
            MoverIsTruthful(c, init, s, g, a.e);
          } else {
            TruthStands(c, s, t, g, Subject(s.handlers[a.h]));
          }
        } else if g < |s.handlers| {
          WritesStable(s.rows);
          TruthStands(c, s, t, g, "");
        } else {
          NewcomerIsTruthful(c, t, g);
        }
      }
      RunIsTruthful(c, init, t, acts[1..]);
    }
  }

  lemma NewcomerIsTruthful(c: Config, t: State, g: nat)
    requires g < |t.handlers| && t.handlers[g].pc.Entry?
    ensures Truthful(c, t, g)
  {
  }

  /** In every run a reply is true, and stays so: a row that comes back from approve or
      from a direct send is the one asked for, as it stands, sent; one that comes back from
      deny is denied; and each refusal has its reason. */
  lemma {:induction false} RepliesAreTrue(c: Config, init: Approvals.Rows, acts: seq<Action>, h: nat)
    requires Keyed(init)
    ensures var t := SendProtocol.Run(c, SendProtocol.Start(init), acts);
      |t.handlers| == |Incoming(acts)| &&
      (h < |t.handlers| && t.handlers[h].pc.Done? ==> ReplyIsTrue(c, t, Incoming(acts)[h], t.handlers[h].pc.reply))
  {
    hide Inv, SendProtocol.Run, ReplyIsTrue;
    StartInvariant(c, init);
    HandlersAreIncoming(c, SendProtocol.Start(init), acts);
    RunIsTruthful(c, init, SendProtocol.Start(init), acts);
    var t := SendProtocol.Run(c, SendProtocol.Start(init), acts);
    assert h < |t.handlers| ==> Truthful(c, t, h);
  }
}
