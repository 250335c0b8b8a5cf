/** What the rows and the phone calls of the send protocol say, against the requests
    that came in: nothing is sent, stored or answered but what somebody asked for. */
module SendContent {
  import opened Common
  import Approvals
  import opened SendProtocol

  /** The row holds what the request asks for; an empty reply id is none, and an unnamed
      asker is the rpc interface. */
  predicate Asks(req: Request, r: Approvals.Approval) {
    && req.SendText?
    && r.conversationId == req.conversationId && r.body == req.body
    && (if req.replyToId == "" then r.replyToId == None else r.replyToId == Some(req.replyToId))
    && r.requestedBy == (if req.requestedBy == "" then "rpc" else req.requestedBy)
  }

  /** The requests of a run, in the order they came in. */
  function Incoming(acts: seq<Action>): seq<Request> {
    if acts == [] then [] else (if acts[0].Spawn? then [acts[0].req] else []) + Incoming(acts[1..])
  }

  lemma {:induction false} HandlersAreIncoming(c: Config, s: State, acts: seq<Action>)
    ensures var t, n := SendProtocol.Run(c, s, acts), |s.handlers|;
      && |t.handlers| == n + |Incoming(acts)|
      && (forall h :: 0 <= h < n ==> t.handlers[h].req == s.handlers[h].req)
      && (forall h :: n <= h < |t.handlers| ==> t.handlers[h].req == Incoming(acts)[h - n])
    decreases |acts|
  {
    hide Act;
    if acts != [] {
      HandlersAreIncoming(c, Step(c, s, acts[0]), acts[1..]);
    }
  }

  // ---- what everybody keeps ----

  /** What a handler of send.text carries, and what it answers, is its own request. */
  ghost predicate Own(s: State, h: nat)
    requires h < |s.handlers|
  {
    var req, pc := s.handlers[h].req, s.handlers[h].pc;
    req.SendText? ==>
      && !pc.DenyRecorded?
      && (Carries(pc) ==> Asks(req, pc.a))
      && (pc.Inserted? ==> pc.id in s.rows && Asks(req, s.rows[pc.id]))
      && (pc.Asking? ==> Asks(req, pc.row))
      && ((pc.Announcing? || pc.Unlocking? || pc.Done?) && pc.reply.Row? ==> Asks(req, pc.reply.row))
  }

  predicate MadeBy(s: State, g: nat, id: string) {
    g < |s.handlers| && id in s.rows && Asks(s.handlers[g].req, s.rows[id])
  }

  /** A call made by a handler of send.text is for a row that holds its request. */
  predicate OwnCall(s: State, e: Event) {
    e.Started? && e.h < |s.handlers| && s.handlers[e.h].req.SendText? ==> MadeBy(s, e.h, e.id)
  }

  ghost predicate Content(init: Approvals.Rows, s: State) {
    && (forall h :: 0 <= h < |s.handlers| ==> Own(s, h))
    && (forall id :: id in s.rows && id !in init ==> exists g: nat :: MadeBy(s, g, id))
    && (forall e :: Has(s.log, e) ==> OwnCall(s, e))
  }

  lemma AskedStays(req: Request, a: Approvals.Approval, b: Approvals.Approval)
    requires Asks(req, a) && Approvals.SameRequest(a, b)
    ensures Asks(req, b)
  {
  }

  /** What the moving handler does with its request. */
  lemma MoverOwns(c: Config, init: Approvals.Rows, s: State, h: nat, e: Env)
    requires h < |s.handlers| && Local(c, init, s, h) && Own(s, h)
    ensures var x := Act(c, s, h, s.handlers[h], e);
      && Own(Perform(s, h, x), h)
      && (forall id :: id in x.rows && id !in s.rows ==> Asks(s.handlers[h].req, x.rows[id]))
      && (x.event.Some? && x.event.value.Started? && s.handlers[h].req.SendText? ==>
            x.event.value.id in x.rows && Asks(s.handlers[h].req, x.rows[x.event.value.id]))
  {
    hide Own, Act, Asks, Local;
    if s.handlers[h].pc.Entry? {
      EntererOwns(c, s, h, e);
    } else {
      LaterOwns(c, init, s, h, e);
    }
  }

  lemma EntererOwns(c: Config, s: State, h: nat, e: Env)
    requires h < |s.handlers| && s.handlers[h].pc.Entry?
    ensures var x := Act(c, s, h, s.handlers[h], e);
      && Own(Perform(s, h, x), h)
      && (forall id :: id in x.rows && id !in s.rows ==> Asks(s.handlers[h].req, x.rows[id]))
      && (x.event.Some? && x.event.value.Started? && s.handlers[h].req.SendText? ==>
            x.event.value.id in x.rows && Asks(s.handlers[h].req, x.rows[x.event.value.id]))
  {
  }

  lemma LaterOwns(c: Config, init: Approvals.Rows, s: State, h: nat, e: Env)
    requires h < |s.handlers| && Local(c, init, s, h) && Own(s, h) && !s.handlers[h].pc.Entry?
    ensures var x := Act(c, s, h, s.handlers[h], e);
      && Own(Perform(s, h, x), h)
      && (forall id :: id in x.rows && id !in s.rows ==> Asks(s.handlers[h].req, x.rows[id]))
      && (x.event.Some? && x.event.value.Started? && s.handlers[h].req.SendText? ==>
            x.event.value.id in x.rows && Asks(s.handlers[h].req, x.rows[x.event.value.id]))
  {
    hide Count, Winner, Has, RowInv, Enter, Asks;
    var req, pc := s.handlers[h].req, s.handlers[h].pc;
    if Carries(pc) && req.SendText? {
      AskedStays(req, pc.a, s.rows[pc.a.id]);
    }
  }

  lemma OtherOwns(s: State, h: nat, x: Effect, g: nat)
    requires h < |s.handlers| && g < |s.handlers| && g != h && Own(s, g)
    requires Stable(s.rows, x.rows, Subject(s.handlers[h]))
    ensures Own(Perform(s, h, x), g)
  {
    hide Asks;
    var pc := s.handlers[g].pc;
    if pc.Inserted? && s.handlers[g].req.SendText? {
      AskedStays(s.handlers[g].req, s.rows[pc.id], x.rows[pc.id]);
    }
  }

  lemma MadeStays(s: State, h: nat, x: Effect, g: nat, id: string)
    requires h < |s.handlers| && MadeBy(s, g, id) && Stable(s.rows, x.rows, Subject(s.handlers[h]))
    ensures MadeBy(Perform(s, h, x), g, id)
  {
    AskedStays(s.handlers[g].req, s.rows[id], x.rows[id]);
  }

  lemma GoKeepsContent(c: Config, init: Approvals.Rows, s: State, h: nat, e: Env)
    requires Inv(c, init, s) && Content(init, s) && h < |s.handlers|
    ensures Content(init, Perform(s, h, Act(c, s, h, s.handlers[h], e)))
  {
    hide Act, Inv, Local, Own, Asks, Has, Stable, LockSound, OwnCall, MadeBy;
    InvLocal(c, init, s);
    StepSound(c, init, s, h, e);
    MoverOwns(c, init, s, h, e);
    var x := Act(c, s, h, s.handlers[h], e);
    var t := Perform(s, h, x);
    forall g | 0 <= g < |t.handlers| ensures Own(t, g) {
      if g != h {
        OtherOwns(s, h, x, g);
      }
    }
    forall id | id in t.rows && id !in init ensures exists g: nat :: MadeBy(t, g, id) {
      if id in s.rows {
        var g: nat :| MadeBy(s, g, id);
        MadeStays(s, h, x, g, id);
      } else {
        NewlyMade(s, h, x, id);
      }
    }
    forall y | Has(t.log, y) ensures OwnCall(t, y) {
      CallStays(s, h, x, y);
    }
  }

  lemma NewlyMade(s: State, h: nat, x: Effect, id: string)
    requires h < |s.handlers| && id in x.rows && Asks(s.handlers[h].req, x.rows[id])
    ensures MadeBy(Perform(s, h, x), h, id)
  {
  }

  lemma CallStays(s: State, h: nat, x: Effect, y: Event)
    requires h < |s.handlers| && Stable(s.rows, x.rows, Subject(s.handlers[h]))
    requires forall e :: Has(s.log, e) ==> OwnCall(s, e)
    requires x.event.Some? ==> x.event.value.h == h
    requires x.event.Some? && x.event.value.Started? && s.handlers[h].req.SendText? ==>
      x.event.value.id in x.rows && Asks(s.handlers[h].req, x.rows[x.event.value.id])
    requires Has(Perform(s, h, x).log, y)
    ensures OwnCall(Perform(s, h, x), y)
  {
    hide Asks, Stable;
    if Has(s.log, y) {
      assert OwnCall(s, y);
      if y.Started? && y.h < |s.handlers| && s.handlers[y.h].req.SendText? {
        MadeStays(s, h, x, y.h, y.id);
      }
    }
  }

  lemma SpawnKeepsContent(c: Config, init: Approvals.Rows, s: State, act: Action)
    requires Inv(c, init, s) && Content(init, s) && (act.Go? ==> act.h >= |s.handlers|)
    ensures Content(init, Step(c, s, act))
  {
    hide Act, Asks, HandlerInv, RowInv, OrderInv;
    var t := Step(c, s, act);
    forall h | 0 <= h < |t.handlers| ensures Own(t, h) {
      assert h < |s.handlers| ==> Own(s, h);
    }
    forall id | id in t.rows && id !in init ensures exists g: nat :: MadeBy(t, g, id) {
      var g: nat :| MadeBy(s, g, id);
      assert MadeBy(t, g, id);
    }
    forall e | Has(t.log, e) ensures OwnCall(t, e) {
      assert OwnCall(s, e) && StartInv(c, init, s, e);
    }
  }

  lemma {:induction false} RunKeepsContent(c: Config, init: Approvals.Rows, s: State, acts: seq<Action>)
    requires Inv(c, init, s) && Content(init, s)
    ensures Content(init, SendProtocol.Run(c, s, acts))
    decreases |acts|
  {
    hide Inv, Content, Act;
    if acts != [] {
      var a := acts[0];
      StepKeepsInv(c, init, s, a);
      if a.Go? && a.h < |s.handlers| {
        GoKeepsContent(c, init, s, a.h, a.e);
      } else {
        SpawnKeepsContent(c, init, s, a);
      }
      RunKeepsContent(c, init, Step(c, s, a), acts[1..]);
    }
  }

  lemma {:induction false} ContentKept(c: Config, init: Approvals.Rows, acts: seq<Action>)
    requires Keyed(init)
    ensures var t := SendProtocol.Run(c, SendProtocol.Start(init), acts);
      && Inv(c, init, t) && Content(init, t) && |t.handlers| == |Incoming(acts)|
      && forall h :: 0 <= h < |t.handlers| ==> t.handlers[h].req == Incoming(acts)[h]
  {
    hide Inv, SendProtocol.Run;
    Reachable(c, init, acts);
    StartInvariant(c, init);
    RunKeepsContent(c, init, SendProtocol.Start(init), acts);
    HandlersAreIncoming(c, SendProtocol.Start(init), acts);
  }

  // ---- what was asked for is what is stored, sent and answered ----

  predicate Conveys(req: Request, e: Event) {
    req.SendText? && e.Started? && e.conversationId == req.conversationId && e.body == req.body && e.replyTo == req.replyToId
  }

  /** The row holds what the request asks for, and so does every phone call for it. */
  ghost predicate IsBehind(req: Request, s: State, id: string) {
    && id in s.rows && Asks(req, s.rows[id])
    && forall j :: 0 <= j < |s.log| && s.log[j].Started? && s.log[j].id == id ==> Conveys(req, s.log[j])
  }

  lemma AskerIsBehind(c: Config, init: Approvals.Rows, s: State, g: nat, id: string)
    requires Inv(c, init, s) && MadeBy(s, g, id)
    ensures IsBehind(s.handlers[g].req, s, id)
  {
    hide HandlerInv, RowInv, OrderInv, LockInv;
    forall j | 0 <= j < |s.log| && s.log[j].Started? && s.log[j].id == id ensures Conveys(s.handlers[g].req, s.log[j]) {
      assert Has(s.log, s.log[j]) && StartInv(c, init, s, s.log[j]);
    }
  }

  /** In every run, a row that was not there before has one request behind it, which asked
      for what the row holds and for what is sent for it, however often. */
  lemma {:induction false} RowsHoldTheirRequest(c: Config, init: Approvals.Rows, acts: seq<Action>, id: string)
    requires Keyed(init)
    ensures var t := SendProtocol.Run(c, SendProtocol.Start(init), acts);
      id in t.rows && id !in init ==> exists g :: 0 <= g < |Incoming(acts)| && IsBehind(Incoming(acts)[g], t, id)
  {
    hide Inv, SendProtocol.Run, Asks, IsBehind;
    ContentKept(c, init, acts);
    var t := SendProtocol.Run(c, SendProtocol.Start(init), acts);
    if id in t.rows && id !in init {
      var g: nat :| MadeBy(t, g, id);
      AskerIsBehind(c, init, t, g, id);
      assert IsBehind(Incoming(acts)[g], t, id);
    }
  }

  /** In every run, a call that a handler of send.text makes is for what its own request
      asks for. */
  lemma {:induction false} CallsCarryTheirRequest(c: Config, init: Approvals.Rows, acts: seq<Action>, j: nat)
    requires Keyed(init)
    ensures var log := SendProtocol.Run(c, SendProtocol.Start(init), acts).log;
      j < |log| && log[j].Started? ==>
        && log[j].h < |Incoming(acts)|
        && (Incoming(acts)[log[j].h].SendText? ==> Conveys(Incoming(acts)[log[j].h], log[j]))
  {
    hide SendProtocol.Run, HandlerInv, RowInv, OrderInv, LockInv;
    ContentKept(c, init, acts);
    var t := SendProtocol.Run(c, SendProtocol.Start(init), acts);
    if j < |t.log| && t.log[j].Started? {
      var e := t.log[j];
      assert Has(t.log, e) && StartInv(c, init, t, e) && OwnCall(t, e);
    }
  }

  /** A row that a handler of send.text answers with is its own request's. */
  lemma {:induction false} RepliesHoldTheirRequest(c: Config, init: Approvals.Rows, acts: seq<Action>, h: nat)
    requires Keyed(init)
    ensures var t := SendProtocol.Run(c, SendProtocol.Start(init), acts);
      |t.handlers| == |Incoming(acts)| &&
      (h < |t.handlers| && Incoming(acts)[h].SendText? && t.handlers[h].pc.Done? && t.handlers[h].pc.reply.Row? ==>
         Asks(Incoming(acts)[h], t.handlers[h].pc.reply.row))
  {
    hide Inv, SendProtocol.Run, Asks;
    ContentKept(c, init, acts);
    var t := SendProtocol.Run(c, SendProtocol.Start(init), acts);
    assert h < |t.handlers| ==> Own(t, h);
  }
}
