/** The two broadcasts of a row of the send protocol, approval.requested and
    approval.resolved: how often the first comes, and in which order they come. */
module Broadcasts {
  import opened Common
  import Approvals
  import opened SendProtocol
  import opened SendAccount

  // ---- the request is broadcast once ----

  /** The handler has inserted the row and not yet announced the request. */
  predicate Making(s: State, h: nat, id: string) {
    && h < |s.handlers|
    && var pc := s.handlers[h].pc; (pc.Inserted? && pc.id == id) || (pc.Asking? && pc.row.id == id)
  }

  ghost predicate RequestInv(init: Approvals.Rows, s: State, id: string) {
    && (forall g: nat, h: nat :: Making(s, g, id) && Making(s, h, id) ==> g == h)
    && (forall h: nat :: Making(s, h, id) ==> id in s.rows && id !in init && Count(Requests, s.log, id) == 0)
    && Count(Requests, s.log, id) <= 1
    && (Count(Requests, s.log, id) > 0 ==> id in s.rows && id !in init)
  }

  lemma RequestStep(c: Config, init: Approvals.Rows, s: State, h: nat, e: Env, id: string)
    requires h < |s.handlers| && Local(c, init, s, h) && RequestInv(init, s, id)
    ensures RequestInv(init, Perform(s, h, Act(c, s, h, s.handlers[h], e)), id)
  {
    hide Count, Winner, Has, RowInv, Act, LockSound, HandlerInv;
    var x := Act(c, s, h, s.handlers[h], e);
    StepSound(c, init, s, h, e);
    MoverAsks(c, s, h, e);
    if s.handlers[h].pc.Inserted? && s.handlers[h].pc.id in s.rows {
      RowHasItsId(init, s, s.handlers[h].pc.id);
    }
    if x.event.Some? {
      Snoc(s.log, x.event.value);
    }
    var t := Perform(s, h, x);
    forall g: nat | g != h ensures Making(t, g, id) == Making(s, g, id) {
    }
    assert Making(t, h, id) && !Making(s, h, id) ==> x.pc.Inserted?;
    assert Making(t, h, id) && !Making(s, h, id) ==> id !in s.rows;
    assert id in s.rows ==> id in t.rows;
    assert Count(Requests, t.log, id) != Count(Requests, s.log, id) ==> Making(s, h, id) && !Making(t, h, id);
  }

  /** What the moving handler does about a request's broadcast. */
  lemma MoverAsks(c: Config, s: State, h: nat, e: Env)
    requires h < |s.handlers|
    ensures var x, pc := Act(c, s, h, s.handlers[h], e), s.handlers[h].pc;
      && (x.pc.Inserted? ==> x.pc.id in x.rows && x.pc.id !in s.rows && x.event.None?)
      && (x.pc.Asking? ==> x.event.None? && pc.Inserted? && pc.id in s.rows && x.pc.row == s.rows[pc.id])
      && (x.event.Some? && x.event.value.Requested? ==>
            pc.Asking? && x.event.value.id == pc.row.id && x.pc.Done?)
  {
  }

  lemma StepKeepsRequests(c: Config, init: Approvals.Rows, s: State, act: Action)
    requires Inv(c, init, s) && forall id :: RequestInv(init, s, id)
    ensures forall id :: RequestInv(init, Step(c, s, act), id)
  {
    hide Act, HandlerInv, RowInv, OrderInv, StartInv, Local, Has, Fits, Count, LockInv;
    if act.Go? && act.h < |s.handlers| {
      InvLocal(c, init, s);
      forall id ensures RequestInv(init, Step(c, s, act), id) {
        hide RequestInv;
        RequestStep(c, init, s, act.h, act.e, id);
      }
    } else {
      var t := Step(c, s, act);
      forall id ensures RequestInv(init, t, id) {
        assert RequestInv(init, s, id);
        forall h: nat ensures Making(t, h, id) == Making(s, h, id) {
        }
      }
    }
  }

  lemma {:induction false} RunKeepsRequests(c: Config, init: Approvals.Rows, s: State, acts: seq<Action>)
    requires Inv(c, init, s) && forall id :: RequestInv(init, s, id)
    ensures forall id :: RequestInv(init, SendProtocol.Run(c, s, acts), id)
    decreases |acts|
  {
    hide Inv, RequestInv, Step;
    if acts != [] {
      StepKeepsInv(c, init, s, acts[0]);
      StepKeepsRequests(c, init, s, acts[0]);
      RunKeepsRequests(c, init, Step(c, s, acts[0]), acts[1..]);
    }
  }

  lemma {:induction false} RequestsKept(c: Config, init: Approvals.Rows, acts: seq<Action>)
    requires Keyed(init)
    ensures forall id :: RequestInv(init, SendProtocol.Run(c, SendProtocol.Start(init), acts), id)
  {
    hide Inv, SendProtocol.Run;
    StartInvariant(c, init);
    forall id ensures RequestInv(init, SendProtocol.Start(init), id) {
    }
    RunKeepsRequests(c, init, SendProtocol.Start(init), acts);
  }

  /** The request of a row is broadcast at most once, and only for a row made in this
      run. */
  lemma {:induction false} RequestedOnce(c: Config, init: Approvals.Rows, acts: seq<Action>, id: string)
    requires Keyed(init)
    ensures var t := SendProtocol.Run(c, SendProtocol.Start(init), acts);
      && Count(Requests, t.log, id) <= 1
      && (Count(Requests, t.log, id) == 1 ==> id in t.rows && id !in init)
  {
    hide SendProtocol.Run;
    RequestsKept(c, init, acts);
    assert RequestInv(init, SendProtocol.Run(c, SendProtocol.Start(init), acts), id);
  }

  // ---- when the request comes after the resolution ----

  ghost predicate Made(s: State, id: string) {
    id in s.rows && forall h: nat :: !Making(s, h, id)
  }

  lemma MadeStep(c: Config, init: Approvals.Rows, s: State, h: nat, e: Env, id: string)
    requires h < |s.handlers| && Local(c, init, s, h) && Made(s, id)
    ensures var t := Perform(s, h, Act(c, s, h, s.handlers[h], e));
      Made(t, id) && Count(Requests, t.log, id) == Count(Requests, s.log, id)
  {
    hide Count, Winner, Has, RowInv, Act, LockSound, HandlerInv;
    var x := Act(c, s, h, s.handlers[h], e);
    StepSound(c, init, s, h, e);
    MoverAsks(c, s, h, e);
    if s.handlers[h].pc.Inserted? && s.handlers[h].pc.id in s.rows {
      RowHasItsId(init, s, s.handlers[h].pc.id);
    }
    assert !Making(s, h, id);
    if x.event.Some? {
      Snoc(s.log, x.event.value);
    }
    forall g: nat | g != h ensures Making(Perform(s, h, x), g, id) == Making(s, g, id) {
    }
  }

  /** Once a row is there and nobody is making it, its request is not broadcast any more. */
  lemma {:induction false} MadeStays(c: Config, init: Approvals.Rows, s: State, acts: seq<Action>, id: string)
    requires Inv(c, init, s) && Made(s, id)
    ensures Count(Requests, SendProtocol.Run(c, s, acts).log, id) == Count(Requests, s.log, id)
    decreases |acts|
  {
    hide Inv, Made, Act, Count;
    if acts != [] {
      var a := acts[0];
      StepKeepsInv(c, init, s, a);
      assert Made(Step(c, s, a), id) && Count(Requests, Step(c, s, a).log, id) == Count(Requests, s.log, id) by {
        if a.Go? && a.h < |s.handlers| {
          InvLocal(c, init, s);
          MadeStep(c, init, s, a.h, a.e, id);
        } else {
          MadeSpawn(c, s, a, id);
        }
      }
      MadeStays(c, init, Step(c, s, a), acts[1..], id);
    }
  }

  lemma MadeSpawn(c: Config, s: State, a: Action, id: string)
    requires Made(s, id) && (a.Go? ==> a.h >= |s.handlers|)
    ensures Made(Step(c, s, a), id) && Step(c, s, a).log == s.log
  {
    hide Act;
    forall h: nat ensures Making(Step(c, s, a), h, id) == Making(s, h, id) {
    }
  }

  lemma {:induction false} LogGrows(c: Config, s: State, acts: seq<Action>)
    ensures s.log <= SendProtocol.Run(c, s, acts).log
    decreases |acts|
  {
    hide Act;
    if acts != [] {
      LogGrows(c, Step(c, s, acts[0]), acts[1..]);
    }
  }

  /** An event within a log is counted there, and after what was counted before it. */
  lemma {:induction false} CountedAt(k: Kind, log: seq<Event>, n: nat, j: nat)
    requires n <= j < |log| && Counts(k, log[j])
    ensures Count(k, log, log[j].id) > Count(k, log[..n], log[j].id)
  {
    hide Count, Winner, Has;
    assert log[..j + 1] == log[..j] + [log[j]] && log[..j][..n] == log[..n];
    Snoc(log[..j], log[j]);
    PrefixCounts(k, log, j + 1, log[j].id);
    PrefixCounts(k, log[..j], n, log[j].id);
  }

  lemma MakerHasNotAsked(init: Approvals.Rows, s: State, g: nat, id: string)
    requires RequestInv(init, s, id) && Making(s, g, id)
    ensures Count(Requests, s.log, id) == 0
  {
    hide Making, Count;
  }

  lemma CutAt(c: Config, s0: State, before: seq<Action>, act: Action, after: seq<Action>)
    ensures SendProtocol.Run(c, s0, before + [act] + after) ==
      SendProtocol.Run(c, SendProtocol.Run(c, s0, before), [act] + after)
    ensures SendProtocol.Run(c, SendProtocol.Run(c, s0, before), [act] + after) ==
      SendProtocol.Run(c, Step(c, SendProtocol.Run(c, s0, before), act), after)
  {
    hide Act;
    assert before + [act] + after == before + ([act] + after);
    RunCat(c, s0, before, [act] + after);
    assert ([act] + after)[1..] == after;
  }

  /** A resolution is broadcast only of a row that is there. */
  lemma AnnouncedRow(c: Config, init: Approvals.Rows, s: State, act: Action, e: Event)
    requires Inv(c, init, s) && Step(c, s, act).log == s.log + [e]
    ensures act.Go? && act.h < |s.handlers| && Local(c, init, s, act.h)
    ensures Act(c, s, act.h, s.handlers[act.h], act.e).event == Some(e) && e.id in s.rows
  {
    hide Act, Inv, Local, Winner, Count, Has;
    assert s.log + [e] != s.log;
    InvLocal(c, init, s);
    StepSound(c, init, s, act.h, act.e);
    var x := Act(c, s, act.h, s.handlers[act.h], act.e);
    assert (s.log + [x.event.value])[|s.log|] == (s.log + [e])[|s.log|];
  }

  /** Exactly when the two broadcasts of a row come in the wrong order: when it is
      resolved while its maker, having inserted it, has yet to announce the request. The
      run is cut at the step that broadcasts the resolution; j is the request's place in
      the log. */
  lemma {:induction false} WrongOrderIff(
    c: Config, init: Approvals.Rows, before: seq<Action>, act: Action, after: seq<Action>, h: nat, id: string,
    status: Approvals.Status, j: nat)
    requires Keyed(init)
    requires var s := SendProtocol.Run(c, SendProtocol.Start(init), before);
      Step(c, s, act).log == s.log + [Announced(h, id, status)]
    requires var log := SendProtocol.Run(c, SendProtocol.Start(init), before + [act] + after).log;
      j < |log| && log[j].Requested? && log[j].id == id
    ensures var s := SendProtocol.Run(c, SendProtocol.Start(init), before);
      |s.log| < j <==> exists g: nat :: Making(s, g, id)
  {
    hide SendProtocol.Run, Act, Inv, Count, Making, RequestInv;
    var s0 := SendProtocol.Start(init);
    var s := SendProtocol.Run(c, s0, before);
    var s', log := Step(c, s, act), SendProtocol.Run(c, s0, before + [act] + after).log;
    CutAt(c, s0, before, act, after);
    Reachable(c, init, before);
    LogGrows(c, s', after);
    assert log[..|s.log|] == s.log && log[|s.log|] == Announced(h, id, status);
    AnnouncedRow(c, init, s, act, Announced(h, id, status));
    if g: nat :| Making(s, g, id) {
      RequestsKept(c, init, before);
      MakerHasNotAsked(init, s, g, id);
      if j < |s.log| {
        CountedAt(Requests, s.log, 0, j);
      }
    } else {
      MadeStays(c, init, s, [act] + after, id);
      if |s.log| <= j {
        CountedAt(Requests, log, |s.log|, j);
      }
    }
  }

  // ---- a condition that rules it out ----

  predicate Decides(req: Request, id: string) {
    (req.ApproveReq? || req.DenyReq?) && req.id == id
  }

  /** No decision of the row is asked for before its request has been broadcast. */
  predicate DecidedWhenAsked(c: Config, s: State, acts: seq<Action>, id: string)
    decreases |acts|
  {
    acts == [] ||
    ((acts[0].Spawn? && Decides(acts[0].req, id) ==> Count(Requests, s.log, id) > 0)
      && DecidedWhenAsked(c, Step(c, s, acts[0]), acts[1..], id))
  }

  /** In approve mode only a decision leads to an announcement. */
  predicate Answering(c: Config, x: Handler) {
    && (x.pc.DenyRecorded? ==> Decides(x.req, x.pc.id))
    && (x.pc.Announcing? && c.mode == Approve ==> Decides(x.req, x.pc.row.id))
  }

  ghost predicate AskedFirst(log: seq<Event>, id: string) {
    forall i :: 0 <= i < |log| && log[i].Announced? && log[i].id == id ==> Count(Requests, log[..i], id) > 0
  }

  ghost predicate AskInv(c: Config, s: State, id: string) {
    && (forall h :: 0 <= h < |s.handlers| ==>
          Answering(c, s.handlers[h]) && (Decides(s.handlers[h].req, id) ==> Count(Requests, s.log, id) > 0))
    && (if c.mode == Approve then AskedFirst(s.log, id) else Count(Requests, s.log, id) == 0)
  }

  /** What a handler about to announce knows of its request and its row. */
  lemma Announcers(c: Config, init: Approvals.Rows, s: State, h: nat)
    requires h < |s.handlers| && Local(c, init, s, h)
    ensures var pc := s.handlers[h].pc;
      && (pc.Recorded? ==> pc.a.id in s.rows && s.rows[pc.a.id].id == pc.a.id)
      && (pc.DenyRecorded? && pc.id in s.rows ==> s.rows[pc.id].id == pc.id)
      && (pc.Recorded? && c.mode == Approve ==> Decides(s.handlers[h].req, pc.a.id))
      && (pc.Asking? ==> c.mode == Approve)
  {
    hide Count, Winner, Has;
  }

  /** Where the moving handler goes, and what it broadcasts. */
  lemma MoverAnswers(c: Config, init: Approvals.Rows, s: State, h: nat, e: Env)
    requires h < |s.handlers| && Local(c, init, s, h) && Answering(c, s.handlers[h])
    ensures var x := Act(c, s, h, s.handlers[h], e);
      && Answering(c, Handler(s.handlers[h].req, x.pc))
      && (x.event.Some? && x.event.value.Announced? && c.mode == Approve ==> Decides(s.handlers[h].req, x.event.value.id))
      && (x.event.Some? && x.event.value.Requested? ==> c.mode == Approve)
  {
    hide Count, Winner, Has, Local, Approvals.Created, Approvals.Resolved;
    Announcers(c, init, s, h);
  }

  lemma AskStep(c: Config, init: Approvals.Rows, s: State, h: nat, e: Env, id: string)
    requires h < |s.handlers| && Local(c, init, s, h) && AskInv(c, s, id)
    ensures AskInv(c, Perform(s, h, Act(c, s, h, s.handlers[h], e)), id)
  {
    hide Count, Winner, Has, Act, Local, Answering;
    var x := Act(c, s, h, s.handlers[h], e);
    MoverAnswers(c, init, s, h, e);
    if x.event.Some? {
      Snoc(s.log, x.event.value);
      var log := s.log + [x.event.value];
      forall i | 0 <= i <= |s.log| ensures log[..i] == s.log[..i] {
      }
      assert s.log[..|s.log|] == s.log;
    }
  }

  lemma {:induction false} RunAsks(c: Config, init: Approvals.Rows, s: State, acts: seq<Action>, id: string)
    requires Inv(c, init, s) && AskInv(c, s, id) && DecidedWhenAsked(c, s, acts, id)
    ensures AskInv(c, SendProtocol.Run(c, s, acts), id)
    decreases |acts|
  {
    hide Inv, Act, Count, Answering, AskedFirst;
    if acts != [] {
      var a := acts[0];
      StepKeepsInv(c, init, s, a);
      assert AskInv(c, Step(c, s, a), id) by {
        if a.Go? && a.h < |s.handlers| {
          InvLocal(c, init, s);
          AskStep(c, init, s, a.h, a.e, id);
        } else {
          assert a.Spawn? ==> Answering(c, Handler(a.req, Entry)) by {
            Fresh(c);
          }
        }
      }
      RunAsks(c, init, Step(c, s, a), acts[1..], id);
    }
  }

  lemma Fresh(c: Config)
    ensures forall req :: Answering(c, Handler(req, Entry))
  {
  }

  predicate AnnouncedAt(log: seq<Event>, i: int, id: string) {
    0 <= i < |log| && log[i].Announced? && log[i].id == id
  }

  predicate RequestedAt(log: seq<Event>, j: int, id: string) {
    0 <= j < |log| && log[j].Requested? && log[j].id == id
  }

  /** A row that nobody decides before its request was broadcast has its broadcasts in
      the right order, whatever fails: in approve mode no resolution is announced
      without a request before it, and in the other modes no request is broadcast. */
  lemma {:induction false} RequestedFirst(c: Config, init: Approvals.Rows, acts: seq<Action>, id: string)
    requires Keyed(init) && DecidedWhenAsked(c, SendProtocol.Start(init), acts, id)
    ensures var log := SendProtocol.Run(c, SendProtocol.Start(init), acts).log;
      && (c.mode == Approve ==>
            forall i :: AnnouncedAt(log, i, id) ==> exists j :: RequestedAt(log, j, id) && j < i)
      && (forall i, j :: AnnouncedAt(log, i, id) && RequestedAt(log, j, id) ==> j < i)
  {
    hide SendProtocol.Run, Inv, Act, Count, Answering, RequestInv;
    var s0 := SendProtocol.Start(init);
    StartInvariant(c, init);
    assert AskInv(c, s0, id) by {
      NothingAsked(id);
    }
    RunAsks(c, init, s0, acts, id);
    RequestedOnce(c, init, acts, id);
    var log := SendProtocol.Run(c, s0, acts).log;
    CountedIsThere(Requests, log, id);
    forall i | AnnouncedAt(log, i, id) && c.mode == Approve ensures exists j :: RequestedAt(log, j, id) && j < i {
      CountedIsThere(Requests, log[..i], id);
      var j :| 0 <= j < |log[..i]| && log[..i][j].id == id && Counts(Requests, log[..i][j]);
      assert RequestedAt(log, j, id);
    }
    forall i, j | AnnouncedAt(log, i, id) && RequestedAt(log, j, id) ensures j < i {
      assert Counts(Requests, log[j]);
      if i < j {
        CountedAt(Requests, log, i, j);
      }
    }
  }

  lemma NothingAsked(id: string)
    ensures Count(Requests, [], id) == 0
  {
  }

  /** The two broadcasts of a row can come in the wrong order, without any failure:
      the row can be listed and denied before its maker gets to announce it. */
  lemma RequestedAfterResolved()
    ensures exists c, acts ::
      && NoFaults(acts)
      && var log := SendProtocol.Run(c, SendProtocol.Start(map[]), acts).log;
         |log| == 3 && log[1] == Announced(1, "1", Approvals.Denied) && log[2] == Requested(0, "1")
  {
    hide SendProtocol.Run, NoFaults;
    var c := Config(Approve, true);
    var s0 := SendProtocol.Start(map[]);
    assert SendProtocol.Run(c, s0, []) == s0 && NoFaults([]) by {
      NothingDone(c, s0);
    }
    var acts, s := Next(c, s0, [], s0, Spawn(SendText("chat", "hi", "", "")));
    acts, s := Next(c, s0, acts, s, Go(0, OK.(uuid := "1")));
    acts, s := Next(c, s0, acts, s, Go(0, OK));
    acts, s := Next(c, s0, acts, s, Spawn(DenyReq("1", "")));
    acts, s := Next(c, s0, acts, s, Go(1, OK));
    acts, s := Next(c, s0, acts, s, Go(1, OK));
    acts, s := Next(c, s0, acts, s, Go(1, OK));
    acts, s := Next(c, s0, acts, s, Go(0, OK));
  }
}
