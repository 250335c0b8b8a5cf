/** The exact account of the send protocol: how often a row is sent, and when a denied
    row has been sent. */
module SendAccount {
  import opened Common
  import Approvals
  import opened SendProtocol

  // ---- the books every run keeps ----

  function Out(s: State, id: string): nat {
    if Active(s, id) then 1 else 0
  }

  /** Every call that was started has had its outcome written, lost to another
      resolve, or failed to write, or is still under way. */
  ghost predicate Account(s: State, id: string) {
    Count(Starts, s.log, id) ==
      Count(Failures, s.log, id) + Count(Losses, s.log, id) + Count(Records, s.log, id) + Out(s, id)
  }

  predicate AtRechecked(s: State, h: nat, id: string) {
    h < |s.handlers| && s.handlers[h].pc.Rechecked? && s.handlers[h].pc.a.id == id
  }

  /** A recheck that passed has led to a call, or is about to. */
  ghost predicate CheckKept(s: State, h: nat, id: string) {
    Has(s.log, CheckedPending(h, id)) ==>
      id in s.rows && (AtRechecked(s, h, id) || Has(s.log, StartOf(h, s.rows[id])))
  }

  /** A call starts only when every earlier one has failed to be written. */
  ghost predicate StartsFit(log: seq<Event>) {
    forall j :: 0 <= j < |log| && log[j].Started? ==>
      Count(Starts, log[..j], log[j].id) == Count(Failures, log[..j], log[j].id)
  }

  ghost predicate Books(s: State) {
    && (forall id :: Account(s, id))
    && (forall h: nat, id :: CheckKept(s, h, id))
    && StartsFit(s.log)
  }

  lemma {:induction false} AccountStep(c: Config, init: Approvals.Rows, s: State, h: nat, e: Env, id: string)
    requires h < |s.handlers| && Local(c, init, s, h) && LockInv(s) && Account(s, id)
    ensures Account(Perform(s, h, Act(c, s, h, s.handlers[h], e)), id)
  {
    hide Local, Act, LockInv, Account;
    if Calls(s.handlers[h].pc) {
      CallerAccounts(c, init, s, h, e, id);
    } else {
      OthersAccount(c, init, s, h, e, id);
    }
  }

  predicate Calls(pc: Pc) {
    pc.Rechecked? || pc.Sending? || pc.Answered?
  }

  lemma CallerAccounts(c: Config, init: Approvals.Rows, s: State, h: nat, e: Env, id: string)
    requires h < |s.handlers| && Local(c, init, s, h) && LockInv(s) && Account(s, id) && Calls(s.handlers[h].pc)
    ensures Account(Perform(s, h, Act(c, s, h, s.handlers[h], e)), id)
  {
    hide Count, Winner, Has, HandlerInv, RowInv, Approvals.Created, Approvals.Resolved, Enter, Recheck;
    var x := Act(c, s, h, s.handlers[h], e);
    if x.event.Some? {
      Snoc(s.log, x.event.value);
    }
  }

  lemma OthersAccount(c: Config, init: Approvals.Rows, s: State, h: nat, e: Env, id: string)
    requires h < |s.handlers| && Local(c, init, s, h) && LockInv(s) && Account(s, id) && !Calls(s.handlers[h].pc)
    ensures Account(Perform(s, h, Act(c, s, h, s.handlers[h], e)), id)
  {
    hide Count, Winner, Has, HandlerInv, RowInv, Act, Account, LockInv;
    var x := Act(c, s, h, s.handlers[h], e);
    QuietEvent(c, s, h, e);
    assert Account(s, id);
    if x.event.Some? {
      Snoc(s.log, x.event.value);
    }
    SameAccount(s, Perform(s, h, x), id);
  }

  /** Away from its call a handler records nothing that the account counts. */
  lemma QuietEvent(c: Config, s: State, h: nat, e: Env)
    requires h < |s.handlers| && !Calls(s.handlers[h].pc) && (Holds(s.handlers[h].pc) <==> s.lock == Some(h))
    ensures var x := Act(c, s, h, s.handlers[h], e);
      && !x.pc.Sending? && !x.pc.Answered? && LockSound(s, h, x)
      && (x.event.Some? ==> forall k :: k in {Starts, Failures, Losses, Records} ==> !Counts(k, x.event.value))
  {
    hide Approvals.Created, Approvals.Resolved, StartOf, Record;
  }

  lemma SameAccount(s: State, t: State, id: string)
    requires Account(s, id) && Out(t, id) == Out(s, id)
    requires forall k :: k in {Starts, Failures, Losses, Records} ==> Count(k, t.log, id) == Count(k, s.log, id)
    ensures Account(t, id)
  {
  }

  lemma {:induction false} CheckStep(c: Config, init: Approvals.Rows, s: State, h: nat, e: Env, g: nat, id: string)
    requires h < |s.handlers| && Local(c, init, s, h) && CheckKept(s, g, id)
    ensures CheckKept(Perform(s, h, Act(c, s, h, s.handlers[h], e)), g, id)
  {
    hide Count, Winner, Has, RowInv, Act, LockSound, HandlerInv;
    var x := Act(c, s, h, s.handlers[h], e);
    StepSound(c, init, s, h, e);
    MoverChecks(c, init, s, h, e);
    if x.event.Some? {
      Snoc(s.log, x.event.value);
    }
  }

  /** What the moving handler does about a recheck. */
  lemma MoverChecks(c: Config, init: Approvals.Rows, s: State, h: nat, e: Env)
    requires h < |s.handlers| && Local(c, init, s, h)
    ensures var x, pc := Act(c, s, h, s.handlers[h], e), s.handlers[h].pc;
      && (x.event.Some? && x.event.value.CheckedPending? ==>
            x.event.value.h == h && x.event.value.id in x.rows && x.pc.Rechecked? && x.pc.a.id == x.event.value.id)
      && (pc.Rechecked? ==>
            pc.a.id in s.rows && x.rows == s.rows && x.event == Some(StartOf(h, s.rows[pc.a.id])))
  {
    hide Count, Winner, Has, RowInv, Approvals.Created, Approvals.Resolved;
  }

  lemma FitStep(c: Config, init: Approvals.Rows, s: State, h: nat, e: Env)
    requires h < |s.handlers| && Local(c, init, s, h) && StartsFit(s.log)
    ensures StartsFit(Perform(s, h, Act(c, s, h, s.handlers[h], e)).log)
  {
    hide Count, Winner, Has, RowInv, Approvals.Created, Approvals.Resolved;
    var x := Act(c, s, h, s.handlers[h], e);
    if x.event.Some? {
      assert (s.log + [x.event.value])[..|s.log|] == s.log;
      forall j | 0 <= j < |s.log| ensures (s.log + [x.event.value])[..j] == s.log[..j] {
      }
    }
  }

  lemma {:induction false} StepKeepsBooks(c: Config, init: Approvals.Rows, s: State, act: Action)
    requires Inv(c, init, s) && Books(s)
    ensures Books(Step(c, s, act))
  {
    hide Act, HandlerInv, RowInv, OrderInv, StartInv, Local, Has, Fits, Count, Account, CheckKept, StartsFit;
    if act.Go? && act.h < |s.handlers| {
      InvLocal(c, init, s);
      forall id ensures Account(Step(c, s, act), id) {
        AccountStep(c, init, s, act.h, act.e, id);
      }
      forall h: nat, id ensures CheckKept(Step(c, s, act), h, id) {
        CheckStep(c, init, s, act.h, act.e, h, id);
      }
      FitStep(c, init, s, act.h, act.e);
    } else {
      SpawnKeepsBooks(c, s, act);
    }
  }

  lemma SpawnKeepsBooks(c: Config, s: State, act: Action)
    requires Books(s) && LockInv(s) && (act.Go? ==> act.h >= |s.handlers|)
    ensures Books(Step(c, s, act))
  {
    hide Act, Has, Count, StartsFit;
    forall id ensures Account(Step(c, s, act), id) {
      assert Account(s, id);
    }
    forall h: nat, id ensures CheckKept(Step(c, s, act), h, id) {
      assert CheckKept(s, h, id);
    }
  }

  lemma {:induction false} RunKeepsBooks(c: Config, init: Approvals.Rows, s: State, acts: seq<Action>)
    requires Inv(c, init, s) && Books(s)
    ensures Books(SendProtocol.Run(c, s, acts))
    decreases |acts|
  {
    hide Inv, Books, Step;
    if acts != [] {
      StepKeepsInv(c, init, s, acts[0]);
      StepKeepsBooks(c, init, s, acts[0]);
      RunKeepsBooks(c, init, Step(c, s, acts[0]), acts[1..]);
    }
  }

  lemma {:induction false} BooksKept(c: Config, init: Approvals.Rows, acts: seq<Action>)
    requires Keyed(init)
    ensures Books(SendProtocol.Run(c, SendProtocol.Start(init), acts))
  {
    hide Inv;
    StartInvariant(c, init);
    RunKeepsBooks(c, init, SendProtocol.Start(init), acts);
  }

  // ---- how often a row is sent ----

  /** An outcome of a call got as far as the row, or found it resolved. */
  ghost predicate Settled(log: seq<Event>, id: string) {
    exists j :: 0 <= j < |log| && log[j].id == id && (log[j].Lost? || (log[j].Won? && log[j].status != Approvals.Denied))
  }

  /** Exactly how often SendText is started for a row: once for each outcome that
      could not be written, and once more if a call is under way or an outcome got
      through. */
  lemma {:induction false} TimesSent(c: Config, init: Approvals.Rows, acts: seq<Action>, id: string)
    requires Keyed(init)
    ensures var t := SendProtocol.Run(c, SendProtocol.Start(init), acts);
      Count(Starts, t.log, id) == Count(Failures, t.log, id) + if Active(t, id) || Settled(t.log, id) then 1 else 0
  {
    hide Count, Winner, Has, Act, HandlerInv, SendProtocol.Run, CheckKept, StartsFit;
    Reachable(c, init, acts);
    BooksKept(c, init, acts);
    var t := SendProtocol.Run(c, SendProtocol.Start(init), acts);
    assert RowInv(init, t, id) && Account(t, id);
    CountedIsThere(Losses, t.log, id);
    CountedIsThere(Records, t.log, id);
  }

  lemma {:induction false} PrefixCounts(k: Kind, log: seq<Event>, n: nat, id: string)
    requires n <= |log|
    ensures Count(k, log[..n], id) <= Count(k, log, id)
    decreases |log|
  {
    if n == |log| {
      assert log[..n] == log;
    } else {
      assert log[..|log| - 1][..n] == log[..n];
      PrefixCounts(k, log[..|log| - 1], n, id);
    }
  }

  /** The last event of a kind, and how many there were before it. */
  lemma {:induction false} LastCounted(k: Kind, log: seq<Event>, id: string) returns (j: nat)
    requires Count(k, log, id) > 0
    ensures j < |log| && log[j].id == id && Counts(k, log[j]) && Count(k, log[..j], id) == Count(k, log, id) - 1
    decreases |log|
  {
    var init, e := log[..|log| - 1], log[|log| - 1];
    if e.id == id && Counts(k, e) {
      return |log| - 1;
    }
    j := LastCounted(k, init, id);
    assert init[..j] == log[..j];
  }

  /** A row is sent twice if and only if a call for it starts after the outcome of an
      earlier one could not be written. */
  lemma {:induction false} SentTwiceIff(c: Config, init: Approvals.Rows, acts: seq<Action>, id: string)
    requires Keyed(init)
    ensures var log := SendProtocol.Run(c, SendProtocol.Start(init), acts).log;
      Count(Starts, log, id) >= 2 <==>
        exists i, j :: 0 <= i < j < |log| && log[i].WriteFailed? && log[i].id == id && log[j].Started? && log[j].id == id
  {
    hide Winner, Has, Act, SendProtocol.Run, Count, Account, CheckKept;
    BooksKept(c, init, acts);
    var log := SendProtocol.Run(c, SendProtocol.Start(init), acts).log;
    if Count(Starts, log, id) >= 2 {
      var j := LastCounted(Starts, log, id);
      CountedIsThere(Failures, log[..j], id);
      var i :| 0 <= i < |log[..j]| && log[..j][i].id == id && Counts(Failures, log[..j][i]);
      assert log[i] == log[..j][i];
    }
    if i, j :| 0 <= i < j < |log| && log[i].WriteFailed? && log[i].id == id && log[j].Started? && log[j].id == id {
      assert log[..j][i] == log[i];
      CountedIsThere(Failures, log[..j], id);
      Snoc(log[..j], log[j]);
      assert log[..j + 1] == log[..j] + [log[j]];
      PrefixCounts(Starts, log, j + 1, id);
    }
  }

  // ---- denied rows that were sent ----

  lemma RowHasItsId(init: Approvals.Rows, t: State, id: string)
    requires RowInv(init, t, id) && id in t.rows
    ensures t.rows[id].id == id
  {
    hide Count, Winner, Has;
  }

  /** A row whose deny was the k-th event, and whose calls have all been started, was
      sent if and only if some recheck of it passed before that deny. */
  lemma {:induction false} DeniedWasSentIff(c: Config, init: Approvals.Rows, acts: seq<Action>, k: nat)
    requires Keyed(init)
    requires var t := SendProtocol.Run(c, SendProtocol.Start(init), acts);
      && k < |t.log| && t.log[k].Won? && t.log[k].status == Approvals.Denied
      && forall h: nat :: !AtRechecked(t, h, t.log[k].id)
    ensures var log := SendProtocol.Run(c, SendProtocol.Start(init), acts).log;
      Count(Starts, log, log[k].id) > 0 <==>
        exists i :: 0 <= i < k && log[i].CheckedPending? && log[i].id == log[k].id
  {
    hide Winner, Act, SendProtocol.Run, Count, Account, HandlerInv, RowInv, AtRechecked;
    Reachable(c, init, acts);
    BooksKept(c, init, acts);
    var t := SendProtocol.Run(c, SendProtocol.Start(init), acts);
    var log, id := t.log, t.log[k].id;
    CountedIsThere(Starts, log, id);
    ResolvedOnce(log, k);
    if Count(Starts, log, id) > 0 {
      var j :| 0 <= j < |log| && log[j].id == id && Counts(Starts, log[j]);
      assert Fits(log[..j], log[j]);
      var i :| 0 <= i < j && log[..j][i] == CheckedPending(log[j].h, id);
    }
    if i :| 0 <= i < k && log[i].CheckedPending? && log[i].id == id {
      assert Has(log, CheckedPending(log[i].h, id));
      assert CheckKept(t, log[i].h, id);
      var j :| 0 <= j < |log| && log[j] == StartOf(log[i].h, t.rows[id]);
      assert Counts(Starts, log[j]) && log[j].id == id by {
        assert RowInv(init, t, id);
        RowHasItsId(init, t, id);
      }
    }
  }

  predicate NoFaults(acts: seq<Action>) {
    forall i :: 0 <= i < |acts| && acts[i].Go? ==> !acts[i].e.fault
  }

  /** One more step of a run. */
  lemma Next(c: Config, s0: State, acts: seq<Action>, s: State, a: Action) returns (acts': seq<Action>, s': State)
    requires SendProtocol.Run(c, s0, acts) == s
    ensures acts' == acts + [a] && s' == Step(c, s, a) && SendProtocol.Run(c, s0, acts') == s'
    ensures NoFaults(acts) && (a.Go? ==> !a.e.fault) ==> NoFaults(acts')
  {
    hide Act;
    acts', s' := acts + [a], Step(c, s, a);
    RunCat(c, s0, acts, [a]);
    assert [a][1..] == [];
    assert SendProtocol.Run(c, s, [a]) == SendProtocol.Run(c, s', []);
  }

  const OK := Env(false, "", Delivered("m"), 0)

  function Pending(): Approvals.Approval {
    Approvals.Approval("1", "chat", "hi", None, "rpc", Approvals.Pending, None, None, 0, 0)
  }

  function Table(): Approvals.Rows {
    map["1" := Pending()]
  }

  /** The handler of an approve request passes its recheck. */
  lemma RecheckPasses(c: Config) returns (acts: seq<Action>, s: State)
    requires c == Config(Approve, true)
    ensures SendProtocol.Run(c, SendProtocol.Start(Table()), acts) == s && NoFaults(acts)
    ensures s == State(Table(), Some(0), [Handler(ApproveReq("1"), Rechecked(Pending()))], [CheckedPending(0, "1")])
  {
    hide SendProtocol.Run, NoFaults;
    var s0 := SendProtocol.Start(Table());
    assert SendProtocol.Run(c, s0, []) == s0 && NoFaults([]) by {
      NothingDone(c, s0);
    }
    acts, s := Next(c, s0, [], s0, Spawn(ApproveReq("1")));
    acts, s := Next(c, s0, acts, s, Go(0, OK));
    acts, s := Next(c, s0, acts, s, Go(0, OK));
    acts, s := Next(c, s0, acts, s, Go(0, OK));
  }

  lemma NothingDone(c: Config, s: State)
    ensures SendProtocol.Run(c, s, []) == s && NoFaults([])
  {
  }

  /** Without any failure of the store a denied message can have been delivered: the
      deny comes while its handler, past the recheck, is about to call the phone. */
  lemma DeniedCanBeSent()
    ensures exists c, acts ::
      && Keyed(Table()) && NoFaults(acts)
      && var t := SendProtocol.Run(c, SendProtocol.Start(Table()), acts);
         && "1" in t.rows && t.rows["1"].status == Approvals.Denied
         && Ended(0, "1", Delivered("m")) in t.log
  {
    hide SendProtocol.Run, NoFaults;
    var c := Config(Approve, true);
    var s0 := SendProtocol.Start(Table());
    var acts, s := RecheckPasses(c);
    acts, s := Next(c, s0, acts, s, Spawn(DenyReq("1", "")));
    acts, s := Next(c, s0, acts, s, Go(1, OK));
    assert s.rows["1"].status == Approvals.Denied;
    acts, s := Next(c, s0, acts, s, Go(0, OK));
    acts, s := Next(c, s0, acts, s, Go(0, OK));
    assert s.log[|s.log| - 1] == Ended(0, "1", Delivered("m"));
  }

  /** With a failure the deny can come even after the handler tried to record the
      delivery, as the row is then still pending. */
  lemma DeniedAfterAFailedRecord()
    ensures exists c, acts ::
      && Keyed(Table())
      && var t := SendProtocol.Run(c, SendProtocol.Start(Table()), acts);
         && "1" in t.rows && t.rows["1"].status == Approvals.Denied && |t.log| == 5
         && t.log[2] == Ended(0, "1", Delivered("m")) && t.log[3] == WriteFailed(0, "1") && t.log[4].Won?
  {
    hide SendProtocol.Run, NoFaults;
    var c := Config(Approve, true);
    var s0 := SendProtocol.Start(Table());
    var acts, s := RecheckPasses(c);
    acts, s := Next(c, s0, acts, s, Go(0, OK));
    acts, s := Next(c, s0, acts, s, Go(0, OK));
    acts, s := Next(c, s0, acts, s, Go(0, OK.(fault := true)));
    acts, s := Next(c, s0, acts, s, Spawn(DenyReq("1", "")));
    acts, s := Next(c, s0, acts, s, Go(1, OK));
  }
}
