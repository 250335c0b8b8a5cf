/** The idle exit of internal/rpc/server.go: a timer armed when the last client
    leaves, stopped when one arrives, and a callback that closes the idle channel.
    One action is one critical section of mu, one timer firing, or time passing. */
module IdleTimer {
  import opened Common

  /** Stopped also stands for a timer that has fired. */
  datatype Timer = Stopped | Armed(deadline: nat)

  /** What mu protects; closes counts close(idle), which panics the second time. */
  datatype Core = Core(conns: set<nat>, timer: Timer, idleFired: bool, closes: nat)

  // ---- critical sections ----

  function Accepted(k: Core, c: nat): Core {
    k.(conns := k.conns + {c}, timer := Stopped)
  }

  function Dropped(k: Core, c: nat): Core {
    k.(conns := k.conns - {c})
  }

  /** Rearming stops whichever timer is running. */
  function Rearmed(k: Core, deadline: nat): Core {
    k.(timer := Armed(deadline))
  }

  function CalledBack(k: Core): Core {
    if k.conns == {} && !k.idleFired then k.(idleFired := true, closes := k.closes + 1) else k
  }

  class Server {
    const idleExit: nat
    var conns: set<nat>
    var timer: Timer
    var idleFired: bool
    var closes: nat

    function State(): Core
      reads this
    {
      Core(conns, timer, idleFired, closes)
    }

    constructor (idleExit: nat)
      ensures this.idleExit == idleExit && State() == Start(idleExit).core
    {
      this.idleExit := idleExit;
      conns, timer, idleFired, closes := {}, Armed(idleExit), false, 0;
    }

    method Accept(c: nat)
      modifies this
      ensures State() == Accepted(old(State()), c)
    {
      conns := conns + {c};
      timer := Stopped;
    }

    /** The answer tells the caller to rearm the timer, which it does after letting
        go of the lock. */
    method DropConn(c: nat) returns (empty: bool)
      modifies this
      ensures State() == Dropped(old(State()), c) && empty == (State().conns == {})
    {
      conns := conns - {c};
      empty := conns == {};
    }

    method ArmIdleTimer(now: nat)
      modifies this
      ensures State() == Rearmed(old(State()), now + idleExit)
    {
      timer := Armed(now + idleExit);
    }

    method OnTimer()
      modifies this
      ensures State() == CalledBack(old(State()))
    {
      if conns == {} && !idleFired {
        idleFired := true;
        closes := closes + 1;
      }
    }
  }

  // ---- the interleavings ----

  /** arming counts the goroutines between dropConn's unlock and armIdleTimer's
      lock; callbacks the timers that have fired and wait for the lock; quietSince
      is when the last client left; idleAfter how long the server had been free of
      clients when it closed the idle channel. */
  datatype State = State(
    core: Core, exit: nat, now: nat, arming: nat, callbacks: nat, quietSince: nat, idleAfter: Option<int>)

  datatype Action = Accept(c: nat) | Drop(c: nat) | Arm | Fire | Callback | Tick(dt: nat)

  function Start(exit: nat): State {
    State(Core({}, Armed(exit), false, 0), exit, 0, 0, 0, 0, None)
  }

  /** One step; an action that is not enabled leaves the state as it is. */
  function Step(s: State, a: Action): State {
    match a
    case Accept(c) => if c in s.core.conns then s else s.(core := Accepted(s.core, c))
    case Drop(c) =>
      if c !in s.core.conns then s
      else
        var k := Dropped(s.core, c);
        if k.conns == {} then s.(core := k, arming := s.arming + 1, quietSince := s.now) else s.(core := k)
    case Arm => if s.arming == 0 then s else s.(core := Rearmed(s.core, s.now + s.exit), arming := s.arming - 1)
    case Fire =>
      if s.core.timer.Armed? && s.core.timer.deadline <= s.now then
        s.(core := s.core.(timer := Stopped), callbacks := s.callbacks + 1)
      else s
    case Callback =>
      if s.callbacks == 0 then s
      else
        var t := s.(core := CalledBack(s.core), callbacks := s.callbacks - 1);
        if t.core.closes > s.core.closes then t.(idleAfter := Some(s.now - s.quietSince)) else t
    case Tick(dt) => s.(now := s.now + dt)
  }

  function Run(s: State, acts: seq<Action>): State
    decreases |acts|
  {
    if acts == [] then s else Run(Step(s, acts[0]), acts[1..])
  }

  predicate Inv(s: State) {
    && s.quietSince <= s.now
    && s.core.closes == (if s.core.idleFired then 1 else 0)
    && (s.idleAfter.Some? <==> s.core.idleFired)
    && (s.core.conns == {} && !s.core.idleFired ==> s.core.timer.Armed? || s.callbacks > 0 || s.arming > 0)
  }

  lemma {:induction false} RunKeepsInv(s: State, acts: seq<Action>)
    requires Inv(s)
    ensures Inv(Run(s, acts))
    decreases |acts|
  {
    if acts != [] {
      RunKeepsInv(Step(s, acts[0]), acts[1..]);
    }
  }

  // ---- safety ----

  /** Over any run the channel is closed at most once, and exactly when idleFired
      is set. */
  lemma {:induction false} ClosesOnce(exit: nat, acts: seq<Action>)
    ensures var k := Run(Start(exit), acts).core; k.closes == (if k.idleFired then 1 else 0)
  {
    RunKeepsInv(Start(exit), acts);
  }

  /** Only a callback closes the channel, and only while no client is registered. */
  lemma {:induction false} NeverClosesOnAClient(s: State, a: Action)
    ensures Step(s, a).core.closes >= s.core.closes
    ensures Step(s, a).core.closes > s.core.closes ==> a == Callback && s.core.conns == {} && s.callbacks > 0
  {
  }

  /** A server without clients that has not fired is on its way to fire. */
  lemma {:induction false} NoLostWakeup(exit: nat, acts: seq<Action>)
    ensures var s := Run(Start(exit), acts);
      s.core.conns == {} && !s.core.idleFired ==> s.core.timer.Armed? || s.callbacks > 0 || s.arming > 0
  {
    RunKeepsInv(Start(exit), acts);
  }

  function Repeat(a: Action, n: nat): (acts: seq<Action>)
    ensures |acts| == n && forall i :: 0 <= i < n ==> acts[i] == a
  {
    seq(n, _ => a)
  }

  /** The way there: whoever is about to arm does so, the time passes, the timer
      fires and its callback runs. */
  function Ending(s: State): seq<Action> {
    Repeat(Arm, s.arming) + [Tick(s.exit + TimeLeft(s)), Fire, Callback]
  }

  function TimeLeft(s: State): nat {
    if s.core.timer.Armed? && s.core.timer.deadline > s.now then s.core.timer.deadline - s.now else 0
  }

  lemma {:induction false} RunAppend(s: State, p: seq<Action>, q: seq<Action>)
    ensures Run(s, p + q) == Run(Run(s, p), q)
    decreases |p|
  {
    if p == [] {
      assert p + q == q;
    } else {
      assert (p + q)[1..] == p[1..] + q;
      RunAppend(Step(s, p[0]), p[1..], q);
    }
  }

  lemma {:induction false} ArmAll(s: State)
    ensures var t := Run(s, Repeat(Arm, s.arming));
      && t == s.(core := t.core, arming := 0)
      && t.core == s.core.(timer := if s.arming == 0 then s.core.timer else Armed(s.now + s.exit))
    decreases s.arming
  {
    if s.arming > 0 {
      var acts := Repeat(Arm, s.arming);
      assert acts[1..] == Repeat(Arm, s.arming - 1);
      ArmAll(Step(s, Arm));
    }
  }

  /** If no client comes back, the channel is closed in the end. */
  lemma {:induction false} IdleEndsInAClose(exit: nat, acts: seq<Action>)
    ensures var s := Run(Start(exit), acts);
      s.core.conns == {} ==> Run(s, Ending(s)).core.idleFired
  {
    var s := Run(Start(exit), acts);
    RunKeepsInv(Start(exit), acts);
    var late := [Tick(s.exit + TimeLeft(s)), Fire, Callback];
    RunAppend(s, Repeat(Arm, s.arming), late);
    ArmAll(s);
    var t := Run(s, Repeat(Arm, s.arming));
    RunOfThree(t, late[0], Fire, Callback);
    if s.core.conns == {} {
      RunKeepsInv(s, Repeat(Arm, s.arming));
    }
  }

  lemma RunOfThree(s: State, a: Action, b: Action, c: Action)
    ensures Run(s, [a, b, c]) == Step(Step(Step(s, a), b), c)
  {
    assert [a, b, c][1..] == [b, c] && [b, c][1..] == [c] && [c][1..] == [];
    assert Run(s, [a, b, c]) == Run(Step(s, a), [b, c]);
    assert Run(Step(s, a), [b, c]) == Run(Step(Step(s, a), b), [c]);
    assert Run(Step(Step(s, a), b), [c]) == Run(Step(Step(Step(s, a), b), c), []);
  }

  // ---- "client-free for IdleExit" ----

  predicate ClosedEarly(s: State) {
    s.idleAfter.Some? && s.idleAfter.value < s.exit
  }

  predicate AcceptFree(acts: seq<Action>) {
    forall i :: 0 <= i < |acts| ==> !acts[i].Accept?
  }

  /** A dropped client's goroutine has yet to arm its timer, or a fired timer has
      yet to get the lock. */
  predicate Racy(s: State) {
    s.arming > 0 || s.callbacks > 0
  }

  /** Nothing is left over from an earlier quiet time. */
  predicate Clean(s: State) {
    && s.quietSince <= s.now && !ClosedEarly(s)
    && (s.core.conns != {} ==> s.core.timer == Stopped && !Racy(s))
    && (s.core.timer.Armed? ==> s.quietSince + s.exit <= s.core.timer.deadline)
    && (s.callbacks > 0 ==> s.quietSince + s.exit <= s.now)
  }

  /** The guard of a whole run: no client is let in while a race is on. */
  predicate Unraced(s: State, acts: seq<Action>)
    decreases |acts|
  {
    acts == [] || ((acts[0].Accept? && acts[0].c !in s.core.conns ==> !Racy(s)) && Unraced(Step(s, acts[0]), acts[1..]))
  }

  lemma {:induction false} UnracedKeepsClean(s: State, acts: seq<Action>)
    requires Clean(s) && Unraced(s, acts)
    ensures Clean(Run(s, acts))
    decreases |acts|
  {
    if acts != [] {
      UnracedKeepsClean(Step(s, acts[0]), acts[1..]);
    }
  }

  /** Where no client comes in during a race, the channel closes only after the
      server has been free of clients for the whole idle time. */
  lemma {:induction false} UnracedIsNeverEarly(exit: nat, acts: seq<Action>)
    requires Unraced(Start(exit), acts)
    ensures !ClosedEarly(Run(Start(exit), acts))
  {
    UnracedKeepsClean(Start(exit), acts);
  }

  lemma {:induction false} AcceptFreeIsUnraced(s: State, acts: seq<Action>)
    requires AcceptFree(acts)
    ensures Unraced(s, acts)
    decreases |acts|
  {
    if acts != [] {
      AcceptFreeIsUnraced(Step(s, acts[0]), acts[1..]);
    }
  }

  /** The two races: a callback that waited while the client came and went, and a
      timer armed on behalf of an earlier client while this one is connected. */
  function EarlyEnding(s: State, c: nat): (acts: seq<Action>)
    ensures AcceptFree(acts)
  {
    if s.callbacks > 0 then [Drop(c), Callback] else [Arm, Tick(s.exit), Drop(c), Fire, Callback]
  }

  lemma EarlyEndingIsEarly(s: State, c: nat)
    requires Inv(s) && s.core.conns == {} && !s.core.idleFired && s.exit > 0 && Racy(s)
    ensures ClosedEarly(Run(Step(s, Accept(c)), EarlyEnding(s, c)))
  {
    var t := Step(s, Accept(c));
    if s.callbacks > 0 {
      assert [Drop(c), Callback][1..] == [Callback] && [Callback][1..] == [];
      assert Run(t, [Drop(c), Callback]) == Run(Step(t, Drop(c)), [Callback]);
      assert Run(Step(t, Drop(c)), [Callback]) == Run(Step(Step(t, Drop(c)), Callback), []);
    } else {
      var rest := [Drop(c), Fire, Callback];
      assert EarlyEnding(s, c) == [Arm] + ([Tick(s.exit)] + rest);
      RunAppend(t, [Arm], [Tick(s.exit)] + rest);
      assert [Arm][1..] == [];
      assert Run(t, [Arm]) == Run(Step(t, Arm), []);
      var u := Step(t, Arm);
      RunAppend(u, [Tick(s.exit)], rest);
      assert [Tick(s.exit)][1..] == [];
      assert Run(u, [Tick(s.exit)]) == Run(Step(u, Tick(s.exit)), []);
      RunOfThree(Step(u, Tick(s.exit)), Drop(c), Fire, Callback);
    }
  }

  /** Exactly when a visit can cut the idle time short: letting a client into a
      server without clients can end, with no further arrivals, in a close less than
      the idle time after it left, if and only if a race was on when it came. */
  lemma {:induction false} EarlyCloseIff(exit: nat, acts: seq<Action>, c: nat)
    requires exit > 0
    ensures var s := Run(Start(exit), acts);
      s.core.conns == {} && !s.core.idleFired ==>
        ((exists more :: AcceptFree(more) && ClosedEarly(Run(Step(s, Accept(c)), more))) <==> Racy(s))
  {
    var s := Run(Start(exit), acts);
    RunKeepsInv(Start(exit), acts);
    RunKeepsExit(Start(exit), acts);
    if s.core.conns == {} && !s.core.idleFired {
      if Racy(s) {
        EarlyEndingIsEarly(s, c);
      } else {
        forall more | AcceptFree(more) ensures !ClosedEarly(Run(Step(s, Accept(c)), more)) {
          AcceptFreeIsUnraced(Step(s, Accept(c)), more);
          UnracedKeepsClean(Step(s, Accept(c)), more);
        }
      }
    }
  }

  lemma {:induction false} RunKeepsExit(s: State, acts: seq<Action>)
    ensures Run(s, acts).exit == s.exit
    decreases |acts|
  {
    if acts != [] {
      RunKeepsExit(Step(s, acts[0]), acts[1..]);
    }
  }

  /** A second client that comes while the first one's timer has fired but its
      callback waits, and leaves at once: the server exits with it just gone. */
  lemma {:induction false} EarlyCloseExample()
    ensures ClosedEarly(Run(Start(30), [Tick(30), Fire, Accept(1), Drop(1), Callback]))
  {
    var s := Step(Step(Start(30), Tick(30)), Fire);
    RunAppend(Start(30), [Tick(30), Fire], [Accept(1), Drop(1), Callback]);
    assert [Tick(30), Fire] + [Accept(1), Drop(1), Callback] == [Tick(30), Fire, Accept(1), Drop(1), Callback];
    assert [Tick(30), Fire][1..] == [Fire] && [Fire][1..] == [];
    assert Run(Start(30), [Tick(30), Fire]) == Run(Step(Start(30), Tick(30)), [Fire]);
    assert Run(Step(Start(30), Tick(30)), [Fire]) == Run(s, []);
    RunOfThree(s, Accept(1), Drop(1), Callback);
  }

  // ---- what is outstanding, and who is inside ----

  /** The action takes place in s. */
  predicate Happens(s: State, a: Action) {
    match a
    case Accept(c) => c !in s.core.conns
    case Drop(c) => c in s.core.conns
    case Arm => s.arming > 0
    case Fire => s.core.timer.Armed? && s.core.timer.deadline <= s.now
    case Callback => s.callbacks > 0
    case Tick(_) => true
  }

  /** The last client leaves. */
  predicate Empties(s: State, a: Action) {
    a.Drop? && s.core.conns == {a.c}
  }

  /** How often, over a run, the last client left, or an action took place. */
  function Emptied(s: State, acts: seq<Action>): nat
    decreases |acts|
  {
    if acts == [] then 0 else (if Empties(s, acts[0]) then 1 else 0) + Emptied(Step(s, acts[0]), acts[1..])
  }

  function Times(s: State, acts: seq<Action>, a: Action): nat
    decreases |acts|
  {
    if acts == [] then 0
    else (if acts[0] == a && Happens(s, a) then 1 else 0) + Times(Step(s, acts[0]), acts[1..], a)
  }

  lemma {:induction false} LedgerFrom(s: State, acts: seq<Action>)
    ensures var t := Run(s, acts);
      && t.arming + Times(s, acts, Arm) == s.arming + Emptied(s, acts)
      && t.callbacks + Times(s, acts, Callback) == s.callbacks + Times(s, acts, Fire)
    decreases |acts|
  {
    if acts != [] {
      LedgerFrom(Step(s, acts[0]), acts[1..]);
    }
  }

  /** Over any run, each time the last client leaves the timer is armed once, and each time
      it fires its callback runs once, or is still to do so. */
  lemma {:induction false} EachOnce(exit: nat, acts: seq<Action>)
    ensures var s, t := Start(exit), Run(Start(exit), acts);
      && t.arming + Times(s, acts, Arm) == Emptied(s, acts)
      && t.callbacks + Times(s, acts, Callback) == Times(s, acts, Fire)
  {
    LedgerFrom(Start(exit), acts);
  }

  /** The client has come and not gone since. */
  predicate Inside(acts: seq<Action>, c: nat) {
    acts != [] &&
    var a := acts[|acts| - 1];
    if a == Accept(c) then true else if a == Drop(c) then false else Inside(acts[..|acts| - 1], c)
  }

  lemma {:induction false} InsideFrom(s: State, acts: seq<Action>, c: nat)
    ensures c in Run(s, acts).core.conns <==> Inside(acts, c) || (c in s.core.conns && Drop(c) !in acts)
    decreases |acts|
  {
    if acts != [] {
      var n := |acts| - 1;
      InsideFrom(s, acts[..n], c);
      assert acts == acts[..n] + [acts[n]] && [acts[n]][1..] == [];
      RunAppend(s, acts[..n], [acts[n]]);
      assert Run(Run(s, acts[..n]), [acts[n]]) == Run(Step(Run(s, acts[..n]), acts[n]), []);
      assert Drop(c) in acts <==> Drop(c) in acts[..n] || acts[n] == Drop(c);
    }
  }

  /** The registered clients are those that are inside; a timer fires only when it is due,
      and then once. */
  lemma {:induction false} ClientsAreInside(exit: nat, acts: seq<Action>, c: nat)
    ensures var s := Run(Start(exit), acts);
      && (c in s.core.conns <==> Inside(acts, c))
      && Step(Step(s, Fire), Fire) == Step(s, Fire)
      && (Step(s, Fire) != s ==> s.core.timer.Armed? && s.core.timer.deadline <= s.now && Step(s, Fire).core.timer == Stopped)
  {
    InsideFrom(Start(exit), acts, c);
  }

  /** A server that nobody ever visits closes its channel when the idle time has passed, and
      not before. */
  lemma {:induction false} UnvisitedCloses(exit: nat, early: nat)
    requires early < exit
    ensures var s := Run(Start(exit), [Tick(exit), Fire, Callback]);
      s.core.idleFired && s.idleAfter == Some(exit) && s.now == exit
    ensures !Run(Start(exit), [Tick(early), Fire, Callback]).core.idleFired
  {
    RunOfThree(Start(exit), Tick(exit), Fire, Callback);
    RunOfThree(Start(exit), Tick(early), Fire, Callback);
  }
}
