/** What becomes of a call of the Go client: the way of its reply back to it, past
    whatever else happens on the connection, and the other ways a call can end. */
module RpcReplies {
  import opened Common
  import opened RpcClient

  // ---- what other calls cannot touch ----

  /** An action that is not about this call and does not end the connection. */
  predicate Elsewhere(a: Action, id: nat) {
    match a
    case NewCall => true
    case Register(x) => x != id
    case Write(x, _, _) => x != id
    case Receive(x) => x != id
    case Cancel(x) => x != id
    case Leave(x) => x != id
    case Take(x) => x != id
    case Answer(x, _) => x != id
    case Read(x, _) => x != id
    case Deliver => true
    case EndOfInput => false
    case CloseClient => true
  }

  predicate AllElsewhere(acts: seq<Action>, id: nat) {
    forall i :: 0 <= i < |acts| ==> Elsewhere(acts[i], id)
  }

  /** How far the exchange has come, as far as anybody else is concerned. */
  datatype Leg = Asked | Served | Answered(payload: string) | Back(payload: string)

  /** The call is waiting, and its request or reply is where the leg says. */
  ghost predicate OnItsWay(s: State, id: nat, leg: Leg) {
    && At(s, id, Waiting) && id in s.core.pending && s.reader != Ended
    && match leg
       case Asked => id in s.inbox
       case Served => id in s.serving
       case Answered(payload) => id in s.wire && id in s.answered && s.answered[id] == payload
       case Back(payload) => Buffered(s, id) && s.core.chans[id].buf.value == payload
  }

  lemma {:induction false} OthersPass(s: State, acts: seq<Action>, id: nat, leg: Leg)
    requires Inv(s) && OnItsWay(s, id, leg) && AllElsewhere(acts, id)
    ensures Inv(Run(s, acts)) && OnItsWay(Run(s, acts), id, leg)
    decreases |acts|
  {
    hide Inv, Step, OnItsWay, Elsewhere;
    if acts != [] {
      assert Elsewhere(acts[0], id);
      OtherPasses(s, acts[0], id, leg);
      KeepsInv(s, acts[0]);
      OthersPass(Step(s, acts[0]), acts[1..], id, leg);
    }
  }

  lemma OtherPasses(s: State, a: Action, id: nat, leg: Leg)
    requires Inv(s) && OnItsWay(s, id, leg) && Elsewhere(a, id)
    ensures OnItsWay(Step(s, a), id, leg)
  {
    hide Inv, OnItsWay, Elsewhere, Step;
    if a.Take? || a.Answer? || a.Read? || a.Deliver? || a.CloseClient? {
      TransferPasses(s, a, id, leg);
    } else {
      OtherCallPasses(s, a, id, leg);
    }
  }

  lemma TransferPasses(s: State, a: Action, id: nat, leg: Leg)
    requires Inv(s) && OnItsWay(s, id, leg) && Elsewhere(a, id)
    requires a.Take? || a.Answer? || a.Read? || a.Deliver? || a.CloseClient?
    ensures OnItsWay(Step(s, a), id, leg)
  {
    assert IdInv(s, id);
  }

  lemma OtherCallPasses(s: State, a: Action, id: nat, leg: Leg)
    requires Inv(s) && OnItsWay(s, id, leg) && Elsewhere(a, id)
    requires !(a.Take? || a.Answer? || a.Read? || a.Deliver? || a.CloseClient?)
    ensures OnItsWay(Step(s, a), id, leg)
  {
    assert IdInv(s, id);
  }

  // ---- the way of a reply ----

  lemma {:induction false} RunAppend(s: State, a: seq<Action>, b: seq<Action>)
    ensures Run(s, a + b) == Run(Run(s, a), b)
    decreases |a|
  {
    hide Step;
    if a == [] {
      assert a + b == b;
    } else {
      assert (a + b)[1..] == a[1..] + b;
      RunAppend(Step(s, a[0]), a[1..], b);
    }
  }

  lemma RunFirst(s: State, a: Action, b: seq<Action>)
    ensures Run(s, [a] + b) == Run(Step(s, a), b)
  {
    hide Step;
    assert ([a] + b)[1..] == b;
  }

  /** The call takes its reply out of the channel and returns. */
  function Return(id: nat, between: seq<seq<Action>>): seq<Action>
    requires |between| == 5
  {
    between[3] + ([Receive(id)] + (between[4] + [Leave(id)]))
  }

  /** The reader puts down what it holds, reads the reply and delivers it. */
  function Fetch(id: nat, between: seq<seq<Action>>): seq<Action>
    requires |between| == 5
  {
    between[2] + ([Deliver] + ([Read(id, false)] + ([Deliver] + Return(id, between))))
  }

  /** A call's own exchange, from the write of its request to its return, and what others
      do in between. */
  function Exchange(id: nat, payload: string, between: seq<seq<Action>>): seq<Action>
    requires |between| == 5
  {
    [Write(id, true, true)]
    + (between[0] + ([Take(id)] + (between[1] + ([Answer(id, payload)] + Fetch(id, between)))))
  }

  ghost predicate Others(between: seq<seq<Action>>, id: nat) {
    |between| == 5 && forall i :: 0 <= i < 5 ==> AllElsewhere(between[i], id)
  }

  lemma {:induction false} Gone(s: State, acts: seq<Action>, id: nat, r: Result)
    requires Inv(s) && At(s, id, Leaving(r)) && AllElsewhere(acts, id)
    ensures At(Run(s, acts), id, Leaving(r))
    decreases |acts|
  {
    hide Inv;
    if acts != [] {
      assert Elsewhere(acts[0], id);
      StaysGone(s, acts[0], id, r);
      KeepsInv(s, acts[0]);
      hide Step, Elsewhere;
      Gone(Step(s, acts[0]), acts[1..], id, r);
    }
  }

  lemma StaysGone(s: State, a: Action, id: nat, r: Result)
    requires Inv(s) && At(s, id, Leaving(r)) && Elsewhere(a, id)
    ensures At(Step(s, a), id, Leaving(r))
  {
    assert IdInv(s, id);
  }

  lemma Returns(s: State, id: nat, payload: string, between: seq<seq<Action>>)
    requires Inv(s) && OnItsWay(s, id, Back(payload)) && Others(between, id)
    ensures At(Run(s, Return(id, between)), id, Done(Got(payload)))
  {
    hide Inv, Run, AllElsewhere;
    var t := Run(s, between[3]);
    OthersPass(s, between[3], id, Back(payload));
    RunAppend(s, between[3], [Receive(id)] + (between[4] + [Leave(id)]));
    RunFirst(t, Receive(id), between[4] + [Leave(id)]);
    var u := Step(t, Receive(id));
    KeepsInv(t, Receive(id));
    Gone(u, between[4], id, Got(payload));
    RunAppend(u, between[4], [Leave(id)]);
    RunFirst(Run(u, between[4]), Leave(id), []);
    assert [Leave(id)] + [] == [Leave(id)];
    NoMore(Step(Run(u, between[4]), Leave(id)));
  }

  lemma NoMore(s: State)
    ensures Run(s, []) == s
  {
  }

  lemma PutDown(s: State, id: nat, payload: string)
    requires Inv(s) && OnItsWay(s, id, Answered(payload))
    ensures OnItsWay(Step(s, Deliver), id, Answered(payload)) && Step(s, Deliver).reader == Reading
  {
    assert IdInv(s, id);
    if s.reader.Holding? {
      assert IdInv(s, s.reader.id);
    }
  }

  lemma ReadAndDelivered(s: State, id: nat, payload: string)
    requires Inv(s) && OnItsWay(s, id, Answered(payload)) && s.reader == Reading
    ensures OnItsWay(Step(Step(s, Read(id, false)), Deliver), id, Back(payload))
  {
    assert IdInv(s, id);
  }

  lemma Fetches(s: State, id: nat, payload: string, between: seq<seq<Action>>)
    requires Inv(s) && OnItsWay(s, id, Answered(payload)) && Others(between, id)
    ensures At(Run(s, Fetch(id, between)), id, Done(Got(payload)))
  {
    hide Inv, Run, AllElsewhere, Step, OnItsWay, Return;
    var t0 := Run(s, between[2]);
    OthersPass(s, between[2], id, Answered(payload));
    var t1 := Step(t0, Deliver);
    var t2 := Step(t1, Read(id, false));
    var t3 := Step(t2, Deliver);
    KeepsInv(t0, Deliver);
    KeepsInv(t1, Read(id, false));
    KeepsInv(t2, Deliver);
    PutDown(t0, id, payload);
    ReadAndDelivered(t1, id, payload);
    Returns(t3, id, payload, between);
    RunFirst(t2, Deliver, Return(id, between));
    RunFirst(t1, Read(id, false), [Deliver] + Return(id, between));
    RunFirst(t0, Deliver, [Read(id, false)] + ([Deliver] + Return(id, between)));
    RunAppend(s, between[2], [Deliver] + ([Read(id, false)] + ([Deliver] + Return(id, between))));
  }

  lemma SetsOut(s: State, id: nat)
    requires Inv(s) && At(s, id, Ready) && s.reader != Ended
    ensures OnItsWay(Step(s, Write(id, true, true)), id, Asked)
  {
    assert IdInv(s, id);
  }

  lemma IsTaken(s: State, id: nat)
    requires Inv(s) && OnItsWay(s, id, Asked)
    ensures OnItsWay(Step(s, Take(id)), id, Served)
  {
  }

  lemma IsAnswered(s: State, id: nat, payload: string)
    requires Inv(s) && OnItsWay(s, id, Served)
    ensures OnItsWay(Step(s, Answer(id, payload)), id, Answered(payload))
  {
  }

  /** A call that is ready to write, on a connection whose reader has not ended, gets back
      what the server answers to it, whatever other calls, replies and cancellations come
      in between, and even if the client is closed meanwhile. */
  lemma {:induction false} ReplyComesBack(acts: seq<Action>, id: nat, payload: string, between: seq<seq<Action>>)
    requires Others(between, id)
    requires var s := Run(Start(), acts); At(s, id, Ready) && s.reader != Ended
    ensures At(Run(Start(), acts + Exchange(id, payload, between)), id, Done(Got(payload)))
  {
    hide Inv, Run, AllElsewhere, Step, OnItsWay, Fetch;
    Reachable(acts);
    var s := Run(Start(), acts);
    var t0 := Step(s, Write(id, true, true));
    SetsOut(s, id);
    KeepsInv(s, Write(id, true, true));
    var t1 := Run(t0, between[0]);
    OthersPass(t0, between[0], id, Asked);
    var t2 := Step(t1, Take(id));
    IsTaken(t1, id);
    KeepsInv(t1, Take(id));
    var t3 := Run(t2, between[1]);
    OthersPass(t2, between[1], id, Served);
    var t4 := Step(t3, Answer(id, payload));
    IsAnswered(t3, id, payload);
    KeepsInv(t3, Answer(id, payload));
    Fetches(t4, id, payload, between);
    var last := Fetch(id, between);
    RunFirst(t3, Answer(id, payload), last);
    RunAppend(t2, between[1], [Answer(id, payload)] + last);
    RunFirst(t1, Take(id), between[1] + ([Answer(id, payload)] + last));
    RunAppend(t0, between[0], [Take(id)] + (between[1] + ([Answer(id, payload)] + last)));
    RunFirst(s, Write(id, true, true), between[0] + ([Take(id)] + (between[1] + ([Answer(id, payload)] + last))));
    RunAppend(Start(), acts, Exchange(id, payload, between));
  }

  /** Wherever a reachable state has a reply on the wire for a waiting call, the reader
      has only to read and deliver it. */
  lemma {:induction false} ReplyOnTheWireArrives(acts: seq<Action>, id: nat)
    requires var s := Run(Start(), acts); At(s, id, Waiting) && id in s.wire && s.reader == Reading
    ensures var s := Run(Start(), acts);
      && id in s.answered
      && At(Run(s, [Read(id, false), Deliver, Receive(id), Leave(id)]), id, Done(Got(s.answered[id])))
  {
    hide Run, Inv, Step;
    Reachable(acts);
    var s := Run(Start(), acts);
    WaitingIsOnItsWay(s, id);
    var payload := s.answered[id];
    var t := Step(Step(s, Read(id, false)), Deliver);
    KeepsInv(s, Read(id, false));
    KeepsInv(Step(s, Read(id, false)), Deliver);
    ReadAndDelivered(s, id, payload);
    var none := [[], [], [], [], []];
    Returns(t, id, payload, none);
    assert Return(id, none) == [Receive(id), Leave(id)];
    assert [Read(id, false), Deliver, Receive(id), Leave(id)] == [Read(id, false)] + ([Deliver] + [Receive(id), Leave(id)]);
    RunFirst(s, Read(id, false), [Deliver] + [Receive(id), Leave(id)]);
    RunFirst(Step(s, Read(id, false)), Deliver, [Receive(id), Leave(id)]);
  }

  lemma WaitingIsOnItsWay(s: State, id: nat)
    requires Inv(s) && At(s, id, Waiting) && id in s.wire && s.reader == Reading
    ensures id in s.answered && OnItsWay(s, id, Answered(s.answered[id]))
  {
    assert IdInv(s, id);
  }

  // ---- the other ways a call ends ----

  /** A call's id is new, on an open client it makes its channel and on a closed one it is
      refused, and a failed write or a cancelled context returns as such; a call that has
      returned has left nothing pending, and a reply that comes for it afterwards is read
      and dropped. */
  lemma {:induction false} CallsEnd(acts: seq<Action>, id: nat, delivered: bool)
    ensures var s := Run(Start(), acts);
      && s.nextId + 1 !in s.calls && At(Step(s, NewCall), s.nextId + 1, Fresh) && Step(s, NewCall).nextId == s.nextId + 1
      && (At(s, id, Fresh) && !s.core.closed ==> At(Step(s, Register(id)), id, Ready) && id in Step(s, Register(id)).core.pending)
      && (At(s, id, Fresh) ==> At(Step(Step(s, CloseClient), Register(id)), id, Done(Refused)))
      && (At(s, id, Ready) ==> At(Step(Step(s, Write(id, false, delivered)), Leave(id)), id, Done(WriteFailed)))
      && (At(s, id, Waiting) ==> At(Step(Step(s, Cancel(id)), Leave(id)), id, Done(Cancelled)))
      && (id in s.calls && s.calls[id].Done? ==>
            && id !in s.core.pending
            && forall garbled :: Step(s, Read(id, garbled)) ==
                 if s.reader == Reading && id in s.wire then s.(wire := s.wire - multiset{id}) else s)
  {
    hide Run;
    Reachable(acts);
    var s := Run(Start(), acts);
    assert IdInv(s, id) && IdInv(s, s.nextId + 1);
  }

  /** When the input ends, the reader ends; then every waiting call without a reply in its
      channel is told so, and after that no call begins. */
  lemma {:induction false} EndReachesEveryone(acts: seq<Action>, id: nat)
    ensures var s := Run(Start(), acts);
      && s.reader == Reading ==>
        && var t := Step(s, EndOfInput);
           && t.reader == Ended
           && (At(s, id, Waiting) && !Buffered(s, id) ==> At(Step(Step(t, Receive(id)), Leave(id)), id, Done(Dropped)))
           && (At(s, id, Fresh) ==> At(Step(t, Register(id)), id, Done(Refused)))
  {
    hide Run;
    Reachable(acts);
    var s := Run(Start(), acts);
    assert IdInv(s, id);
  }

  /** A connection starts open, with its reader reading, and its first call is ready after
      registering. */
  lemma FirstCall()
    ensures At(Run(Start(), [NewCall, Register(1)]), 1, Ready) && Run(Start(), [NewCall, Register(1)]).reader == Reading
  {
    RunFirst(Start(), NewCall, [Register(1)]);
    RunFirst(Step(Start(), NewCall), Register(1), []);
    assert [NewCall] + [Register(1)] == [NewCall, Register(1)] && [Register(1)] + [] == [Register(1)];
  }

  /** As long as nobody closes the client and the input goes on, the client stays open and
      its reader alive. */
  lemma {:induction false} StaysOpen(acts: seq<Action>)
    requires forall i :: 0 <= i < |acts| ==> acts[i] != CloseClient && acts[i] != EndOfInput
    ensures var s := Run(Start(), acts); !s.core.closed && s.reader != Ended
  {
    OpenFrom(Start(), acts);
  }

  lemma {:induction false} OpenFrom(s: State, acts: seq<Action>)
    requires !s.core.closed && s.reader != Ended
    requires forall i :: 0 <= i < |acts| ==> acts[i] != CloseClient && acts[i] != EndOfInput
    ensures var t := Run(s, acts); !t.core.closed && t.reader != Ended
    decreases |acts|
  {
    if acts != [] {
      OpenStep(s, acts[0]);
      hide Step;
      OpenFrom(Step(s, acts[0]), acts[1..]);
    }
  }

  lemma OpenStep(s: State, a: Action)
    requires !s.core.closed && s.reader != Ended && a != CloseClient && a != EndOfInput
    ensures !Step(s, a).core.closed && Step(s, a).reader != Ended
  {
  }
}
