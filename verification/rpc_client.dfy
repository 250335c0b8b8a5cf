/** Request/response correlation over one connection: the Go client of
    internal/rpc/client.go and the reading side of internal/rpc/server.go. Calls
    are pipelined, replies come back in any order, and either side may go away at
    any time. One action is one critical section, channel operation or transfer. */
module RpcClient {
  import opened Common

  /** A reply channel of capacity one, named by the id of the call that made it. */
  datatype Chan = Chan(buf: Option<string>, closed: bool)

  /** The client's fields that mu protects, and the channels made so far. */
  datatype Core = Core(closed: bool, pending: set<nat>, chans: map<nat, Chan>)

  // ---- critical sections ----

  function Registered(c: Core, id: nat): Core {
    if c.closed then c else Core(false, c.pending + {id}, c.chans[id := Chan(None, false)])
  }

  function Unregistered(c: Core, id: nat): Core {
    c.(pending := c.pending - {id})
  }

  /** The end of the read loop: every pending channel is closed and dropped. */
  function Drained(c: Core): Core {
    Core(true, {}, map id | id in c.chans :: if id in c.pending then c.chans[id].(closed := true) else c.chans[id])
  }

  class Client {
    var closed: bool
    var pending: set<nat>
    var chans: map<nat, Chan>

    function State(): Core
      reads this
    {
      Core(closed, pending, chans)
    }

    method Register(id: nat) returns (ok: bool)
      modifies this
      ensures ok == !old(closed) && State() == Registered(old(State()), id)
    {
      if closed {
        return false;
      }
      chans := chans[id := Chan(None, false)];
      pending := pending + {id};
      return true;
    }

    method Unregister(id: nat)
      modifies this`pending
      ensures State() == Unregistered(old(State()), id)
    {
      pending := pending - {id};
    }

    method Drain()
      requires pending <= chans.Keys
      modifies this
      ensures State() == Drained(old(State()))
    {
      closed := true;
      var left := pending;
      while left != {}
        invariant left <= pending <= chans.Keys == old(chans).Keys && pending == old(pending) && closed
        invariant forall id :: id in chans ==>
          chans[id] == if id in pending && id !in left then old(chans)[id].(closed := true) else old(chans)[id]
        decreases |left|
      {
        var id :| id in left;
        chans := chans[id := chans[id].(closed := true)];
        left := left - {id};
      }
      pending := {};
    }
  }

  // ---- the protocol ----

  datatype Result = Got(payload: string) | Dropped | Cancelled | WriteFailed | Refused

  /** Where one Call stands. */
  datatype Pc = Fresh | Ready | Waiting | Leaving(r: Result) | Done(r: Result)

  datatype Reader = Reading | Holding(id: nat) | Ended

  /** inbox and wire hold ids on their way to and from the server; serving those
      being handled; answered what the server has said to each id. */
  datatype State = State(
    nextId: nat, core: Core, calls: map<nat, Pc>, reader: Reader,
    inbox: multiset<nat>, serving: multiset<nat>, wire: multiset<nat>, answered: map<nat, string>)

  datatype Action =
    | NewCall
    | Register(id: nat)
    | Write(id: nat, ok: bool, delivered: bool)
    | Receive(id: nat)
    | Cancel(id: nat)
    | Leave(id: nat)
    | Take(id: nat)
    | Answer(id: nat, payload: string)
    | Read(id: nat, garbled: bool)
    | Deliver
    | EndOfInput
    | CloseClient

  predicate At(s: State, id: nat, pc: Pc) {
    id in s.calls && s.calls[id] == pc
  }

  function Goto(s: State, id: nat, pc: Pc): State {
    s.(calls := s.calls[id := pc])
  }

  /** One step; an action that is not enabled leaves the state as it is. */
  function Step(s: State, a: Action): State {
    match a
    case NewCall => Goto(s.(nextId := s.nextId + 1), s.nextId + 1, Fresh)
    case Register(id) =>
      if !At(s, id, Fresh) then s
      else if s.core.closed then Goto(s, id, Done(Refused))
      else Goto(s.(core := Registered(s.core, id)), id, Ready)
    case Write(id, ok, delivered) =>
      if !At(s, id, Ready) then s
      else
        // a failed write may or may not have reached the server
        var t := Goto(s, id, if ok then Waiting else Leaving(WriteFailed));
        if delivered then t.(inbox := s.inbox + multiset{id}) else t
    case Receive(id) =>
      if !At(s, id, Waiting) || id !in s.core.chans then s
      else
        var c := s.core.chans[id];
        if c.buf.Some? then
          Goto(s.(core := s.core.(chans := s.core.chans[id := c.(buf := None)])), id, Leaving(Got(c.buf.value)))
        else if c.closed then Goto(s, id, Leaving(Dropped))
        else s
    case Cancel(id) => if At(s, id, Waiting) then Goto(s, id, Leaving(Cancelled)) else s
    case Leave(id) =>
      if id in s.calls && s.calls[id].Leaving? then
        Goto(s.(core := Unregistered(s.core, id)), id, Done(s.calls[id].r))
      else s
    case Take(id) =>
      if id in s.inbox then s.(inbox := s.inbox - multiset{id}, serving := s.serving + multiset{id}) else s
    case Answer(id, payload) =>
      if id in s.serving then
        s.(serving := s.serving - multiset{id}, wire := s.wire + multiset{id}, answered := s.answered[id := payload])
      else s
    case Read(id, garbled) =>
      if s.reader != Reading || id !in s.wire then s
      else
        var t := s.(wire := s.wire - multiset{id});
        if garbled || id !in s.core.pending then t else t.(reader := Holding(id))
    case Deliver =>
      if s.reader.Holding? && CanDeliver(s) then
        var id := s.reader.id;
        s.(reader := Reading, core := s.core.(chans := s.core.chans[id := Chan(Some(s.answered[id]), false)]))
      else s
    case EndOfInput => if s.reader == Reading then s.(reader := Ended, core := Drained(s.core)) else s
    case CloseClient => s.(core := s.core.(closed := true))
  }

  /** The reader's send on the reply channel neither blocks nor panics. */
  predicate CanDeliver(s: State)
    requires s.reader.Holding?
  {
    var id := s.reader.id;
    id in s.core.chans && s.core.chans[id] == Chan(None, false) && id in s.answered
  }

  function Start(): State {
    State(0, Core(false, {}, map[]), map[], Reading, multiset{}, multiset{}, multiset{}, map[])
  }

  function Run(s: State, acts: seq<Action>): State
    decreases |acts|
  {
    if acts == [] then s else Run(Step(s, acts[0]), acts[1..])
  }

  // ---- the invariant, id by id ----

  function One(b: bool): nat {
    if b then 1 else 0
  }

  predicate Buffered(s: State, id: nat) {
    id in s.core.chans && s.core.chans[id].buf.Some?
  }

  predicate HasGot(s: State, id: nat) {
    id in s.calls && (s.calls[id].Leaving? || s.calls[id].Done?) && s.calls[id].r.Got?
  }

  /** In how many places the request, or the reply to it, is. */
  function Copies(s: State, id: nat): nat {
    s.inbox[id] + s.serving[id] + s.wire[id] + One(s.reader == Holding(id)) + One(Buffered(s, id)) + One(HasGot(s, id))
  }

  ghost predicate IdInv(s: State, id: nat) {
    && Copies(s, id) <= 1
    && (id > s.nextId ==> id !in s.calls)
    && (id !in s.calls || s.calls[id] in {Fresh, Ready, Done(Refused)} ==> Copies(s, id) == 0 && id !in s.answered)
    && (id in s.inbox || id in s.serving ==> id !in s.answered)
    && (id in s.wire || s.reader == Holding(id) || Buffered(s, id) || HasGot(s, id) ==> id in s.answered)
    && (Buffered(s, id) ==> s.core.chans[id].buf.value == s.answered[id])
    && (HasGot(s, id) ==> s.calls[id].r.payload == s.answered[id])
    && (id in s.core.chans <==> id in s.calls && s.calls[id] !in {Fresh, Done(Refused)})
    && (id in s.core.pending ==> id in s.core.chans && !s.calls[id].Done?)
    && (id in s.calls && s.calls[id].Leaving? ==> s.calls[id].r != Refused)
    && (id in s.core.chans && s.core.chans[id].closed ==> s.reader == Ended)
    && (s.reader == Holding(id) ==> id in s.core.chans)
    && (At(s, id, Leaving(Dropped)) || At(s, id, Done(Dropped)) ==> s.reader == Ended)
    && (At(s, id, Ready) || At(s, id, Waiting) ==>
          id in s.core.pending || (id in s.core.chans && s.core.chans[id].closed))
    && (s.reader == Ended ==> s.core.closed && id !in s.core.pending)
  }

  ghost predicate Inv(s: State) {
    forall id :: IdInv(s, id)
  }

  lemma IdStepEnter(s: State, a: Action, id: nat)
    requires a.NewCall? || a.Register?
    requires IdInv(s, id) && (a.NewCall? ==> IdInv(s, s.nextId + 1))
    ensures IdInv(Step(s, a), id)
  {
  }

  lemma IdStepWrite(s: State, a: Action, id: nat)
    requires a.Write?
    requires IdInv(s, id)
    ensures IdInv(Step(s, a), id)
  {
  }

  lemma IdStepReceive(s: State, a: Action, id: nat)
    requires a.Receive? || a.Cancel?
    requires IdInv(s, id)
    ensures IdInv(Step(s, a), id)
  {
  }

  lemma IdStepLeave(s: State, a: Action, id: nat)
    requires a.Leave?
    requires IdInv(s, id)
    ensures IdInv(Step(s, a), id)
  {
  }

  lemma IdStepServe(s: State, a: Action, id: nat)
    requires a.Take? || a.Answer?
    requires IdInv(s, id)
    ensures IdInv(Step(s, a), id)
  {
  }

  lemma IdStepRead(s: State, a: Action, id: nat)
    requires a.Read?
    requires IdInv(s, id)
    ensures IdInv(Step(s, a), id)
  {
  }

  lemma IdStepDeliver(s: State, a: Action, id: nat)
    requires a.Deliver?
    requires IdInv(s, id)
    ensures IdInv(Step(s, a), id)
  {
  }

  lemma IdStepEnd(s: State, a: Action, id: nat)
    requires a.EndOfInput? || a.CloseClient?
    requires IdInv(s, id)
    ensures IdInv(Step(s, a), id)
  {
  }

  lemma {:induction false} KeepsInv(s: State, a: Action)
    requires Inv(s)
    ensures Inv(Step(s, a))
  {
    hide IdInv, Step;
    forall id ensures IdInv(Step(s, a), id) {
      assert IdInv(s, id) && IdInv(s, s.nextId + 1);
      match a
      case NewCall => IdStepEnter(s, a, id);
      case Register(_) => IdStepEnter(s, a, id);
      case Write(_, _, _) => IdStepWrite(s, a, id);
      case Receive(_) => IdStepReceive(s, a, id);
      case Cancel(_) => IdStepReceive(s, a, id);
      case Leave(_) => IdStepLeave(s, a, id);
      case Take(_) => IdStepServe(s, a, id);
      case Answer(_, _) => IdStepServe(s, a, id);
      case Read(_, _) => IdStepRead(s, a, id);
      case Deliver => IdStepDeliver(s, a, id);
      case EndOfInput => IdStepEnd(s, a, id);
      case CloseClient => IdStepEnd(s, a, id);
    }
  }

  lemma {:induction false} RunKeepsInv(s: State, acts: seq<Action>)
    requires Inv(s)
    ensures Inv(Run(s, acts))
    decreases |acts|
  {
    hide Inv, Step;
    if acts != [] {
      KeepsInv(s, acts[0]);
      RunKeepsInv(Step(s, acts[0]), acts[1..]);
    }
  }

  lemma {:induction false} Reachable(acts: seq<Action>)
    ensures Inv(Run(Start(), acts))
  {
    assert Inv(Start());
    RunKeepsInv(Start(), acts);
  }

  // ---- what every run promises ----

  /** A call that returns a reply returns what the server said to that very id,
      whatever the order of the replies. */
  lemma {:induction false} RepliesReachTheirCalls(acts: seq<Action>, id: nat)
    ensures var s := Run(Start(), acts);
      HasGot(s, id) ==> id in s.answered && s.calls[id].r.payload == s.answered[id]
  {
    hide Run;
    Reachable(acts);
    assert IdInv(Run(Start(), acts), id);
  }

  /** A reader holding a reply can always put it down at once: the channel has
      room and is open. */
  lemma {:induction false} ReaderNeverBlocks(acts: seq<Action>)
    ensures var s := Run(Start(), acts); s.reader.Holding? ==> CanDeliver(s)
  {
    hide Run;
    Reachable(acts);
    var s := Run(Start(), acts);
    if s.reader.Holding? {
      assert IdInv(s, s.reader.id);
    }
  }

  /** No id is ever answered twice: a second answer is not possible, so what was
      said once stays said. */
  lemma {:induction false} AnsweredOnce(acts: seq<Action>, id: nat)
    ensures var s := Run(Start(), acts);
      s.inbox[id] + s.serving[id] + s.wire[id] <= 1 && (id in s.answered ==> id !in s.inbox && id !in s.serving)
  {
    hide Run;
    Reachable(acts);
    assert IdInv(Run(Start(), acts), id);
  }

  lemma {:induction false} AnswersStand(acts: seq<Action>, more: seq<Action>, id: nat)
    requires id in Run(Start(), acts).answered
    ensures var t := Run(Run(Start(), acts), more);
      id in t.answered && t.answered[id] == Run(Start(), acts).answered[id]
    decreases |more|
  {
    hide Step;
    Reachable(acts);
    AnswersStandFrom(Run(Start(), acts), more, id);
  }

  lemma AnswerStep(s: State, a: Action, id: nat)
    requires IdInv(s, id) && id in s.answered
    ensures id in Step(s, a).answered && Step(s, a).answered[id] == s.answered[id]
  {
  }

  lemma {:induction false} AnswersStandFrom(s: State, more: seq<Action>, id: nat)
    requires Inv(s) && id in s.answered
    ensures var t := Run(s, more); id in t.answered && t.answered[id] == s.answered[id]
    decreases |more|
  {
    hide Step, IdInv;
    if more != [] {
      assert IdInv(s, id);
      AnswerStep(s, more[0], id);
      KeepsInv(s, more[0]);
      AnswersStandFrom(Step(s, more[0]), more[1..], id);
    }
  }

  /** Once the reader has ended, a call that has sent its request gets its buffered
      reply or a closed channel on its next receive, and no new call starts to wait
      on an open channel. */
  lemma {:induction false} NobodyIsLeftWaiting(acts: seq<Action>, id: nat)
    ensures var s := Run(Start(), acts);
      s.reader == Ended ==>
        && s.core.closed && s.core.pending == {}
        && (At(s, id, Waiting) ==> Step(s, Receive(id)).calls[id].Leaving?)
        && (At(s, id, Ready) ==> id in s.core.chans && s.core.chans[id].closed)
        && (At(s, id, Fresh) ==> Step(s, Register(id)).calls[id] == Done(Refused))
  {
    hide Run;
    Reachable(acts);
    var s := Run(Start(), acts);
    assert IdInv(s, id);
    if s.reader == Ended {
      forall k ensures k !in s.core.pending {
        assert IdInv(s, k);
      }
    }
  }

  /** While the reader lives, a call is told that the connection is gone only if it
      is: no reply channel closes early. */
  lemma {:induction false} ChannelsCloseOnlyAtTheEnd(acts: seq<Action>, id: nat)
    ensures var s := Run(Start(), acts);
      (At(s, id, Leaving(Dropped)) || At(s, id, Done(Dropped))) ==> s.reader == Ended
  {
    hide Run;
    Reachable(acts);
    assert IdInv(Run(Start(), acts), id);
  }

  /** A reply that has been put in the channel of a waiting call is what that call
      takes next, even when the connection has closed since. */
  lemma {:induction false} BufferedReplyIsTaken(acts: seq<Action>, id: nat)
    ensures var s := Run(Start(), acts);
      At(s, id, Waiting) && Buffered(s, id) ==>
        id in s.answered && Step(s, Receive(id)).calls[id] == Leaving(Got(s.answered[id]))
  {
    hide Run;
    Reachable(acts);
    assert IdInv(Run(Start(), acts), id);
  }
}
