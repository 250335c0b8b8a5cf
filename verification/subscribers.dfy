/** The subscriber list of internal/gm/gm.go. A waiting function adds a handler,
    remembers the index it went to, and takes out whatever is at that index when it
    is done. */
module Subscribers {

  /** Handlers are named in the order they are made; open maps the handler of each
      wait that is going on to the index it remembers. */
  datatype State = State(subs: seq<nat>, open: map<nat, nat>, next: nat)

  datatype Op = Subscribe | Begin | End(w: nat)

  function Without(subs: seq<nat>, i: nat): seq<nat> {
    if i < |subs| then subs[..i] + subs[i + 1..] else subs
  }

  /** What "remove only our subscriber" asks for. */
  function ByName(subs: seq<nat>, w: nat): seq<nat> {
    if subs == [] then []
    else if subs[0] == w then ByName(subs[1..], w)
    else [subs[0]] + ByName(subs[1..], w)
  }

  class Client {
    var subscribers: seq<nat>

    method Subscribe(h: nat)
      modifies this
      ensures subscribers == old(subscribers) + [h]
    {
      subscribers := subscribers + [h];
    }

    method Watch(h: nat) returns (idx: nat)
      modifies this
      ensures idx == old(|subscribers|) && subscribers == old(subscribers) + [h]
    {
      idx := |subscribers|;
      subscribers := subscribers + [h];
    }

    method Unsubscribe(idx: nat)
      modifies this
      ensures subscribers == Without(old(subscribers), idx)
    {
      if idx < |subscribers| {
        subscribers := subscribers[..idx] + subscribers[idx + 1..];
      }
    }

    /** One event reaches every handler once, in the order of registration, even if
        handlers are taken out meanwhile: the loop runs over a copy. */
    method Dispatch() returns (reached: seq<nat>)
      ensures reached == subscribers
    {
      var subs := subscribers;
      reached := [];
      for i := 0 to |subs|
        invariant reached == subs[..i]
      {
        reached := reached + [subs[i]];
      }
    }
  }

  function Step(s: State, op: Op): State {
    match op
    case Subscribe => State(s.subs + [s.next], s.open, s.next + 1)
    case Begin => State(s.subs + [s.next], s.open[s.next := |s.subs|], s.next + 1)
    case End(w) => if w in s.open then s.(subs := Without(s.subs, s.open[w]), open := s.open - {w}) else s
  }

  function Run(s: State, ops: seq<Op>): State
    decreases |ops|
  {
    if ops == [] then s else Run(Step(s, ops[0]), ops[1..])
  }

  predicate Valid(s: State) {
    && (forall i :: 0 <= i < |s.subs| ==> s.subs[i] < s.next)
    && (forall i, j :: 0 <= i < j < |s.subs| ==> s.subs[i] != s.subs[j])
    && (forall w :: w in s.open ==> w < s.next)
  }

  lemma StepValid(s: State, op: Op)
    requires Valid(s)
    ensures Valid(Step(s, op)) && Step(s, op).next >= s.next
  {
  }

  // ---- when a wait takes out its own handler ----

  lemma {:induction false} ByNameAbsent(subs: seq<nat>, w: nat)
    requires w !in subs
    ensures ByName(subs, w) == subs
  {
    if subs != [] {
      ByNameAbsent(subs[1..], w);
      assert [subs[0]] + subs[1..] == subs;
    }
  }

  lemma {:induction false} ByNameIsWithout(subs: seq<nat>, w: nat, i: nat)
    requires i < |subs| && subs[i] == w
    requires forall j, k :: 0 <= j < k < |subs| ==> subs[j] != subs[k]
    ensures ByName(subs, w) == Without(subs, i)
  {
    if i == 0 {
      ByNameAbsent(subs[1..], w);
    } else {
      ByNameIsWithout(subs[1..], w, i - 1);
      assert Without(subs, i) == [subs[0]] + Without(subs[1..], i - 1);
    }
  }

  lemma {:induction false} ByNameDrops(subs: seq<nat>, w: nat)
    ensures w !in ByName(subs, w)
  {
    if subs != [] {
      ByNameDrops(subs[1..], w);
    }
  }

  /** Every removal along the way is above index i. */
  predicate Undisturbed(s: State, ops: seq<Op>, i: nat)
    decreases |ops|
  {
    ops == [] || (!Disturbs(s, ops[0], i) && Undisturbed(Step(s, ops[0]), ops[1..], i))
  }

  predicate Disturbs(s: State, op: Op, i: nat) {
    op.End? && op.w in s.open && s.open[op.w] < |s.subs| && s.open[op.w] <= i
  }

  /** w is not at index i, nor will it ever be there again. */
  predicate Missed(s: State, w: nat, i: nat) {
    w < s.next && forall j :: i <= j < |s.subs| ==> s.subs[j] != w
  }

  predicate InPlace(s: State, w: nat, i: nat) {
    i < |s.subs| && s.subs[i] == w
  }

  lemma {:induction false} StaysMissed(s: State, ops: seq<Op>, w: nat, i: nat)
    requires Valid(s) && Missed(s, w, i)
    ensures Valid(Run(s, ops)) && Missed(Run(s, ops), w, i)
    decreases |ops|
  {
    if ops != [] {
      StepValid(s, ops[0]);
      StaysMissed(Step(s, ops[0]), ops[1..], w, i);
    }
  }

  lemma {:induction false} InPlaceIffUndisturbed(s: State, ops: seq<Op>, w: nat, i: nat)
    requires Valid(s) && InPlace(s, w, i)
    ensures Valid(Run(s, ops))
    ensures if Undisturbed(s, ops, i) then InPlace(Run(s, ops), w, i) else Missed(Run(s, ops), w, i)
    decreases |ops|
  {
    if ops != [] {
      StepValid(s, ops[0]);
      if Disturbs(s, ops[0], i) {
        StaysMissed(Step(s, ops[0]), ops[1..], w, i);
      } else {
        InPlaceIffUndisturbed(Step(s, ops[0]), ops[1..], w, i);
      }
    }
  }

  /** A wait that begins in s and is still going on after ops takes out its own
      handler, and nothing else, if and only if no handler at its index or below was
      taken out meanwhile. */
  lemma OwnHandlerIff(s: State, ops: seq<Op>)
    requires Valid(s) && s.next in Run(Step(s, Begin), ops).open
    ensures var w, t := s.next, Run(Step(s, Begin), ops);
      (w in t.subs && Step(t, End(w)).subs == ByName(t.subs, w))
      <==> Undisturbed(Step(s, Begin), ops, |s.subs|)
  {
    var w, i, t := s.next, |s.subs|, Run(Step(s, Begin), ops);
    StepValid(s, Begin);
    IndexIsKept(Step(s, Begin), ops, w);
    InPlaceIffUndisturbed(Step(s, Begin), ops, w, i);
    if InPlace(t, w, i) {
      ByNameIsWithout(t.subs, w, i);
    } else if w in t.subs {
      var p :| 0 <= p < |t.subs| && t.subs[p] == w;
      assert p < i && Without(t.subs, i)[p] == w;
      ByNameDrops(t.subs, w);
    }
  }

  /** The index a wait remembers does not change while it goes on. */
  lemma {:induction false} IndexIsKept(s: State, ops: seq<Op>, w: nat)
    requires w < s.next
    ensures w in Run(s, ops).open ==> w in s.open && Run(s, ops).open[w] == s.open[w]
    decreases |ops|
  {
    if ops != [] {
      IndexIsKept(Step(s, ops[0]), ops[1..], w);
    }
  }

  // ---- nested waits ----

  /** Each wait ends before those that began earlier. */
  predicate Nested(ops: seq<Op>, open: seq<nat>, next: nat)
    decreases |ops|
  {
    ops == [] ||
    match ops[0]
    case Subscribe => Nested(ops[1..], open, next + 1)
    case Begin => Nested(ops[1..], open + [next], next + 1)
    case End(w) => open != [] && open[|open| - 1] == w && Nested(ops[1..], open[..|open| - 1], next)
  }

  /** The list as removal by name would leave it. */
  function Ideal(subs: seq<nat>, next: nat, ops: seq<Op>): seq<nat>
    decreases |ops|
  {
    if ops == [] then subs
    else
      match ops[0]
      case Subscribe => Ideal(subs + [next], next + 1, ops[1..])
      case Begin => Ideal(subs + [next], next + 1, ops[1..])
      case End(w) => Ideal(ByName(subs, w), next, ops[1..])
  }

  /** The open waits' handlers are where they were put, in the order they began. */
  predicate Stacked(s: State, open: seq<nat>) {
    && Valid(s)
    && (forall k :: 0 <= k < |open| ==> open[k] in s.open && InPlace(s, open[k], s.open[open[k]]))
    && (forall j, k :: 0 <= j < k < |open| ==> open[j] < open[k] && s.open[open[j]] < s.open[open[k]])
  }

  lemma StackedStep(s: State, open: seq<nat>, op: Op)
    requires Stacked(s, open)
    ensures op.Subscribe? ==> Stacked(Step(s, op), open)
    ensures op.Begin? ==> Stacked(Step(s, op), open + [s.next])
    ensures op.End? && open != [] && open[|open| - 1] == op.w ==>
      Stacked(Step(s, op), open[..|open| - 1]) && Step(s, op).subs == ByName(s.subs, op.w)
  {
    StepValid(s, op);
    if op.End? && open != [] && open[|open| - 1] == op.w {
      ByNameIsWithout(s.subs, op.w, s.open[op.w]);
    }
  }

  lemma StepNext(s: State, op: Op)
    ensures Step(s, op).next == if op.End? then s.next else s.next + 1
    ensures !op.End? ==> Step(s, op).subs == s.subs + [s.next]
  {
  }

  /** Where waits are nested, removal by index is removal by name: no handler is
      lost and none is left behind. */
  lemma {:induction false} NestedIsExact(s: State, open: seq<nat>, ops: seq<Op>)
    requires Stacked(s, open) && Nested(ops, open, s.next)
    ensures Run(s, ops).subs == Ideal(s.subs, s.next, ops)
    decreases |ops|
  {
    hide Stacked, Step;
    if ops != [] {
      StackedStep(s, open, ops[0]);
      StepNext(s, ops[0]);
      match ops[0]
      case Subscribe => NestedIsExact(Step(s, ops[0]), open, ops[1..]);
      case Begin => NestedIsExact(Step(s, ops[0]), open + [s.next], ops[1..]);
      case End(_) => NestedIsExact(Step(s, ops[0]), open[..|open| - 1], ops[1..]);
    }
  }

  function Start(): State {
    State([], map[], 0)
  }

  lemma NestedRunsAreExact(ops: seq<Op>)
    requires Nested(ops, [], 0)
    ensures Run(Start(), ops).subs == Ideal([], 0, ops)
  {
    NestedIsExact(Start(), [], ops);
  }

  /** Two waits that overlap without nesting: the first to begin ends first, and the
      second then takes out the daemon's own handler, which came after it. */
  lemma OverlapRemovesAnother()
    ensures var t := Run(Start(), [Begin, Begin, Subscribe, End(0), End(1)]);
      1 in t.subs && 2 !in t.subs
  {
    var s3 := Step(Step(Step(Start(), Begin), Begin), Subscribe);
    assert s3.subs == [0, 1, 2];
    var s4 := Step(s3, End(0));
    assert s4.subs == [1, 2];
    var s5 := Step(s4, End(1));
    assert s5.subs == [1];
    var ops := [Begin, Begin, Subscribe, End(0), End(1)];
    assert ops[1..] == [Begin, Subscribe, End(0), End(1)];
    assert ops[1..][1..] == [Subscribe, End(0), End(1)];
    assert ops[1..][1..][1..] == [End(0), End(1)];
    assert ops[1..][1..][1..][1..] == [End(1)];
    assert Run(s3, [End(0), End(1)]) == Run(s4, [End(1)]);
    assert Run(s4, [End(1)]) == Run(s5, []);
  }

  /** A wait can also be robbed with nothing below it taken out: the one that shares
      its index ends first. */
  lemma SharedIndexRemovesAnother()
    ensures var s := Run(Start(), [Begin, Begin, End(0), Begin]);
      s.open[1] == s.open[2] && Step(s, End(1)).subs == [1]
  {
    var s2 := Step(Step(Start(), Begin), Begin);
    assert s2.subs == [0, 1];
    var s3 := Step(s2, End(0));
    assert s3.subs == [1];
    var s4 := Step(s3, Begin);
    assert s4.subs == [1, 2];
    var ops := [Begin, Begin, End(0), Begin];
    assert ops[1..] == [Begin, End(0), Begin];
    assert ops[1..][1..] == [End(0), Begin];
    assert Run(s2, [End(0), Begin]) == Run(s3, [Begin]);
    assert Run(s3, [Begin]) == Run(s4, []);
  }

  /** Over any run a wait takes out at most one handler: after it has ended, ending it again
      changes nothing, and only a wait that begins opens one. */
  lemma {:induction false} EndsOnce(ops: seq<Op>, w: nat)
    ensures var s := Run(Start(), ops);
      && Step(Step(s, End(w)), End(w)) == Step(s, End(w))
      && |s.subs| - 1 <= |Step(s, End(w)).subs| <= |s.subs|
      && (w !in s.open ==> Step(s, End(w)) == s)
      && forall op :: w in Step(s, op).open ==> w in s.open || (op == Begin && w == s.next)
  {
    hide Run;
  }
}
