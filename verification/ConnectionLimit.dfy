// Bounded admission of connections: one slot per accept in flight and per open
// connection, whatever the interleaving, and what a panic does to a slot.
module ConnectionLimit {
  type ConnId = nat

  // What one accepted connection has been through. A close whose underlying close
  // panics ends the close-once guard without giving the slot back.
  datatype Conn = Open | Closed | Lost

  datatype Listener = Listener(
    capacity: nat,
    slots: nat,               // tokens in the channel
    accepting: nat,           // accepts that hold a slot and wait for a connection
    leaked: nat,              // accepts that panicked with their slot
    conns: map<ConnId, Conn>,
    done: bool)

  datatype Step =
    | Reserve                           // an accept puts its token in
    | Deliver(id: ConnId)               // the underlying accept returns a connection
    | Fail                              // or an error: the token comes out again
    | AcceptPanics                      // or panics: nobody takes the token out
    | CloseConn(id: ConnId, panics: bool)
    | CloseListener

  predicate Enabled(l: Listener, step: Step) {
    match step
    case Reserve => l.slots < l.capacity
    case Deliver(id) => l.accepting > 0 && id !in l.conns
    case Fail => l.accepting > 0
    case AcceptPanics => l.accepting > 0
    case CloseConn(id, panics) => id in l.conns
    case CloseListener => true
  }

  function Apply(l: Listener, step: Step): Listener
    requires Enabled(l, step) && Inv(l)
  {
    match step
    case Reserve => l.(slots := l.slots + 1, accepting := l.accepting + 1)
    case Deliver(id) => l.(accepting := l.accepting - 1, conns := l.conns[id := Open])
    case Fail => l.(slots := l.slots - 1, accepting := l.accepting - 1)
    case AcceptPanics => l.(accepting := l.accepting - 1, leaked := l.leaked + 1)
    case CloseConn(id, panics) =>
      if !l.conns[id].Open? then l
      else if panics then l.(conns := l.conns[id := Lost])
      else ReleaseNeverBlocks(l, id); l.(slots := l.slots - 1, conns := l.conns[id := Closed])
    case CloseListener => l.(done := true)
  }

  function Holding(l: Listener): set<ConnId> {
    set id | id in l.conns && !l.conns[id].Closed?
  }

  // Slots in use are the accepts in flight, the accepts that panicked, the open
  // connections and the lost ones.
  predicate Inv(l: Listener) {
    l.slots == l.accepting + l.leaked + |Holding(l)| && l.slots <= l.capacity
  }

  // Taking a token out for an open connection finds one there.
  lemma ReleaseNeverBlocks(l: Listener, id: ConnId)
    requires Inv(l) && id in l.conns && l.conns[id].Open?
    ensures l.slots > 0
  {
    assert id in Holding(l);
  }

  lemma StepKeepsInv(l: Listener, step: Step)
    requires Inv(l) && Enabled(l, step)
    ensures Inv(Apply(l, step))
  {
    if step.Deliver? || step.CloseConn? {
      var after := Apply(l, step);
      assert Holding(after) - {step.id} == Holding(l) - {step.id};
      OneMoreOrLess(Holding(l), Holding(after), step.id);
    }
  }

  lemma OneMoreOrLess(before: set<ConnId>, after: set<ConnId>, id: ConnId)
    requires before - {id} == after - {id}
    ensures |after| == |before| + (if id in after then 1 else 0) - if id in before then 1 else 0
  {
    assert id in before ==> before == (before - {id}) + {id};
    assert id !in before ==> before == before - {id};
    assert id in after ==> after == (after - {id}) + {id};
    assert id !in after ==> after == after - {id};
  }

  ghost predicate Runs(l: Listener, steps: seq<Step>, end: Listener)
    decreases |steps|
  {
    if steps == [] then end == l
    else Inv(l) && Enabled(l, steps[0]) && Runs(Apply(l, steps[0]), steps[1..], end)
  }

  // In every interleaving the slots in use are counted exactly and never exceed
  // the capacity.
  lemma {:induction false} SlotsAreBounded(l: Listener, steps: seq<Step>, end: Listener)
    requires Inv(l) && Runs(l, steps, end)
    ensures Inv(end) && end.capacity == l.capacity
    decreases |steps|
  {
    if steps != [] {
      StepKeepsInv(l, steps[0]);
      SlotsAreBounded(Apply(l, steps[0]), steps[1..], end);
    }
  }

  // --- Closing a connection ------------------------------------------------

  // The slots that the closes of one connection give back, among all other steps.
  ghost function Freed(l: Listener, steps: seq<Step>, id: ConnId, end: Listener): nat
    requires Runs(l, steps, end)
    decreases |steps|
  {
    if steps == [] then 0
    else
      var after := Apply(l, steps[0]);
      Freed(after, steps[1..], id, end)
        + if steps[0].CloseConn? && steps[0].id == id && after.slots < l.slots then 1 else 0
  }

  datatype FirstClose = NoClose | FirstClose(panics: bool)

  function FirstCloseOf(steps: seq<Step>, id: ConnId): FirstClose {
    if steps == [] then NoClose
    else if steps[0].CloseConn? && steps[0].id == id then FirstClose(steps[0].panics)
    else FirstCloseOf(steps[1..], id)
  }

  // However the closes of an open connection interleave with other connections,
  // accepts and each other: together they give back one slot, exactly when the
  // first of them does not panic.
  lemma {:induction false} ClosesFreeOneSlot(l: Listener, steps: seq<Step>, id: ConnId, end: Listener)
    requires Inv(l) && Runs(l, steps, end) && id in l.conns && l.conns[id].Open?
    ensures Freed(l, steps, id, end) == if FirstCloseOf(steps, id) == FirstClose(false) then 1 else 0
    decreases |steps|
  {
    if steps != [] {
      var after := Apply(l, steps[0]);
      StepKeepsInv(l, steps[0]);
      if steps[0].CloseConn? && steps[0].id == id {
        FurtherClosesDoNothing(after, steps[1..], id, end);
      } else {
        ClosesFreeOneSlot(after, steps[1..], id, end);
      }
    }
  }

  lemma {:induction false} FurtherClosesDoNothing(l: Listener, steps: seq<Step>, id: ConnId, end: Listener)
    requires Inv(l) && Runs(l, steps, end) && id in l.conns && !l.conns[id].Open?
    ensures Freed(l, steps, id, end) == 0
    ensures id in end.conns && end.conns[id] == l.conns[id]
    decreases |steps|
  {
    if steps != [] {
      StepKeepsInv(l, steps[0]);
      FurtherClosesDoNothing(Apply(l, steps[0]), steps[1..], id, end);
    }
  }

  // --- Slots lost for good -------------------------------------------------

  function LostConns(l: Listener): set<ConnId> {
    set id | id in l.conns && l.conns[id].Lost?
  }

  // Slots that no step gives back.
  function Leaked(l: Listener): nat {
    l.leaked + |LostConns(l)|
  }

  // The underlying accept panics, or the first close of a connection does.
  predicate Leaks(l: Listener, step: Step) {
    step.AcceptPanics? || (step.CloseConn? && step.panics && step.id in l.conns && l.conns[step.id].Open?)
  }

  lemma StepLeaksExactly(l: Listener, step: Step)
    requires Inv(l) && Enabled(l, step)
    ensures Leaked(Apply(l, step)) == Leaked(l) + if Leaks(l, step) then 1 else 0
  {
    if step.Deliver? || step.CloseConn? {
      var after := Apply(l, step);
      assert LostConns(after) - {step.id} == LostConns(l) - {step.id};
      OneMoreOrLess(LostConns(l), LostConns(after), step.id);
    }
  }

  ghost function Panics(l: Listener, steps: seq<Step>, end: Listener): nat
    requires Runs(l, steps, end)
    decreases |steps|
  {
    if steps == [] then 0
    else Panics(Apply(l, steps[0]), steps[1..], end) + if Leaks(l, steps[0]) then 1 else 0
  }

  // Over any run every panic of an accept and of a first close loses one slot for
  // good, and nothing else does; what is lost is still taken at the end.
  lemma {:induction false} EachPanicLosesOneSlot(l: Listener, steps: seq<Step>, end: Listener)
    requires Inv(l) && Runs(l, steps, end)
    ensures Leaked(end) == Leaked(l) + Panics(l, steps, end)
    ensures Leaked(end) <= end.slots
    decreases |steps|
  {
    if steps != [] {
      StepKeepsInv(l, steps[0]);
      StepLeaksExactly(l, steps[0]);
      EachPanicLosesOneSlot(Apply(l, steps[0]), steps[1..], end);
    } else {
      assert Holding(end) == LostConns(end) + (Holding(end) - LostConns(end));
    }
  }

  // Once as many slots are lost as there are, nobody is admitted over any continuation.
  lemma FullyLeakedAdmitsNobody(l: Listener, steps: seq<Step>, end: Listener)
    requires Inv(l) && Leaked(l) == l.capacity && Runs(l, steps, end)
    ensures end.slots == end.capacity && !Enabled(end, Reserve)
  {
    EachPanicLosesOneSlot(l, steps, end);
    SlotsAreBounded(l, steps, end);
  }

  const IDLE: Listener := Listener(1, 0, 0, 0, map[], false)
  const CLOSE_LEAKED: Listener := Listener(1, 1, 0, 0, map[0 := Lost], false)
  const ACCEPT_LEAKED: Listener := Listener(1, 1, 0, 1, map[], false)

  lemma LeaksAreReached()
    ensures Runs(IDLE, [Reserve, Deliver(0), CloseConn(0, true)], CLOSE_LEAKED)
    ensures Runs(IDLE, [Reserve, AcceptPanics], ACCEPT_LEAKED)
  {
    var reserved, open := Listener(1, 1, 1, 0, map[], false), Listener(1, 1, 0, 0, map[0 := Open], false);
    assert Holding(IDLE) == {} && Holding(reserved) == {} && Holding(open) == {0} && Holding(CLOSE_LEAKED) == {0};
    assert Apply(open, CloseConn(0, true)) == CLOSE_LEAKED && Apply(reserved, Deliver(0)) == open;
    var close, deliver := [CloseConn(0, true)], [Deliver(0), CloseConn(0, true)];
    assert close[1..] == [] && deliver[1..] == close && [Reserve, Deliver(0), CloseConn(0, true)][1..] == deliver;
    assert Runs(CLOSE_LEAKED, [], CLOSE_LEAKED);
    assert Runs(open, close, CLOSE_LEAKED);
    assert Runs(reserved, deliver, CLOSE_LEAKED);
    assert [Reserve, AcceptPanics][1..] == [AcceptPanics] && [AcceptPanics][1..] == [];
    assert Runs(ACCEPT_LEAKED, [], ACCEPT_LEAKED);
    assert Runs(reserved, [AcceptPanics], ACCEPT_LEAKED);
  }

  // One panic of an accept or of a close: a listener of capacity 1 admits nobody else
  // over any continuation.
  lemma OnePanicLosesTheSlot(leaked: Listener, steps: seq<Step>, end: Listener)
    requires leaked in {CLOSE_LEAKED, ACCEPT_LEAKED} && Runs(leaked, steps, end)
    ensures Runs(IDLE, [Reserve, Deliver(0), CloseConn(0, true)], CLOSE_LEAKED)
    ensures Runs(IDLE, [Reserve, AcceptPanics], ACCEPT_LEAKED)
    ensures end.slots == end.capacity && !Enabled(end, Reserve)
  {
    LeaksAreReached();
    assert Holding(CLOSE_LEAKED) == {0} && LostConns(CLOSE_LEAKED) == {0};
    assert Holding(ACCEPT_LEAKED) == {} && LostConns(ACCEPT_LEAKED) == {};
    FullyLeakedAdmitsNobody(leaked, steps, end);
  }
}
