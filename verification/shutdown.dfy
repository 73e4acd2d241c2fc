/**
 The recorder's loop against its environment: threads that offer batches, callers that send control messages,
 and whoever closes the queue. Every step of either side is one action.
 */
module Shutdown {
  import opened Words
  import opened Batches
  import opened Queue
  import Draining

  const DRAIN_LIMIT: nat := 256

  type Message = nat

  /** Where the loop is. In `Handling` and `Ticking` it drains as often as the message or the floor takes. */
  datatype Pc =
    | Receiving
    | Handling(message: Message, last: bool, drains: nat)
    | Ticking(drains: nat)
    | Absorbing
    | Checking
    | Emptying
    | LastReceiving
    | Returned

  /** What had been sent and offered when the queue was closed. */
  datatype Closing = Open | Closed(sent: seq<Message>, offered: seq<seq<Batch>>)

  /** `sent`, `offered`, `handled` and `absorbed` are history. */
  datatype State = State(
    pc: Pc, channel: seq<Message>, rings: seq<seq<Batch>>, next: nat, closing: Closing,
    sent: seq<Message>, offered: seq<seq<Batch>>, handled: seq<Message>, absorbed: seq<Item>)

  const START := State(Receiving, [], [], 0, Open, [], [], [], [])

  datatype Action =
    // the environment
    | Send(message: Message) | Register | Offer(ring: nat, batch: Batch) | Close
    // the recorder
    | Receive(drains: nat) | NoMessage(drains: nat) | InnerDrain(limit: nat) | Handled | Ticked | Absorb | Check | AbsorbAll | Return

  predicate Enabled(s: State, a: Action) {
    match a
    case Send(_) => true
    case Register => true
    case Offer(r, _) => r < |s.rings| && |s.rings[r]| < BATCHES_CAPACITY
    case Close => s.closing.Open?
    case Receive(_) => (s.pc.Receiving? || s.pc.LastReceiving?) && s.channel != []
    case NoMessage(_) => s.pc.Receiving? && s.channel == []
    case InnerDrain(_) => (s.pc.Handling? || s.pc.Ticking?) && s.pc.drains > 0
    case Handled => s.pc.Handling? && s.pc.drains == 0
    case Ticked => s.pc.Ticking? && s.pc.drains == 0
    case Absorb => s.pc.Absorbing?
    case Check => s.pc.Checking?
    case AbsorbAll => s.pc.Emptying?
    case Return => s.pc.LastReceiving? && s.channel == []
  }

  /** One `drain_batches`, its batches going into the recorder's ring. */
  function Drain(s: State, limit: nat): (State, seq<Item>) {
    if s.rings == [] then (s, [])
    else
      var (out, left) := Drained(s.rings, s.next % |s.rings|, limit);
      (s.(rings := left, next := s.next + 1, absorbed := s.absorbed + out), out)
  }

  function Noted(offered: seq<seq<Batch>>, r: nat, batch: Batch): seq<seq<Batch>> {
    if r < |offered| then offered[r := offered[r] + [batch]] else offered
  }

  function Step(s: State, a: Action): State
    requires Enabled(s, a)
  {
    match a
    case Send(m) => s.(channel := s.channel + [m], sent := s.sent + [m])
    case Register => s.(rings := s.rings + [[]], offered := s.offered + [[]])
    case Offer(r, batch) => s.(rings := s.rings[r := s.rings[r] + [batch]], offered := Noted(s.offered, r, batch))
    case Close => s.(closing := Closed(s.sent, s.offered))
    case Receive(n) => s.(pc := Handling(s.channel[0], s.pc.LastReceiving?, n), channel := s.channel[1..])
    case NoMessage(n) => s.(pc := Ticking(n))
    case InnerDrain(limit) => Drain(s, limit).0.(pc := s.pc.(drains := s.pc.drains - 1))
    case Handled => s.(pc := if s.pc.last then LastReceiving else Receiving, handled := s.handled + [s.pc.message])
    case Ticked => s.(pc := Absorbing)
    case Absorb =>
      var (after, out) := Drain(s, DRAIN_LIMIT);
      after.(pc := if out != [] then Receiving else Checking)
    case Check => s.(pc := if s.closing.Closed? then Emptying else Receiving)
    case AbsorbAll =>
      var (after, out) := Drain(s, U64_MAX);
      after.(pc := if out != [] then Emptying else LastReceiving)
    case Return => s.(pc := Returned)
  }

  // ----- what every step keeps -----

  predicate Finishing(pc: Pc) {
    pc.LastReceiving? || pc.Returned? || (pc.Handling? && pc.last)
  }

  /** Messages: handled, then the one in hand, then the channel, are those sent, once each and in order. */
  predicate MessagesInOrder(s: State) {
    s.handled + (if s.pc.Handling? then [s.pc.message] else []) + s.channel == s.sent
  }

  /** Batches: on every ring, those absorbed and then those waiting are those offered. */
  predicate BatchesInOrder(s: State) {
    && Draining.Taking(s.absorbed, s.offered, s.rings)
    && forall item :: item in s.absorbed ==> item.ring < |s.rings|
  }

  /** `a` is what `b` was at some earlier time. */
  predicate Earlier(a: seq<seq<Batch>>, b: seq<seq<Batch>>) {
    |a| <= |b| && forall r :: 0 <= r < |a| ==> a[r] <= b[r]
  }

  predicate Absorbed(s: State, offered: seq<seq<Batch>>) {
    forall r :: 0 <= r < |offered| ==> offered[r] <= Draining.Of(s.absorbed, r)
  }

  predicate Inv(s: State) {
    && MessagesInOrder(s) && BatchesInOrder(s)
    && (s.closing.Closed? ==> s.closing.sent <= s.sent && Earlier(s.closing.offered, s.offered))
    && (s.pc.Emptying? || Finishing(s.pc) ==> s.closing.Closed?)
    && (Finishing(s.pc) ==> Absorbed(s, s.closing.offered))
    && (s.pc.Returned? ==> s.closing.sent <= s.handled)
  }

  lemma DrainFacts(s: State, limit: nat)
    requires Inv(s)
    ensures var (after, out) := Drain(s, limit);
            && after == s.(rings := after.rings, next := after.next, absorbed := s.absorbed + out)
            && BatchesInOrder(after)
            && (out == [] ==> forall r :: 0 <= r < |after.rings| ==> after.rings[r] == [])
            && (s.closing.Closed? && Absorbed(s, s.closing.offered) ==> Absorbed(after, s.closing.offered))
  {
    var (after, out) := Drain(s, limit);
    if s.rings != [] {
      Draining.DrainTakes(s.rings, s.next % |s.rings|, limit);
      hide Drained, Draining.Of, Draining.Taking;
      Draining.TakingMore(s.absorbed, out, s.offered, s.rings, after.rings);
      Draining.TakingSame(out, s.rings, after.rings);
      if s.closing.Closed? && Absorbed(s, s.closing.offered) {
        forall r: nat | r < |s.closing.offered| ensures s.closing.offered[r] <= Draining.Of(after.absorbed, r) {
          Draining.OfConcat(s.absorbed, out, r);
        }
      }
    } else {
      assert s.absorbed + [] == s.absorbed;
    }
  }

  /** A drain that finds nothing has found nothing of what was offered before it. */
  lemma EmptyMeansAbsorbed(s: State)
    requires BatchesInOrder(s) && s.closing.Closed? && Earlier(s.closing.offered, s.offered)
    requires forall r :: 0 <= r < |s.rings| ==> s.rings[r] == []
    ensures Absorbed(s, s.closing.offered)
  {
    hide Draining.Of;
    forall r: nat | r < |s.closing.offered| ensures s.closing.offered[r] <= Draining.Of(s.absorbed, r) {
      assert Draining.Of(s.absorbed, r) + s.rings[r] == s.offered[r];
    }
  }

  lemma EnvironmentKeepsInv(s: State, a: Action)
    requires Inv(s) && Enabled(s, a) && (a.Send? || a.Register? || a.Offer? || a.Close?)
    ensures Inv(Step(s, a))
  {
    hide Draining.Of;
    match a
    case Send(m) =>
      var hand := if s.pc.Handling? then [s.pc.message] else [];
      assert s.handled + hand + (s.channel + [m]) == s.handled + hand + s.channel + [m];
    case Register =>
      Draining.AbsentRing(s.absorbed, |s.rings|);
      assert Draining.Of(s.absorbed, |s.rings|) + [] == [];
    case Offer(r, batch) =>
      assert Draining.Of(s.absorbed, r) + (s.rings[r] + [batch]) == Draining.Of(s.absorbed, r) + s.rings[r] + [batch];
    case Close =>
  }

  lemma MessageKeepsInv(s: State, a: Action)
    requires Inv(s) && Enabled(s, a) && (a.Receive? || a.Handled? || a.Return?)
    ensures Inv(Step(s, a))
  {
    hide Draining.Of;
    match a
    case Receive(_) =>
      assert s.channel == [s.channel[0]] + s.channel[1..];
      assert s.handled + [] + ([s.channel[0]] + s.channel[1..]) == s.handled + [s.channel[0]] + s.channel[1..];
    case Handled => assert s.handled + [s.pc.message] + [] + s.channel == s.handled + [s.pc.message] + s.channel;
    case Return => assert s.handled + [] + s.channel == s.handled;
  }

  lemma InnerDrainKeepsInv(s: State, limit: nat)
    requires Inv(s) && Enabled(s, InnerDrain(limit))
    ensures Inv(Step(s, InnerDrain(limit)))
  {
    DrainFacts(s, limit);
    hide Drain, Draining.Of, Draining.Taking, Absorbed, Earlier;
  }

  lemma AbsorbKeepsInv(s: State)
    requires Inv(s) && Enabled(s, Absorb)
    ensures Inv(Step(s, Absorb))
  {
    DrainFacts(s, DRAIN_LIMIT);
    hide Drain, Draining.Of, Draining.Taking, Absorbed, Earlier;
  }

  lemma AbsorbAllKeepsInv(s: State)
    requires Inv(s) && Enabled(s, AbsorbAll)
    ensures Inv(Step(s, AbsorbAll))
  {
    DrainFacts(s, U64_MAX);
    var (after, out) := Drain(s, U64_MAX);
    hide Drain, Draining.Of, Draining.Taking, Absorbed, Earlier;
    if out == [] {
      EmptyMeansAbsorbed(after);
      SameAbsorbed(after, Step(s, AbsorbAll), s.closing.offered);
    }
  }

  lemma SameAbsorbed(s: State, u: State, offered: seq<seq<Batch>>)
    requires s.absorbed == u.absorbed
    ensures Absorbed(s, offered) <==> Absorbed(u, offered)
  {
  }

  lemma StepKeepsInv(s: State, a: Action)
    requires Inv(s) && Enabled(s, a)
    ensures Inv(Step(s, a))
  {
    if a.Send? || a.Register? || a.Offer? || a.Close? {
      EnvironmentKeepsInv(s, a);
    } else if a.Receive? || a.Handled? || a.Return? {
      MessageKeepsInv(s, a);
    } else if a.InnerDrain? {
      InnerDrainKeepsInv(s, a.limit);
    } else if a.Absorb? {
      AbsorbKeepsInv(s);
    } else if a.AbsorbAll? {
      AbsorbAllKeepsInv(s);
    } else {
      hide Draining.Of;
    }
  }

  predicate Enables(s: State, run: seq<Action>)
    decreases |run|
  {
    run == [] || (Enabled(s, run[0]) && Enables(Step(s, run[0]), run[1..]))
  }

  function Exec(s: State, run: seq<Action>): State
    requires Enables(s, run)
    decreases |run|
  {
    if run == [] then s else Exec(Step(s, run[0]), run[1..])
  }

  lemma {:induction false} RunsKeepInv(s: State, run: seq<Action>)
    requires Inv(s) && Enables(s, run)
    ensures Inv(Exec(s, run))
    decreases |run|
  {
    if run != [] {
      StepKeepsInv(s, run[0]);
      hide Inv, Step;
      RunsKeepInv(Step(s, run[0]), run[1..]);
    }
  }

  /**
   On every interleaving: messages are handled in the order sent, none twice; the final messages are handled
   only after every batch offered before the close has been absorbed, in order on its ring; and the recorder
   returns only after every message sent before the close has been handled.
   */
  lemma NothingIsLostAtClose(run: seq<Action>)
    requires Enables(START, run)
    ensures var s := Exec(START, run);
            && s.handled <= s.sent
            && (Finishing(s.pc) ==>
                  && s.closing.Closed? && |s.closing.offered| <= |s.offered|
                  && forall r :: 0 <= r < |s.closing.offered| ==> s.closing.offered[r] <= Draining.Of(s.absorbed, r) <= s.offered[r])
            && (s.pc.Returned? ==> s.closing.Closed? && s.closing.sent <= s.handled)
  {
    RunsKeepInv(START, run);
    hide Draining.Of, Exec;
  }

  // ----- left alone, it returns -----

  predicate Own(a: Action) {
    !a.Send? && !a.Register? && !a.Offer? && !a.Close?
  }

  /** Left alone, the loop never blocks: until it returns, one of its own steps can always be taken. */
  lemma NeverStuck(s: State)
    requires !s.pc.Returned?
    ensures exists a: Action :: Own(a) && Enabled(s, a)
  {
    var a :=
      match s.pc
      case Receiving => if s.channel != [] then Receive(0) else NoMessage(0)
      case Handling(_, _, n) => if n == 0 then Handled else InnerDrain(DRAIN_LIMIT)
      case Ticking(n) => if n == 0 then Ticked else InnerDrain(DRAIN_LIMIT)
      case Absorbing => Absorb
      case Checking => Check
      case Emptying => AbsorbAll
      case LastReceiving => if s.channel != [] then Receive(0) else Return
      case Returned => Return;
    assert Own(a) && Enabled(s, a);
  }

  /** How far the loop is from returning with nothing left to receive or to drain. */
  function Ahead(pc: Pc): nat {
    match pc
    case Handling(_, last, _) => if last then 2 else 7
    case Receiving => 6
    case Ticking(_) => 5
    case Absorbing => 4
    case Checking => 3
    case Emptying => 2
    case LastReceiving => 1
    case Returned => 0
  }

  function DrainsAhead(pc: Pc): nat {
    if pc.Handling? || pc.Ticking? then pc.drains else 0
  }

  /** Fewer messages; or as many and fewer batches; or the loop is further on. */
  predicate Nearer(u: State, s: State) {
    || |u.channel| < |s.channel|
    || (|u.channel| == |s.channel|
        && (|| Draining.Waiting(u.rings) < Draining.Waiting(s.rings)
            || (Draining.Waiting(u.rings) == Draining.Waiting(s.rings)
                && (|| Ahead(u.pc) < Ahead(s.pc)
                    || (Ahead(u.pc) == Ahead(s.pc) && DrainsAhead(u.pc) < DrainsAhead(s.pc))))))
  }

  lemma DrainCounts(s: State, limit: nat)
    ensures var (after, out) := Drain(s, limit);
            && after == s.(rings := after.rings, next := after.next, absorbed := after.absorbed)
            && |out| + Draining.Waiting(after.rings) == Draining.Waiting(s.rings)
  {
    if s.rings != [] {
      Draining.DrainCounts(s.rings, s.next % |s.rings|, 0, [], limit);
    }
  }

  /** Once the queue is closed every step of the loop brings it nearer. */
  lemma OwnStepIsNearer(s: State, a: Action)
    requires s.closing.Closed? && Own(a) && Enabled(s, a)
    ensures Nearer(Step(s, a), s) && Step(s, a).closing == s.closing
  {
    match a
    case InnerDrain(limit) => DrainCounts(s, limit);
    case Absorb => DrainCounts(s, DRAIN_LIMIT);
    case AbsorbAll => DrainCounts(s, U64_MAX);
    case _ =>
  }

  /** One step of the loop and of nobody else; nothing more once it has returned. */
  ghost predicate Alone(s: State, u: State) {
    if s.pc.Returned? then u == s else exists a: Action :: Own(a) && Enabled(s, a) && u == Step(s, a)
  }

  /**
   Shutdown ends: once the queue is closed and its environment quiet, the loop returns, however often its messages
   and floors make it drain, and every message sent before the close has been handled.
   */
  lemma {:induction false} ReturnsAlone(run: nat -> State, i: nat) returns (n: nat)
    requires Inv(run(i)) && run(i).closing.Closed? && forall k :: k >= i ==> Alone(run(k), run(k + 1))
    ensures n >= i && run(n).pc.Returned? && run(n).closing == run(i).closing
    ensures run(i).closing.sent <= run(n).handled
    decreases |run(i).channel|, Draining.Waiting(run(i).rings), Ahead(run(i).pc), DrainsAhead(run(i).pc)
  {
    if run(i).pc.Returned? {
      n := i;
    } else {
      assert Alone(run(i), run(i + 1));
      var a: Action :| Own(a) && Enabled(run(i), a) && run(i + 1) == Step(run(i), a);
      StepKeepsInv(run(i), a);
      OwnStepIsNearer(run(i), a);
      hide Inv, Step, Alone, Ahead, DrainsAhead, Own, Enabled;
      n := ReturnsAlone(run, i + 1);
    }
  }
}
