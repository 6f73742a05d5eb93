/**
 The dispatcher: producers append packages to a shared queue under a mutex and then notify; a
 dispatcher thread sleeps on the condition variable, asks the clockwork driver for a turn, drains
 the queue and reports "done". The threads are modelled as a state machine over their atomic steps.
 */
module Dispatch {

  type Package = nat

  /** Where the dispatcher thread is. It holds the mutex while Draining and while AwaitingAck. */
  datatype Control =
    | AwaitingStart     // before the driver's first message
    | Looking           // status e_waiting, about to take the mutex
    | Asleep            // in package_available.wait
    | Requesting        // status e_waiting_cw, about to send "dispatch"
    | AwaitingGrant     // "dispatch" sent
    | Answered          // the driver's answer is on its way
    | Granted           // status e_running, about to test finished and take the mutex
    | Draining          // delivering under the mutex
    | AwaitingAck       // "done" sent
    | Stopped

  datatype State = State(
    control: Control,
    queue: seq<Package>,        // to_deliver
    accepted: seq<Package>,     // every package ever queued, in order
    delivered: seq<Package>,    // every package handed on, in order
    unnotified: nat,            // producers that have queued but not yet notified
    turn: bool,                 // the driver has granted a turn and has not had "done" yet
    finished: bool)

  datatype Event =
    | Start                     // driver: first message
    | Push(p: Package)          // producer: the locked part of deliver
    | Notify                    // producer: notify_one
    | Look                      // dispatcher: take the mutex, sleep if the queue is empty
    | SpuriousWake              // condition variables may wake for no reason
    | Request                   // dispatcher: send "dispatch"
    | Grant                     // driver: answer "dispatch"
    | Receive                   // dispatcher: read the answer
    | Lock                      // dispatcher: take the mutex to drain
    | DeliverOne                // dispatcher: pop and hand on one package
    | SendDone                  // dispatcher: the queue is empty, send "done"
    | Ack                       // driver: answer "done"
    | Stop                      // stop(): set finished, notify_one
    | Exit                      // dispatcher: a test of finished ends the loop

  predicate Locked(s: State) {
    s.control == Draining || s.control == AwaitingAck
  }

  predicate Enabled(s: State, e: Event) {
    match e
    case Start => s.control == AwaitingStart
    case Push(_) => !Locked(s)
    case Notify => s.unnotified > 0
    case Look => s.control == Looking
    case SpuriousWake => s.control == Asleep
    case Request => s.control == Requesting && !s.finished
    case Grant => s.control == AwaitingGrant
    case Receive => s.control == Answered
    case Lock => s.control == Granted
    case DeliverOne => s.control == Draining && s.queue != []
    case SendDone => s.control == Draining && s.queue == []
    case Ack => s.control == AwaitingAck
    case Stop => true
    case Exit => s.finished && s.control !in {Asleep, Draining, Stopped}
  }

  function Wake(s: State): State {
    if s.control == Asleep then s.(control := Requesting) else s
  }

  function Next(s: State, e: Event): State
    requires Enabled(s, e)
  {
    match e
    case Start => s.(control := Looking)
    case Push(p) => s.(queue := s.queue + [p], accepted := s.accepted + [p], unnotified := s.unnotified + 1)
    case Notify => Wake(s.(unnotified := s.unnotified - 1))
    case Look => s.(control := if s.queue == [] then Asleep else Requesting)
    case SpuriousWake => Wake(s)
    case Request => s.(control := AwaitingGrant)
    case Grant => s.(control := Answered, turn := true)
    case Receive => s.(control := Granted)
    case Lock => s.(control := Draining)
    case DeliverOne => s.(queue := s.queue[1..], delivered := s.delivered + [s.queue[0]])
    case SendDone => s.(control := AwaitingAck, turn := false)
    case Ack => s.(control := Looking)
    case Stop => Wake(s.(finished := true))
    case Exit => s.(control := Stopped)
  }

  const INITIAL := State(AwaitingStart, [], [], [], 0, false, false)

  /** A run: each event is enabled in the state it happens in. */
  predicate IsRun(s: State, events: seq<Event>)
    decreases |events|
  {
    events != [] ==> Enabled(s, events[0]) && IsRun(Next(s, events[0]), events[1..])
  }

  function After(s: State, events: seq<Event>): State
    requires IsRun(s, events)
    decreases |events|
  {
    if events == [] then s else After(Next(s, events[0]), events[1..])
  }

  // ----- what every step keeps -----

  predicate Inv(s: State) {
    && s.delivered + s.queue == s.accepted
    && (s.control != Stopped ==> (s.turn <==> s.control in {Answered, Granted, Draining}))
    && (s.control == AwaitingAck ==> s.queue == [])
    && (s.control == Asleep && s.queue != [] ==> s.unnotified > 0)
  }

  lemma {:induction false} StepKeeps(s: State, e: Event)
    requires Inv(s) && Enabled(s, e)
    ensures Inv(Next(s, e))
    ensures s.delivered <= Next(s, e).delivered && s.accepted <= Next(s, e).accepted
    ensures Next(s, e).delivered != s.delivered ==> s.turn && Next(s, e).turn
  {
    match e
    case Push(p) => assert s.delivered + (s.queue + [p]) == (s.delivered + s.queue) + [p];
    case DeliverOne => assert s.delivered + [s.queue[0]] + s.queue[1..] == s.delivered + s.queue;
    case _ =>
  }

  /**
   In every interleaving: the packages delivered, followed by those queued, are exactly those accepted,
   in order; nothing is delivered outside a turn that the driver has granted; whenever "done" has been sent everything
   accepted has been delivered; and the dispatcher sleeps on a non-empty queue only while some
   producer has yet to notify.
   */
  lemma {:induction false} ExactlyOnceInOrder(s: State, events: seq<Event>)
    requires Inv(s) && IsRun(s, events)
    ensures Inv(After(s, events))
    ensures After(s, events).delivered <= After(s, events).accepted
    ensures After(s, events).control == AwaitingAck ==> After(s, events).delivered == After(s, events).accepted
    decreases |events|
  {
    if events != [] {
      StepKeeps(s, events[0]);
      ExactlyOnceInOrder(Next(s, events[0]), events[1..]);
    } else {
      assert s.queue == [] ==> s.delivered == s.accepted;
    }
  }

  /** The accepted packages are those of the Push events, in their order. */
  function Pushed(events: seq<Event>): seq<Package> {
    if events == [] then []
    else (if events[0].Push? then [events[0].p] else []) + Pushed(events[1..])
  }

  lemma {:induction false} AcceptedIsPushed(s: State, events: seq<Event>)
    requires IsRun(s, events)
    ensures After(s, events).accepted == s.accepted + Pushed(events)
    decreases |events|
  {
    if events != [] {
      AcceptedIsPushed(Next(s, events[0]), events[1..]);
    }
  }

  /** No package is lost, repeated or reordered on the way from deliver() to its receiver. */
  lemma DeliveredIsPrefixOfPushed(events: seq<Event>)
    requires IsRun(INITIAL, events)
    ensures After(INITIAL, events).delivered <= Pushed(events)
    ensures Pushed(events) == After(INITIAL, events).delivered + After(INITIAL, events).queue
  {
    ExactlyOnceInOrder(INITIAL, events);
    AcceptedIsPushed(INITIAL, events);
  }

  // ----- a stop in the middle of a turn -----

  /** Somewhere in the run the dispatcher ends between the driver's answer and taking the mutex. */
  predicate EndsHolding(s: State, events: seq<Event>)
    requires IsRun(s, events)
    decreases |events|
  {
    events != [] && ((events[0] == Exit && s.control in {Answered, Granted}) || EndsHolding(Next(s, events[0]), events[1..]))
  }

  lemma {:induction false} StoppedStays(s: State, events: seq<Event>)
    requires s.control == Stopped && IsRun(s, events)
    ensures After(s, events).control == Stopped && After(s, events).turn == s.turn && !EndsHolding(s, events)
    decreases |events|
  {
    if events != [] {
      StoppedStays(Next(s, events[0]), events[1..]);
    }
  }

  /**
   The driver has granted a turn and never gets "done" for it exactly when the dispatcher ends after the
   driver's answer and before it takes the mutex, the loop's own test of finished included.
   */
  lemma {:induction false} TurnLostExactly(s: State, events: seq<Event>)
    requires Inv(s) && s.control != Stopped && IsRun(s, events)
    ensures After(s, events).control == Stopped && After(s, events).turn <==> EndsHolding(s, events)
    decreases |events|
  {
    if events != [] {
      StepKeeps(s, events[0]);
      if events[0] == Exit {
        StoppedStays(Next(s, Exit), events[1..]);
      } else {
        TurnLostExactly(Next(s, events[0]), events[1..]);
      }
    }
  }

  /** The driver answers, the program is stopped, and the dispatcher ends before it reads the answer. */
  const STOPPED_IN_TURN: seq<Event> := [Start, Push(1), Look, Request, Grant, Stop, Exit]

  lemma {:induction false} TurnLost()
    ensures IsRun(INITIAL, STOPPED_IN_TURN) && EndsHolding(INITIAL, STOPPED_IN_TURN)
    ensures After(INITIAL, STOPPED_IN_TURN) == State(Stopped, [1], [1], [], 1, true, true)
  {
    var answered := State(Answered, [1], [1], [], 1, true, false);
    assert Next(Next(Next(Next(Next(INITIAL, Start), Push(1)), Look), Request), Grant) == answered;
    var stopping := Next(answered, Stop);
    var ended := Next(stopping, Exit);
    Prefixed(stopping, Exit, []);
    Prefixed(answered, Stop, [Exit] + []);
    ReachesAnswer([Stop] + ([Exit] + []));
    Seven(STOPPED_IN_TURN);
  }

  lemma {:induction false} Seven(es: seq<Event>)
    requires |es| == 7
    ensures es == [es[0]] + ([es[1]] + ([es[2]] + ([es[3]] + ([es[4]] + ([es[5]] + ([es[6]] + []))))))
  {
  }

  /** One package is pushed, and the driver answers the request for a turn. */
  lemma {:induction false} ReachesAnswer(rest: seq<Event>)
    requires IsRun(State(Answered, [1], [1], [], 1, true, false), rest)
    ensures var events := [Start] + ([Push(1)] + ([Look] + ([Request] + ([Grant] + rest))));
            && IsRun(INITIAL, events)
            && After(INITIAL, events) == After(State(Answered, [1], [1], [], 1, true, false), rest)
            && (EndsHolding(State(Answered, [1], [1], [], 1, true, false), rest) ==> EndsHolding(INITIAL, events))
  {
    var s1 := Next(INITIAL, Start);
    var s2 := Next(s1, Push(1));
    var s3 := Next(s2, Look);
    var s4 := Next(s3, Request);
    assert Next(s4, Grant) == State(Answered, [1], [1], [], 1, true, false);
    Prefixed(s4, Grant, rest);
    Prefixed(s3, Request, [Grant] + rest);
    Prefixed(s2, Look, [Request] + ([Grant] + rest));
    Prefixed(s1, Push(1), [Look] + ([Request] + ([Grant] + rest)));
    Prefixed(INITIAL, Start, [Push(1)] + ([Look] + ([Request] + ([Grant] + rest))));
  }

  lemma {:induction false} Prefixed(s: State, e: Event, rest: seq<Event>)
    requires Enabled(s, e) && IsRun(Next(s, e), rest)
    ensures IsRun(s, [e] + rest) && After(s, [e] + rest) == After(Next(s, e), rest)
    ensures EndsHolding(s, [e] + rest) <==> (e == Exit && s.control in {Answered, Granted}) || EndsHolding(Next(s, e), rest)
  {
    assert ([e] + rest)[0] == e && ([e] + rest)[1..] == rest;
  }

  // ----- no lost wake-up -----

  /** The steps that dispatcher and driver have before them until the queue is empty, and notifies that are owed. */
  function Rank(s: State): nat {
    if s.queue == [] then 0
    else
      |s.queue| + s.unnotified +
      match s.control
      case AwaitingStart => 6
      case Looking => 5
      case Asleep => 5
      case Requesting => 4
      case AwaitingGrant => 3
      case Answered => 2
      case Granted => 1
      case _ => 0
  }

  predicate Undisturbed(events: seq<Event>) {
    forall e <- events :: !e.Push? && !e.Stop?
  }

  predicate Running(s: State) {
    !s.finished && s.control != Stopped
  }

  lemma {:induction false} StepNearer(s: State, e: Event)
    requires Inv(s) && Running(s) && Enabled(s, e) && !e.Push? && !e.Stop?
    ensures Running(Next(s, e)) && Next(s, e).accepted == s.accepted
    ensures s.queue == [] ==> Next(s, e).queue == []
    ensures s.queue != [] ==> Rank(Next(s, e)) < Rank(s)
  {
  }

  /** No run stops short: with packages queued, some step other than a new package or a stop can be taken. */
  lemma {:induction false} NeverStuck(s: State)
    requires Inv(s) && Running(s) && s.queue != []
    ensures exists e :: Enabled(s, e) && !e.Push? && !e.Stop?
  {
    var e := match s.control
      case AwaitingStart => Start
      case Looking => Look
      case Asleep => Notify
      case Requesting => Request
      case AwaitingGrant => Grant
      case Answered => Receive
      case Granted => Lock
      case _ => DeliverOne;
    assert Enabled(s, e);
  }

  /**
   Every run of enough steps, without new packages and without a stop, delivers all that was accepted:
   one step for each queued package and each notify owed, and six more.
   */
  lemma {:induction false} EveryRunDelivers(s: State, events: seq<Event>)
    requires Inv(s) && Running(s) && IsRun(s, events) && Undisturbed(events)
    requires |events| >= Rank(s)
    ensures Rank(s) <= |s.queue| + s.unnotified + 6
    ensures After(s, events).queue == [] && After(s, events).delivered == s.accepted
    decreases |events|
  {
    if events != [] {
      assert events[0] in events;
      StepNearer(s, events[0]);
      StepKeeps(s, events[0]);
      EveryRunDelivers(Next(s, events[0]), events[1..]);
    }
  }

  /** Draining as the dispatcher does it. */
  function Drained(n: nat): seq<Event> {
    if n == 0 then [SendDone] else [DeliverOne] + Drained(n - 1)
  }

  lemma {:induction false} DrainRuns(s: State)
    requires Inv(s) && s.control == Draining
    ensures IsRun(s, Drained(|s.queue|))
    ensures After(s, Drained(|s.queue|)) == s.(control := AwaitingAck, turn := false, queue := [], delivered := s.accepted)
    decreases |s.queue|
  {
    if s.queue == [] {
      assert After(Next(s, SendDone), []) == Next(s, SendDone);
    } else {
      StepKeeps(s, DeliverOne);
      DrainRuns(Next(s, DeliverOne));
      assert Drained(|s.queue|)[1..] == Drained(|s.queue| - 1);
    }
  }

  // ----- the dispatcher's own code -----

  class Dispatcher {
    var toDeliver: seq<Package>
    var delivered: seq<Package>       // what the receivers have been handed, in order
    ghost var model: State            // where the threads are

    /** The queue and the deliveries are those of the state machine. */
    ghost predicate Valid()
      reads this
    {
      Inv(model) && toDeliver == model.queue && delivered == model.delivered
    }

    constructor ()
      ensures Valid() && model == INITIAL
    {
      toDeliver, delivered, model := [], [], INITIAL;
    }

    /** The locked part of deliver, possible while the dispatcher does not hold the mutex. */
    method Deliver(p: Package)
      requires Valid() && !Locked(model)
      modifies this
      ensures Valid() && model == Next(old(model), Push(p))
    {
      StepKeeps(model, Push(p));
      toDeliver := toDeliver + [p];
      model := Next(model, Push(p));
    }

    /** The loop of idle() in state e_running and the "done" after it: a run of the state machine. */
    method Drain()
      requires Valid() && model.control == Draining
      modifies this
      ensures Valid() && toDeliver == [] && delivered == old(delivered) + old(toDeliver)
      ensures IsRun(old(model), Drained(|old(toDeliver)|)) && model == After(old(model), Drained(|old(toDeliver)|))
    {
      DrainRuns(model);
      while toDeliver != []
        invariant Valid() && model.control == Draining && model.accepted == old(model).accepted
        invariant model == old(model).(queue := model.queue, delivered := model.delivered)
        decreases |toDeliver|
      {
        StepKeeps(model, DeliverOne);
        var p := toDeliver[0];
        toDeliver := toDeliver[1..];
        delivered := delivered + [p];
        model := Next(model, DeliverOne);
      }
      StepKeeps(model, SendDone);
      assert model.delivered + [] == model.delivered;
      model := Next(model, SendDone);
    }
  }
}
