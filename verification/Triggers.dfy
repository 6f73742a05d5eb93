/**
 Trigger lifetimes. A trigger is reference counted by hand. The owning pointers that are modelled are the
 `trigger` of an action, the `pending_trigger` of a FireTriggerAction and the `trigger` of a condition
 handler. Any other reference, such as that of a stable state, of a scheduled item or of code that will
 pass it on, counts as one in hand. The accounting says where every counted reference is, in every run.
 */
module Triggers {
  import opened Options

  type Id = nat

  /** An owning pointer of a live object. */
  datatype Slot = ActionTrigger(a: Id) | PendingTrigger(f: Id) | HandlerTrigger(h: Id)

  /** The pointers that own a trigger. */
  function Owners(held: map<Slot, Id>, t: Id): set<Slot> {
    set p | p in held && held[p] == t
  }

  lemma {:induction false} OwnersStore(held: map<Slot, Id>, p: Slot, t: Id, x: Id)
    requires p !in held
    ensures |Owners(held[p := t], x)| == |Owners(held, x)| + if x == t then 1 else 0
  {
    assert Owners(held[p := t], x) == if x == t then Owners(held, x) + {p} else Owners(held, x);
  }

  lemma {:induction false} OwnersTake(held: map<Slot, Id>, p: Slot, x: Id)
    requires p in held
    ensures |Owners(held, x)| == |Owners(held - {p}, x)| + if x == held[p] then 1 else 0
  {
    assert Owners(held, x) == if x == held[p] then Owners(held - {p}, x) + {p} else Owners(held - {p}, x);
  }

  function Plus(m: multiset<Id>, t: Id): multiset<Id> {
    m[t := m[t] + 1]
  }

  function Minus(m: multiset<Id>, t: Id): multiset<Id>
    requires t in m
  {
    m[t := m[t] - 1]
  }

  lemma {:induction false} PlusMinus(m: multiset<Id>, t: Id)
    ensures Minus(Plus(m, t), t) == m
  {
    var n := Minus(Plus(m, t), t);
    forall x ensures n[x] == m[x] {}
    assert n == m;
  }

  lemma {:induction false} Replacing(held: map<Slot, Id>, p: Slot, t: Id)
    ensures (held - {p})[p := t] == held[p := t]
  {
  }

  /** What code may do with triggers, actions and condition handlers. */
  datatype Event =
    | NewTrigger(t: Id)                      // new Trigger: one reference, for the caller
    | HandOut(t: Id)                         // code that can see a live trigger retains it
    | GiveBack(t: Id)                        // code releases a reference it has
    | NewAction(a: Id, given: Option<Id>)    // Action(m, t): takes over the caller's reference
    | NewFireTrigger(a: Id, t: Id)           // FireTriggerAction(m, t)
    | Set(a: Id, given: Option<Id>)          // Action::setTrigger
    | Reset(a: Id)                           // Action::reset, also part of operator()
    | Fire(a: Id)                            // FireTriggerAction::run
    | RetainAct(a: Id)                       // Action::retain
    | ReleaseAct(a: Id)                      // Action::release
    | NewHandler(h: Id)
    | GiveHandler(h: Id, t: Id)              // a fresh trigger is stored in a handler that has none
    | Copy(h: Id, from: Id)                  // ConditionHandler(const ConditionHandler &)
    | Assign(h: Id, from: Id)                // ConditionHandler::operator=
    | ResetHandler(h: Id)                    // ConditionHandler::reset
    | DestroyHandler(h: Id)                  // ~ConditionHandler

  // ----- the pointers and references as values -----

  /** The owning pointers that are not null, the live objects, the references in hand and those that are lost. */
  datatype Books = Books(held: map<Slot, Id>, actions: map<Id, int>, handlers: set<Id>,
                         loose: multiset<Id>, leaked: multiset<Id>)

  /** Nothing exists yet. */
  const NOTHING := Books(map[], map[], {}, multiset{}, multiset{})

  predicate AliveIn(b: Books, p: Slot) {
    match p
    case ActionTrigger(a) => a in b.actions
    case PendingTrigger(a) => a in b.actions
    case HandlerTrigger(h) => h in b.handlers
  }

  /** Pointers belong to live objects. */
  predicate Sound(b: Books) {
    (forall p | p in b.held :: AliveIn(b, p)) && (forall a | a in b.actions :: b.actions[a] > 0)
  }

  predicate Referenced(b: Books, t: Id) {
    Owners(b.held, t) != {} || t in b.loose || t in b.leaked
  }

  predicate Points(b: Books, p: Slot, t: Id) {
    p in b.held && b.held[p] == t
  }

  /** What the code around an operation must ensure. */
  predicate CanHappen(b: Books, e: Event) {
    match e
    case NewTrigger(t) => !Referenced(b, t)
    case HandOut(t) => Referenced(b, t)
    case GiveBack(t) => t in b.loose
    case NewAction(a, given) => a !in b.actions && (given.Some? ==> given.value in b.loose)
    case NewFireTrigger(a, t) => a !in b.actions && Referenced(b, t)
    case Set(a, given) => a in b.actions && (given.Some? ==> given.value in b.loose)
    case Reset(a) => a in b.actions
    case Fire(a) => a in b.actions && PendingTrigger(a) in b.held
    case RetainAct(a) => a in b.actions
    case ReleaseAct(a) => a in b.actions
    case NewHandler(h) => h !in b.handlers
    case GiveHandler(h, t) => h in b.handlers && HandlerTrigger(h) !in b.held && t in b.loose
    case Copy(h, from) => h !in b.handlers && from in b.handlers
    case Assign(h, from) => h in b.handlers && from in b.handlers
    case ResetHandler(h) => h in b.handlers
    case DestroyHandler(h) => h in b.handlers
  }

  /** The trigger of which an operation leaks a reference: in these four cases and no other. */
  function LeakOf(b: Books, e: Event): Option<Id>
    requires CanHappen(b, e)
  {
    match e
    case Set(a, Some(t)) => if Points(b, ActionTrigger(a), t) then Some(t) else None
    case Fire(a) =>
      if Points(b, ActionTrigger(a), b.held[PendingTrigger(a)]) then Some(b.held[PendingTrigger(a)]) else None
    case ReleaseAct(a) =>
      if b.actions[a] == 1 && PendingTrigger(a) in b.held then Some(b.held[PendingTrigger(a)]) else None
    case Assign(h, _) => if HandlerTrigger(h) in b.held then Some(b.held[HandlerTrigger(h)]) else None
    case _ => None
  }

  /** The owning pointers after an operation. */
  function HeldAfter(b: Books, e: Event): map<Slot, Id>
    requires CanHappen(b, e)
  {
    match e
    case NewAction(a, Some(t)) => b.held[ActionTrigger(a) := t]
    case NewFireTrigger(a, t) => b.held[PendingTrigger(a) := t]
    case Set(a, Some(t)) => b.held[ActionTrigger(a) := t]
    case Set(a, None) => b.held - {ActionTrigger(a)}
    case Reset(a) => b.held - {ActionTrigger(a)}
    case Fire(a) => b.held[ActionTrigger(a) := b.held[PendingTrigger(a)]] - {PendingTrigger(a)}
    case ReleaseAct(a) => if b.actions[a] > 1 then b.held else b.held - {ActionTrigger(a)} - {PendingTrigger(a)}
    case GiveHandler(h, t) => b.held[HandlerTrigger(h) := t]
    case Copy(h, from) =>
      if HandlerTrigger(from) in b.held then b.held[HandlerTrigger(h) := b.held[HandlerTrigger(from)]] else b.held
    case Assign(h, from) =>
      if HandlerTrigger(from) in b.held then b.held[HandlerTrigger(h) := b.held[HandlerTrigger(from)]]
      else b.held - {HandlerTrigger(h)}
    case ResetHandler(h) => b.held - {HandlerTrigger(h)}
    case DestroyHandler(h) => b.held - {HandlerTrigger(h)}
    case _ => b.held
  }

  function ActionsAfter(b: Books, e: Event): map<Id, int>
    requires CanHappen(b, e)
  {
    match e
    case NewAction(a, _) => b.actions[a := 1]
    case NewFireTrigger(a, _) => b.actions[a := 1]
    case RetainAct(a) => b.actions[a := b.actions[a] + 1]
    case ReleaseAct(a) => if b.actions[a] > 1 then b.actions[a := b.actions[a] - 1] else b.actions - {a}
    case _ => b.actions
  }

  function HandlersAfter(b: Books, e: Event): set<Id>
    requires CanHappen(b, e)
  {
    match e
    case NewHandler(h) => b.handlers + {h}
    case Copy(h, _) => b.handlers + {h}
    case DestroyHandler(h) => b.handlers - {h}
    case _ => b.handlers
  }

  function LooseAfter(b: Books, e: Event): multiset<Id>
    requires CanHappen(b, e)
  {
    match e
    case NewTrigger(t) => Plus(b.loose, t)
    case HandOut(t) => Plus(b.loose, t)
    case GiveBack(t) => Minus(b.loose, t)
    case NewAction(_, Some(t)) => Minus(b.loose, t)
    case Set(_, Some(t)) => Minus(b.loose, t)
    case GiveHandler(_, t) => Minus(b.loose, t)
    case _ => b.loose
  }

  function LeakedAfter(b: Books, e: Event): multiset<Id>
    requires CanHappen(b, e)
  {
    match LeakOf(b, e)
    case Some(t) => Plus(b.leaked, t)
    case None => b.leaked
  }

  function Next(b: Books, e: Event): Books
    requires CanHappen(b, e)
  {
    Books(HeldAfter(b, e), ActionsAfter(b, e), HandlersAfter(b, e), LooseAfter(b, e), LeakedAfter(b, e))
  }

  /** A run; an operation that cannot happen is passed over. */
  function After(b: Books, events: seq<Event>): Books
    decreases |events|
  {
    if events == [] then b
    else After(if CanHappen(b, events[0]) then Next(b, events[0]) else b, events[1..])
  }

  /** Some operation of the run leaks. */
  predicate LeaksIn(b: Books, events: seq<Event>)
    decreases |events|
  {
    events != [] &&
    if CanHappen(b, events[0])
    then LeakOf(b, events[0]).Some? || LeaksIn(Next(b, events[0]), events[1..])
    else LeaksIn(b, events[1..])
  }

  lemma {:induction false} LeakedGrows(b: Books, events: seq<Event>, t: Id)
    ensures b.leaked[t] <= After(b, events).leaked[t]
    decreases |events|
  {
    if events != [] {
      LeakedGrows(if CanHappen(b, events[0]) then Next(b, events[0]) else b, events[1..], t);
    }
  }

  /** References are lost in a run exactly when one of its operations leaks: what is lost stays lost. */
  lemma {:induction false} LostExactly(b: Books, events: seq<Event>)
    ensures After(b, events).leaked != b.leaked <==> LeaksIn(b, events)
    decreases |events|
  {
    if events != [] {
      var e := events[0];
      if CanHappen(b, e) {
        LostExactly(Next(b, e), events[1..]);
        if LeakOf(b, e).Some? {
          LeakedGrows(Next(b, e), events[1..], LeakOf(b, e).value);
        }
      } else {
        LostExactly(b, events[1..]);
      }
    }
  }

  // ----- the operations as the program calls them -----

  /**
   How the runtime calls these operations. setTrigger is given nothing or a trigger that no pointer owns yet,
   on actions that are no FireTriggerAction; and no code gives a condition handler a trigger.
   */
  predicate AsCalled(b: Books, e: Event) {
    match e
    case Set(a, Some(t)) => Owners(b.held, t) == {} && PendingTrigger(a) !in b.held
    case GiveHandler(_, _) => false
    case _ => true
  }

  predicate AllAsCalled(b: Books, events: seq<Event>)
    decreases |events|
  {
    events == [] ||
    (CanHappen(b, events[0]) && AsCalled(b, events[0]) && AllAsCalled(Next(b, events[0]), events[1..]))
  }

  /** A FireTriggerAction has no trigger of its own until it runs, and condition handlers have none at all. */
  ghost predicate Usual(b: Books) {
    && (forall a | PendingTrigger(a) in b.held :: ActionTrigger(a) !in b.held)
    && (forall h :: HandlerTrigger(h) !in b.held)
  }

  /** The release that deletes a FireTriggerAction which has not run. */
  predicate DropsUnrun(b: Books, e: Event)
    requires CanHappen(b, e)
  {
    e.ReleaseAct? && b.actions[e.a] == 1 && PendingTrigger(e.a) in b.held
  }

  predicate DropsUnrunIn(b: Books, events: seq<Event>)
    requires AllAsCalled(b, events)
    decreases |events|
  {
    events != [] && (DropsUnrun(b, events[0]) || DropsUnrunIn(Next(b, events[0]), events[1..]))
  }

  /** Called like that, it is the only operation that leaks. */
  lemma {:induction false} LeaksAsCalled(b: Books, e: Event)
    requires Usual(b) && CanHappen(b, e) && AsCalled(b, e)
    ensures LeakOf(b, e).Some? <==> DropsUnrun(b, e)
  {
    assert forall p, t | Points(b, p, t) :: p in Owners(b.held, t);
  }

  lemma {:induction false} UsualKept(b: Books, e: Event)
    requires Sound(b) && Usual(b) && CanHappen(b, e) && AsCalled(b, e)
    ensures Usual(Next(b, e))
  {
    var held := HeldAfter(b, e);
    forall a | PendingTrigger(a) in held
      ensures ActionTrigger(a) !in held
    {
      assert ActionTrigger(a) in b.held ==> AliveIn(b, ActionTrigger(a));
      assert PendingTrigger(a) in b.held ==> AliveIn(b, PendingTrigger(a));
    }
    forall h
      ensures HandlerTrigger(h) !in held
    {
      assert HandlerTrigger(h) !in b.held;
    }
  }

  lemma {:induction false} SoundKept(b: Books, e: Event)
    requires Sound(b) && CanHappen(b, e)
    ensures Sound(Next(b, e))
  {
  }

  /** Every run of operations as they are called loses references exactly when it deletes a FireTriggerAction which has not run. */
  lemma {:induction false} LostAsCalledExactly(b: Books, events: seq<Event>)
    requires Sound(b) && Usual(b) && AllAsCalled(b, events)
    ensures After(b, events).leaked != b.leaked <==> DropsUnrunIn(b, events)
  {
    LostExactly(b, events);
    LeaksInAsCalled(b, events);
  }

  lemma {:induction false} LeaksInAsCalled(b: Books, events: seq<Event>)
    requires Sound(b) && Usual(b) && AllAsCalled(b, events)
    ensures LeaksIn(b, events) <==> DropsUnrunIn(b, events)
    decreases |events|
  {
    if events != [] {
      LeaksAsCalled(b, events[0]);
      UsualKept(b, events[0]);
      SoundKept(b, events[0]);
      LeaksInAsCalled(Next(b, events[0]), events[1..]);
    }
  }

  // ----- the objects -----

  /**
   The triggers, actions and condition handlers of the program. refs[t] is Trigger::refs of trigger t,
   which has been deleted, or never made, when it is 0.
   */
  class TriggerHeap {
    var refs: multiset<Id>
    var held: map<Slot, Id>        // the owning pointers that are not null
    var actions: map<Id, int>      // Action::refs of the live actions
    var handlers: set<Id>          // the live condition handlers
    var loose: multiset<Id>        // references in the hands of code that will pass them on
    var leaked: multiset<Id>       // references that nothing will ever release

    constructor ()
      ensures Valid() && Now() == NOTHING && refs == multiset{}
    {
      refs, held, actions, handlers, loose, leaked := multiset{}, map[], map[], {}, multiset{}, multiset{};
      new;
      forall t ensures Owners(held, t) == {} {}
    }

    function Now(): Books
      reads `held, `actions, `handlers, `loose, `leaked
    {
      Books(held, actions, handlers, loose, leaked)
    }

    predicate Live(t: Id)
      reads `refs
    {
      refs[t] > 0
    }

    predicate SlotAlive(p: Slot)
      reads `actions, `handlers
    {
      match p
      case ActionTrigger(a) => a in actions
      case PendingTrigger(a) => a in actions
      case HandlerTrigger(h) => h in handlers
    }

    /** Every counted reference is owned by a pointer, in someone's hands, or leaked. */
    ghost predicate Counted()
      reads `refs, `held, `loose, `leaked
    {
      forall t :: refs[t] == |Owners(held, t)| + loose[t] + leaked[t]
    }

    ghost predicate PointersAlive()
      reads `held, `actions, `handlers
    {
      && (forall p | p in held :: SlotAlive(p))
      && (forall a | a in actions :: actions[a] > 0)
    }

    ghost predicate Valid()
      reads this
    {
      Counted() && PointersAlive()
    }

    predicate Holds(p: Slot, t: Id)
      reads `held
    {
      p in held && held[p] == t
    }

    /**
     The count is exactly the owning pointers plus what is in hand or leaked; nothing that is held has
     been deleted; and a trigger is gone exactly when no pointer owns it, nobody has it in hand, and it
     was never leaked.
     */
    lemma {:induction false} CountIsExact(t: Id)
      requires Valid()
      ensures refs[t] == |Owners(held, t)| + loose[t] + leaked[t]
      ensures forall p | p in held && held[p] == t :: Live(t)
      ensures !Live(t) <==> Owners(held, t) == {} && t !in loose && t !in leaked
    {
      forall p | p in held && held[p] == t
        ensures Live(t)
      {
        assert p in Owners(held, t);
      }
    }

    // ----- the counted moves every operation is made of -----

    /** Trigger::retain, the new reference being in the hands of the caller. */
    method Retain(t: Id)
      requires Valid() && Live(t)
      modifies `refs, `loose
      ensures Valid() && refs == Plus(old(refs), t) && loose == Plus(old(loose), t)
    {
      refs := Plus(refs, t);
      loose := Plus(loose, t);
    }

    /** Trigger::release of a reference in the hands of the caller; the last one deletes the trigger. */
    method Release(t: Id)
      requires Valid() && t in loose
      modifies `refs, `loose
      ensures Valid() && old(Live(t)) && refs == Minus(old(refs), t) && loose == Minus(old(loose), t)
    {
      refs := Minus(refs, t);
      loose := Minus(loose, t);
    }

    /** A null pointer takes over a reference in the hands of the caller. */
    method Store(p: Slot, t: Id)
      requires Valid() && t in loose && p !in held && SlotAlive(p)
      modifies `held, `loose
      ensures Valid() && held == old(held)[p := t] && loose == Minus(old(loose), t)
    {
      forall x ensures |Owners(held[p := t], x)| == |Owners(held, x)| + if x == t then 1 else 0 { OwnersStore(held, p, t, x); }
      held := held[p := t];
      loose := Minus(loose, t);
    }

    /** The caller takes the reference out of a pointer, which becomes null. */
    method Take(p: Slot)
      requires Valid() && p in held
      modifies `held, `loose
      ensures Valid() && held == old(held) - {p} && loose == Plus(old(loose), old(held)[p])
    {
      forall x ensures |Owners(held, x)| == |Owners(held - {p}, x)| + if x == held[p] then 1 else 0 { OwnersTake(held, p, x); }
      loose := Plus(loose, held[p]);
      held := held - {p};
    }

    /** A reference in the hands of the caller is forgotten. */
    method Leak(t: Id)
      requires Valid() && t in loose
      modifies `loose, `leaked
      ensures Valid() && loose == Minus(old(loose), t) && leaked == Plus(old(leaked), t)
    {
      loose := Minus(loose, t);
      leaked := Plus(leaked, t);
    }

    // ----- the operations -----

    /** Action::cleanupTrigger: releases the reference a pointer owns and clears the pointer. */
    method Drop(p: Slot)
      requires Valid()
      modifies `refs, `held, `loose
      ensures Valid() && held == old(held) - {p} && loose == old(loose)
    {
      if p in held {
        var t := held[p];
        PlusMinus(loose, t);
        Take(p);
        Release(t);
      }
    }

    /** A pointer is overwritten, or goes out of existence, without releasing the reference it owns. */
    method Forget(p: Slot)
      requires Valid()
      modifies `held, `loose, `leaked
      ensures Valid() && held == old(held) - {p} && loose == old(loose)
      ensures leaked == if p in old(held) then Plus(old(leaked), old(held)[p]) else old(leaked)
    {
      if p in held {
        var t := held[p];
        PlusMinus(loose, t);
        Take(p);
        Leak(t);
      }
    }

    /** A null pointer takes a reference of its own to a live trigger. */
    method Share(p: Slot, t: Id)
      requires Valid() && Live(t) && p !in held && SlotAlive(p)
      modifies `refs, `held, `loose
      ensures Valid() && held == old(held)[p := t] && loose == old(loose)
    {
      PlusMinus(loose, t);
      Retain(t);
      Store(p, t);
    }

    /**
     Action::setTrigger: the caller hands over a reference. If the action has that trigger already the
     call returns at once and the reference handed over is never released.
     */
    method SetTrigger(a: Id, t: Option<Id>)
      requires Valid() && a in actions && (t.Some? ==> t.value in loose)
      modifies `refs, `held, `loose, `leaked
      ensures Valid()
      ensures held == if t.Some? then old(held)[ActionTrigger(a) := t.value] else old(held) - {ActionTrigger(a)}
      ensures loose == if t.Some? then Minus(old(loose), t.value) else old(loose)
      ensures leaked == if t.Some? && old(Holds(ActionTrigger(a), t.value)) then Plus(old(leaked), t.value) else old(leaked)
    {
      match t
      case None =>
        Drop(ActionTrigger(a));
      case Some(x) =>
        if Holds(ActionTrigger(a), x) {
          Leak(x);
        } else {
          Replacing(held, ActionTrigger(a), x);
          Drop(ActionTrigger(a));
          Store(ActionTrigger(a), x);
        }
    }

    /** The first step of FireTriggerAction::run: setTrigger(pending_trigger->retain()). */
    method InstallPending(a: Id)
      requires Valid() && a in actions && PendingTrigger(a) in held
      modifies `refs, `held, `loose, `leaked
      ensures Valid() && held == old(held)[ActionTrigger(a) := old(held)[PendingTrigger(a)]] && loose == old(loose)
      ensures leaked == if old(Holds(ActionTrigger(a), held[PendingTrigger(a)]))
                        then Plus(old(leaked), old(held)[PendingTrigger(a)]) else old(leaked)
    {
      var t := held[PendingTrigger(a)];
      CountIsExact(t);
      PlusMinus(loose, t);
      Retain(t);
      SetTrigger(a, Some(t));
    }

    /** FireTriggerAction::run: the pending trigger becomes the action's trigger, and is alive to be fired. */
    method FirePending(a: Id) returns (t: Id)
      requires Valid() && a in actions && PendingTrigger(a) in held
      modifies `refs, `held, `loose, `leaked
      ensures Valid() && t == old(held)[PendingTrigger(a)] && Live(t) && loose == old(loose)
      ensures held == old(held)[ActionTrigger(a) := t] - {PendingTrigger(a)}
      ensures leaked == if old(Holds(ActionTrigger(a), held[PendingTrigger(a)])) then Plus(old(leaked), t) else old(leaked)
    {
      t := held[PendingTrigger(a)];
      InstallPending(a);
      Drop(PendingTrigger(a));
      assert Holds(ActionTrigger(a), t);
      CountIsExact(t);
    }

    /** ~Action and ~FireTriggerAction: the trigger is released, a pending trigger is not. */
    method DestroyAction(a: Id)
      requires Valid() && a in actions
      modifies this
      ensures Valid() && loose == old(loose) && handlers == old(handlers) && actions == old(actions) - {a}
      ensures held == old(held) - {ActionTrigger(a)} - {PendingTrigger(a)}
      ensures leaked == if PendingTrigger(a) in old(held) then Plus(old(leaked), old(held)[PendingTrigger(a)]) else old(leaked)
    {
      Drop(ActionTrigger(a));
      assert PendingTrigger(a) in held <==> PendingTrigger(a) in old(held);
      Forget(PendingTrigger(a));
      Delete(a);
    }

    /** The object of an action goes, when both its pointers are null. */
    method Delete(a: Id)
      requires Valid() && a in actions && ActionTrigger(a) !in held && PendingTrigger(a) !in held
      modifies `actions
      ensures Valid() && actions == old(actions) - {a}
    {
      actions := actions - {a};
    }

    /** Action::release: the last one deletes the action. */
    method ReleaseAction(a: Id)
      requires Valid() && a in actions
      modifies this
      ensures Valid() && loose == old(loose) && handlers == old(handlers)
      ensures actions == if old(actions)[a] > 1 then old(actions)[a := old(actions)[a] - 1] else old(actions) - {a}
      ensures held == if old(actions)[a] > 1 then old(held) else old(held) - {ActionTrigger(a)} - {PendingTrigger(a)}
      ensures leaked == if old(actions)[a] == 1 && PendingTrigger(a) in old(held)
                        then Plus(old(leaked), old(held)[PendingTrigger(a)]) else old(leaked)
    {
      if actions[a] > 1 {
        actions := actions[a := actions[a] - 1];
      } else {
        DestroyAction(a);
      }
    }

    /** ConditionHandler::operator=: the old trigger is overwritten, the new one retained. */
    method AssignHandler(h: Id, from: Id)
      requires Valid() && h in handlers && from in handlers
      modifies `refs, `held, `loose, `leaked
      ensures Valid() && loose == old(loose)
      ensures held == if HandlerTrigger(from) in old(held) then old(held)[HandlerTrigger(h) := old(held)[HandlerTrigger(from)]]
                      else old(held) - {HandlerTrigger(h)}
      ensures leaked == if HandlerTrigger(h) in old(held) then Plus(old(leaked), old(held)[HandlerTrigger(h)]) else old(leaked)
    {
      if HandlerTrigger(from) in held {
        var t := held[HandlerTrigger(from)];
        CountIsExact(t);
        PlusMinus(loose, t);
        Replacing(held, HandlerTrigger(h), t);
        Retain(t);
        Forget(HandlerTrigger(h));
        Store(HandlerTrigger(h), t);
      } else {
        Forget(HandlerTrigger(h));
      }
    }

    /** The copy constructor of ConditionHandler. */
    method CopyHandler(h: Id, from: Id)
      requires Valid() && h !in handlers && from in handlers
      modifies `refs, `held, `loose, `handlers
      ensures Valid() && loose == old(loose) && handlers == old(handlers) + {h}
      ensures held == if HandlerTrigger(from) in old(held) then old(held)[HandlerTrigger(h) := old(held)[HandlerTrigger(from)]]
                      else old(held)
    {
      handlers := handlers + {h};
      if HandlerTrigger(from) in held {
        var t := held[HandlerTrigger(from)];
        CountIsExact(t);
        Share(HandlerTrigger(h), t);
      }
    }

    // ----- the operations one by one, and in runs -----

    /** Objects come into existence with null pointers. */
    method AddAction(a: Id)
      requires Valid() && a !in actions
      modifies `actions
      ensures Valid() && actions == old(actions)[a := 1]
      ensures ActionTrigger(a) !in held && PendingTrigger(a) !in held
    {
      assert ActionTrigger(a) in held ==> SlotAlive(ActionTrigger(a));
      assert PendingTrigger(a) in held ==> SlotAlive(PendingTrigger(a));
      actions := actions[a := 1];
    }

    /** The constructors of Action: a trigger that is given comes with its reference. */
    method MakeAction(a: Id, given: Option<Id>)
      requires Valid() && a !in actions && (given.Some? ==> given.value in loose)
      modifies this
      ensures Valid() && leaked == old(leaked) && handlers == old(handlers) && actions == old(actions)[a := 1]
      ensures held == if given.Some? then old(held)[ActionTrigger(a) := given.value] else old(held)
      ensures loose == if given.Some? then Minus(old(loose), given.value) else old(loose)
    {
      AddAction(a);
      assert given.None? ==> held - {ActionTrigger(a)} == held;
      SetTrigger(a, given);
    }

    /** The constructor of FireTriggerAction. */
    method MakeFireTrigger(a: Id, t: Id)
      requires Valid() && a !in actions && Live(t)
      modifies this
      ensures Valid() && leaked == old(leaked) && handlers == old(handlers) && actions == old(actions)[a := 1]
      ensures held == old(held)[PendingTrigger(a) := t] && loose == old(loose)
    {
      AddAction(a);
      Share(PendingTrigger(a), t);
    }

    /** Action::retain. */
    method RetainAction(a: Id)
      requires Valid() && a in actions
      modifies `actions
      ensures Valid() && actions == old(actions)[a := old(actions)[a] + 1]
    {
      actions := actions[a := actions[a] + 1];
    }

    /** The constructor of Trigger. */
    method Make(t: Id)
      requires Valid() && !Live(t)
      modifies `refs, `loose
      ensures Valid() && refs[t] == 1 && loose == Plus(old(loose), t) && Owners(held, t) == {} && t !in leaked
    {
      CountIsExact(t);
      refs, loose := Plus(refs, t), Plus(loose, t);
    }

    method AddHandler(h: Id)
      requires Valid() && h !in handlers
      modifies `handlers
      ensures Valid() && handlers == old(handlers) + {h}
    {
      handlers := handlers + {h};
    }

    /** ~ConditionHandler. */
    method DeleteHandler(h: Id)
      requires Valid() && h in handlers
      modifies `refs, `held, `loose, `handlers
      ensures Valid() && handlers == old(handlers) - {h} && held == old(held) - {HandlerTrigger(h)} && loose == old(loose)
    {
      Drop(HandlerTrigger(h));
      handlers := handlers - {h};
    }

    /** A new action. */
    method PerformNew(e: Event)
      requires Valid() && CanHappen(Now(), e) && (e.NewAction? || e.NewFireTrigger?)
      modifies this
      ensures Valid() && Now() == Next(old(Now()), e)
    {
      match e
      case NewAction(a, given) =>
        MakeAction(a, given);
      case NewFireTrigger(a, t) =>
        CountIsExact(t);
        MakeFireTrigger(a, t);
    }

    /** An operation on the trigger of an action. */
    method PerformSet(e: Event)
      requires Valid() && CanHappen(Now(), e) && (e.Set? || e.Reset?)
      modifies this
      ensures Valid() && Now() == Next(old(Now()), e)
    {
      match e
      case Set(a, given) =>
        SetTrigger(a, given);
      case Reset(a) =>
        Drop(ActionTrigger(a));
    }

    /** The run of a FireTriggerAction. */
    method PerformFire(e: Event)
      requires Valid() && CanHappen(Now(), e) && e.Fire?
      modifies this
      ensures Valid() && Now() == Next(old(Now()), e)
    {
      var _ := FirePending(e.a);
    }

    /** An operation on the reference count of an action. */
    method PerformCount(e: Event)
      requires Valid() && CanHappen(Now(), e) && (e.RetainAct? || e.ReleaseAct?)
      modifies this
      ensures Valid() && Now() == Next(old(Now()), e)
    {
      match e
      case RetainAct(a) =>
        RetainAction(a);
      case ReleaseAct(a) =>
        ReleaseAction(a);
    }

    /** A condition handler that comes or goes. */
    method PerformHandler(e: Event)
      requires Valid() && CanHappen(Now(), e) && (e.NewHandler? || e.Copy? || e.DestroyHandler?)
      modifies this
      ensures Valid() && Now() == Next(old(Now()), e)
    {
      match e
      case NewHandler(h) =>
        AddHandler(h);
      case Copy(h, from) =>
        CopyHandler(h, from);
      case DestroyHandler(h) =>
        DeleteHandler(h);
    }

    /** An operation on the trigger of a condition handler. */
    method PerformAssign(e: Event)
      requires Valid() && CanHappen(Now(), e) && (e.GiveHandler? || e.Assign? || e.ResetHandler?)
      modifies this
      ensures Valid() && Now() == Next(old(Now()), e)
    {
      match e
      case GiveHandler(h, t) =>
        Store(HandlerTrigger(h), t);
      case Assign(h, from) =>
        AssignHandler(h, from);
      case ResetHandler(h) =>
        Drop(HandlerTrigger(h));
    }

    /** Any operation keeps the accounts, and moves pointers and references as the model says. */
    method Perform(e: Event)
      requires Valid() && CanHappen(Now(), e)
      modifies this
      ensures Valid() && Now() == Next(old(Now()), e)
    {
      match e
      case NewTrigger(t) =>
        CountIsExact(t);
        Make(t);
      case HandOut(t) =>
        CountIsExact(t);
        Retain(t);
      case GiveBack(t) =>
        Release(t);
      case NewAction(_, _) => PerformNew(e);
      case NewFireTrigger(_, _) => PerformNew(e);
      case Set(_, _) => PerformSet(e);
      case Reset(_) => PerformSet(e);
      case Fire(_) => PerformFire(e);
      case RetainAct(_) => PerformCount(e);
      case ReleaseAct(_) => PerformCount(e);
      case NewHandler(_) => PerformHandler(e);
      case Copy(_, _) => PerformHandler(e);
      case DestroyHandler(_) => PerformHandler(e);
      case _ => PerformAssign(e);
    }

    /** Any run keeps the accounts and is a run of the model; it is clean exactly when none of its operations leaks. */
    method Run(events: seq<Event>) returns (clean: bool)
      requires Valid()
      modifies this
      ensures Valid() && Now() == After(old(Now()), events)
      ensures clean <==> !LeaksIn(old(Now()), events)
    {
      clean := true;
      for i := 0 to |events|
        invariant Valid() && After(Now(), events[i..]) == After(old(Now()), events)
        invariant LeaksIn(old(Now()), events) <==> !clean || LeaksIn(Now(), events[i..])
      {
        assert events[i..][0] == events[i] && events[i..][1..] == events[i + 1..];
        if CanHappen(Now(), events[i]) {
          clean := clean && LeakOf(Now(), events[i]).None?;
          Perform(events[i]);
        }
      }
    }
  }

  // ----- the leak that happens -----

  /** A trigger and a FireTriggerAction for it are made, the maker gives its reference back, and the action is released unrun. */
  const UNRUN: seq<Event> := [NewTrigger(0), NewFireTrigger(1, 0), GiveBack(0), ReleaseAct(1)]

  /**
   As when the actions of a machine are cleared before they run: nothing owns the trigger, nobody has it
   in hand, and it is never deleted.
   */
  lemma {:induction false} UnrunFireTriggerLeaks()
    ensures AllAsCalled(NOTHING, UNRUN)
    ensures After(NOTHING, UNRUN) == NOTHING.(leaked := multiset{0})
  {
    var b1 := Next(NOTHING, NewTrigger(0));
    assert b1 == Books(map[], map[], {}, multiset{0}, multiset{});
    var b2 := Next(b1, NewFireTrigger(1, 0));
    assert b2 == Books(map[PendingTrigger(1) := 0], map[1 := 1], {}, multiset{0}, multiset{});
    var b3 := Next(b2, GiveBack(0));
    assert b3 == Books(map[PendingTrigger(1) := 0], map[1 := 1], {}, multiset{}, multiset{});
    var b4 := Next(b3, ReleaseAct(1));
    assert b4 == Books(map[], map[], {}, multiset{}, multiset{0});
    FourSteps(NOTHING, UNRUN, b1, b2, b3, b4);
  }

  lemma {:induction false} FourSteps(b: Books, es: seq<Event>, b1: Books, b2: Books, b3: Books, b4: Books)
    requires |es| == 4
    requires CanHappen(b, es[0]) && AsCalled(b, es[0]) && b1 == Next(b, es[0])
    requires CanHappen(b1, es[1]) && AsCalled(b1, es[1]) && b2 == Next(b1, es[1])
    requires CanHappen(b2, es[2]) && AsCalled(b2, es[2]) && b3 == Next(b2, es[2])
    requires CanHappen(b3, es[3]) && AsCalled(b3, es[3]) && b4 == Next(b3, es[3])
    ensures AllAsCalled(b, es) && After(b, es) == b4
  {
    Prefixed(b3, es[3], []);
    Prefixed(b2, es[2], [es[3]] + []);
    Prefixed(b1, es[1], [es[2]] + ([es[3]] + []));
    Prefixed(b, es[0], [es[1]] + ([es[2]] + ([es[3]] + [])));
    assert es == [es[0]] + ([es[1]] + ([es[2]] + ([es[3]] + [])));
  }

  lemma {:induction false} Prefixed(b: Books, e: Event, rest: seq<Event>)
    requires CanHappen(b, e) && AsCalled(b, e) && AllAsCalled(Next(b, e), rest)
    ensures AllAsCalled(b, [e] + rest) && After(b, [e] + rest) == After(Next(b, e), rest)
  {
    assert ([e] + rest)[0] == e && ([e] + rest)[1..] == rest;
  }
}
