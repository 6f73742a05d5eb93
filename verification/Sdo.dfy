/**
 The SDO request scheduler of ECInterface: a list of initialisation writes and a ring of update
 reads share one request in flight. The bus may answer in any way and at any time.
 */
module Sdo {
  import opened Options

  type Entry = nat

  datatype Operation = READ | WRITE
  datatype Request = Unused | Busy | Success | Error
  datatype Phase = Idle | BusyInitialisation | BusyUpdate

  /** The state of one SDOEntry and of its request; enabled is false only for a disabled machine. */
  datatype Info = Info(op: Operation, errors: nat, request: Request, data: int, enabled: bool)

  datatype Item = Item(entry: Option<Entry>, value: int)

  /** A list iterator: end() stays end() when the list grows. */
  datatype Cursor = End | At(i: nat)

  datatype State = State(inits: seq<Item>, updates: seq<Option<Entry>>, initAt: Cursor, updateAt: Cursor,
                         phase: Phase, info: map<Entry, Info>)

  function Advance(i: nat, n: nat): Cursor {
    if i + 1 < n then At(i + 1) else End
  }

  function Erase<T>(s: seq<T>, i: nat): seq<T>
    requires i < |s|
  {
    s[..i] + s[i + 1..]
  }

  /** The iterator that erase returns. */
  function AfterErase(i: nat, n: nat): Cursor {
    if i + 1 < n then At(i) else End
  }

  // ----- the specification of one tick -----

  predicate Known(s: State) {
    && (forall i | 0 <= i < |s.inits| :: s.inits[i].entry.Some? ==> s.inits[i].entry.value in s.info)
    && (forall i | 0 <= i < |s.updates| :: s.updates[i].Some? ==> s.updates[i].value in s.info)
    && (s.initAt.At? ==> s.initAt.i < |s.inits|)
    && (s.updateAt.At? ==> s.updateAt.i < |s.updates|)
  }

  function SetInfo(s: State, e: Entry, info: Info): State {
    s.(info := s.info[e := info])
  }

  /** The current initialisation entry has been written, or has failed for the fourth time, or is retried later. */
  function FinishInit(s: State, e: Entry, i: nat): State
    requires i < |s.inits| && e in s.info
  {
    var info := s.info[e];
    var n := |s.inits|;
    match info.request
    case Unused => s.(phase := Idle)
    case Busy => s
    case Success =>
      SetInfo(s, e, info.(errors := 0, op := READ)).(inits := Erase(s.inits, i), initAt := AfterErase(i, n), phase := Idle)
    case Error =>
      var failed := info.(errors := info.errors + 1);
      if failed.errors < 4 then SetInfo(s, e, failed).(initAt := Advance(i, n), phase := Idle)
      else SetInfo(s, e, failed.(op := READ)).(inits := Erase(s.inits, i), initAt := AfterErase(i, n), phase := Idle)
  }

  /** checkSDOInitialisation once the iterator is at an item. */
  function ServeInit(s: State, i: nat): State
    requires Known(s) && i < |s.inits|
  {
    match s.inits[i].entry
    case None => s.(initAt := Advance(i, |s.inits|))
    case Some(e) =>
      if s.phase == Idle
      then SetInfo(s, e, s.info[e].(op := WRITE, data := s.inits[i].value, request := Busy)).(phase := BusyInitialisation)
      else FinishInit(s, e, i)
  }

  /** Whether checkSDOInitialisation leaves the tick to the updates. */
  predicate InitsIdle(s: State) {
    s.phase == BusyUpdate || (s.initAt == End && s.inits == [])
  }

  function CheckInitialisation(s: State): State
    requires Known(s)
  {
    if InitsIdle(s) then s
    else if s.initAt == End then ServeInit(s.(initAt := At(0), phase := Idle), 0)
    else ServeInit(s, s.initAt.i)
  }

  function FinishUpdate(s: State, e: Entry, i: nat): State
    requires i < |s.updates| && e in s.info
  {
    var info := s.info[e];
    var next := Advance(i, |s.updates|);
    match info.request
    case Unused => s.(phase := Idle)
    case Busy => s
    case Success =>
      SetInfo(s, e, if info.op == READ then info.(errors := 0) else info).(updateAt := next, phase := Idle)
    case Error => SetInfo(s, e, info.(errors := info.errors + 1)).(updateAt := next, phase := Idle)
  }

  /** checkSDOUpdates once the iterator is at an item. */
  function ServeUpdate(s: State, i: nat): State
    requires Known(s) && i < |s.updates|
  {
    match s.updates[i]
    case None => s.(updateAt := Advance(i, |s.updates|))
    case Some(e) =>
      if s.phase == Idle then
        if !s.info[e].enabled then s.(updateAt := Advance(i, |s.updates|))
        else if s.info[e].op == WRITE then s
        else SetInfo(s, e, s.info[e].(request := Busy)).(phase := BusyUpdate)
      else FinishUpdate(s, e, i)
  }

  function CheckUpdates(s: State): State
    requires Known(s)
  {
    if s.updateAt == End then
      if s.updates == [] then s else ServeUpdate(s.(updateAt := At(0), phase := Idle), 0)
    else ServeUpdate(s, s.updateAt.i)
  }

  /** The assertion of the update path: an entry waiting to be written has its initialisation queued. */
  predicate UpdateAssertion(s: State)
    requires Known(s)
  {
    var at := if s.updateAt == End then 0 else s.updateAt.i;
    var phase := if s.updateAt == End then Idle else s.phase;
    at < |s.updates| && phase == Idle && s.updates[at].Some? && s.info[s.updates[at].value].op == WRITE ==> s.inits != []
  }

  function Tick(s: State): State
    requires Known(s)
  {
    if InitsIdle(s) then CheckUpdates(s) else CheckInitialisation(s)
  }

  // ----- what every step keeps -----

  /** The entry whose request may be in flight. */
  function Current(s: State): Option<Entry>
    requires Known(s)
  {
    if s.phase == BusyInitialisation && s.initAt.At? then s.inits[s.initAt.i].entry
    else if s.phase == BusyUpdate && s.updateAt.At? then s.updates[s.updateAt.i]
    else None
  }

  predicate Queued(s: State, e: Entry) {
    exists i :: 0 <= i < |s.inits| && s.inits[i].entry == Some(e)
  }

  predicate Inv(s: State) {
    && Known(s)
    && (s.phase == BusyInitialisation ==>
          && s.initAt.At? && s.inits[s.initAt.i].entry.Some?
          && var info := s.info[s.inits[s.initAt.i].entry.value];
             info.op == WRITE && info.data == s.inits[s.initAt.i].value)
    && (s.phase == BusyUpdate ==> s.updateAt.At? && s.updates[s.updateAt.i].Some?)
    && (forall e | e in s.info && s.info[e].request == Busy :: Current(s) == Some(e))
    && (forall e | e in s.info && s.info[e].op == WRITE :: Queued(s, e))
  }

  lemma {:induction false} QueuedErase(s: State, t: State, i: nat, e: Entry)
    requires i < |s.inits| && t.inits == Erase(s.inits, i)
    requires Queued(s, e) && s.inits[i].entry != Some(e)
    ensures Queued(t, e)
  {
    var k :| 0 <= k < |s.inits| && s.inits[k].entry == Some(e);
    assert t.inits[if k < i then k else k - 1].entry == Some(e);
  }

  lemma {:induction false} FinishInitKeeps(s: State, e: Entry, i: nat)
    requires Inv(s) && s.phase == BusyInitialisation && s.initAt == At(i) && s.inits[i].entry == Some(e)
    ensures Inv(FinishInit(s, e, i))
  {
    var t := FinishInit(s, e, i);
    forall x | x in t.info && t.info[x].op == WRITE
      ensures Queued(t, x)
    {
      assert Queued(s, x);
      if t.inits != s.inits { QueuedErase(s, t, i, x); }
    }
  }

  lemma {:induction false} ServeInitKeeps(s: State, i: nat)
    requires Inv(s) && s.phase != BusyUpdate && s.initAt == At(i)
    ensures Inv(ServeInit(s, i))
  {
    match s.inits[i].entry
    case None =>
    case Some(e) =>
      if s.phase == Idle {
        var t := ServeInit(s, i);
        forall x | x in t.info && t.info[x].op == WRITE
          ensures Queued(t, x)
        {
          if x == e { assert t.inits[i].entry == Some(e); } else { assert Queued(s, x); }
        }
      } else {
        FinishInitKeeps(s, e, i);
      }
  }

  lemma {:induction false} UpdatesKeep(s: State)
    requires Inv(s) && InitsIdle(s)
    ensures Inv(CheckUpdates(s)) && UpdateAssertion(s)
  {
    if s.phase == BusyUpdate {
      FinishUpdateKeeps(s, s.updates[s.updateAt.i].value, s.updateAt.i);
    } else if s.updates != [] {
      forall e | e in s.info ensures s.info[e].op == READ && s.info[e].request != Busy {
        assert s.info[e].op == WRITE ==> Queued(s, e);
      }
    }
  }

  lemma {:induction false} FinishUpdateKeeps(s: State, e: Entry, i: nat)
    requires Inv(s) && s.phase == BusyUpdate && s.updateAt == At(i) && s.updates[i] == Some(e)
    ensures Inv(FinishUpdate(s, e, i))
  {
    var t := FinishUpdate(s, e, i);
    forall x | x in t.info && t.info[x].op == WRITE
      ensures Queued(t, x)
    {
      assert Queued(s, x);
    }
  }

  lemma {:induction false} RewindKeeps(s: State)
    requires Inv(s) && s.phase != BusyUpdate && s.initAt == End && s.inits != []
    ensures Inv(s.(initAt := At(0), phase := Idle))
  {
    var t := s.(initAt := At(0), phase := Idle);
    forall x | x in t.info && t.info[x].op == WRITE
      ensures Queued(t, x)
    {
      assert Queued(s, x);
    }
  }

  /** Every tick keeps the invariant, and the assertion of the update path never fails. */
  lemma {:induction false} TickKeeps(s: State)
    requires Inv(s)
    ensures Inv(Tick(s))
    ensures InitsIdle(s) ==> UpdateAssertion(s)
  {
    if InitsIdle(s) {
      UpdatesKeep(s);
    } else if s.initAt == End {
      RewindKeeps(s);
      ServeInitKeeps(s.(initAt := At(0), phase := Idle), 0);
    } else {
      ServeInitKeeps(s, s.initAt.i);
    }
  }

  // ----- runs -----

  /** Ticks of receiveState, answers of the bus to a busy request, new work, and machines enabled or disabled. */
  datatype Step =
    | TickStep
    | Answer(e: Entry, reply: Request)
    | QueueInit(item: Item)
    | QueueUpdate(entry: Option<Entry>)
    | Enable(e: Entry, on: bool)

  predicate IsKnown(s: State, e: Option<Entry>) {
    e.Some? ==> e.value in s.info
  }

  function Next(s: State, step: Step): State
    requires Inv(s)
  {
    match step
    case TickStep => Tick(s)
    case Answer(e, reply) =>
      if e in s.info && s.info[e].request == Busy then SetInfo(s, e, s.info[e].(request := reply)) else s
    case QueueInit(item) => if IsKnown(s, item.entry) then s.(inits := s.inits + [item]) else s
    case QueueUpdate(entry) => if IsKnown(s, entry) then s.(updates := s.updates + [entry]) else s
    case Enable(e, on) => if e in s.info then SetInfo(s, e, s.info[e].(enabled := on)) else s
  }

  lemma {:induction false} NextKeeps(s: State, step: Step)
    requires Inv(s)
    ensures Inv(Next(s, step))
  {
    if step.TickStep? {
      TickKeeps(s);
    } else {
      var t := Next(s, step);
      forall x | x in t.info && t.info[x].op == WRITE
        ensures Queued(t, x)
      {
        var k :| 0 <= k < |s.inits| && s.inits[k].entry == Some(x);
        assert t.inits[k].entry == Some(x);
      }
    }
  }

  /** Every state of every run satisfies the invariant. */
  function Run(s: State, steps: seq<Step>): (r: State)
    requires Inv(s)
    ensures Inv(r)
    decreases |steps|
  {
    if steps == [] then s
    else
      NextKeeps(s, steps[0]);
      Run(Next(s, steps[0]), steps[1..])
  }

  /**
   Safety: in every run at most one request is in flight; it is the one named by a valid iterator, it
   carries the queued value if it is a write, and an entry in WRITE mode is still to be initialised.
   */
  lemma OneInFlight(s: State, steps: seq<Step>, a: Entry, b: Entry)
    requires Inv(s)
    requires var r := Run(s, steps); a in r.info && b in r.info && r.info[a].request == Busy
    ensures var r := Run(s, steps);
            && Current(r) == Some(a)
            && (r.info[b].request == Busy ==> a == b)
            && (r.phase == BusyInitialisation ==> r.info[a].op == WRITE && r.info[a].data == r.inits[r.initAt.i].value)
            && (r.info[b].op == WRITE ==> Queued(r, b))
  {}

  // ----- progress -----

  /** No null items. */
  predicate NoNull(inits: seq<Item>) {
    forall i | 0 <= i < |inits| :: inits[i].entry.Some?
  }

  /** Steps as the program makes them: no caller queues the initialisation of a null entry. */
  predicate QueuesEntries(steps: seq<Step>) {
    forall step <- steps :: step.QueueInit? ==> step.item.entry.Some?
  }

  lemma {:induction false} StepKeepsNoNull(s: State, step: Step)
    requires Inv(s) && NoNull(s.inits) && (step.QueueInit? ==> step.item.entry.Some?)
    ensures NoNull(Next(s, step).inits)
  {
    var t := Next(s, step);
    if step.TickStep? && t.inits != s.inits {
      var i := s.initAt.i;
      assert t.inits == Erase(s.inits, i);
      forall k | 0 <= k < |t.inits|
        ensures t.inits[k].entry.Some?
      {
        assert t.inits[k] == s.inits[if k < i then k else k + 1];
      }
    }
  }

  /** So no run of the program has one. */
  lemma {:induction false} NeverNull(s: State, steps: seq<Step>)
    requires Inv(s) && NoNull(s.inits) && QueuesEntries(steps)
    ensures NoNull(Run(s, steps).inits)
    decreases |steps|
  {
    if steps != [] {
      assert steps[0] in steps;
      StepKeepsNoNull(s, steps[0]);
      NextKeeps(s, steps[0]);
      NeverNull(Next(s, steps[0]), steps[1..]);
    }
  }

  /** How often an entry is queued: the same entry may be queued again while it waits. */
  function Times(inits: seq<Item>, e: Entry): nat {
    if inits == [] then 0
    else Times(inits[..|inits| - 1], e) + if inits[|inits| - 1].entry == Some(e) then 1 else 0
  }

  lemma {:induction false} TimesErase(inits: seq<Item>, i: nat, e: Entry)
    requires i < |inits|
    ensures Times(inits, e) == Times(Erase(inits, i), e) + if inits[i].entry == Some(e) then 1 else 0
  {
    var n := |inits| - 1;
    if i == n {
      assert Erase(inits, i) == inits[..n];
    } else {
      TimesErase(inits[..n], i, e);
      assert Erase(inits, i)[..n - 1] == Erase(inits[..n], i);
      assert Erase(inits, i)[n - 1] == inits[n];
    }
  }

  lemma {:induction false} TimesQueued(s: State, e: Entry)
    ensures Queued(s, e) <==> Times(s.inits, e) > 0
  {
    if i :| 0 <= i < |s.inits| && s.inits[i].entry == Some(e) {
      TimesErase(s.inits, i, e);
    } else {
      TimesNone(s.inits, e);
    }
  }

  lemma {:induction false} TimesNone(inits: seq<Item>, e: Entry)
    requires forall i | 0 <= i < |inits| :: inits[i].entry != Some(e)
    ensures Times(inits, e) == 0
  {
    if inits != [] {
      TimesNone(inits[..|inits| - 1], e);
    }
  }

  /** The attempts an entry may still complete before it has left the list as often as it was queued. */
  function Budget(s: State, e: Entry): nat {
    var n := Times(s.inits, e);
    if n == 0 || e !in s.info then 0
    else 4 * (n - 1) + if s.info[e].errors < 3 then 4 - s.info[e].errors else 1
  }

  /** A tick that completes an attempt to initialise e. */
  predicate Completes(s: State, step: Step, e: Entry)
    requires Inv(s)
  {
    && step.TickStep? && s.phase == BusyInitialisation && s.inits[s.initAt.i].entry == Some(e)
    && s.info[e].request in {Success, Error}
  }

  function Attempts(s: State, steps: seq<Step>, e: Entry): nat
    requires Inv(s)
    decreases |steps|
  {
    if steps == [] then 0
    else
      NextKeeps(s, steps[0]);
      (if Completes(s, steps[0], e) then 1 else 0) + Attempts(Next(s, steps[0]), steps[1..], e)
  }

  predicate NoQueueing(steps: seq<Step>) {
    forall step <- steps :: !step.QueueInit? && !step.QueueUpdate?
  }

  /** The budget against which attempts count: an update read under way may still reset the error count. */
  function Allowance(s: State, e: Entry): nat {
    if s.phase == BusyUpdate then 4 * Times(s.inits, e) else Budget(s, e)
  }

  lemma {:induction false} TickSpendsBudget(s: State, e: Entry)
    requires Inv(s) && s.phase == BusyInitialisation
    ensures Budget(Tick(s), e) + (if Completes(s, TickStep, e) then 1 else 0) <= Budget(s, e)
    ensures Tick(s).phase != BusyUpdate
  {
    var i := s.initAt.i;
    var x := s.inits[i].entry.value;
    var t := Tick(s);
    assert t == FinishInit(s, x, i);
    TimesErase(s.inits, i, e);
  }

  /** Without new work no step raises what an entry may still use, and completing an attempt uses some of it. */
  lemma {:induction false} StepSpendsBudget(s: State, step: Step, e: Entry)
    requires Inv(s) && !step.QueueInit? && !step.QueueUpdate?
    ensures Allowance(Next(s, step), e) + (if Completes(s, step, e) then 1 else 0) <= Allowance(s, e)
  {
    if step.TickStep? && s.phase == BusyInitialisation {
      TickSpendsBudget(s, e);
    } else {
      var t := Next(s, step);
      assert t.inits == s.inits;
    }
  }

  /** Every queued entry leaves the list after at most four completed attempts for each time it was queued. */
  lemma {:induction false} AttemptsBounded(s: State, steps: seq<Step>, e: Entry)
    requires Inv(s) && NoQueueing(steps)
    ensures Attempts(s, steps, e) + Budget(Run(s, steps), e) <= 4 * Times(s.inits, e)
    ensures Queued(Run(s, steps), e) ==> Attempts(s, steps, e) < 4 * Times(s.inits, e)
  {
    AttemptsWithin(s, steps, e);
    TimesQueued(Run(s, steps), e);
  }

  lemma {:induction false} AttemptsWithin(s: State, steps: seq<Step>, e: Entry)
    requires Inv(s) && NoQueueing(steps)
    ensures Attempts(s, steps, e) + Allowance(Run(s, steps), e) <= Allowance(s, e)
    decreases |steps|
  {
    if steps != [] {
      assert steps[0] in steps;
      StepSpendsBudget(s, steps[0], e);
      NextKeeps(s, steps[0]);
      AttemptsWithin(Next(s, steps[0]), steps[1..], e);
    }
  }

  /** What a completed attempt does: an entry leaves when it is written, and by failure exactly at its fourth. */
  lemma {:induction false} AttemptCompletes(s: State, e: Entry)
    requires Inv(s) && Completes(s, TickStep, e)
    ensures var t, i, info := Tick(s), s.initAt.i, s.info[e];
            var leaves := info.request == Success || info.errors + 1 >= 4;
            && t.phase == Idle && t.info.Keys == s.info.Keys && (forall x | x in s.info && x != e :: t.info[x] == s.info[x])
            && t.info[e].errors == (if info.request == Success then 0 else info.errors + 1)
            && t.info[e].op == (if leaves then READ else WRITE)
            && t.info[e].request == info.request
            && t.inits == (if leaves then s.inits[..i] + s.inits[i + 1..] else s.inits)
            && t.initAt == (if i + 1 == |s.inits| then End else if leaves then At(i) else At(i + 1))
  {}

  /** Every attempt to initialise e that completes in the run is a failure. */
  predicate OnlyFailures(s: State, steps: seq<Step>, e: Entry)
    requires Inv(s)
    decreases |steps|
  {
    steps == [] ||
    (NextKeeps(s, steps[0]);
     && (Completes(s, steps[0], e) ==> s.info[e].request == Error)
     && OnlyFailures(Next(s, steps[0]), steps[1..], e))
  }

  /** From s to t the one queued e has failed once more, or not at all. */
  predicate ErrorsCounted(s: State, t: State, e: Entry, failed: bool)
    requires Known(t) && e in s.info
  {
    && e in t.info && t.info[e].errors == s.info[e].errors + (if failed then 1 else 0)
    && (t.phase == BusyUpdate ==> Current(t) != Some(e))
    && Times(t.inits, e) == if failed && s.info[e].errors >= 3 then 0 else 1
  }

  lemma {:induction false} InitTickErrors(s: State, e: Entry)
    requires Inv(s) && Times(s.inits, e) == 1 && e in s.info && s.phase == BusyInitialisation
    requires Completes(s, TickStep, e) ==> s.info[e].request == Error
    ensures Known(Tick(s)) && ErrorsCounted(s, Tick(s), e, Completes(s, TickStep, e))
  {
    TickKeeps(s);
    var i := s.initAt.i;
    var x := s.inits[i].entry.value;
    assert Tick(s) == FinishInit(s, x, i);
    TimesErase(s.inits, i, e);
  }

  lemma {:induction false} OtherTickErrors(s: State, e: Entry)
    requires Inv(s) && Times(s.inits, e) == 1 && e in s.info && s.phase != BusyInitialisation
    requires s.phase == BusyUpdate ==> Current(s) != Some(e)
    ensures Known(Tick(s)) && ErrorsCounted(s, Tick(s), e, false)
  {
    TickKeeps(s);
    assert Tick(s).inits == s.inits;
  }

  /** While e is queued, only its own attempts touch its error count. */
  lemma {:induction false} QueuedErrors(s: State, step: Step, e: Entry)
    requires Inv(s) && Times(s.inits, e) == 1 && !step.QueueInit? && !step.QueueUpdate? && e in s.info
    requires s.phase == BusyUpdate ==> Current(s) != Some(e)
    requires Completes(s, step, e) ==> s.info[e].request == Error
    ensures Known(Next(s, step)) && ErrorsCounted(s, Next(s, step), e, Completes(s, step, e))
  {
    if step.TickStep? {
      if s.phase == BusyInitialisation { InitTickErrors(s, e); } else { OtherTickErrors(s, e); }
    }
  }

  /** An entry that keeps failing stays queued up to its third failure and is gone with its fourth. */
  lemma {:induction false} LeavesAtFourthFailure(s: State, steps: seq<Step>, e: Entry)
    requires Inv(s) && NoQueueing(steps) && OnlyFailures(s, steps, e)
    requires Times(s.inits, e) == 1 && e in s.info
    requires s.phase == BusyUpdate ==> Current(s) != Some(e)
    ensures Queued(Run(s, steps), e)
            <==> Attempts(s, steps, e) == 0 || s.info[e].errors + Attempts(s, steps, e) < 4
    decreases |steps|
  {
    TimesQueued(s, e);
    if steps != [] {
      assert steps[0] in steps;
      NextKeeps(s, steps[0]);
      QueuedErrors(s, steps[0], e);
      var t := Next(s, steps[0]);
      if Times(t.inits, e) == 1 {
        LeavesAtFourthFailure(t, steps[1..], e);
      } else {
        AttemptsBounded(t, steps[1..], e);
      }
    }
  }

  // ----- a bus that answers between ticks -----

  /** The failures already counted against the queued entries, up to three each. */
  ghost function Spent(inits: seq<Item>, info: map<Entry, Info>): set<(Entry, nat)> {
    set i: nat, n: nat | i < |inits| && n < 3 && inits[i].entry.Some? && inits[i].entry.value in info
                         && n < info[inits[i].entry.value].errors :: (inits[i].entry.value, n)
  }

  /** The failures of one entry. */
  function Three(e: Entry): (r: set<(Entry, nat)>)
    ensures |r| == 3
  {
    {(e, 0), (e, 1), (e, 2)}
  }

  lemma {:induction false} SpentAtMost(inits: seq<Item>, info: map<Entry, Info>)
    ensures |Spent(inits, info)| <= 3 * |inits|
  {
    if inits == [] {
      assert Spent(inits, info) == {};
    } else {
      var front, last := inits[..|inits| - 1], inits[|inits| - 1];
      SpentAtMost(front, info);
      var more := if last.entry.Some? then Three(last.entry.value) else {};
      assert Spent(inits, info) <= Spent(front, info) + more;
      Fewer(Spent(inits, info), Spent(front, info) + more);
    }
  }

  lemma {:induction false} Fewer<T>(a: set<T>, b: set<T>)
    requires a <= b
    ensures |a| <= |b|
  {
    assert b == a + (b - a);
  }

  /** The attempts the whole list may still need. */
  ghost function Total(inits: seq<Item>, info: map<Entry, Info>): (r: nat)
    ensures |inits| <= r <= 4 * |inits|
  {
    SpentAtMost(inits, info);
    4 * |inits| - |Spent(inits, info)|
  }

  /** The bus answers whatever is in flight, then the scheduler ticks. */
  function PromptTick(s: State, ok: bool): State
    requires Inv(s)
  {
    var answer := AnswerCurrent(s, ok);
    NextKeeps(s, answer);
    Tick(Next(s, answer))
  }

  /** A step that changes nothing when nothing is in flight. */
  function AnswerCurrent(s: State, ok: bool): Step
    requires Inv(s)
  {
    Answer(if Current(s).Some? then Current(s).value else 0, if ok then Success else Error)
  }

  /** A request under way has not been forgotten by the bus. */
  predicate Responsive(s: State)
    requires Inv(s)
  {
    s.phase == BusyInitialisation ==> s.info[s.inits[s.initAt.i].entry.value].request != Unused
  }

  /** A bound on the prompt ticks until the list is empty. */
  ghost function Work(s: State): nat {
    if s.inits == [] then 0
    else if s.phase == BusyUpdate then 8 * |s.inits| + 2
    else 2 * Total(s.inits, s.info) + if s.phase == Idle then 1 else 0
  }

  /** A failure that keeps the entry queued is one more spent. */
  lemma {:induction false} FailureSpends(inits: seq<Item>, info: map<Entry, Info>, e: Entry, i: nat, failed: Info)
    requires i < |inits| && inits[i].entry == Some(e) && e in info && info[e].errors < 3
    requires failed.errors == info[e].errors + 1
    ensures |Spent(inits, info[e := failed])| == |Spent(inits, info)| + 1
  {
    var n := info[e].errors;
    var after := Spent(inits, info[e := failed]);
    assert (e, n) in after && (e, n) !in Spent(inits, info);
    assert after == Spent(inits, info) + {(e, n)};
  }

  lemma {:induction false} StillSpent(inits: seq<Item>, info: map<Entry, Info>, e: Entry, i: nat, left: Info, p: (Entry, nat))
    requires i < |inits| && inits[i].entry == Some(e) && e in info
    requires p in Spent(inits, info) && p !in Three(e)
    ensures p in Spent(Erase(inits, i), info[e := left])
  {
    var k: nat, n: nat :| k < |inits| && n < 3 && inits[k].entry.Some? && inits[k].entry.value in info
                          && n < info[inits[k].entry.value].errors && p == (inits[k].entry.value, n);
    assert inits[k].entry != Some(e);
    assert Erase(inits, i)[if k < i then k else k - 1] == inits[k];
  }

  /** An entry that leaves takes at most its own failures with it. */
  lemma {:induction false} LeavingSpends(inits: seq<Item>, info: map<Entry, Info>, e: Entry, i: nat, left: Info)
    requires i < |inits| && inits[i].entry == Some(e) && e in info
    ensures |Spent(inits, info)| <= |Spent(Erase(inits, i), info[e := left])| + 3
  {
    var before, after := Spent(inits, info), Spent(Erase(inits, i), info[e := left]);
    forall p | p in before && p !in Three(e)
      ensures p in after
    {
      StillSpent(inits, info, e, i, left, p);
    }
    Fewer(before, after + Three(e));
  }

  lemma {:induction false} FinishInitWork(s: State, e: Entry, i: nat)
    requires Inv(s) && s.phase == BusyInitialisation && s.initAt == At(i) && s.inits[i].entry == Some(e)
    requires s.info[e].request in {Success, Error}
    ensures Work(FinishInit(s, e, i)) < Work(s) && FinishInit(s, e, i).phase == Idle
  {
    var t := FinishInit(s, e, i);
    if t.inits == s.inits {
      FailureSpends(s.inits, s.info, e, i, t.info[e]);
    } else {
      LeavingSpends(s.inits, s.info, e, i, t.info[e]);
    }
  }

  lemma {:induction false} SpentSame(inits: seq<Item>, a: map<Entry, Info>, b: map<Entry, Info>)
    requires a.Keys == b.Keys && forall e | e in a :: a[e].errors == b[e].errors
    ensures Spent(inits, a) == Spent(inits, b)
  {
  }

  lemma {:induction false} TickWorks(s: State)
    requires Inv(s) && NoNull(s.inits) && Responsive(s) && s.inits != []
    requires Current(s).Some? ==> s.info[Current(s).value].request != Busy
    ensures Inv(Tick(s)) && NoNull(Tick(s).inits) && Responsive(Tick(s))
    ensures Work(Tick(s)) < Work(s)
  {
    TickKeeps(s);
    StepKeepsNoNull(s, TickStep);
    if s.phase == BusyInitialisation {
      FinishInitWork(s, s.inits[s.initAt.i].entry.value, s.initAt.i);
    } else if s.phase == Idle {
      SpentSame(s.inits, s.info, Tick(s).info);
    }
  }

  lemma {:induction false} PromptTickWorks(s: State, ok: bool)
    requires Inv(s) && NoNull(s.inits) && Responsive(s)
    ensures Inv(PromptTick(s, ok)) && NoNull(PromptTick(s, ok).inits) && Responsive(PromptTick(s, ok))
    ensures s.inits == [] ==> PromptTick(s, ok).inits == []
    ensures s.inits != [] ==> Work(PromptTick(s, ok)) < Work(s)
  {
    var t := Next(s, AnswerCurrent(s, ok));
    NextKeeps(s, AnswerCurrent(s, ok));
    assert t.inits == s.inits && t.phase == s.phase;
    SpentSame(s.inits, s.info, t.info);
    if s.inits != [] {
      TickWorks(t);
    } else {
      TickKeeps(t);
    }
  }

  function PromptRun(s: State, answers: seq<bool>): (r: State)
    requires Inv(s) && NoNull(s.inits) && Responsive(s)
    ensures Inv(r)
    decreases |answers|
  {
    if answers == [] then s
    else
      PromptTickWorks(s, answers[0]);
      PromptRun(PromptTick(s, answers[0]), answers[1..])
  }

  /**
   Progress: with no new work and a bus that answers between ticks, successfully or not, the
   initialisation list of n items is empty after 8 * n + 2 ticks, entries queued twice included.
   */
  lemma {:induction false} InitialisationEnds(s: State, answers: seq<bool>)
    requires Inv(s) && NoNull(s.inits) && Responsive(s)
    requires |answers| >= 8 * |s.inits| + 2
    ensures PromptRun(s, answers).inits == []
  {
    WorkRunsOut(s, answers);
  }

  lemma {:induction false} WorkRunsOut(s: State, answers: seq<bool>)
    requires Inv(s) && NoNull(s.inits) && Responsive(s)
    requires |answers| >= Work(s)
    ensures PromptRun(s, answers).inits == []
    decreases |answers|
  {
    if answers != [] {
      PromptTickWorks(s, answers[0]);
      WorkRunsOut(PromptTick(s, answers[0]), answers[1..]);
    }
  }

  // ----- initialisation goes first -----

  /** A tick in which an update read is found finished. */
  predicate FinishesUpdate(s: State, step: Step)
    requires Inv(s)
  {
    step.TickStep? && s.phase == BusyUpdate && s.info[s.updates[s.updateAt.i].value].request in {Success, Error}
  }

  /** The update reads that finish in a run, up to the first state with no initialisation queued. */
  function UpdatesFinished(s: State, steps: seq<Step>): nat
    requires Inv(s)
    decreases |steps|
  {
    if steps == [] || s.inits == [] then 0
    else
      NextKeeps(s, steps[0]);
      (if FinishesUpdate(s, steps[0]) then 1 else 0) + UpdatesFinished(Next(s, steps[0]), steps[1..])
  }

  /** While an initialisation is queued, at most the one update read under way finishes. */
  lemma {:induction false} AtMostOneUpdateFirst(s: State, steps: seq<Step>)
    requires Inv(s)
    ensures UpdatesFinished(s, steps) <= if s.phase == BusyUpdate then 1 else 0
    decreases |steps|
  {
    if steps != [] && s.inits != [] {
      NextKeeps(s, steps[0]);
      AtMostOneUpdateFirst(Next(s, steps[0]), steps[1..]);
    }
  }

  /** A queued initialisation leaves the list only by a completed attempt. */
  lemma {:induction false} LeavesByAttempt(s: State, step: Step, e: Entry)
    requires Inv(s) && Queued(s, e)
    ensures Queued(Next(s, step), e) || Completes(s, step, e)
  {
    var k :| 0 <= k < |s.inits| && s.inits[k].entry == Some(e);
    var t := Next(s, step);
    if step.TickStep? && t.inits != s.inits {
      var i := s.initAt.i;
      assert t.inits == Erase(s.inits, i);
      if s.inits[i].entry != Some(e) {
        QueuedErase(s, t, i, e);
      }
    } else {
      assert t.inits[k].entry == Some(e);
    }
  }

  predicate HasNull(inits: seq<Item>) {
    exists i :: 0 <= i < |inits| && inits[i].entry.None?
  }

  lemma {:induction false} NullItemKept(s: State, step: Step)
    requires Inv(s) && HasNull(s.inits)
    ensures HasNull(Next(s, step).inits)
  {
    var k :| 0 <= k < |s.inits| && s.inits[k].entry.None?;
    var t := Next(s, step);
    if step.TickStep? && t.inits != s.inits {
      var i := s.initAt.i;
      assert s.phase == BusyInitialisation && t.inits == Erase(s.inits, i);
      assert t.inits[if k < i then k else k - 1].entry.None?;
    } else {
      assert t.inits[k].entry.None?;
    }
  }

  lemma {:induction false} NullItemBlocks(s: State, step: Step)
    requires Inv(s) && HasNull(s.inits)
    ensures Next(s, step).phase == BusyUpdate ==> s.phase == BusyUpdate
  {}

  /** What the code would do with a null item: it is never removed, and no update read starts while it is there. */
  lemma {:induction false} NullItemStays(s: State, steps: seq<Step>)
    requires Inv(s) && HasNull(s.inits)
    ensures HasNull(Run(s, steps).inits)
    ensures Run(s, steps).phase == BusyUpdate ==> s.phase == BusyUpdate
    decreases |steps|
  {
    if steps != [] {
      NullItemKept(s, steps[0]);
      NullItemBlocks(s, steps[0]);
      NextKeeps(s, steps[0]);
      NullItemStays(Next(s, steps[0]), steps[1..]);
    }
  }

  // ----- the scheduler of ECInterface -----

  class Scheduler {
    var inits: seq<Item>                 // initialisation_entries
    var updates: seq<Option<Entry>>      // sdo_update_entries
    var initAt: Cursor                   // current_init_entry
    var updateAt: Cursor                 // current_update_entry
    var phase: Phase                     // sdo_entry_state
    var info: map<Entry, Info>           // the SDO entries and their requests

    ghost function Abstract(): State
      reads this
    {
      State(inits, updates, initAt, updateAt, phase, info)
    }

    constructor (prepared: set<Entry>)
      ensures Inv(Abstract()) && inits == [] && updates == [] && phase == Idle && info.Keys == prepared
    {
      inits, updates, initAt, updateAt, phase := [], [], End, End, Idle;
      info := map e | e in prepared :: Info(READ, 0, Unused, 0, true);
    }

    method QueueInitialisationRequest(e: Entry, value: int)
      requires Inv(Abstract()) && e in info
      modifies this
      ensures Abstract() == Next(old(Abstract()), QueueInit(Item(Some(e), value))) && Inv(Abstract())
    {
      NextKeeps(Abstract(), QueueInit(Item(Some(e), value)));
      inits := inits + [Item(Some(e), value)];
    }

    method CheckSDOInitialisation() returns (done: bool)
      requires Inv(Abstract())
      modifies this
      ensures done == InitsIdle(old(Abstract()))
      ensures Abstract() == CheckInitialisation(old(Abstract()))
    {
      if phase == BusyUpdate {
        return true;
      }
      if initAt == End {
        if inits == [] {
          return true;
        }
        initAt := At(0);
        phase := Idle;
      }
      var i := initAt.i;
      var item := inits[i];
      if item.entry.None? {
        initAt := Advance(i, |inits|);
        return false;
      }
      var e := item.entry.value;
      if phase == Idle {
        info := info[e := info[e].(op := WRITE, data := item.value, request := Busy)];
        phase := BusyInitialisation;
        return false;
      }
      match info[e].request {
        case Unused => phase := Idle;
        case Busy =>
        case Success =>
          info := info[e := info[e].(errors := 0, op := READ)];
          initAt := AfterErase(i, |inits|);
          inits := Erase(inits, i);
          phase := Idle;
        case Error =>
          info := info[e := info[e].(errors := info[e].errors + 1)];
          if info[e].errors < 4 {
            initAt := Advance(i, |inits|);
          } else {
            initAt := AfterErase(i, |inits|);
            inits := Erase(inits, i);
            info := info[e := info[e].(op := READ)];
          }
          phase := Idle;
      }
      return false;
    }

    method CheckSDOUpdates()
      requires Inv(Abstract()) && InitsIdle(Abstract())
      modifies this
      ensures Abstract() == CheckUpdates(old(Abstract()))
    {
      UpdatesKeep(Abstract());
      if updateAt == End {
        if updates == [] {
          return;
        }
        updateAt := At(0);
        phase := Idle;
      }
      var i := updateAt.i;
      if updates[i].None? {
        updateAt := Advance(i, |updates|);
        return;
      }
      var e := updates[i].value;
      if phase == Idle {
        if !info[e].enabled {
          updateAt := Advance(i, |updates|);
          return;
        }
        assert info[e].op == WRITE ==> inits != [];
        if info[e].op == WRITE {
          return;
        }
        info := info[e := info[e].(request := Busy)];
        phase := BusyUpdate;
        return;
      }
      match info[e].request {
        case Unused => phase := Idle;
        case Busy =>
        case Success =>
          if info[e].op == READ {
            info := info[e := info[e].(errors := 0)];
          }
          updateAt := Advance(i, |updates|);
          phase := Idle;
        case Error =>
          info := info[e := info[e].(errors := info[e].errors + 1)];
          updateAt := Advance(i, |updates|);
          phase := Idle;
      }
    }

    /** The SDO part of receiveState. */
    method ReceiveState()
      requires Inv(Abstract())
      modifies this
      ensures Inv(Abstract()) && Abstract() == Tick(old(Abstract()))
    {
      TickKeeps(Abstract());
      var done := CheckSDOInitialisation();
      if done {
        CheckSDOUpdates();
      }
    }
  }
}
