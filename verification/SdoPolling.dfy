/**
 The update side of the SDO scheduler: which entries are read, in what order, and how soon.
 Everything is said about ticks and runs of the scheduler, by what they do to the requests.
 */
module SdoPolling {
  import opened Options
  import opened Sdo

  // ----- what a tick does to a request -----

  /** From s to t the request of e goes on the bus. */
  predicate Sent(s: State, t: State, e: Entry) {
    e in s.info && e in t.info && s.info[e].request != Busy && t.info[e].request == Busy
  }

  /** The initialisation the iterator is at, or, with none queued, the read of an enabled entry in READ mode. */
  predicate Due(s: State, t: State, e: Entry)
    requires Sent(s, t, e)
  {
    || (&& t.phase == BusyInitialisation
        && t.initAt.At? && t.initAt.i < |s.inits| && s.inits[t.initAt.i].entry == Some(e)
        && t.info[e] == s.info[e].(op := WRITE, data := s.inits[t.initAt.i].value, request := Busy))
    || (&& t.phase == BusyUpdate && s.inits == [] && s.info[e].enabled && s.info[e].op == READ
        && t.updateAt.At? && t.updateAt.i < |s.updates| && s.updates[t.updateAt.i] == Some(e)
        && t.info[e] == s.info[e].(request := Busy))
  }

  lemma {:induction false} SentByTick(s: State, step: Step, e: Entry)
    requires Inv(s) && Sent(s, Next(s, step), e)
    ensures step.TickStep? && Due(s, Next(s, step), e)
  {}

  /** In every run a request goes on the bus only in a tick, and only when it is due. */
  lemma {:induction false} SentOnlyWhenDue(s: State, steps: seq<Step>, step: Step, e: Entry)
    requires Inv(s) && Sent(Run(s, steps), Next(Run(s, steps), step), e)
    ensures step.TickStep? && Due(Run(s, steps), Next(Run(s, steps), step), e)
  {
    SentByTick(Run(s, steps), step, e);
  }

  /** The update that the next tick looks at: the list is begun again from its end. */
  function Position(s: State): nat {
    if s.updateAt == End then 0 else s.updateAt.i
  }

  /** The cursor behind position i of a list of n. */
  function Behind(i: nat, n: nat): Cursor {
    if i + 1 == n then End else At(i + 1)
  }

  /** No initialisation is queued, and something is to be polled. */
  predicate Polling(s: State) {
    Inv(s) && s.inits == [] && s.updates != []
  }

  /** With nothing in flight, a tick starts the read of an enabled entry and passes over any other. */
  lemma {:induction false} IdleTick(s: State)
    requires Polling(s) && s.phase == Idle
    ensures var t, i := Tick(s), Position(s);
            && i < |s.updates| && t.updates == s.updates && t.inits == []
            && match s.updates[i] {
                 case Some(e) =>
                   if s.info[e].enabled then
                     && t.phase == BusyUpdate && t.updateAt == At(i)
                     && t.info == s.info[e := s.info[e].(request := Busy)]
                   else t.phase == Idle && t.updateAt == Behind(i, |s.updates|) && t.info == s.info
                 case None => t.phase == Idle && t.updateAt == Behind(i, |s.updates|) && t.info == s.info
               }
  {
    if s.updates[Position(s)].Some? {
      var e := s.updates[Position(s)].value;
      assert s.info[e].op == WRITE ==> Queued(s, e);
    }
  }

  /** The error count after an answer to a read. */
  function Counted(info: Info, ok: bool): Info {
    info.(request := if ok then Success else Error, errors := if ok then 0 else info.errors + 1)
  }

  /** With a read in flight, a tick waits for the bus; then it counts the answer and goes to the next entry. */
  lemma {:induction false} BusyTick(s: State, e: Entry)
    requires Polling(s) && s.phase == BusyUpdate && Current(s) == Some(e)
    ensures var t, i := Tick(s), Position(s);
            && i < |s.updates| && t.updates == s.updates && t.inits == []
            && (s.info[e].request == Busy ==> t == s)
            && (s.info[e].request == Unused ==> t == s.(phase := Idle))
            && (s.info[e].request == Success || s.info[e].request == Error ==>
                  && t.phase == Idle && t.updateAt == Behind(i, |s.updates|)
                  && t.info == s.info[e := Counted(s.info[e], s.info[e].request == Success)])
  {
    assert s.info[e].op == WRITE ==> Queued(s, e);
  }

  // ----- polling with a bus that answers between ticks -----

  /** The position the list is at after position c. */
  function Following(c: nat, n: nat): nat {
    if c + 1 == n then 0 else c + 1
  }

  predicate SameEntries(s: State, t: State) {
    && t.updates == s.updates && t.info.Keys == s.info.Keys
    && (forall e | e in s.info :: t.info[e].enabled == s.info[e].enabled)
  }

  /** A tick with nothing to answer. */
  lemma {:induction false} PromptIdle(s: State, ok: bool)
    requires Polling(s) && s.phase == Idle
    ensures PromptTick(s, ok) == Tick(s)
  {
    assert Next(s, AnswerCurrent(s, ok)) == s;
  }

  /** A tick that finds the read answered, unless the bus knows nothing of it. */
  lemma {:induction false} PromptBusy(s: State, ok: bool, e: Entry)
    requires Polling(s) && s.phase == BusyUpdate && Current(s) == Some(e)
    ensures var t, i := PromptTick(s, ok), Position(s);
            && i < |s.updates| && t.phase == Idle && t.updates == s.updates && t.inits == []
            && (s.info[e].request == Unused ==> t == s.(phase := Idle))
            && (s.info[e].request != Unused ==>
                  var answer := if s.info[e].request == Busy then ok else s.info[e].request == Success;
                  t.updateAt == Behind(i, |s.updates|) && t.info == s.info[e := Counted(s.info[e], answer)])
  {
    var answer := AnswerCurrent(s, ok);
    NextKeeps(s, answer);
    BusyTick(Next(s, answer), e);
  }

  lemma {:induction false} PromptKeeps(s: State, ok: bool)
    requires Polling(s)
    ensures Polling(PromptTick(s, ok)) && SameEntries(s, PromptTick(s, ok))
  {
    PromptTickWorks(s, ok);
    if s.phase == Idle {
      PromptIdle(s, ok);
      IdleTick(s);
    } else {
      PromptBusy(s, ok, s.updates[s.updateAt.i].value);
    }
  }

  /** The read of e goes out in the tick from s to t and is finished, with this answer, in the one from t to u. */
  predicate ReadThrough(s: State, t: State, u: State, e: Entry, ok: bool) {
    && Sent(s, t, e) && t.phase == BusyUpdate && t.info[e].op == READ
    && e in u.info && u.phase == Idle && u.info[e] == Counted(t.info[e], ok)
  }

  /** Somewhere in the run a read of e goes out and is finished. */
  predicate Polled(s: State, answers: seq<bool>, e: Entry)
    requires Polling(s)
    decreases |answers|
  {
    |answers| >= 2 &&
    (PromptKeeps(s, answers[0]);
     var t := PromptTick(s, answers[0]);
     ReadThrough(s, t, PromptTick(t, answers[1]), e, answers[1]) || Polled(t, answers[1..], e))
  }

  function Gap(c: nat, i: nat, n: nat): int {
    if c <= i then i - c else n - c + i
  }

  /** The ticks until the next tick looks at position i with nothing in flight, at most. */
  function Wait(s: State, i: nat): int
    requires Polling(s)
  {
    var c, n := Position(s), |s.updates|;
    if s.phase == Idle then 2 * Gap(c, i, n)
    else if s.info[s.updates[c].value].request == Unused then 1 + 2 * Gap(c, i, n)
    else 1 + 2 * Gap(Following(c, n), i, n)
  }

  lemma {:induction false} WaitShrinks(s: State, i: nat, ok: bool)
    requires Polling(s) && i < |s.updates| && !(s.phase == Idle && Position(s) == i)
    ensures Polling(PromptTick(s, ok)) && 0 <= Wait(PromptTick(s, ok), i) < Wait(s, i)
  {
    PromptKeeps(s, ok);
    if s.phase == Idle {
      PromptIdle(s, ok);
      IdleTick(s);
    } else {
      PromptBusy(s, ok, s.updates[s.updateAt.i].value);
    }
  }

  /** At an enabled entry with nothing in flight, two ticks read it. */
  lemma {:induction false} ReadNow(s: State, e: Entry, first: bool, second: bool)
    requires Polling(s) && s.phase == Idle && Position(s) < |s.updates| && s.updates[Position(s)] == Some(e)
    requires s.info[e].enabled
    ensures Polling(PromptTick(s, first))
    ensures ReadThrough(s, PromptTick(s, first), PromptTick(PromptTick(s, first), second), e, second)
  {
    PromptKeeps(s, first);
    PromptIdle(s, first);
    IdleTick(s);
    PromptBusy(Tick(s), second, e);
    assert s.info[e].op == WRITE ==> Queued(s, e);
  }

  lemma {:induction false} PolledInTime(s: State, answers: seq<bool>, i: nat, e: Entry)
    requires Polling(s) && i < |s.updates| && s.updates[i] == Some(e) && s.info[e].enabled
    requires |answers| >= Wait(s, i) + 2 && Wait(s, i) >= 0
    ensures Polled(s, answers, e)
    decreases |answers|
  {
    PromptKeeps(s, answers[0]);
    if s.phase == Idle && Position(s) == i {
      ReadNow(s, e, answers[0], answers[1]);
    } else {
      WaitShrinks(s, i, answers[0]);
      PolledInTime(PromptTick(s, answers[0]), answers[1..], i, e);
    }
  }

  /**
   With no initialisation queued and a bus that answers between ticks, every enabled entry of an
   update list of n is read, start to finish, within any 2 * n + 1 ticks.
   */
  lemma {:induction false} EveryEntryPolled(s: State, answers: seq<bool>, e: Entry)
    requires Polling(s) && Some(e) in s.updates && s.info[e].enabled
    requires |answers| >= 2 * |s.updates| + 1
    ensures Polled(s, answers, e)
  {
    var i :| 0 <= i < |s.updates| && s.updates[i] == Some(e);
    PolledInTime(s, answers, i, e);
  }
}
