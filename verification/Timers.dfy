/**
 Predicate::scheduleTimerEvents walks a predicate and returns the delay until the earliest
 moment at which one of its timer clauses can change. The results say that the predicate,
 as compiled and evaluated by `Predicates`, cannot change silently before that moment.
 */
module Timers {
  import opened Options
  import opened Predicates

  // ----- timers as part of what a machine resolves -----

  const TIMER := "TIMER"
  const SUFFIX := ".TIMER"

  predicate EndsWith(s: string, t: string) {
    |t| <= |s| && s[|s| - |t|..] == t
  }

  predicate IsTimerName(n: string) {
    n == TIMER || EndsWith(n, SUFFIX)
  }

  predicate IsTimerSymbol(v: Value) {
    v.Symbol? && IsTimerName(v.name)
  }

  /** The name up to the first dot: scheduleTimerEvents takes it as the timed machine. */
  function FirstComponent(n: string): string {
    if n == "" || n[0] == '.' then "" else [n[0]] + FirstComponent(n[1..])
  }

  /** The timer that scheduleTimerEvents reads for a timer symbol. */
  function ScheduledTimer(n: string): string {
    if n == TIMER then TIMER else FirstComponent(n) + SUFFIX
  }

  const MIN_TIMER := -100000

  /** The machine d ticks later: every timer has advanced by d, nothing else has moved. */
  function After(m: Machine, timers: map<string, int>, d: nat): Machine {
    m.(lookup := (n: string) => if n in timers then Int(timers[n] + d) else m.lookup(n))
  }

  /** Timers are ordinary names here: not states, not machines; they count up from MIN_TIMER at worst. */
  ghost predicate Clocked(m: Machine, timers: map<string, int>) {
    && TIMER in timers
    && (forall n | n in timers :: IsTimerName(n) && n !in m.states && timers[n] > MIN_TIMER)
    && (forall n | n in timers :: n !in m.machines)
    && (forall n, x | n in timers && x in m.machines :: n !in m.machines[x])
  }

  /** Comparing integers is the usual order, and an integer is its own integer value. */
  ghost predicate IntegerOps(ops: ValueOps) {
    && (forall k :: ops.asInteger(Int(k)) == Some(k))
    && (forall op, a, b | IsComparison(op) :: ops.binary(op, Int(a), Int(b)) == Bool(Compare(op, a, b)))
  }

  /** Evaluator::evaluate: compile, then run the compiled list. */
  function Evaluate(p: Predicate, m: Machine): Value {
    match EvalStack(m, Encode(Normalise(p, m), m, true))
    case Done(v, _) => v
    case Overrun => Null
  }

  // ----- the scheduler -----

  /** The earliest delay in microseconds, and whether the target was flagged for a recheck. */
  datatype Schedule = Schedule(earliest: Option<int>, flagged: bool)

  /** The timer value for which a clause against k is scheduled; the side of the timer is not used. */
  function ClauseTime(op: Op, k: int): int {
    if op == GT || op == LE then k + 1 else k
  }

  /** The end of scheduleTimerEvents. */
  function Note(s: Schedule, scheduled: int, current: int): Schedule {
    var t := (scheduled - current) * 1000;
    if scheduled == MIN_TIMER then s
    else if t > 0 then
      if s.earliest.None? || s.earliest.value > t then s.(earliest := Some(t)) else s
    else if t >= -2000 then s.(flagged := true)
    else s
  }

  /** Evaluates the operand opposite a timer and notes the time at which the clause may change. */
  function NoteClause(s: Schedule, timer: string, op: Op, operand: Predicate,
                      m: Machine, timers: map<string, int>): Schedule {
    var source := ScheduledTimer(timer);
    if source !in timers then s
    else match m.ops.asInteger(Evaluate(operand, m))
      case None => s
      case Some(k) => Note(s, ClauseTime(op, k), timers[source])
  }

  function ScheduleEvents(p: Predicate, m: Machine, timers: map<string, int>, s: Schedule): Schedule {
    match p
    case Leaf(_) => s
    case Unary(_, r) => ScheduleEvents(r, m, timers, s)
    case Binary(l, op, r) =>
      if IsTimerSymbolLeaf(l) then
        NoteClause(ScheduleEvents(r, m, timers, s), l.entry.name, op, r, m, timers)
      else if IsTimerSymbolLeaf(r) then
        NoteClause(ScheduleEvents(r, m, timers, s), r.entry.name, op, l, m, timers)
      else
        ScheduleEvents(r, m, timers, ScheduleEvents(l, m, timers, s))
  }

  // ----- the predicates the scheduler understands -----

  predicate TimerFree(p: Predicate, timers: map<string, int>) {
    match p
    case Leaf(v) => !(v.Symbol? && v.name in timers)
    case Unary(_, r) => TimerFree(r, timers)
    case Binary(l, _, r) => TimerFree(l, timers) && TimerFree(r, timers)
  }

  /** A known timer, named by its own machine only. */
  predicate IsTimerLeaf(p: Predicate, timers: map<string, int>) {
    p.Leaf? && p.entry.Symbol? && p.entry.name in timers && ScheduledTimer(p.entry.name) == p.entry.name
  }

  predicate IsTimerSymbolLeaf(p: Predicate) {
    p.Leaf? && IsTimerSymbol(p.entry)
  }

  /** A timer on one side, an integer that does not depend on timers on the other. */
  predicate IsClause(timer: Predicate, op: Op, operand: Predicate, m: Machine, timers: map<string, int>) {
    && IsTimerLeaf(timer, timers) && IsComparison(op)
    && TimerFree(operand, timers) && !IsTimerSymbolLeaf(operand) && Evaluate(operand, m).Int?
  }

  /** Timers occur only as one side of a comparison with an integer; any operators may join the clauses. */
  predicate TimedClauses(p: Predicate, m: Machine, timers: map<string, int>) {
    match p
    case Leaf(_) => TimerFree(p, timers)
    case Unary(_, r) => TimedClauses(r, m, timers)
    case Binary(l, op, r) =>
      || IsClause(l, op, r, m, timers)
      || IsClause(r, op, l, m, timers)
      || (TimedClauses(l, m, timers) && TimedClauses(r, m, timers) && !IsTimerSymbolLeaf(r))
  }

  /** No clause `k > timer` or `k <= timer` whose timer has yet to reach k. */
  predicate NoLateClause(p: Predicate, m: Machine, timers: map<string, int>) {
    match p
    case Leaf(_) => true
    case Unary(_, r) => NoLateClause(r, m, timers)
    case Binary(l, op, r) =>
      if IsClause(l, op, r, m, timers) then true
      else if IsClause(r, op, l, m, timers) then
        (op == GT || op == LE) ==> Evaluate(l, m).n <= timers[r.entry.name]
      else NoLateClause(l, m, timers) && NoLateClause(r, m, timers)
  }

  // ----- soundness -----

  /** Not flagged, and d (plus the slack) ticks from now is still before the earliest event. */
  predicate Quiet(s: Schedule, d: nat, slack: nat) {
    !s.flagged && (s.earliest.None? || (d + slack) * 1000 < s.earliest.value)
  }

  lemma {:induction false} QuietBefore(p: Predicate, m: Machine, timers: map<string, int>, s: Schedule, d: nat, slack: nat)
    requires Quiet(ScheduleEvents(p, m, timers, s), d, slack)
    ensures Quiet(s, d, slack)
  {
    match p
    case Leaf(_) =>
    case Unary(_, r) => QuietBefore(r, m, timers, s, d, slack);
    case Binary(l, op, r) =>
      if IsTimerSymbolLeaf(l) || IsTimerSymbolLeaf(r) {
        QuietBefore(r, m, timers, s, d, slack);
      } else {
        QuietBefore(r, m, timers, ScheduleEvents(l, m, timers, s), d, slack);
        QuietBefore(l, m, timers, s, d, slack);
      }
  }

  lemma EvaluateIsMeaning(p: Predicate, m: Machine)
    requires Settled(m)
    ensures Evaluate(p, m) == Meaning(Normalise(p, m), m, true)
  {
    var q := Normalise(p, m);
    SettledHasNoShortcut(q, m, true);
    CompileCorrect(q, m, true, []);
    assert Encode(q, m, true) + [] == Encode(q, m, true);
  }

  lemma {:induction false} NormaliseTimeless(p: Predicate, m: Machine, timers: map<string, int>, d: nat)
    ensures Normalise(p, After(m, timers, d)) == Normalise(p, m)
  {
    match p
    case Leaf(_) =>
    case Unary(_, r) => NormaliseTimeless(r, m, timers, d);
    case Binary(l, _, r) =>
      NormaliseTimeless(l, m, timers, d);
      NormaliseTimeless(r, m, timers, d);
  }

  /** The value d ticks from now, of a tree in operand position `left`. */
  function Later(p: Predicate, m: Machine, timers: map<string, int>, d: nat, left: bool): Value {
    Meaning(Normalise(p, m), After(m, timers, d), left)
  }

  lemma LaterIsEvaluate(p: Predicate, m: Machine, timers: map<string, int>, d: nat)
    requires Settled(m)
    ensures Evaluate(p, After(m, timers, d)) == Later(p, m, timers, d, true)
  {
    EvaluateIsMeaning(p, After(m, timers, d));
    NormaliseTimeless(p, m, timers, d);
  }

  lemma TimerFreeLeaf(v: Value, m: Machine, timers: map<string, int>, d: nat, left: bool)
    requires !(v.Symbol? && v.name in timers)
    ensures LeafValue(v, After(m, timers, d), left) == LeafValue(v, After(m, timers, 0), left)
  {}

  /** A compound value depends on time only through its operands. */
  lemma {:induction false} OperatorStable(q: Predicate, m: Machine, timers: map<string, int>, d: nat, left: bool)
    requires !q.Leaf?
    requires Meaning(q.right, After(m, timers, d), false) == Meaning(q.right, After(m, timers, 0), false)
    requires q.Binary? ==> Meaning(q.left, After(m, timers, d), true) == Meaning(q.left, After(m, timers, 0), true)
    ensures Meaning(q, After(m, timers, d), left) == Meaning(q, After(m, timers, 0), left)
  {
    var now, soon := After(m, timers, 0), After(m, timers, d);
    if q.Unary? {
      assert Meaning(LeftOf(q), soon, true) == Bool(true) == Meaning(LeftOf(q), now, true);
    }
    assert Meaning(q, soon, left) == Apply(q.op, Meaning(LeftOf(q), soon, true), Meaning(q.right, soon, false), soon);
    assert Meaning(q, now, left) == Apply(q.op, Meaning(LeftOf(q), now, true), Meaning(q.right, now, false), now);
  }

  lemma {:induction false} TimerFreeStable(p: Predicate, m: Machine, timers: map<string, int>, d: nat, left: bool)
    requires TimerFree(p, timers)
    ensures Later(p, m, timers, d, left) == Later(p, m, timers, 0, left)
    decreases p
  {
    var q := Normalise(p, m);
    match p
    case Leaf(v) => TimerFreeLeaf(v, m, timers, d, left);
    case Unary(_, r) =>
      TimerFreeStable(r, m, timers, d, false);
      OperatorStable(q, m, timers, d, left);
    case Binary(l, op, r) =>
      if l.Leaf? && r.Leaf? {
        TimerFreeLeaf(q.left.entry, m, timers, d, true);
        TimerFreeLeaf(q.right.entry, m, timers, d, false);
      } else {
        TimerFreeStable(l, m, timers, d, true);
        TimerFreeStable(r, m, timers, d, false);
      }
      OperatorStable(q, m, timers, d, left);
  }

  // ----- clauses -----

  /** The timer that is t now and t + d later, against k; the timer on the left or on the right. */
  predicate ClauseHolds(onLeft: bool, op: Op, t: int, k: int)
    requires IsComparison(op)
  {
    if onLeft then Compare(op, t, k) else Compare(op, k, t)
  }

  /** A clause keeps its truth value while the schedule is quiet; a late clause needs one tick of slack. */
  lemma ClauseStable(onLeft: bool, op: Op, t: int, k: int, s: Schedule, d: nat, slack: nat)
    requires IsComparison(op) && t > MIN_TIMER
    requires Quiet(Note(s, ClauseTime(op, k), t), d, slack)
    requires slack >= 1 || onLeft || !(op == GT || op == LE) || k <= t
    ensures ClauseHolds(onLeft, op, t + d, k) == ClauseHolds(onLeft, op, t, k)
  {
    var c := ClauseTime(op, k);
    var n := Note(s, c, t);
    if c != MIN_TIMER && c > t {
      assert n.earliest.Some? && n.earliest.value <= (c - t) * 1000;
      assert d + slack < c - t;
    }
  }

  /** An operand with an integer value has it on either side of an operator. */
  lemma {:induction false} IntegerOnEitherSide(p: Predicate, m: Machine, left: bool)
    requires Meaning(p, m, true).Int?
    ensures Meaning(p, m, left) == Meaning(p, m, true)
  {}

  lemma TimerValue(n: string, m: Machine, timers: map<string, int>, d: nat, left: bool)
    requires Clocked(m, timers) && n in timers
    ensures Meaning(Leaf(Symbol(n)), After(m, timers, d), left) == Int(timers[n] + d)
  {
    assert n != "SELF" && n != "TRUE" && n != "FALSE" && n != "DEFAULT" by {
      assert IsTimerName(n);
      assert "DEFAULT"[1] == 'E' && SUFFIX[0] == '.';
    }
  }

  lemma {:induction false} OperandLater(operand: Predicate, m: Machine, timers: map<string, int>, d: nat, side: bool)
    requires Settled(m) && TimerFree(operand, timers) && Evaluate(operand, After(m, timers, 0)).Int?
    ensures Later(operand, m, timers, d, side) == Evaluate(operand, After(m, timers, 0))
  {
    var now := After(m, timers, 0);
    EvaluateIsMeaning(operand, now);
    NormaliseTimeless(operand, m, timers, 0);
    IntegerOnEitherSide(Normalise(operand, m), now, side);
    TimerFreeStable(operand, m, timers, d, side);
  }

  lemma {:induction false} ClauseValue(onLeft: bool, timer: Predicate, op: Op, operand: Predicate, m: Machine,
                                       timers: map<string, int>, d: nat, left: bool)
    requires Clocked(m, timers) && Settled(m) && IntegerOps(m.ops)
    requires IsClause(timer, op, operand, After(m, timers, 0), timers)
    ensures var p := if onLeft then Binary(timer, op, operand) else Binary(operand, op, timer);
            Later(p, m, timers, d, left) ==
            Bool(ClauseHolds(onLeft, op, timers[timer.entry.name] + d, Evaluate(operand, After(m, timers, 0)).n))
  {
    var p := if onLeft then Binary(timer, op, operand) else Binary(operand, op, timer);
    var now, soon := After(m, timers, 0), After(m, timers, d);
    var k := Evaluate(operand, now).n;
    var side := !onLeft;
    OperandLater(operand, m, timers, d, side);
    TimerValue(timer.entry.name, m, timers, d, onLeft);
    var q := Normalise(p, m);
    assert q == if onLeft then Binary(timer, op, Normalise(operand, m)) else Binary(Normalise(operand, m), op, timer);
    assert Meaning(q, soon, left) == Apply(op, Meaning(q.left, soon, true), Meaning(q.right, soon, false), soon);
  }

  lemma {:induction false} ClauseNoted(onLeft: bool, timer: Predicate, op: Op, operand: Predicate, m: Machine,
                                       timers: map<string, int>, s: Schedule)
    requires Clocked(m, timers) && IntegerOps(m.ops)
    requires IsClause(timer, op, operand, After(m, timers, 0), timers)
    ensures var now := After(m, timers, 0);
            var p := if onLeft then Binary(timer, op, operand) else Binary(operand, op, timer);
            var before := ScheduleEvents(p.right, now, timers, s);
            ScheduleEvents(p, now, timers, s) ==
            Note(before, ClauseTime(op, Evaluate(operand, now).n), timers[timer.entry.name])
  {
    assert IsTimerSymbolLeaf(timer);
  }

  lemma {:induction false} ClauseKept(onLeft: bool, timer: Predicate, op: Op, operand: Predicate, m: Machine,
                                      timers: map<string, int>, s: Schedule, d: nat, slack: nat, left: bool)
    requires Clocked(m, timers) && Settled(m) && IntegerOps(m.ops)
    requires var now := After(m, timers, 0);
             var p := if onLeft then Binary(timer, op, operand) else Binary(operand, op, timer);
             && IsClause(timer, op, operand, now, timers)
             && Quiet(ScheduleEvents(p, now, timers, s), d, slack)
             && (slack >= 1 || onLeft || !(op == GT || op == LE) || Evaluate(operand, now).n <= timers[timer.entry.name])
    ensures var p := if onLeft then Binary(timer, op, operand) else Binary(operand, op, timer);
            Later(p, m, timers, d, left) == Later(p, m, timers, 0, left)
  {
    var now := After(m, timers, 0);
    var p := if onLeft then Binary(timer, op, operand) else Binary(operand, op, timer);
    ClauseNoted(onLeft, timer, op, operand, m, timers, s);
    ClauseValue(onLeft, timer, op, operand, m, timers, d, left);
    ClauseValue(onLeft, timer, op, operand, m, timers, 0, left);
    ClauseStable(onLeft, op, timers[timer.entry.name], Evaluate(operand, now).n,
                 ScheduleEvents(p.right, now, timers, s), d, slack);
  }

  // ----- the theorems -----

  lemma {:induction false} Stable(p: Predicate, m: Machine, timers: map<string, int>, s: Schedule,
                                  d: nat, slack: nat, left: bool)
    requires Clocked(m, timers) && Settled(m) && IntegerOps(m.ops)
    requires TimedClauses(p, After(m, timers, 0), timers)
    requires slack >= 1 || NoLateClause(p, After(m, timers, 0), timers)
    requires Quiet(ScheduleEvents(p, After(m, timers, 0), timers, s), d, slack)
    ensures Later(p, m, timers, d, left) == Later(p, m, timers, 0, left)
    decreases p
  {
    var now := After(m, timers, 0);
    if p.Leaf? {
      TimerFreeStable(p, m, timers, d, left);
    } else if p.Unary? {
      Stable(p.right, m, timers, s, d, slack, false);
      OperatorStable(Normalise(p, m), m, timers, d, left);
    } else if IsClause(p.left, p.op, p.right, now, timers) {
      ClauseKept(true, p.left, p.op, p.right, m, timers, s, d, slack, left);
    } else if IsClause(p.right, p.op, p.left, now, timers) {
      ClauseKept(false, p.right, p.op, p.left, m, timers, s, d, slack, left);
    } else {
      OperandsStable(p, m, timers, s, d, slack);
      if p.left.Leaf? && p.right.Leaf? {
        TimerFreeStable(p, m, timers, d, left);
      } else {
        OperatorStable(Normalise(p, m), m, timers, d, left);
      }
    }
  }

  lemma {:induction false} OperandsStable(p: Predicate, m: Machine, timers: map<string, int>, s: Schedule,
                                          d: nat, slack: nat)
    requires Clocked(m, timers) && Settled(m) && IntegerOps(m.ops)
    requires p.Binary?
    requires var now := After(m, timers, 0);
             && TimedClauses(p.left, now, timers) && TimedClauses(p.right, now, timers) && !IsTimerSymbolLeaf(p.right)
             && (slack >= 1 || (NoLateClause(p.left, now, timers) && NoLateClause(p.right, now, timers)))
             && Quiet(ScheduleEvents(p, now, timers, s), d, slack)
    ensures Later(p.left, m, timers, d, true) == Later(p.left, m, timers, 0, true)
    ensures Later(p.right, m, timers, d, false) == Later(p.right, m, timers, 0, false)
    decreases p, 0
  {
    var now := After(m, timers, 0);
    QuietParts(p, now, timers, s, d, slack);
    if IsTimerSymbolLeaf(p.left) {
      TimerFreeStable(p.left, m, timers, d, true);
      Stable(p.right, m, timers, s, d, slack, false);
    } else {
      Stable(p.right, m, timers, ScheduleEvents(p.left, now, timers, s), d, slack, false);
      Stable(p.left, m, timers, s, d, slack, true);
    }
  }

  /** A quiet schedule was quiet before each of the clauses was noted. */
  lemma {:induction false} QuietParts(p: Predicate, m: Machine, timers: map<string, int>, s: Schedule, d: nat, slack: nat)
    requires p.Binary? && !IsTimerSymbolLeaf(p.right) && Quiet(ScheduleEvents(p, m, timers, s), d, slack)
    ensures IsTimerSymbolLeaf(p.left) ==> Quiet(ScheduleEvents(p.right, m, timers, s), d, slack)
    ensures !IsTimerSymbolLeaf(p.left) ==>
              var first := ScheduleEvents(p.left, m, timers, s);
              Quiet(ScheduleEvents(p.right, m, timers, first), d, slack) && Quiet(first, d, slack)
  {
    if !IsTimerSymbolLeaf(p.left) {
      QuietBefore(p.right, m, timers, ScheduleEvents(p.left, m, timers, s), d, slack);
    }
  }

  /**
   No missed wake-up: unless the target is flagged for a recheck, the compiled predicate has
   its present value at every tick before the returned delay, and for ever if there is none.
   */
  lemma NoMissedWakeUp(p: Predicate, m: Machine, timers: map<string, int>, s: Schedule, d: nat)
    requires Clocked(m, timers) && Settled(m) && IntegerOps(m.ops)
    requires TimedClauses(p, After(m, timers, 0), timers)
    requires NoLateClause(p, After(m, timers, 0), timers)
    requires Quiet(ScheduleEvents(p, After(m, timers, 0), timers, s), d, 0)
    ensures Evaluate(p, After(m, timers, d)) == Evaluate(p, After(m, timers, 0))
  {
    Stable(p, m, timers, s, d, 0, true);
    LaterIsEvaluate(p, m, timers, d);
    LaterIsEvaluate(p, m, timers, 0);
  }

  /** With timers on the right of > or <= the wake-up is late by at most one tick. */
  lemma LateByAtMostOneTick(p: Predicate, m: Machine, timers: map<string, int>, s: Schedule, d: nat)
    requires Clocked(m, timers) && Settled(m) && IntegerOps(m.ops)
    requires TimedClauses(p, After(m, timers, 0), timers)
    requires Quiet(ScheduleEvents(p, After(m, timers, 0), timers, s), d, 1)
    ensures Evaluate(p, After(m, timers, d)) == Evaluate(p, After(m, timers, 0))
  {
    Stable(p, m, timers, s, d, 1, true);
    LaterIsEvaluate(p, m, timers, d);
    LaterIsEvaluate(p, m, timers, 0);
  }

  /** The single clause `operand op timer` never changes while the schedule is quiet. */
  ghost predicate NeverMissed(operand: Predicate, op: Op, timer: Predicate, m: Machine, timers: map<string, int>) {
    var p := Binary(operand, op, timer);
    forall d: nat | Quiet(ScheduleEvents(p, After(m, timers, 0), timers, Schedule(None, false)), d, 0) ::
      Evaluate(p, After(m, timers, d)) == Evaluate(p, After(m, timers, 0))
  }

  /** Exactly which timer-on-the-right clauses are scheduled late, for every operand that yields an integer. */
  lemma {:induction false} RightClauseExact(operand: Predicate, op: Op, timer: Predicate, m: Machine, timers: map<string, int>)
    requires Clocked(m, timers) && Settled(m) && IntegerOps(m.ops)
    requires IsClause(timer, op, operand, After(m, timers, 0), timers)
    ensures NeverMissed(operand, op, timer, m, timers)
            <==> !((op == GT || op == LE) && timers[timer.entry.name] < Evaluate(operand, After(m, timers, 0)).n)
  {
    var now := After(m, timers, 0);
    var p := Binary(operand, op, timer);
    var k := Evaluate(operand, now).n;
    var sched := ScheduleEvents(p, now, timers, Schedule(None, false));
    if (op == GT || op == LE) && timers[timer.entry.name] < k {
      var d := k - timers[timer.entry.name];
      ClauseNoted(false, timer, op, operand, m, timers, Schedule(None, false));
      assert Quiet(sched, d, 0);
      LaterIsEvaluate(p, m, timers, d);
      LaterIsEvaluate(p, m, timers, 0);
      ClauseValue(false, timer, op, operand, m, timers, d, true);
      ClauseValue(false, timer, op, operand, m, timers, 0, true);
      assert Evaluate(p, After(m, timers, d)) != Evaluate(p, now);
    } else {
      forall d: nat | Quiet(sched, d, 0)
        ensures Evaluate(p, After(m, timers, d)) == Evaluate(p, now)
      {
        NoMissedWakeUp(p, m, timers, Schedule(None, false), d);
      }
    }
  }

  /** The clause `10 > timer` with the timer at 3: its wake-up is after the tick at which it changes. */
  lemma {:induction false} LateClause(timer: Predicate, m: Machine, timers: map<string, int>)
    requires Clocked(m, timers) && Settled(m) && IntegerOps(m.ops)
    requires IsTimerLeaf(timer, timers) && timers[timer.entry.name] == 3
    ensures !NeverMissed(Leaf(Int(10)), GT, timer, m, timers)
  {
    EvaluateIsMeaning(Leaf(Int(10)), After(m, timers, 0));
    RightClauseExact(Leaf(Int(10)), GT, timer, m, timers);
  }

  // ----- exactness: what is scheduled, and nothing else -----

  /** A machine's timer, named by the machine, is the timer that is read. */
  lemma {:induction false} MachineTimer(name: string)
    requires '.' !in name
    ensures ScheduledTimer(name + SUFFIX) == name + SUFFIX
  {
    assert name + SUFFIX != TIMER by {
      assert '.' !in TIMER && (name + SUFFIX)[|name|] == '.';
    }
    FirstOfDotted(name);
  }

  lemma {:induction false} FirstOfDotted(name: string)
    requires '.' !in name
    ensures FirstComponent(name + SUFFIX) == name
  {
    if name != "" {
      assert (name + SUFFIX)[1..] == name[1..] + SUFFIX;
      FirstOfDotted(name[1..]);
    }
  }

  /**
   In e ticks a rising timer that is t now has the first value of all at which `timer op k` changes; the event of
   what is no comparison is the value k.
   */
  ghost predicate FirstChange(op: Op, k: int, t: int, e: int) {
    if IsComparison(op) then
      && Compare(op, t + e, k) != Compare(op, t + e - 1, k)
      && (forall u | u < t + e :: Compare(op, u, k) == Compare(op, t + e - 1, k))
    else t + e == k
  }

  lemma {:induction false} FirstChangeUnique(op: Op, k: int, t: int, e: int)
    ensures FirstChange(op, k, t, e) <==> t + e == ClauseTime(op, k)
  {
    var c := ClauseTime(op, k);
    if IsComparison(op) && t + e > c {
      assert Compare(op, c, k) != Compare(op, c - 1, k);
    }
  }

  ghost function Changes(op: Op, k: int, t: int): iset<int> {
    iset e | FirstChange(op, k, t, e) && t + e != MIN_TIMER
  }

  /** When the clause of a timer against an operand has its event, in ticks from now. */
  ghost function ClauseEvents(timer: string, op: Op, operand: Predicate, m: Machine, timers: map<string, int>): iset<int> {
    var source := ScheduledTimer(timer);
    if source !in timers then iset{}
    else match m.ops.asInteger(Evaluate(operand, m))
      case None => iset{}
      case Some(k) => Changes(op, k, timers[source])
  }

  /** The events of all timer clauses of a tree, in ticks from now; those gone by are negative. */
  ghost function Events(p: Predicate, m: Machine, timers: map<string, int>): iset<int> {
    match p
    case Leaf(_) => iset{}
    case Unary(_, r) => Events(r, m, timers)
    case Binary(l, op, r) =>
      if IsTimerSymbolLeaf(l) then Events(r, m, timers) + ClauseEvents(l.entry.name, op, r, m, timers)
      else if IsTimerSymbolLeaf(r) then Events(r, m, timers) + ClauseEvents(r.entry.name, op, l, m, timers)
      else Events(l, m, timers) + Events(r, m, timers)
  }

  /** From s to r: flagged for an event of the last two ticks, the delay lowered to the nearest event ahead. */
  ghost predicate Reflects(s: Schedule, r: Schedule, events: iset<int>) {
    && (r.flagged <==> s.flagged || exists e | e in events :: -2 <= e <= 0)
    && (forall e | e in events && e > 0 :: r.earliest.Some? && r.earliest.value <= 1000 * e)
    && (s.earliest.Some? ==> r.earliest.Some? && r.earliest.value <= s.earliest.value)
    && (r.earliest.Some? && r.earliest != s.earliest ==> exists e | e in events :: e > 0 && r.earliest.value == 1000 * e)
  }

  lemma {:induction false} ReflectsBoth(s: Schedule, q: Schedule, r: Schedule, first: iset<int>, second: iset<int>)
    requires Reflects(s, q, first) && Reflects(q, r, second)
    ensures Reflects(s, r, first + second)
  {
    assert forall e | e in first || e in second :: e in first + second;
  }

  /**
   Flagged if and only if it was before, or an event is due or went by within the last two ticks.
   The delay is the least of the given one and of the distances to the events ahead; there is
   none if and only if there is neither.
   */
  ghost predicate Exact(s: Schedule, r: Schedule, events: iset<int>) {
    && (r.flagged <==> s.flagged || exists e | e in events :: -2 <= e <= 0)
    && (r.earliest.None? <==> s.earliest.None? && forall e | e in events :: e <= 0)
    && (r.earliest.Some? ==>
          && (forall e | e in events && e > 0 :: r.earliest.value <= 1000 * e)
          && (s.earliest.Some? ==> r.earliest.value <= s.earliest.value)
          && (r.earliest == s.earliest || exists e | e in events :: e > 0 && r.earliest.value == 1000 * e))
  }

  lemma {:induction false} ReflectsExactly(s: Schedule, r: Schedule, events: iset<int>)
    requires Reflects(s, r, events)
    ensures Exact(s, r, events)
  {}

  lemma {:induction false} NoteReflected(s: Schedule, op: Op, k: int, t: int)
    ensures Reflects(s, Note(s, ClauseTime(op, k), t), Changes(op, k, t))
  {
    var c := ClauseTime(op, k);
    forall e {
      FirstChangeUnique(op, k, t, e);
    }
    assert Changes(op, k, t) == if c == MIN_TIMER then iset{} else iset{c - t};
    assert c != MIN_TIMER ==> c - t in Changes(op, k, t);
  }

  lemma {:induction false} ClauseReflected(s: Schedule, timer: string, op: Op, operand: Predicate,
                                           m: Machine, timers: map<string, int>)
    ensures Reflects(s, NoteClause(s, timer, op, operand, m, timers), ClauseEvents(timer, op, operand, m, timers))
  {
    var source := ScheduledTimer(timer);
    if source in timers && m.ops.asInteger(Evaluate(operand, m)).Some? {
      NoteReflected(s, op, m.ops.asInteger(Evaluate(operand, m)).value, timers[source]);
    }
  }

  lemma {:induction false} EventsReflected(p: Predicate, m: Machine, timers: map<string, int>, s: Schedule)
    ensures Reflects(s, ScheduleEvents(p, m, timers, s), Events(p, m, timers))
  {
    match p
    case Leaf(_) =>
    case Unary(_, r) => EventsReflected(r, m, timers, s);
    case Binary(l, op, r) =>
      if IsTimerSymbolLeaf(l) || IsTimerSymbolLeaf(r) {
        var before := ScheduleEvents(r, m, timers, s);
        var timer, operand := if IsTimerSymbolLeaf(l) then l else r, if IsTimerSymbolLeaf(l) then r else l;
        EventsReflected(r, m, timers, s);
        ClauseReflected(before, timer.entry.name, op, operand, m, timers);
        ReflectsBoth(s, before, ScheduleEvents(p, m, timers, s), Events(r, m, timers),
                     ClauseEvents(timer.entry.name, op, operand, m, timers));
      } else {
        var middle := ScheduleEvents(l, m, timers, s);
        EventsReflected(l, m, timers, s);
        EventsReflected(r, m, timers, middle);
        ReflectsBoth(s, middle, ScheduleEvents(p, m, timers, s), Events(l, m, timers), Events(r, m, timers));
      }
  }

  /** What is scheduled for a tree is what the events of its clauses call for, and nothing else. */
  lemma {:induction false} ScheduleExact(p: Predicate, m: Machine, timers: map<string, int>, s: Schedule)
    ensures Exact(s, ScheduleEvents(p, m, timers, s), Events(p, m, timers))
  {
    EventsReflected(p, m, timers, s);
    ReflectsExactly(s, ScheduleEvents(p, m, timers, s), Events(p, m, timers));
  }

  lemma {:induction false} LeftClauseLater(timer: Predicate, op: Op, operand: Predicate, m: Machine,
                                           timers: map<string, int>, d: nat)
    requires Clocked(m, timers) && Settled(m) && IntegerOps(m.ops)
    requires IsClause(timer, op, operand, After(m, timers, 0), timers)
    ensures Evaluate(Binary(timer, op, operand), After(m, timers, d))
         == Bool(Compare(op, timers[timer.entry.name] + d, Evaluate(operand, After(m, timers, 0)).n))
  {
    LaterIsEvaluate(Binary(timer, op, operand), m, timers, d);
    ClauseValue(true, timer, op, operand, m, timers, d, true);
  }

  lemma {:induction false} NotedChange(op: Op, k: int, t: int, flagged: bool)
    requires IsComparison(op)
    ensures var r := Note(Schedule(None, flagged), ClauseTime(op, k), t).earliest;
            r.Some? ==>
              && r.value > 0 && r.value % 1000 == 0
              && Compare(op, t + r.value / 1000, k) != Compare(op, t, k)
              && (forall u | t <= u < t + r.value / 1000 :: Compare(op, u, k) == Compare(op, t, k))
  {
    var e := ClauseTime(op, k) - t;
    assert (e * 1000) / 1000 == e && (e * 1000) % 1000 == 0;
  }

  /** The value of a predicate changes t microseconds from now, and not at a tick before. */
  ghost predicate ChangesAt(p: Predicate, m: Machine, timers: map<string, int>, t: int) {
    && t > 0 && t % 1000 == 0
    && Evaluate(p, After(m, timers, t / 1000)) != Evaluate(p, After(m, timers, 0))
    && (forall d: nat | d < t / 1000 :: Evaluate(p, After(m, timers, d)) == Evaluate(p, After(m, timers, 0)))
  }

  /** The delay for a single clause with the timer on the left is the tick of its change: not a tick early. */
  lemma {:induction false} WakeUpNotEarly(timer: Predicate, op: Op, operand: Predicate, m: Machine, timers: map<string, int>)
    requires Clocked(m, timers) && Settled(m) && IntegerOps(m.ops)
    requires IsClause(timer, op, operand, After(m, timers, 0), timers)
    requires Events(operand, After(m, timers, 0), timers) == iset{}
    ensures var p := Binary(timer, op, operand);
            var t := ScheduleEvents(p, After(m, timers, 0), timers, Schedule(None, false)).earliest;
            t.Some? ==> ChangesAt(p, m, timers, t.value)
  {
    var now, none := After(m, timers, 0), Schedule(None, false);
    var before := ScheduleEvents(operand, now, timers, none);
    EventsReflected(operand, now, timers, none);
    ClauseNoted(true, timer, op, operand, m, timers, none);
    NotedChange(op, Evaluate(operand, now).n, timers[timer.entry.name], before.flagged);
    var p := Binary(timer, op, operand);
    var t := ScheduleEvents(p, now, timers, none).earliest;
    if t.Some? {
      LeftClauseLater(timer, op, operand, m, timers, 0);
      LeftClauseLater(timer, op, operand, m, timers, t.value / 1000);
      forall d: nat | d < t.value / 1000
        ensures Evaluate(p, After(m, timers, d)) == Evaluate(p, now)
      {
        LeftClauseLater(timer, op, operand, m, timers, d);
      }
    }
  }
}
