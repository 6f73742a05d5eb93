/**
 Clockwork predicates: the expression tree, the flat prefix list that `prep` builds
 from it, and the evaluator `eval_stack` that walks the list with an advancing iterator.

 The main results are `EvalStackLeavesForest` and its corollaries: evaluating the list
 gives the direct recursive value of the tree and stops exactly at the end of the
 encoding if and only if no AND/OR shortcut fires. What that value is, is said for each
 operator, and for whole conditions over booleans and integers (`DenotationKept`).
 */
module Predicates {
  import opened Options

  datatype Op =
    | NoOp | GE | GT | LE | LT | EQ | NE | AND | OR | NOT
    | UnaryMinus | Plus | Minus | Times | Divide | Mod | Assign | Match
    | BitAnd | BitOr | BitXOr | Negate | AnyOf | AllOf | CountOf | Includes
    | AsInteger | AsFloat | AbsoluteValue | AsString

  /** Clockwork values. `Dynamic(id)` is a value that is computed by calling back into the machine. */
  datatype Value =
    | Null
    | Bool(b: bool)
    | Int(n: int)
    | Float(r: real)
    | Str(s: string)
    | Symbol(name: string)
    | Dynamic(id: nat)

  /** The operators of class Value; only their being functions of the operands matters here. */
  datatype ValueOps = ValueOps(
    binary: (Op, Value, Value) -> Value,
    unary: (Op, Value) -> Value,
    negative: Value -> bool,
    asInteger: Value -> Option<int>,
    matches: (Value, Value) -> bool)

  /** What the evaluator asks of the machine that owns the predicate. */
  datatype Machine = Machine(
    current: Value,                               // the current state, as a value
    states: set<string>,                          // the states of this machine
    lookup: string -> Value,                      // MachineInstance::resolve
    machines: map<string, set<string>>,           // visible machines and their states
    dynamic: nat -> Value,                        // result of a dynamic value
    ops: ValueOps)

  datatype Predicate =
    | Leaf(entry: Value)
    | Unary(op: Op, right: Predicate)
    | Binary(left: Predicate, op: Op, right: Predicate)

  /** Only NOT and the AS-casts may lack a left child. */
  predicate WellFormed(p: Predicate) {
    match p
    case Leaf(_) => true
    case Unary(op, r) => op in {NOT, AsInteger, AsFloat, AsString} && WellFormed(r)
    case Binary(l, _, r) => WellFormed(l) && WellFormed(r)
  }

  // ----- name resolution and compilation -----

  /** `resolve` without a cached entry, followed by prep's fall-back from Null to the entry. */
  function LeafValue(entry: Value, m: Machine, left: bool): Value {
    if !entry.Symbol? then entry
    else if left && entry.name == "DEFAULT" then Bool(true)
    else if entry.name == "SELF" then if m.current.Null? then entry else m.current
    else if entry.name == "TRUE" then Bool(true)
    else if entry.name == "FALSE" then Bool(false)
    else if entry.name in m.states then entry
    else if m.lookup(entry.name).Null? then entry
    else m.lookup(entry.name)
  }

  predicate HasState(m: Machine, machine: string, state: string) {
    machine in m.machines && state in m.machines[machine]
  }

  /** prep's state comparison: in `machine IS state` the state name becomes a string. */
  function FixStateTest(p: Predicate, m: Machine): Predicate {
    match p
    case Binary(Leaf(Symbol(a)), op, Leaf(Symbol(b))) =>
      if op != EQ && op != NE then p
      else if a in m.machines && b !in m.machines then
        if HasState(m, a, b) then Binary(Leaf(Symbol(a)), op, Leaf(Str(b))) else p
      else if b in m.machines && a !in m.machines then
        if HasState(m, b, a) then Binary(Leaf(Str(a)), op, Leaf(Symbol(b))) else p
      else p
    case _ => p
  }

  function Normalise(p: Predicate, m: Machine): (q: Predicate)
    ensures WellFormed(p) ==> WellFormed(q)
    ensures p.Leaf? ==> q == p
  {
    match FixStateTest(p, m)
    case Leaf(v) => Leaf(v)
    case Unary(op, r) => Unary(op, Normalise(r, m))
    case Binary(l, op, r) =>
      if p.Binary? && p.left.Leaf? && p.right.Leaf? then FixStateTest(p, m)
      else Binary(Normalise(l, m), op, Normalise(r, m))
  }

  /** Compiling twice rewrites nothing the second time. */
  lemma {:induction false} NormaliseIdempotent(p: Predicate, m: Machine)
    ensures Normalise(Normalise(p, m), m) == Normalise(p, m)
  {
    match p
    case Leaf(_) =>
    case Unary(_, r) => NormaliseIdempotent(r, m);
    case Binary(l, _, r) =>
      if !(l.Leaf? && r.Leaf?) {
        NormaliseIdempotent(l, m);
        NormaliseIdempotent(r, m);
      }
  }

  datatype Node = OpNode(op: Op) | ValNode(val: Value)

  /** The operand pushed first: prep pushes True where a unary operator has no left child. */
  function LeftOf(p: Predicate): Predicate
    requires !p.Leaf?
  {
    if p.Unary? then Leaf(Bool(true)) else p.left
  }

  function Size(p: Predicate): nat {
    match p
    case Leaf(_) => 1
    case Unary(_, r) => 2 + Size(r)
    case Binary(l, _, r) => 1 + Size(l) + Size(r)
  }

  /** The prefix form: operator, right operand, left operand. */
  function Encode(p: Predicate, m: Machine, left: bool): (s: seq<Node>)
    ensures |s| == Size(p)
    decreases Size(p)
  {
    if p.Leaf? then [ValNode(LeafValue(p.entry, m, left))]
    else [OpNode(p.op)] + Encode(p.right, m, false) + Encode(LeftOf(p), m, true)
  }

  class Stack {
    var nodes: seq<Node>  // the front of the list first

    constructor ()
      ensures nodes == []
    {
      nodes := [];
    }

    method Push(n: Node)
      modifies this
      ensures nodes == [n] + old(nodes)
    {
      nodes := [n] + nodes;
    }
  }

  /** Pushes the encoding of the normalised tree; the rewritten tree is returned as q. */
  method Prep(stack: Stack, p: Predicate, m: Machine, left: bool) returns (q: Predicate)
    requires WellFormed(p)
    modifies stack
    ensures q == Normalise(p, m)
    ensures stack.nodes == Encode(q, m, left) + old(stack.nodes)
    decreases p
  {
    var fixed := FixStateTest(p, m);
    match fixed {
      case Binary(l, op, r) =>
        if l.Leaf? && r.Leaf? {
          stack.Push(ValNode(LeafValue(l.entry, m, true)));
          stack.Push(ValNode(LeafValue(r.entry, m, false)));
          q := fixed;
        } else {
          var l' := Prep(stack, l, m, true);
          var r' := Prep(stack, r, m, false);
          q := Binary(l', op, r');
        }
        stack.Push(OpNode(op));
        EncodeOperator(q, m, left, old(stack.nodes));
      case Unary(op, r) =>
        stack.Push(ValNode(Bool(true)));
        var r' := Prep(stack, r, m, false);
        stack.Push(OpNode(op));
        q := Unary(op, r');
        EncodeOperator(q, m, left, old(stack.nodes));
      case Leaf(v) =>
        stack.Push(ValNode(LeafValue(v, m, left)));
        q := p;
    }
  }

  // ----- evaluation -----

  /** A dynamic value is replaced by its result, once. */
  function Force(v: Value, m: Machine): Value {
    if v.Dynamic? then m.dynamic(v.id) else v
  }

  /** The switch of eval_stack over an operator and its two evaluated operands. */
  function Apply(op: Op, a: Value, b: Value, m: Machine): Value {
    var lhs, rhs := Force(a, m), Force(b, m);
    match op
    case NOT | UnaryMinus | Negate | AsFloat | AsString => m.ops.unary(op, rhs)
    case AbsoluteValue => if m.ops.negative(rhs) then m.ops.unary(UnaryMinus, rhs) else rhs
    case AsInteger => (match m.ops.asInteger(rhs) case Some(n) => Int(n) case None => Int(0))
    case Assign => rhs
    case Match => Bool(m.ops.matches(a, b))
    case AnyOf | AllOf | CountOf | Includes => a
    case NoOp => Int(0)
    case _ => m.ops.binary(op, lhs, rhs)
  }

  /** The AND/OR shortcut: taken on a right operand that is still dynamic once evaluated. */
  predicate Fires(op: Op, b: Value, m: Machine) {
    b.Dynamic? &&
    ((op == AND && Force(b, m) == Bool(false)) || (op == OR && Force(b, m) == Bool(true)))
  }

  /** The value and the part of the list the iterator has not passed; Overrun: it left the list. */
  datatype Outcome = Done(value: Value, rest: seq<Node>) | Overrun

  function EvalStack(m: Machine, list: seq<Node>): (r: Outcome)
    ensures r.Done? ==> |r.rest| < |list|
    decreases |list|
  {
    if list == [] then Overrun
    else match list[0]
      case ValNode(v) => Done(Force(v, m), list[1..])
      case OpNode(op) =>
        match EvalStack(m, list[1..])
        case Overrun => Overrun
        case Done(b, afterRight) =>
          if Fires(op, b, m) then Done(Force(b, m), afterRight)
          else match EvalStack(m, afterRight)
            case Overrun => Overrun
            case Done(a, afterLeft) => Done(Apply(op, a, b, m), afterLeft)
  }

  /** Reference semantics: the direct recursive value of a tree. */
  function Meaning(p: Predicate, m: Machine, left: bool): Value
    decreases Size(p)
  {
    if p.Leaf? then Force(LeafValue(p.entry, m, left), m)
    else Apply(p.op, Meaning(LeftOf(p), m, true), Meaning(p.right, m, false), m)
  }

  /** Some AND/OR node has a right operand on which the shortcut fires. */
  predicate HasShortcut(p: Predicate, m: Machine)
    decreases Size(p)
  {
    !p.Leaf? &&
    (HasShortcut(p.right, m) || Fires(p.op, Meaning(p.right, m, false), m) || HasShortcut(LeftOf(p), m))
  }

  // ----- correctness of the compiled form -----

  /** The operands an evaluation has left unread, in list order. */
  datatype Forest = Empty | Trees(head: Predicate, tail: Forest)

  function Append(f: Forest, g: Forest): Forest {
    match f case Empty => g case Trees(h, t) => Trees(h, Append(t, g))
  }

  function EncodeAll(f: Forest, m: Machine): seq<Node> {
    match f case Empty => [] case Trees(h, t) => Encode(h, m, true) + EncodeAll(t, m)
  }

  predicate AllSmaller(f: Forest, n: nat) {
    match f case Empty => true case Trees(h, t) => Size(h) < n && AllSmaller(t, n)
  }

  lemma {:induction false} EncodeAppend(f: Forest, g: Forest, m: Machine, rest: seq<Node>)
    ensures EncodeAll(Append(f, g), m) + rest == EncodeAll(f, m) + (EncodeAll(g, m) + rest)
  {
    match f
    case Empty => assert [] + (EncodeAll(g, m) + rest) == EncodeAll(g, m) + rest;
    case Trees(h, t) =>
      EncodeAppend(t, g, m, rest);
      Regroup(Encode(h, m, true), EncodeAll(Append(t, g), m), rest);
      Regroup(Encode(h, m, true), EncodeAll(t, m), EncodeAll(g, m) + rest);
  }

  lemma {:induction false} Regroup(x: seq<Node>, y: seq<Node>, z: seq<Node>)
    ensures (x + y) + z == x + (y + z)
  {}

  lemma {:induction false} EncodeHead(f: Forest, m: Machine, rest: seq<Node>)
    requires f.Trees?
    ensures EncodeAll(f, m) + rest == Encode(f.head, m, true) + (EncodeAll(f.tail, m) + rest)
  {}

  lemma {:induction false} EncodeOperator(p: Predicate, m: Machine, left: bool, rest: seq<Node>)
    requires !p.Leaf?
    ensures Encode(p, m, left) + rest
         == [OpNode(p.op)] + (Encode(p.right, m, false) + (Encode(LeftOf(p), m, true) + rest))
  {}

  lemma {:induction false} SmallerAppend(f: Forest, g: Forest, k: nat, n: nat)
    requires AllSmaller(f, k) && k <= n && AllSmaller(g, n)
    ensures AllSmaller(Append(f, g), n)
  {
    match f
    case Empty =>
    case Trees(_, t) => SmallerAppend(t, g, k, n);
  }

  /** Evaluating an operator node once its right operand has been evaluated. */
  lemma {:induction false} EvalOperator(m: Machine, op: Op, tail: seq<Node>)
    ensures var b := EvalStack(m, tail);
            b.Done? ==>
              var r := EvalStack(m, [OpNode(op)] + tail);
              if Fires(op, b.value, m) then r == Done(Force(b.value, m), b.rest)
              else var a := EvalStack(m, b.rest);
                   a.Done? ==> r == Done(Apply(op, a.value, b.value, m), a.rest)
  {
    assert ([OpNode(op)] + tail)[1..] == tail;
  }

  /**
   Evaluating list stops at remaining. Operands of p are skipped exactly when a shortcut
   fires somewhere in p; if none is skipped the value is the direct recursive one.
   */
  ghost predicate Leaves(list: seq<Node>, remaining: seq<Node>, p: Predicate, m: Machine, left: bool,
                         skipped: Forest) {
    var r := EvalStack(m, list);
    && r.Done?
    && r.rest == remaining
    && (skipped.Empty? <==> !HasShortcut(p, m))
    && (skipped.Empty? ==> r.value == Meaning(p, m, left))
  }

  lemma {:induction false} OperatorFires(p: Predicate, m: Machine, left: bool, tail: seq<Node>,
                                         remaining: seq<Node>, first: Forest)
    requires !p.Leaf?
    requires Leaves(tail, remaining, p.right, m, false, first)
    requires Fires(p.op, EvalStack(m, tail).value, m)
    ensures Leaves([OpNode(p.op)] + tail, remaining, p, m, left, Append(first, Trees(LeftOf(p), Empty)))
  {
    EvalOperator(m, p.op, tail);
  }

  lemma {:induction false} OperatorContinues(p: Predicate, m: Machine, left: bool, tail: seq<Node>, middle: seq<Node>,
                                             remaining: seq<Node>, first: Forest, second: Forest)
    requires !p.Leaf?
    requires Leaves(tail, middle, p.right, m, false, first)
    requires !Fires(p.op, EvalStack(m, tail).value, m)
    requires Leaves(middle, remaining, Append(first, Trees(LeftOf(p), Empty)).head, m, true, second)
    ensures Leaves([OpNode(p.op)] + tail, remaining, p, m, left,
                   Append(second, Append(first, Trees(LeftOf(p), Empty)).tail))
  {
    EvalOperator(m, p.op, tail);
  }

  /** Whatever follows the encoding, the evaluator never overruns it: it leaves a forest. */
  lemma {:induction false} EvalStackLeavesForest(p: Predicate, m: Machine, left: bool, rest: seq<Node>)
    returns (skipped: Forest)
    ensures Leaves(Encode(p, m, left) + rest, EncodeAll(skipped, m) + rest, p, m, left, skipped)
    ensures AllSmaller(skipped, Size(p))
    decreases Size(p)
  {
    if p.Leaf? {
      skipped := Empty;
      assert (Encode(p, m, left) + rest)[1..] == rest == EncodeAll(Empty, m) + rest;
      return;
    }
    var l := LeftOf(p);
    EncodeOperator(p, m, left, rest);
    var tail := Encode(p.right, m, false) + (Encode(l, m, true) + rest);
    var first := EvalStackLeavesForest(p.right, m, false, Encode(l, m, true) + rest);
    var pending := Append(first, Trees(l, Empty));
    SmallerAppend(first, Trees(l, Empty), Size(p.right), Size(p));
    PendingReads(first, l, m, rest);
    if Fires(p.op, EvalStack(m, tail).value, m) {
      skipped := pending;
      OperatorFires(p, m, left, tail, EncodeAll(pending, m) + rest, first);
    } else {
      var second := EvalStackLeavesForest(pending.head, m, true, EncodeAll(pending.tail, m) + rest);
      skipped := Append(second, pending.tail);
      SmallerAppend(second, pending.tail, Size(pending.head), Size(p));
      EncodeAppend(second, pending.tail, m, rest);
      OperatorContinues(p, m, left, tail, EncodeAll(pending, m) + rest, EncodeAll(skipped, m) + rest, first, second);
    }
  }

  /** What remains after the right operand, read as the operands still pending. */
  lemma {:induction false} PendingReads(first: Forest, l: Predicate, m: Machine, rest: seq<Node>)
    ensures var pending := Append(first, Trees(l, Empty));
            && EncodeAll(first, m) + (Encode(l, m, true) + rest) == EncodeAll(pending, m) + rest
            && Encode(pending.head, m, true) + (EncodeAll(pending.tail, m) + rest) == EncodeAll(pending, m) + rest
  {
    EncodeAppend(first, Trees(l, Empty), m, rest);
    EncodeHead(Trees(l, Empty), m, rest);
    assert EncodeAll(Empty, m) + rest == rest;
    EncodeHead(Append(first, Trees(l, Empty)), m, rest);
  }

  /** Compiler correctness, both ways: aligned and correct if and only if no shortcut fires. */
  lemma {:induction false} CompileCorrect(p: Predicate, m: Machine, left: bool, rest: seq<Node>)
    ensures !HasShortcut(p, m) ==> EvalStack(m, Encode(p, m, left) + rest) == Done(Meaning(p, m, left), rest)
    ensures HasShortcut(p, m) ==>
              var r := EvalStack(m, Encode(p, m, left) + rest); r.Done? && |r.rest| > |rest|
  {
    var skipped := EvalStackLeavesForest(p, m, left, rest);
    match skipped
    case Empty => assert EncodeAll(Empty, m) + rest == rest;
    case Trees(h, t) => assert |EncodeAll(skipped, m)| == |Encode(h, m, true)| + |EncodeAll(t, m)|;
  }

  // ----- what each operator yields -----

  predicate IsComparison(op: Op) {
    op == GE || op == GT || op == LE || op == LT || op == EQ || op == NE
  }

  predicate IsArithmetic(op: Op) {
    op in {Plus, Minus, Times, Divide, Mod, BitAnd, BitOr, BitXOr}
  }

  /**
   The list right + left + rest holds the two operands of op: they evaluate to b and a, which
   stand for rhs and lhs once a dynamic value has been asked for its result, and no shortcut is due.
   */
  ghost predicate Operands(m: Machine, op: Op, right: seq<Node>, left: seq<Node>, rest: seq<Node>,
                           a: Value, b: Value, lhs: Value, rhs: Value) {
    && EvalStack(m, right + (left + rest)) == Done(b, left + rest)
    && EvalStack(m, left + rest) == Done(a, rest)
    && lhs == (if a.Dynamic? then m.dynamic(a.id) else a)
    && rhs == (if b.Dynamic? then m.dynamic(b.id) else b)
    && !(b.Dynamic? && op == AND && rhs == Bool(false))
    && !(b.Dynamic? && op == OR && rhs == Bool(true))
  }

  lemma {:induction false} OperatorYields(m: Machine, op: Op, right: seq<Node>, left: seq<Node>, rest: seq<Node>,
                                          a: Value, b: Value, lhs: Value, rhs: Value)
    requires Operands(m, op, right, left, rest, a, b, lhs, rhs)
    ensures EvalStack(m, [OpNode(op)] + (right + (left + rest))) == Done(Apply(op, a, b, m), rest)
    ensures lhs == Force(a, m) && rhs == Force(b, m)
  {
    EvalOperator(m, op, right + (left + rest));
  }

  /** NOT, minus, complement and two of the casts apply to the right operand alone. */
  lemma {:induction false} UnaryYields(m: Machine, op: Op, right: seq<Node>, left: seq<Node>, rest: seq<Node>,
                                       a: Value, b: Value, lhs: Value, rhs: Value)
    requires Operands(m, op, right, left, rest, a, b, lhs, rhs)
    requires op in {NOT, UnaryMinus, Negate, AsFloat, AsString}
    ensures EvalStack(m, [OpNode(op)] + (right + (left + rest))) == Done(m.ops.unary(op, rhs), rest)
  {
    OperatorYields(m, op, right, left, rest, a, b, lhs, rhs);
  }

  /** Comparisons, connectives and arithmetic take the left operand first, although it is evaluated last. */
  lemma {:induction false} BinaryYields(m: Machine, op: Op, right: seq<Node>, left: seq<Node>, rest: seq<Node>,
                                        a: Value, b: Value, lhs: Value, rhs: Value)
    requires Operands(m, op, right, left, rest, a, b, lhs, rhs)
    requires IsComparison(op) || op == AND || op == OR || IsArithmetic(op)
    ensures EvalStack(m, [OpNode(op)] + (right + (left + rest))) == Done(m.ops.binary(op, lhs, rhs), rest)
  {
    OperatorYields(m, op, right, left, rest, a, b, lhs, rhs);
  }

  /** Absolute value, the integer cast (0 for what is no integer), assignment and the empty operator. */
  lemma {:induction false} ValueYields(m: Machine, op: Op, right: seq<Node>, left: seq<Node>, rest: seq<Node>,
                                       a: Value, b: Value, lhs: Value, rhs: Value)
    requires Operands(m, op, right, left, rest, a, b, lhs, rhs)
    requires op in {AbsoluteValue, AsInteger, Assign, NoOp}
    ensures var r := EvalStack(m, [OpNode(op)] + (right + (left + rest)));
            && r.Done? && r.rest == rest
            && (op == AbsoluteValue && m.ops.negative(rhs) ==> r.value == m.ops.unary(UnaryMinus, rhs))
            && (op == AbsoluteValue && !m.ops.negative(rhs) ==> r.value == rhs)
            && (op == AsInteger ==> forall n | m.ops.asInteger(rhs) == Some(n) :: r.value == Int(n))
            && (op == AsInteger && m.ops.asInteger(rhs).None? ==> r.value == Int(0))
            && (op == Assign ==> r.value == rhs)
            && (op == NoOp ==> r.value == Int(0))
  {
    OperatorYields(m, op, right, left, rest, a, b, lhs, rhs);
  }

  /** A pattern is matched against the operands as evaluated; the list tests hand on their left operand. */
  lemma {:induction false} ListTestYields(m: Machine, op: Op, right: seq<Node>, left: seq<Node>, rest: seq<Node>,
                                          a: Value, b: Value, lhs: Value, rhs: Value)
    requires Operands(m, op, right, left, rest, a, b, lhs, rhs)
    requires op in {Match, AnyOf, AllOf, CountOf, Includes}
    ensures var r := EvalStack(m, [OpNode(op)] + (right + (left + rest)));
            r == Done(if op == Match then Bool(m.ops.matches(a, b)) else a, rest)
  {
    OperatorYields(m, op, right, left, rest, a, b, lhs, rhs);
  }

  // ----- conditions over booleans and integers -----

  const LONG_LIMIT := 0x8000_0000_0000_0000

  predicate Fits(n: int) {
    -LONG_LIMIT <= n < LONG_LIMIT
  }

  /** The operators on booleans and on integers are the usual ones, as long as a result fits a long. */
  ghost predicate StandardOps(ops: ValueOps) {
    && (forall a :: ops.unary(NOT, Bool(a)) == Bool(!a))
    && (forall a, b :: ops.binary(AND, Bool(a), Bool(b)) == Bool(a && b))
    && (forall a, b :: ops.binary(OR, Bool(a), Bool(b)) == Bool(a || b))
    && (forall op, a, b | IsComparison(op) :: ops.binary(op, Int(a), Int(b)) == Bool(Compare(op, a, b)))
    && (forall a, b | Fits(a + b) :: ops.binary(Plus, Int(a), Int(b)) == Int(a + b))
    && (forall a, b | Fits(a - b) :: ops.binary(Minus, Int(a), Int(b)) == Int(a - b))
  }

  predicate Compare(op: Op, a: int, b: int)
    requires IsComparison(op)
  {
    match op
    case GE => a >= b
    case GT => a > b
    case LE => a <= b
    case LT => a < b
    case EQ => a == b
    case NE => a != b
  }

  function Plain(v: Value): Option<Value> {
    if v.Bool? || v.Int? then Some(v) else None
  }

  /** What a name or constant stands for, when that is a boolean or an integer. */
  function LeafDenotes(v: Value, m: Machine, left: bool): Option<Value> {
    match v
    case Dynamic(id) => Plain(m.dynamic(id))
    case Symbol(n) =>
      if n in m.machines then None
      else if n == "TRUE" then Some(Bool(true))
      else if n == "FALSE" then Some(Bool(false))
      else if n == "DEFAULT" && left then Some(Bool(true))
      else if n == "SELF" then Plain(m.current)
      else if n in m.states then None
      else Plain(m.lookup(n))
    case _ => Plain(v)
  }

  /** What a connective, a comparison, a sum or a difference makes of two plain values of the right type. */
  function Combined(op: Op, a: Value, b: Value): Option<Value> {
    match (a, b)
    case (Bool(x), Bool(y)) =>
      if op == AND then Some(Bool(x && y)) else if op == OR then Some(Bool(x || y)) else None
    case (Int(x), Int(y)) =>
      if IsComparison(op) then Some(Bool(Compare(op, x, y)))
      else if op == Plus && Fits(x + y) then Some(Int(x + y))
      else if op == Minus && Fits(x - y) then Some(Int(x - y))
      else None
    case _ => None
  }

  /** A typed interpreter of its own: the boolean or integer a predicate stands for, if it is well typed. */
  function Denotes(p: Predicate, m: Machine, left: bool): Option<Value> {
    match p
    case Leaf(v) => LeafDenotes(v, m, left)
    case Unary(op, r) =>
      var b := Denotes(r, m, false);
      if op == NOT && b.Some? && b.value.Bool? then Some(Bool(!b.value.b)) else None
    case Binary(l, op, r) =>
      var a, b := Denotes(l, m, true), Denotes(r, m, false);
      if a.Some? && b.Some? then Combined(op, a.value, b.value) else None
  }

  lemma {:induction false} LeafYields(v: Value, m: Machine, left: bool, rest: seq<Node>)
    requires LeafDenotes(v, m, left).Some?
    ensures EvalStack(m, Encode(Leaf(v), m, left) + rest) == Done(LeafDenotes(v, m, left).value, rest)
  {
    assert (Encode(Leaf(v), m, left) + rest)[1..] == rest;
  }

  lemma {:induction false} CombinedExact(ops: ValueOps, op: Op, a: Value, b: Value)
    requires StandardOps(ops) && Combined(op, a, b).Some?
    ensures Some(ops.binary(op, a, b)) == Combined(op, a, b)
    ensures IsComparison(op) || op == AND || op == OR || IsArithmetic(op)
    ensures !a.Dynamic? && !b.Dynamic?
  {
    if a.Bool? {
      assert ops.binary(AND, a, b) == Bool(a.b && b.b) && ops.binary(OR, a, b) == Bool(a.b || b.b);
    } else if IsComparison(op) {
      assert ops.binary(op, a, b) == Bool(Compare(op, a.n, b.n));
    } else {
      assert op == Plus || op == Minus;
    }
  }

  lemma {:induction false} UnaryDenotes(p: Predicate, m: Machine, left: bool, rest: seq<Node>, b: Value)
    requires p.Unary? && p.op == NOT && b.Bool? && StandardOps(m.ops)
    requires EvalStack(m, Encode(p.right, m, false) + (Encode(LeftOf(p), m, true) + rest))
          == Done(b, Encode(LeftOf(p), m, true) + rest)
    ensures EvalStack(m, Encode(p, m, left) + rest) == Done(Bool(!b.b), rest)
  {
    LeafYields(Bool(true), m, true, rest);
    EncodeOperator(p, m, left, rest);
    UnaryYields(m, NOT, Encode(p.right, m, false), Encode(LeftOf(p), m, true), rest, Bool(true), b, Bool(true), b);
  }

  lemma {:induction false} BinaryDenotes(p: Predicate, m: Machine, left: bool, rest: seq<Node>, a: Value, b: Value)
    requires p.Binary? && StandardOps(m.ops) && Combined(p.op, a, b).Some?
    requires EvalStack(m, Encode(p.right, m, false) + (Encode(p.left, m, true) + rest))
          == Done(b, Encode(p.left, m, true) + rest)
    requires EvalStack(m, Encode(p.left, m, true) + rest) == Done(a, rest)
    ensures EvalStack(m, Encode(p, m, left) + rest) == Done(Combined(p.op, a, b).value, rest)
  {
    CombinedExact(m.ops, p.op, a, b);
    EncodeOperator(p, m, left, rest);
    BinaryYields(m, p.op, Encode(p.right, m, false), Encode(p.left, m, true), rest, a, b, a, b);
  }

  /** A well-typed condition compiles to a list that evaluates to what the condition says. */
  lemma {:induction false} DenotationKept(p: Predicate, m: Machine, left: bool, rest: seq<Node>)
    requires StandardOps(m.ops) && Denotes(p, m, left).Some?
    ensures EvalStack(m, Encode(p, m, left) + rest) == Done(Denotes(p, m, left).value, rest)
    decreases Size(p)
  {
    match p
    case Leaf(v) => LeafYields(v, m, left, rest);
    case Unary(_, r) =>
      DenotationKept(r, m, false, Encode(LeftOf(p), m, true) + rest);
      UnaryDenotes(p, m, left, rest, Denotes(r, m, false).value);
    case Binary(l, _, r) =>
      DenotationKept(l, m, true, rest);
      DenotationKept(r, m, false, Encode(l, m, true) + rest);
      BinaryDenotes(p, m, left, rest, Denotes(l, m, true).value, Denotes(r, m, false).value);
  }

  /** Compiling leaves a well-typed condition as it is: it compares no machine with a state. */
  lemma {:induction false} DenotationNormal(p: Predicate, m: Machine, left: bool)
    requires Denotes(p, m, left).Some?
    ensures Normalise(p, m) == p
  {
    match p
    case Leaf(_) =>
    case Unary(_, r) => DenotationNormal(r, m, false);
    case Binary(l, _, r) =>
      DenotationNormal(l, m, true);
      DenotationNormal(r, m, false);
  }

  // ----- names of machines and of states -----

  /** A name that is a state of the machine itself, or that nothing is known about, stands for itself. */
  lemma {:induction false} NameYields(name: string, m: Machine, left: bool, rest: seq<Node>)
    requires name !in {"DEFAULT", "SELF", "TRUE", "FALSE"}
    requires name in m.states || m.lookup(name).Null?
    ensures EvalStack(m, Encode(Leaf(Symbol(name)), m, left) + rest) == Done(Symbol(name), rest)
  {
    assert (Encode(Leaf(Symbol(name)), m, left) + rest)[1..] == rest;
  }

  /** The left and right leaves evaluate to x and to y. */
  ghost predicate LeavesYield(l: Value, r: Value, m: Machine, rest: seq<Node>, x: Value, y: Value) {
    && !x.Dynamic? && !y.Dynamic?
    && EvalStack(m, Encode(Leaf(l), m, true) + rest) == Done(x, rest)
    && var tail := Encode(Leaf(l), m, true) + rest;
       EvalStack(m, Encode(Leaf(r), m, false) + tail) == Done(y, tail)
  }

  lemma {:induction false} ComparisonYields(l: Value, op: Op, r: Value, m: Machine, left: bool,
                                            rest: seq<Node>, x: Value, y: Value)
    requires IsComparison(op) && LeavesYield(l, r, m, rest, x, y)
    ensures EvalStack(m, Encode(Binary(Leaf(l), op, Leaf(r)), m, left) + rest) == Done(m.ops.binary(op, x, y), rest)
  {
    EncodeOperator(Binary(Leaf(l), op, Leaf(r)), m, left, rest);
    BinaryYields(m, op, Encode(Leaf(r), m, false), Encode(Leaf(l), m, true), rest, x, y, x, y);
  }

  /** The value of a compiled comparison of two names, compiled and evaluated in front of rest. */
  function NamesCompared(a: string, op: Op, b: string, m: Machine, left: bool, rest: seq<Node>): Outcome {
    EvalStack(m, Encode(Normalise(Binary(Leaf(Symbol(a)), op, Leaf(Symbol(b))), m), m, left) + rest)
  }

  /** In a test of a machine for one of its states, the name of the state is compared as text and never looked up. */
  lemma {:induction false} StateTestYields(a: string, op: Op, b: string, m: Machine, left: bool,
                                           rest: seq<Node>, x: Value, y: Value)
    requires op == EQ || op == NE
    requires a in m.machines && b !in m.machines && b in m.machines[a] && LeavesYield(Symbol(a), Str(b), m, rest, x, y)
    ensures y == Str(b) && NamesCompared(a, op, b, m, left, rest) == Done(m.ops.binary(op, x, Str(b)), rest)
  {
    ComparisonYields(Symbol(a), op, Str(b), m, left, rest, x, y);
  }

  /** So it is on the left. */
  lemma {:induction false} LeftStateTestYields(a: string, op: Op, b: string, m: Machine, left: bool,
                                               rest: seq<Node>, x: Value, y: Value)
    requires op == EQ || op == NE
    requires b in m.machines && a !in m.machines && a in m.machines[b] && LeavesYield(Str(a), Symbol(b), m, rest, x, y)
    ensures x == Str(a) && NamesCompared(a, op, b, m, left, rest) == Done(m.ops.binary(op, Str(a), y), rest)
  {
    ComparisonYields(Str(a), op, Symbol(b), m, left, rest, x, y);
  }

  /** Any other two names are compared by what they stand for. */
  lemma {:induction false} OtherNamesYield(a: string, op: Op, b: string, m: Machine, left: bool,
                                           rest: seq<Node>, x: Value, y: Value)
    requires IsComparison(op) && LeavesYield(Symbol(a), Symbol(b), m, rest, x, y)
    requires !((op == EQ || op == NE) && a in m.machines && b !in m.machines && b in m.machines[a])
    requires !((op == EQ || op == NE) && b in m.machines && a !in m.machines && a in m.machines[b])
    ensures NamesCompared(a, op, b, m, left, rest) == Done(m.ops.binary(op, x, y), rest)
  {
    ComparisonYields(Symbol(a), op, Symbol(b), m, left, rest, x, y);
  }

  /** No dynamic value, and no operator, yields a dynamic value. */
  ghost predicate Settled(m: Machine) {
    && (forall id :: !m.dynamic(id).Dynamic?)
    && (forall op, a, b :: !m.ops.binary(op, a, b).Dynamic?)
    && (forall op, a :: !m.ops.unary(op, a).Dynamic?)
  }

  lemma {:induction false} SettledHasNoShortcut(p: Predicate, m: Machine, left: bool)
    requires Settled(m)
    ensures !HasShortcut(p, m) && !Meaning(p, m, left).Dynamic?
    decreases Size(p)
  {
    if !p.Leaf? {
      SettledHasNoShortcut(p.right, m, false);
      SettledHasNoShortcut(LeftOf(p), m, true);
    }
  }

  /** The shortcut does misalign: AND with a right operand that yields a dynamic FALSE. */
  lemma ShortcutExample(m: Machine, x: Value, rest: seq<Node>)
    requires m.dynamic(0) == Dynamic(1) && m.dynamic(1) == Bool(false) && !x.Symbol?
    ensures var p := Binary(Leaf(x), AND, Leaf(Dynamic(0)));
            EvalStack(m, Encode(p, m, true) + rest) == Done(Bool(false), [ValNode(x)] + rest)
  {
    var p := Binary(Leaf(x), AND, Leaf(Dynamic(0)));
    var list := Encode(p, m, true) + rest;
    assert Encode(Leaf(Dynamic(0)), m, false) == [ValNode(Dynamic(0))];
    assert Encode(Leaf(x), m, true) == [ValNode(x)];
    assert list == [OpNode(AND), ValNode(Dynamic(0)), ValNode(x)] + rest;
    assert list[1..][1..] == [ValNode(x)] + rest;
  }

  /** Condition::operator(): true only for a predicate whose value is the boolean true. */
  class Condition {
    var predicate_: Option<Predicate>
    var lastResult: Value

    constructor (p: Option<Predicate>)
      ensures predicate_ == p
    {
      predicate_, lastResult := p, Null;
    }

    method Check(m: Machine) returns (holds: bool)
      requires predicate_.Some? ==> WellFormed(predicate_.value)
      modifies this
      ensures old(predicate_).None? ==> !holds && predicate_ == None && lastResult == old(lastResult)
      ensures old(predicate_).Some? ==> predicate_ == Some(Normalise(old(predicate_).value, m))
      ensures old(predicate_).Some? ==>
                var r := EvalStack(m, Encode(predicate_.value, m, true));
                r.Done? && lastResult == r.value && (holds <==> lastResult == Bool(true))
      ensures old(predicate_).Some? && !HasShortcut(predicate_.value, m) ==> lastResult == Meaning(predicate_.value, m, true)
      ensures old(predicate_).Some? && StandardOps(m.ops) && Denotes(old(predicate_).value, m, true).Some? ==>
                && predicate_ == old(predicate_)
                && Some(lastResult) == Denotes(predicate_.value, m, true)
                && (holds <==> Denotes(predicate_.value, m, true) == Some(Bool(true)))
    {
      if predicate_.None? {
        return false;
      }
      if StandardOps(m.ops) && Denotes(predicate_.value, m, true).Some? {
        DenotationNormal(predicate_.value, m, true);
        DenotationKept(predicate_.value, m, true, []);
      }
      var stack := new Stack();
      var q := Prep(stack, predicate_.value, m, true);
      predicate_ := Some(q);
      assert stack.nodes == Encode(q, m, true) == Encode(q, m, true) + [];
      CompileCorrect(q, m, true, []);
      var res := EvalStack(m, stack.nodes);
      lastResult := res.value;
      holds := lastResult == Bool(true);
    }
  }
}
